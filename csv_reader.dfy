/** Reading products out of the lines of a CSV file, skipping malformed rows. */
module CsvReader {
  import opened Wrappers
  import opened Exceptions
  import opened Text
  import opened Decimal
  import opened Products

  const ExpectedColumns: nat := 4

  /** What opening and reading the input file gives: its lines, or why they cannot be had. */
  datatype Source = Missing | Unreadable(message: string) | Lines(lines: seq<string>)

  /** The warning printed for a skipped row: its physical line number and the exception. */
  datatype Warning = Warning(lineNumber: nat, error: Exception)

  datatype Extracted = Extracted(products: seq<Product>, warnings: seq<Warning>)

  /** `validateFilePath`: a null or blank path is an `IllegalArgumentException`. */
  function ValidateFilePath(filePath: Nullable<string>): (o: Outcome<Exception>)
    ensures o.Fail? <==> filePath.Null? || IsBlank(filePath.value)
    ensures o.Fail? ==> o.error == IllegalArgument("File path cannot be null or empty")
  {
    if filePath.Null? || Trim(filePath.value) == [] then Fail(IllegalArgument("File path cannot be null or empty"))
    else Pass
  }

  /** `validateProductData`: the first failing check, in the order id, name, category, price. */
  function ValidateProductData(productId: string, name: string, category: string, price: real, lineNumber: nat)
    : (o: Outcome<Exception>)
    ensures o.Pass? <==> productId != [] && name != [] && category != [] && price >= 0.0
    ensures o.Fail? ==> o.error.IllegalArgument?
  {
    var n := NatToString(lineNumber);
    if productId == [] then Fail(IllegalArgument("Product ID cannot be empty in line " + n))
    else if name == [] then Fail(IllegalArgument("Product name cannot be empty in line " + n))
    else if category == [] then Fail(IllegalArgument("Product category cannot be empty in line " + n))
    else if price < 0.0 then Fail(IllegalArgument("Product price cannot be negative in line " + n))
    else Pass
  }

  /** The message of the `NumberFormatException` that `Double.parseDouble` throws. */
  function NumberFormatMessage(s: string): string {
    if s == [] then "empty String" else "For input string: \"" + s + "\""
  }

  /** The checks of `parseProductFromLine` once the line is split into trimmed columns. */
  function ParseColumns(columns: seq<string>, lineNumber: nat): (r: Result<Record, Exception>)
    ensures r.Success? ==> r.value.priceRange == NonNull("")
    ensures r.Success? ==>
      (r.value.productId.NonNull? && r.value.productId.value != [] &&
       r.value.name.NonNull? && r.value.name.value != [] &&
       r.value.category.NonNull? && r.value.category.value != [] && r.value.price >= 0.0)
    ensures r.Failure? ==> r.error.IllegalArgument?
  {
    if |columns| < ExpectedColumns then
      Failure(IllegalArgument("Insufficient columns: expected 4 but found " + IntToString(|columns|)))
    else
      match ParseDecimal(columns[2])
      case None =>
        Failure(IllegalArgument("Invalid price format in line " + NatToString(lineNumber) + ": "
                                + NumberFormatMessage(columns[2])))
      case Some(price) =>
        match ValidateProductData(columns[0], columns[1], columns[3], price, lineNumber)
        case Fail(e) => Failure(e)
        case Pass => Success(Record(NonNull(columns[0]), NonNull(columns[1]), price, NonNull(columns[3]), NonNull("")))
  }

  /** `parseProductFromLine` on values: the product of one trimmed, non-header line, or the exception it throws. */
  function ParseLine(line: string, lineNumber: nat): Result<Record, Exception> {
    ParseColumns(Columns(line), lineNumber)
  }

  /** A row is accepted exactly when it has four columns, a price that parses and passes validation; the fields are the columns. */
  lemma ParseColumnsAccepts(columns: seq<string>, lineNumber: nat)
    ensures ParseColumns(columns, lineNumber).Success? <==>
      |columns| >= 4 && ParseDecimal(columns[2]).Some? &&
      columns[0] != [] && columns[1] != [] && columns[3] != [] && ParseDecimal(columns[2]).value >= 0.0
    ensures ParseColumns(columns, lineNumber).Success? ==>
      ParseColumns(columns, lineNumber).value ==
        Record(NonNull(columns[0]), NonNull(columns[1]), ParseDecimal(columns[2]).value, NonNull(columns[3]), NonNull(""))
  {
  }

  /** Columns after the fourth play no part. */
  lemma ParseColumnsIgnoresExtra(columns: seq<string>, lineNumber: nat)
    requires |columns| >= 4
    ensures ParseColumns(columns, lineNumber) == ParseColumns(columns[..4], lineNumber)
  {
    var first := columns[..4];
    assert first[0] == columns[0] && first[1] == columns[1] && first[2] == columns[2] && first[3] == columns[3];
  }

  /** `parseProductFromLine`: split, trim the columns in place, check them and build the product. */
  method ParseProductFromLine(line: string, lineNumber: nat) returns (r: Result<Product, Exception>)
    ensures r.Success? ==> fresh(r.value) && ParseLine(line, lineNumber) == Success(r.value.View())
    ensures r.Failure? ==> ParseLine(line, lineNumber) == Failure(r.error)
  {
    var columns := SplitAndTrim(line);

    if columns.Length < ExpectedColumns {
      return Failure(IllegalArgument("Insufficient columns: expected 4 but found " + IntToString(columns.Length)));
    }
    var productId := columns[0];
    var name := columns[1];
    var priceStr := columns[2];
    var category := columns[3];

    var parsed := ParseDecimal(priceStr);
    if parsed.None? {
      return Failure(IllegalArgument("Invalid price format in line " + NatToString(lineNumber) + ": "
                                     + NumberFormatMessage(priceStr)));
    }
    var price := parsed.value;
    var valid := ValidateProductData(productId, name, category, price, lineNumber);
    if valid.Fail? {
      return Failure(valid.error);
    }
    var product := new Product(NonNull(productId), NonNull(name), price, NonNull(category));
    return Success(product);
  }

  // ---------------------------------------------------------------------------
  // The line loop of readProducts, as a specification over the lines read so far

  datatype LineOutcome = Skipped | Accepted(record: Record) | Rejected(warning: Warning)

  /** What the loop does with the physical line numbered `lineNumber` (counting from 1). */
  function ClassifyLine(line: string, lineNumber: nat): LineOutcome {
    var trimmed := Trim(line);
    if trimmed == [] then Skipped
    else if lineNumber == 1 then Skipped
    else
      match ParseLine(trimmed, lineNumber)
      case Success(record) => Accepted(record)
      case Failure(e) => Rejected(Warning(lineNumber, e))
  }

  /** `classify` applied to every line of a file, line `i + 1` at index `i`. */
  function Numbered<T>(classify: (string, nat) -> T, lines: seq<string>): (r: seq<T>)
    ensures |r| == |lines|
  {
    if lines == [] then []
    else Numbered(classify, lines[..|lines| - 1]) + [classify(lines[|lines| - 1], |lines|)]
  }

  lemma {:induction false} NumberedAt<T>(classify: (string, nat) -> T, lines: seq<string>, i: nat)
    requires i < |lines|
    ensures Numbered(classify, lines)[i] == classify(lines[i], i + 1)
  {
    var n := |lines| - 1;
    if i < n {
      NumberedAt(classify, lines[..n], i);
    }
  }

  /** The outcome of every line of the file, line `i + 1` at index `i`. */
  function Outcomes(lines: seq<string>): (r: seq<LineOutcome>)
    ensures |r| == |lines|
  {
    Numbered(ClassifyLine, lines)
  }

  lemma OutcomeAt(lines: seq<string>, i: nat)
    requires i < |lines|
    ensures Outcomes(lines)[i] == ClassifyLine(lines[i], i + 1)
  {
    NumberedAt(ClassifyLine, lines, i);
  }

  /** The record an outcome contributes: one for an accepted line, none otherwise. */
  function RecordOf(outcome: LineOutcome): seq<Record> {
    if outcome.Accepted? then [outcome.record] else []
  }

  /** The warning an outcome contributes: one for a rejected line, none otherwise. */
  function WarningOf(outcome: LineOutcome): seq<Warning> {
    if outcome.Rejected? then [outcome.warning] else []
  }

  /** The records of the accepted lines, in file order. */
  function AcceptedRecords(outcomes: seq<LineOutcome>): seq<Record> {
    if outcomes == [] then []
    else AcceptedRecords(outcomes[..|outcomes| - 1]) + RecordOf(outcomes[|outcomes| - 1])
  }

  /** The warnings of the rejected lines, in file order. */
  function Warnings(outcomes: seq<LineOutcome>): seq<Warning> {
    if outcomes == [] then []
    else Warnings(outcomes[..|outcomes| - 1]) + WarningOf(outcomes[|outcomes| - 1])
  }

  lemma PrefixStep(outcomes: seq<LineOutcome>, n: nat)
    requires n < |outcomes|
    ensures AcceptedRecords(outcomes[..n + 1]) == AcceptedRecords(outcomes[..n]) + RecordOf(outcomes[n])
    ensures Warnings(outcomes[..n + 1]) == Warnings(outcomes[..n]) + WarningOf(outcomes[n])
  {
    assert outcomes[..n + 1][..n] == outcomes[..n];
  }

  /** The products `readProducts` returns for the given lines, as values. */
  function ReadRecords(lines: seq<string>): seq<Record> {
    AcceptedRecords(Outcomes(lines))
  }

  /** The warnings `readProducts` prints for the given lines. */
  function ReadWarnings(lines: seq<string>): seq<Warning> {
    Warnings(Outcomes(lines))
  }

  /** The number of non-blank lines after the first: the data rows of the file. */
  function DataRows(lines: seq<string>): nat {
    if lines == [] then 0
    else DataRows(lines[..|lines| - 1]) + if |lines| >= 2 && !IsBlank(lines[|lines| - 1]) then 1 else 0
  }

  /** A line is passed over exactly when it is blank or is line 1; a rejected line's warning carries its number. */
  lemma ClassifyShape(line: string, lineNumber: nat)
    ensures ClassifyLine(line, lineNumber).Skipped? <==> IsBlank(line) || lineNumber == 1
    ensures ClassifyLine(line, lineNumber).Rejected? ==> ClassifyLine(line, lineNumber).warning.lineNumber == lineNumber
  {
  }

  /** A non-blank line after the first is accepted or rejected as its parse says. */
  lemma ClassifyParsed(line: string, lineNumber: nat, parsed: Result<Record, Exception>)
    requires Trim(line) != [] && lineNumber != 1
    requires ParseLine(Trim(line), lineNumber) == parsed
    ensures parsed.Success? ==> ClassifyLine(line, lineNumber) == Accepted(parsed.value)
    ensures parsed.Failure? ==> ClassifyLine(line, lineNumber) == Rejected(Warning(lineNumber, parsed.error))
  {
  }

  lemma {:induction false} CountOutcomes(outcomes: seq<LineOutcome>, lines: seq<string>)
    requires |outcomes| == |lines|
    requires forall i :: 0 <= i < |lines| ==> (outcomes[i].Skipped? <==> i == 0 || IsBlank(lines[i]))
    ensures |AcceptedRecords(outcomes)| + |Warnings(outcomes)| == DataRows(lines)
  {
    if outcomes != [] {
      var n := |outcomes| - 1;
      CountOutcomes(outcomes[..n], lines[..n]);
    }
  }

  /** Every data row is either accepted or warned about: none is lost, none counted twice. */
  lemma EveryDataRowAccountedFor(lines: seq<string>)
    ensures |ReadRecords(lines)| + |ReadWarnings(lines)| == DataRows(lines)
  {
    var outcomes := Outcomes(lines);
    forall i | 0 <= i < |lines| ensures outcomes[i].Skipped? <==> i == 0 || IsBlank(lines[i]) {
      OutcomeAt(lines, i);
      ClassifyShape(lines[i], i + 1);
    }
    CountOutcomes(outcomes, lines);
  }

  /** Each warning comes from the outcome at its own line, and warnings are in increasing line order. */
  lemma {:induction false} WarningsInLineOrder(outcomes: seq<LineOutcome>)
    requires forall i :: 0 <= i < |outcomes| && outcomes[i].Rejected? ==> outcomes[i].warning.lineNumber == i + 1
    ensures forall j :: 0 <= j < |Warnings(outcomes)| ==>
      1 <= Warnings(outcomes)[j].lineNumber <= |outcomes| &&
      outcomes[Warnings(outcomes)[j].lineNumber - 1] == Rejected(Warnings(outcomes)[j])
    ensures forall i, j :: 0 <= i < j < |Warnings(outcomes)| ==>
      Warnings(outcomes)[i].lineNumber < Warnings(outcomes)[j].lineNumber
  {
    if outcomes != [] {
      var n := |outcomes| - 1;
      WarningsInLineOrder(outcomes[..n]);
    }
  }

  /** Every accepted record is the record of some accepted line. */
  lemma {:induction false} RecordsFromLines(outcomes: seq<LineOutcome>)
    ensures forall r :: r in AcceptedRecords(outcomes) ==> Accepted(r) in outcomes
  {
    if outcomes != [] {
      var n := |outcomes| - 1;
      RecordsFromLines(outcomes[..n]);
      assert outcomes == outcomes[..n] + [outcomes[n]];
    }
  }

  /** `w` names a non-blank line after the first whose parse failed with exactly `w`'s exception. */
  predicate NamesRejectedLine(lines: seq<string>, w: Warning) {
    2 <= w.lineNumber <= |lines| && !IsBlank(lines[w.lineNumber - 1]) &&
    ParseLine(Trim(lines[w.lineNumber - 1]), w.lineNumber) == Failure(w.error)
  }

  /** Each warning names the line it rejects, and the line numbers strictly increase. */
  lemma WarningsNameTheirLines(lines: seq<string>)
    ensures forall j :: 0 <= j < |ReadWarnings(lines)| ==> NamesRejectedLine(lines, ReadWarnings(lines)[j])
    ensures forall i, j :: 0 <= i < j < |ReadWarnings(lines)| ==>
      ReadWarnings(lines)[i].lineNumber < ReadWarnings(lines)[j].lineNumber
  {
    var outcomes := Outcomes(lines);
    var ws := ReadWarnings(lines);
    RejectionsNumbered(lines);
    WarningsInLineOrder(outcomes);
    assert ws == Warnings(outcomes);
    forall j | 0 <= j < |ws| ensures NamesRejectedLine(lines, ws[j]) {
      var w := ws[j];
      var i: nat := w.lineNumber - 1;
      assert outcomes[i] == Rejected(w);
      RejectedAt(lines, i, w);
    }
  }

  /** The outcome at index `i` that is a rejection carries line number `i + 1`. */
  lemma RejectionsNumbered(lines: seq<string>)
    ensures forall i :: 0 <= i < |Outcomes(lines)| && Outcomes(lines)[i].Rejected? ==>
      Outcomes(lines)[i].warning.lineNumber == i + 1
  {
    var outcomes := Outcomes(lines);
    forall i | 0 <= i < |outcomes| && outcomes[i].Rejected? ensures outcomes[i].warning.lineNumber == i + 1 {
      RejectedAt(lines, i, outcomes[i].warning);
    }
  }

  /** The warning of a rejected line carries that line's number and its parse failure. */
  lemma RejectedAt(lines: seq<string>, i: nat, w: Warning)
    requires i < |lines| && Outcomes(lines)[i] == Rejected(w)
    ensures w.lineNumber == i + 1 && i != 0 && !IsBlank(lines[i])
    ensures ParseLine(Trim(lines[i]), i + 1) == Failure(w.error)
    ensures NamesRejectedLine(lines, w)
  {
    OutcomeAt(lines, i);
    var parsed := ParseLine(Trim(lines[i]), i + 1);
    assert parsed.Failure? && w == Warning(i + 1, parsed.error);
  }

  /** Every record read has its four fields set and not empty, a non-negative price and the range "". */
  lemma ReadRecordsWellFormed(lines: seq<string>)
    ensures forall r :: r in ReadRecords(lines) ==>
      r.productId.NonNull? && r.productId.value != [] && r.name.NonNull? && r.name.value != [] &&
      r.category.NonNull? && r.category.value != [] && r.price >= 0.0 && r.priceRange == NonNull("")
  {
    var outcomes := Outcomes(lines);
    RecordsFromLines(outcomes);
    forall r | r in ReadRecords(lines)
      ensures r.productId.NonNull? && r.productId.value != [] && r.name.NonNull? && r.name.value != [] &&
              r.category.NonNull? && r.category.value != [] && r.price >= 0.0 && r.priceRange == NonNull("")
    {
      var i :| 0 <= i < |outcomes| && outcomes[i] == Accepted(r);
      AcceptedAt(lines, i, r);
    }
  }

  /** The record of an accepted line is that line's successful parse. */
  lemma AcceptedAt(lines: seq<string>, i: nat, r: Record)
    requires i < |lines| && Outcomes(lines)[i] == Accepted(r)
    ensures i != 0 && !IsBlank(lines[i]) && ParseLine(Trim(lines[i]), i + 1) == Success(r)
  {
    OutcomeAt(lines, i);
    ClassifyShape(lines[i], i + 1);
  }

  /** What is on physical line 1 never matters: it is the header even when it is blank. */
  lemma FirstLineNeverRead(lines: seq<string>, other: seq<string>)
    requires |lines| == |other|
    requires forall i :: 1 <= i < |lines| ==> lines[i] == other[i]
    ensures ReadRecords(lines) == ReadRecords(other)
    ensures ReadWarnings(lines) == ReadWarnings(other)
  {
    forall i | 0 <= i < |lines| ensures Outcomes(lines)[i] == Outcomes(other)[i] {
      OutcomeAt(lines, i);
      OutcomeAt(other, i);
      if i == 0 {
        ClassifyShape(lines[0], 1);
        ClassifyShape(other[0], 1);
      }
    }
    assert Outcomes(lines) == Outcomes(other);
  }

  /** A non-blank line after the first with no comma has one column, too few for a product. */
  lemma OneColumnLineRejected(line: string, lineNumber: nat)
    requires line != [] && IsTrimFixed(line) && ',' !in line && lineNumber != 1
    ensures ClassifyLine(line, lineNumber) ==
      Rejected(Warning(lineNumber, IllegalArgument("Insufficient columns: expected 4 but found " + IntToString(1))))
  {
    assert Trim(line) == line;
    SplitShape(line, ',');
    assert Columns(line) == [line];
  }

  /** The records and warnings of a file of two lines. */
  lemma TwoOutcomes(first: LineOutcome, second: LineOutcome)
    ensures AcceptedRecords([first, second]) == RecordOf(first) + RecordOf(second)
    ensures Warnings([first, second]) == WarningOf(first) + WarningOf(second)
  {
    var both := [first, second];
    assert both[..1] == [first];
    assert [first][..0] == [];
    assert AcceptedRecords([first]) == RecordOf(first);
    assert Warnings([first]) == WarningOf(first);
    assert AcceptedRecords(both) == AcceptedRecords(both[..1]) + RecordOf(both[1]);
    assert Warnings(both) == Warnings(both[..1]) + WarningOf(both[1]);
  }

  /** A header and one data line without commas: the data line is rejected with a warning, and nothing is read. */
  lemma ShortRowRejected(header: string, row: string)
    requires row != [] && IsTrimFixed(row) && ',' !in row
    ensures |ReadWarnings([header, row])| == 1 && ReadWarnings([header, row])[0].lineNumber == 2
    ensures ReadRecords([header, row]) == []
  {
    var first := ClassifyLine(header, 1);
    var second := ClassifyLine(row, 2);
    NumberedTwo(ClassifyLine, header, row);
    assert Outcomes([header, row]) == [first, second];
    ClassifyShape(header, 1);
    assert first == Skipped;
    OneColumnLineRejected(row, 2);
    TwoOutcomes(first, second);
  }

  /** A two-line file: line 1 and line 2. */
  lemma NumberedTwo<T>(classify: (string, nat) -> T, a: string, b: string)
    ensures Numbered(classify, [a, b]) == [classify(a, 1), classify(b, 2)]
  {
    assert [a, b][..1] == [a];
    assert [a][..0] == [];
  }

  /** The exception `readProducts` throws before its line loop, if any. */
  function OpenError(filePath: Nullable<string>, source: Source): (e: Option<Exception>)
    ensures e.None? <==> ValidateFilePath(filePath).Pass? && source.Lines?
    ensures e.Some? ==> (e.value.IllegalArgument? <==> ValidateFilePath(filePath).Fail?)
    ensures e.Some? ==> (e.value.IllegalArgument? || e.value.IO?)
  {
    if ValidateFilePath(filePath).Fail? then Some(ValidateFilePath(filePath).error)
    else
      match source
      case Missing => Some(IO("Input file '" + filePath.value + "' not found. Please ensure the file exists."))
      case Unreadable(message) => Some(IO("Failed to read file: " + filePath.value + ". " + message))
      case Lines(_) => None
  }

  /**
   * `readProducts`: validate the path, then read line by line, counting every physical
   * line, skipping blank lines and line 1, and collecting products and warnings.
   */
  method ReadProducts(filePath: Nullable<string>, source: Source) returns (r: Result<Extracted, Exception>)
    ensures ValidateFilePath(filePath).Fail? ==> r == Failure(ValidateFilePath(filePath).error)
    ensures ValidateFilePath(filePath).Pass? && source.Missing? ==>
      r == Failure(IO("Input file '" + filePath.value + "' not found. Please ensure the file exists."))
    ensures ValidateFilePath(filePath).Pass? && source.Unreadable? ==>
      r == Failure(IO("Failed to read file: " + filePath.value + ". " + source.message))
    ensures ValidateFilePath(filePath).Pass? && source.Lines? ==>
      (r.Success? &&
       Views(r.value.products) == ReadRecords(source.lines) &&
       r.value.warnings == ReadWarnings(source.lines) &&
       forall p :: p in r.value.products ==> fresh(p))
    ensures r.Failure? <==> OpenError(filePath, source).Some?
    ensures r.Failure? ==> r.error == OpenError(filePath, source).value
  {
    var valid := ValidateFilePath(filePath);
    if valid.Fail? {
      return Failure(valid.error);
    }
    var path := filePath.value;
    match source
    case Missing =>
      return Failure(IO("Input file '" + path + "' not found. Please ensure the file exists."));
    case Unreadable(message) =>
      return Failure(IO("Failed to read file: " + path + ". " + message));
    case Lines(lines) =>
      var extracted := ReadLines(lines);
      return Success(extracted);
  }

  /** One turn of the line loop on line `i + 1`: trim it, pass over it, or parse it into a product or a warning. */
  method ReadLine(lines: seq<string>, i: nat) returns (outcome: LineOutcome, product: Product?)
    requires i < |lines|
    ensures outcome == Outcomes(lines)[i]
    ensures outcome.Accepted? ==> product != null && fresh(product) && product.View() == outcome.record
  {
    OutcomeAt(lines, i);
    var raw := lines[i];
    var lineNumber := i + 1;
    var line := Trim(raw);
    if line == [] {
      ClassifyShape(raw, lineNumber);
      return Skipped, null;
    }
    if lineNumber == 1 {
      return Skipped, null;
    }
    var parsed := ParseProductFromLine(line, lineNumber);
    match parsed
    case Success(p) =>
      ClassifyParsed(raw, lineNumber, Success(p.View()));
      return Accepted(p.View()), p;
    case Failure(e) =>
      ClassifyParsed(raw, lineNumber, Failure(e));
      return Rejected(Warning(lineNumber, e)), null;
  }

  /** The end of one turn of the line loop: keep the product of an accepted line, print the warning of a rejected one. */
  method Collect(products: seq<Product>, warnings: seq<Warning>, outcome: LineOutcome, product: Product?)
    returns (products': seq<Product>, warnings': seq<Warning>)
    requires outcome.Accepted? ==> product != null && product.View() == outcome.record
    ensures Views(products') == Views(products) + RecordOf(outcome)
    ensures warnings' == warnings + WarningOf(outcome)
    ensures products' == if outcome.Accepted? then products + [product] else products
  {
    products', warnings' := products, warnings;
    match outcome
    case Skipped =>
    case Accepted(_) =>
      ViewsSnoc(products, product);
      products' := products + [product];
    case Rejected(w) =>
      warnings' := warnings + [w];
  }

  /** One turn of the line loop: the line at index `i` joins the lines read so far. */
  method ReadStep(lines: seq<string>, i: nat, products: seq<Product>, warnings: seq<Warning>)
    returns (products': seq<Product>, warnings': seq<Warning>)
    requires i < |lines|
    requires Views(products) == AcceptedRecords(Outcomes(lines)[..i])
    requires warnings == Warnings(Outcomes(lines)[..i])
    ensures Views(products') == AcceptedRecords(Outcomes(lines)[..i + 1])
    ensures warnings' == Warnings(Outcomes(lines)[..i + 1])
    ensures forall p :: p in products' ==> p in products || fresh(p)
  {
    PrefixStep(Outcomes(lines), i);
    ghost var viewsBefore := Views(products);
    var outcome, product := ReadLine(lines, i);
    assert Views(products) == viewsBefore;
    products', warnings' := Collect(products, warnings, outcome, product);
  }

  /** The line loop of `readProducts` over the lines of a file that opened, counting every physical line. */
  method ReadLines(lines: seq<string>) returns (extracted: Extracted)
    ensures Views(extracted.products) == ReadRecords(lines)
    ensures extracted.warnings == ReadWarnings(lines)
    ensures forall p :: p in extracted.products ==> fresh(p)
  {
    var products: seq<Product> := [];
    var warnings: seq<Warning> := [];
    var lineNumber := 0;
    while lineNumber < |lines|
      invariant 0 <= lineNumber <= |lines|
      invariant Views(products) == AcceptedRecords(Outcomes(lines)[..lineNumber])
      invariant warnings == Warnings(Outcomes(lines)[..lineNumber])
      invariant forall p :: p in products ==> fresh(p)
    {
      products, warnings := ReadStep(lines, lineNumber, products, warnings);
      lineNumber := lineNumber + 1;
    }
    assert Outcomes(lines)[..|lines|] == Outcomes(lines);
    extracted := Extracted(products, warnings);
  }
}
