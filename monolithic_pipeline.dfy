/**
 * The single-class ETL pipeline of assignment 2: `extract` reads the non-blank lines as
 * rows of columns, `transform` applies the business rules row by row, `load` joins the
 * rows back into lines, and `runPipeline` prints the summary.
 */
module MonolithicEtl {
  import opened Wrappers
  import opened Exceptions
  import opened Text
  import opened Decimal
  import opened Products
  import opened DataTransformer
  import CsvReader
  import opened Reporting

  /** The header row `transform` puts in front of its output. */
  const OutputHeader: seq<string> := ["ProductID", "Name", "Price", "Category", "PriceRange"]

  // ---------------------------------------------------------------------------
  // Extract

  /** What `extract` gives: the rows, an `IOException`, or the end of the program by `System.exit`. */
  datatype Extraction = Rows(rows: seq<seq<string>>) | ExtractFailed(error: Exception) | SystemExit(status: int)

  /** The rows `extract` keeps: every non-blank line, trimmed and split into trimmed columns, in order. */
  function ExtractRows(lines: seq<string>): (rows: seq<seq<string>>)
    ensures |rows| <= |lines|
  {
    if lines == [] then []
    else
      var last := lines[|lines| - 1];
      ExtractRows(lines[..|lines| - 1]) + (if IsBlank(last) then [] else [Columns(Trim(last))])
  }

  /** The line loop of `extract`. */
  method ExtractLines(lines: seq<string>) returns (data: seq<seq<string>>)
    ensures data == ExtractRows(lines)
  {
    data := [];
    for i := 0 to |lines|
      invariant data == ExtractRows(lines[..i])
    {
      assert lines[..i + 1][..i] == lines[..i];
      var line := Trim(lines[i]);
      if line != [] {
        var columns := SplitAndTrim(line);
        data := data + [columns[..]];
      }
    }
    assert lines[..|lines|] == lines;
  }

  /** `extract`: a missing input file ends the program with status 1; a read error is an `IOException`. */
  method Extract(source: CsvReader.Source) returns (r: Extraction)
    ensures source.Missing? ==> r == SystemExit(1)
    ensures source.Unreadable? ==> r == ExtractFailed(IO(source.message))
    ensures source.Lines? ==> r == Rows(ExtractRows(source.lines))
  {
    match source
    case Missing =>
      return SystemExit(1);
    case Unreadable(message) =>
      return ExtractFailed(IO(message));
    case Lines(lines) =>
      var rows := ExtractLines(lines);
      return Rows(rows);
  }

  /** Every extracted column is trimmed and holds no comma; every extracted row has a non-blank line behind it. */
  lemma {:induction false} ExtractedColumnsAreClean(lines: seq<string>)
    ensures forall j, k :: 0 <= j < |ExtractRows(lines)| && 0 <= k < |ExtractRows(lines)[j]| ==>
      IsTrimFixed(ExtractRows(lines)[j][k]) && ',' !in ExtractRows(lines)[j][k]
  {
    if lines != [] {
      ExtractedColumnsAreClean(lines[..|lines| - 1]);
    }
  }

  /** The positions of the non-blank lines among the first `n`. */
  function NonBlankIndices(lines: seq<string>, n: nat): set<nat>
    requires n <= |lines|
  {
    set k: nat | k < n && !IsBlank(lines[k])
  }

  /** How many of the first `n` lines are not blank. */
  function NonBlankCount(lines: seq<string>, n: nat): nat
    requires n <= |lines|
  {
    if n == 0 then 0 else NonBlankCount(lines, n - 1) + (if IsBlank(lines[n - 1]) then 0 else 1)
  }

  lemma {:induction false} ExtractRowsCount(lines: seq<string>, n: nat)
    requires n <= |lines|
    ensures |ExtractRows(lines[..n])| == NonBlankCount(lines, n)
  {
    if n > 0 {
      ExtractRowsCount(lines, n - 1);
      assert lines[..n][..n - 1] == lines[..n - 1];
    }
  }

  lemma {:induction false} NonBlankCountIsIndices(lines: seq<string>, n: nat)
    requires n <= |lines|
    ensures NonBlankCount(lines, n) == |NonBlankIndices(lines, n)|
  {
    if n > 0 {
      NonBlankCountIsIndices(lines, n - 1);
      var before := NonBlankIndices(lines, n - 1);
      var after := NonBlankIndices(lines, n);
      var last: nat := n - 1;
      assert last !in before;
      if IsBlank(lines[last]) {
        assert after == before;
      } else {
        assert after == before + {last};
        assert |before + {last}| == |before| + 1;
      }
    }
  }

  /** Blank lines are dropped and every other line gives exactly one row. */
  lemma ExtractKeepsNonBlankLines(lines: seq<string>)
    ensures |ExtractRows(lines)| == |NonBlankIndices(lines, |lines|)|
  {
    ExtractRowsCount(lines, |lines|);
    NonBlankCountIsIndices(lines, |lines|);
    assert lines[..|lines|] == lines;
  }

  // ---------------------------------------------------------------------------
  // Transform

  /** The record a row stands for in `DataTransformer`: the four columns and the parsed price. */
  function RowRecord(row: seq<string>, price: real): Record
    requires |row| >= 4
  {
    Record(NonNull(row[0]), NonNull(row[1]), price, NonNull(row[3]), NonNull(""))
  }

  /** `String.format("%.2f", price)`: rounded half-up to two decimals and printed. */
  function FormatPrice(price: real): string {
    FormatCents(RoundHalfUpCents(price))
  }

  /** A transformed record as a five-column output row. */
  function RowOf(r: Record): (row: seq<string>)
    requires r.productId.NonNull? && r.name.NonNull? && r.category.NonNull? && r.priceRange.NonNull?
  {
    [r.productId.value, r.name.value, FormatPrice(r.price), r.category.value, r.priceRange.value]
  }

  /**
   * What `transformRow` computes: nothing is validated but the price, which must parse;
   * the rest is the rule chain of `DataTransformer` written out as a row.
   */
  function TransformedRow(row: seq<string>): (r: Result<seq<string>, Exception>)
    requires |row| >= 4
    ensures r.Failure? <==> ParseDecimal(row[2]).None?
    ensures r.Failure? ==> r.error == NumberFormat(CsvReader.NumberFormatMessage(row[2]))
    ensures r.Success? ==> |r.value| == 5 && r.value[0] == row[0]
  {
    match ParseDecimal(row[2])
    case None => Failure(NumberFormat(CsvReader.NumberFormatMessage(row[2])))
    case Some(price) =>
      var t := TransformRecord(RowRecord(row, price));
      Success(RowOf(t.value))
  }

  /**
   * `transformRow`, step by step on its locals. Its result is the split implementation's
   * `transformProduct` applied to the same columns.
   */
  method TransformRow(row: seq<string>) returns (r: Result<seq<string>, Exception>)
    requires |row| >= 4
    ensures r == TransformedRow(row)
  {
    var productId := row[0];
    var name := row[1];
    var priceStr := row[2];
    var category := row[3];
    var parsed := ParseDecimal(priceStr);
    if parsed.None? {
      return Failure(NumberFormat(CsvReader.NumberFormatMessage(priceStr)));
    }
    var price := parsed.value;
    ghost var t := TransformRecord(RowRecord(row, price)).value;
    name := ToUpper(name);
    if category == Electronics {
      price := price * (1.0 - DiscountRate);
    }
    assert price == DiscountedPrice(NonNull(row[3]), parsed.value);
    price := RoundToTwoDecimals(price);
    assert price == t.price;
    if price > PremiumThreshold && row[3] == Electronics {
      category := PremiumElectronics;
    }
    assert NonNull(category) == t.category;
    var priceRange := DeterminePriceRange(price);
    var formattedPrice := FormatPrice(price);
    assert [productId, name, formattedPrice, category, priceRange] == RowOf(t);
    return Success([productId, name, formattedPrice, category, priceRange]);
  }

  /** The cents of the price `transformRow` computes: the parsed price, discounted for "Electronics", rounded half-up. */
  function RowCents(row: seq<string>): int
    requires |row| >= 4 && ParseDecimal(row[2]).Some?
  {
    RoundHalfUpCents(DiscountedPrice(NonNull(row[3]), ParseDecimal(row[2]).value))
  }

  /** The output row of `transformRow`, column by column. */
  lemma TransformedRowIs(row: seq<string>)
    requires |row| >= 4 && ParseDecimal(row[2]).Some?
    ensures var price := RowCents(row) as real / 100.0;
            TransformedRow(row).value ==
              [row[0], ToUpper(row[1]), FormatCents(RowCents(row)),
               if row[3] == Electronics && price > PremiumThreshold then PremiumElectronics else row[3],
               DeterminePriceRange(price)]
  {
    var p := ParseDecimal(row[2]).value;
    var t := TransformRecord(RowRecord(row, p)).value;
    var c := RowCents(row);
    assert t.price == c as real / 100.0;
    RoundHalfUpExact(c);
    assert FormatPrice(t.price) == FormatCents(c);
    assert TransformedRow(row).value == RowOf(t);
  }

  /**
   * The columns of a transformed row: the id as it was, the name upper-cased, the rounded
   * price with two decimals that reads back exactly, the category, recategorized only for
   * expensive "Electronics", and the range of the rounded price.
   */
  lemma TransformedRowColumns(row: seq<string>)
    requires |row| >= 4 && ParseDecimal(row[2]).Some?
    ensures var out := TransformedRow(row).value;
            var price := RoundToTwoDecimals(DiscountedPrice(NonNull(row[3]), ParseDecimal(row[2]).value));
            && out[1] == ToUpper(row[1])
            && ParseDecimal(out[2]) == Some(price)
            && out[3] == (if row[3] == Electronics && price > PremiumThreshold then PremiumElectronics else row[3])
            && out[4] == DeterminePriceRange(price)
  {
    var out := TransformedRow(row).value;
    TransformedRowIs(row);
    RowPrice(row);
    ReadsBackAs(out[2], RowCents(row), RoundToTwoDecimals(DiscountedPrice(NonNull(row[3]), ParseDecimal(row[2]).value)));
  }

  /** A price printed from `c` cents reads back as `c / 100`. */
  lemma ReadsBackAs(printed: string, c: int, price: real)
    requires printed == FormatCents(c) && price == c as real / 100.0
    ensures ParseDecimal(printed) == Some(price)
  {
    ParseFormatCents(c);
  }

  /** The rounded price as a number of cents. */
  lemma RowPrice(row: seq<string>)
    requires |row| >= 4 && ParseDecimal(row[2]).Some?
    ensures RoundToTwoDecimals(DiscountedPrice(NonNull(row[3]), ParseDecimal(row[2]).value)) == RowCents(row) as real / 100.0
  {
  }

  /**
   * `transformRow` checks neither empty columns nor the sign of the price: columns the
   * split reader rejects are transformed here.
   */
  lemma TransformRowSkipsValidation(row: seq<string>, lineNumber: nat)
    requires |row| >= 4 && ParseDecimal(row[2]).Some?
    requires row[0] == [] || row[1] == [] || row[3] == [] || ParseDecimal(row[2]).value < 0.0
    ensures TransformedRow(row).Success?
    ensures CsvReader.ParseColumns(row, lineNumber).Failure?
  {
    CsvReader.ParseColumnsAccepts(row, lineNumber);
  }

  /** Why `transform` leaves out a row, citing its index among the non-blank rows. */
  datatype RowWarning = Malformed(index: nat) | Failed(index: nat, error: Exception)

  datatype RowOutcome = HeaderRow | Kept(row: seq<string>) | Dropped(warning: RowWarning)

  /** One turn of the loop of `transform`, on row `i`. */
  function ClassifyRow(row: seq<string>, i: nat): RowOutcome {
    if i == 0 then HeaderRow
    else if |row| < 4 then Dropped(Malformed(i))
    else
      match TransformedRow(row)
      case Success(out) => Kept(out)
      case Failure(e) => Dropped(Failed(i, e))
  }

  function RowOutcomes(raw: seq<seq<string>>): (r: seq<RowOutcome>)
    ensures |r| == |raw|
  {
    if raw == [] then [] else RowOutcomes(raw[..|raw| - 1]) + [ClassifyRow(raw[|raw| - 1], |raw| - 1)]
  }

  lemma {:induction false} RowOutcomeAt(raw: seq<seq<string>>, i: nat)
    requires i < |raw|
    ensures RowOutcomes(raw)[i] == ClassifyRow(raw[i], i)
  {
    if i < |raw| - 1 {
      RowOutcomeAt(raw[..|raw| - 1], i);
    }
  }

  function KeptOf(outcome: RowOutcome): seq<seq<string>> {
    if outcome.Kept? then [outcome.row] else []
  }

  function DroppedOf(outcome: RowOutcome): seq<RowWarning> {
    if outcome.Dropped? then [outcome.warning] else []
  }

  function KeptRows(outcomes: seq<RowOutcome>): seq<seq<string>> {
    if outcomes == [] then []
    else KeptRows(outcomes[..|outcomes| - 1]) + KeptOf(outcomes[|outcomes| - 1])
  }

  function RowWarnings(outcomes: seq<RowOutcome>): seq<RowWarning> {
    if outcomes == [] then []
    else RowWarnings(outcomes[..|outcomes| - 1]) + DroppedOf(outcomes[|outcomes| - 1])
  }

  lemma RowPrefixStep(outcomes: seq<RowOutcome>, n: nat)
    requires n < |outcomes|
    ensures KeptRows(outcomes[..n + 1]) == KeptRows(outcomes[..n]) + KeptOf(outcomes[n])
    ensures RowWarnings(outcomes[..n + 1]) == RowWarnings(outcomes[..n]) + DroppedOf(outcomes[n])
  {
    assert outcomes[..n + 1][..n] == outcomes[..n];
  }

  /** The rows `transform` returns: nothing for no input, else the header and every kept row in order. */
  function TransformRows(raw: seq<seq<string>>): seq<seq<string>> {
    if raw == [] then [] else [OutputHeader] + KeptRows(RowOutcomes(raw))
  }

  /** The warnings `transform` prints, in order. */
  function TransformWarnings(raw: seq<seq<string>>): seq<RowWarning> {
    RowWarnings(RowOutcomes(raw))
  }

  /** One turn of the loop of `transform`: the column count check, then `transformRow` in its `try`. */
  method TransformAt(raw: seq<seq<string>>, i: nat) returns (outcome: RowOutcome)
    requires 1 <= i < |raw|
    ensures outcome == RowOutcomes(raw)[i]
  {
    RowOutcomeAt(raw, i);
    var row := raw[i];
    if |row| < 4 {
      return Dropped(Malformed(i));
    }
    var transformed := TransformRow(row);
    match transformed
    case Success(out) =>
      return Kept(out);
    case Failure(e) =>
      return Dropped(Failed(i, e));
  }

  /** `transform`: the header, then row 1 onwards, each kept or dropped with a warning. */
  method Transform(raw: seq<seq<string>>) returns (transformedData: seq<seq<string>>, warnings: seq<RowWarning>)
    ensures transformedData == TransformRows(raw)
    ensures warnings == TransformWarnings(raw)
  {
    transformedData := [];
    warnings := [];
    if raw == [] {
      return;
    }
    transformedData := [OutputHeader];
    ghost var outcomes := RowOutcomes(raw);
    RowOutcomeAt(raw, 0);
    RowPrefixStep(outcomes, 0);
    for i := 1 to |raw|
      invariant transformedData == [OutputHeader] + KeptRows(outcomes[..i])
      invariant warnings == RowWarnings(outcomes[..i])
    {
      transformedData, warnings := TransformStep(raw, i, transformedData, warnings);
    }
    assert outcomes[..|raw|] == outcomes;
  }

  /** One turn of the loop of `transform`: row `i` joins the output or the warnings. */
  method TransformStep(raw: seq<seq<string>>, i: nat, transformedData: seq<seq<string>>, warnings: seq<RowWarning>)
    returns (transformedData': seq<seq<string>>, warnings': seq<RowWarning>)
    requires 1 <= i < |raw|
    requires transformedData == [OutputHeader] + KeptRows(RowOutcomes(raw)[..i])
    requires warnings == RowWarnings(RowOutcomes(raw)[..i])
    ensures transformedData' == [OutputHeader] + KeptRows(RowOutcomes(raw)[..i + 1])
    ensures warnings' == RowWarnings(RowOutcomes(raw)[..i + 1])
  {
    RowPrefixStep(RowOutcomes(raw), i);
    var outcome := TransformAt(raw, i);
    transformedData', warnings' := transformedData, warnings;
    match outcome
    case HeaderRow =>
    case Kept(out) =>
      transformedData' := transformedData + [out];
    case Dropped(w) =>
      warnings' := warnings + [w];
  }

  /** Every row after the header is either in the output or has a warning, never both. */
  lemma {:induction false} CountRows(outcomes: seq<RowOutcome>)
    requires |outcomes| >= 1 && outcomes[0].HeaderRow?
    requires forall i :: 1 <= i < |outcomes| ==> !outcomes[i].HeaderRow?
    ensures |KeptRows(outcomes)| + |RowWarnings(outcomes)| == |outcomes| - 1
  {
    if |outcomes| > 1 {
      CountRows(outcomes[..|outcomes| - 1]);
    }
  }

  /** For input rows, the output holds the header and one row per input row that has no warning. */
  lemma TransformAccountsForEveryRow(raw: seq<seq<string>>)
    requires raw != []
    ensures |TransformRows(raw)| == 1 + |raw| - 1 - |TransformWarnings(raw)|
    ensures TransformRows(raw)[0] == OutputHeader
  {
    var outcomes := RowOutcomes(raw);
    RowOutcomeAt(raw, 0);
    forall i | 1 <= i < |outcomes| ensures !outcomes[i].HeaderRow? {
      RowOutcomeAt(raw, i);
    }
    CountRows(outcomes);
  }

  /** The warnings name rows 1 onwards in increasing order, each with its reason. */
  lemma {:induction false} RowWarningsInOrder(outcomes: seq<RowOutcome>)
    requires forall i :: 0 <= i < |outcomes| && outcomes[i].Dropped? ==> outcomes[i].warning.index == i
    ensures forall j :: 0 <= j < |RowWarnings(outcomes)| ==>
      var w := RowWarnings(outcomes)[j];
      w.index < |outcomes| && outcomes[w.index] == Dropped(w)
    ensures forall i, j :: 0 <= i < j < |RowWarnings(outcomes)| ==>
      RowWarnings(outcomes)[i].index < RowWarnings(outcomes)[j].index
  {
    if outcomes != [] {
      var n := |outcomes| - 1;
      RowWarningsInOrder(outcomes[..n]);
      assert forall i :: 0 <= i < n ==> outcomes[..n][i] == outcomes[i];
    }
  }

  /**
   * A warning cites a row index of at least 1, in increasing order: `Malformed` exactly for
   * a row with fewer than 4 columns, `Failed` for a price that does not parse.
   */
  lemma TransformWarningsCiteRows(raw: seq<seq<string>>)
    ensures forall j :: 0 <= j < |TransformWarnings(raw)| ==>
      var w := TransformWarnings(raw)[j];
      1 <= w.index < |raw| &&
      (w.Malformed? <==> |raw[w.index]| < 4) &&
      (w.Failed? ==> |raw[w.index]| >= 4 && TransformedRow(raw[w.index]) == Failure(w.error))
    ensures forall i, j :: 0 <= i < j < |TransformWarnings(raw)| ==>
      TransformWarnings(raw)[i].index < TransformWarnings(raw)[j].index
  {
    var outcomes := RowOutcomes(raw);
    forall i | 0 <= i < |outcomes| && outcomes[i].Dropped? ensures outcomes[i].warning.index == i {
      RowOutcomeAt(raw, i);
    }
    RowWarningsInOrder(outcomes);
    forall j | 0 <= j < |TransformWarnings(raw)|
      ensures var w := TransformWarnings(raw)[j];
              1 <= w.index < |raw| &&
              (w.Malformed? <==> |raw[w.index]| < 4) &&
              (w.Failed? ==> |raw[w.index]| >= 4 && TransformedRow(raw[w.index]) == Failure(w.error))
    {
      RowOutcomeAt(raw, TransformWarnings(raw)[j].index);
    }
  }

  // ---------------------------------------------------------------------------
  // Load

  /** The lines `load` prints: each row's columns joined with commas. */
  function OutputLines(rows: seq<seq<string>>): (lines: seq<string>)
    ensures |lines| == |rows|
    ensures forall k :: 0 <= k < |rows| ==> lines[k] == Join(rows[k], ',')
  {
    seq(|rows|, k requires 0 <= k < |rows| => Join(rows[k], ','))
  }

  /** `load`: opening the output file can fail with an `IOException`; otherwise one line per row. */
  method Load(rows: seq<seq<string>>, destination: Destination) returns (r: Result<seq<string>, Exception>)
    ensures destination.Unwritable? ==> r == Failure(IO(destination.message))
    ensures destination.Writable? ==> r == Success(OutputLines(rows))
  {
    if destination.Unwritable? {
      return Failure(IO(destination.message));
    }
    var written: seq<string> := [];
    for i := 0 to |rows|
      invariant written == OutputLines(rows[..i])
    {
      written := written + [Join(rows[i], ',')];
    }
    assert rows[..|rows|] == rows;
    return Success(written);
  }

  /** A row that reads back as itself from its line: clean columns, and a last column that is not empty. */
  predicate CleanRow(row: seq<string>) {
    && |row| >= 1 && row[|row| - 1] != []
    && forall k :: 0 <= k < |row| ==> IsTrimFixed(row[k]) && ',' !in row[k]
  }

  /** The line of a clean row is not blank and reads back as the same columns. */
  lemma CleanRowRoundTrip(row: seq<string>)
    requires CleanRow(row)
    ensures !IsBlank(Join(row, ',')) && Columns(Trim(Join(row, ','))) == row
  {
    var line := Join(row, ',');
    JoinTrimFixed(row, ',');
    assert !IsTrimmed(line[0]);
    assert Trim(line) == line;
    ColumnsJoin(row);
  }

  /** Round trip: extracting the lines that `load` writes gives back clean rows unchanged. */
  lemma {:induction false} LoadThenExtract(rows: seq<seq<string>>)
    requires forall j :: 0 <= j < |rows| ==> CleanRow(rows[j])
    ensures ExtractRows(OutputLines(rows)) == rows
  {
    if rows != [] {
      var n := |rows| - 1;
      var front := rows[..n];
      var line := Join(rows[n], ',');
      assert forall j :: 0 <= j < |front| ==> front[j] == rows[j];
      LoadThenExtract(front);
      OutputLinesSnoc(rows);
      CleanRowRoundTrip(rows[n]);
      ExtractRowsSnoc(OutputLines(front), line);
      assert ExtractRows(OutputLines(rows)) == front + [rows[n]];
      LastSplit(rows);
    }
  }

  /** The lines of all rows are the lines of all but the last, then the last one's. */
  lemma OutputLinesSnoc(rows: seq<seq<string>>)
    requires rows != []
    ensures OutputLines(rows) == OutputLines(rows[..|rows| - 1]) + [Join(rows[|rows| - 1], ',')]
  {
    var n := |rows| - 1;
    var both := OutputLines(rows[..n]) + [Join(rows[n], ',')];
    forall k | 0 <= k < |rows| ensures OutputLines(rows)[k] == both[k] {
      if k < n {
        assert rows[..n][k] == rows[k];
      }
    }
  }

  /** Extracting one more line adds its row unless it is blank. */
  lemma ExtractRowsSnoc(lines: seq<string>, line: string)
    ensures ExtractRows(lines + [line]) == ExtractRows(lines) + (if IsBlank(line) then [] else [Columns(Trim(line))])
  {
    assert (lines + [line])[..|lines|] == lines;
  }

  lemma LastSplit<T>(s: seq<T>)
    requires s != []
    ensures s[..|s| - 1] + [s[|s| - 1]] == s
  {
  }

  lemma HeaderIsClean()
    ensures CleanRow(OutputHeader)
  {
  }

  /** A row `transform` outputs from clean columns is clean: its line reads back as the same five columns. */
  lemma TransformedRowIsClean(row: seq<string>)
    requires |row| >= 4 && ParseDecimal(row[2]).Some?
    requires forall k :: 0 <= k < |row| ==> IsTrimFixed(row[k]) && ',' !in row[k]
    ensures CleanRow(TransformedRow(row).value)
  {
    TransformedRowIs(row);
    var price := RowCents(row) as real / 100.0;
    ToUpperKeepsFieldShape(row[1], ',');
    FormatCentsFieldShape(RowCents(row));
    PriceRangeNonEmpty(price);
    CleanFiveColumns(row[0], ToUpper(row[1]), FormatCents(RowCents(row)),
      if row[3] == Electronics && price > PremiumThreshold then PremiumElectronics else row[3],
      DeterminePriceRange(price));
  }

  lemma CleanFiveColumns(a: string, b: string, c: string, d: string, e: string)
    requires IsTrimFixed(a) && ',' !in a && IsTrimFixed(b) && ',' !in b && IsTrimFixed(c) && ',' !in c
    requires IsTrimFixed(d) && ',' !in d && IsTrimFixed(e) && ',' !in e && e != []
    ensures CleanRow([a, b, c, d, e])
  {
  }

  lemma PriceRangeNonEmpty(price: real)
    ensures IsTrimFixed(DeterminePriceRange(price)) && ',' !in DeterminePriceRange(price)
    ensures DeterminePriceRange(price) != []
  {
  }

  /** The kept rows of clean input rows are clean. */
  lemma {:induction false} KeptRowsAreClean(raw: seq<seq<string>>, n: nat)
    requires n <= |raw|
    requires forall j, k :: 0 <= j < |raw| && 0 <= k < |raw[j]| ==> IsTrimFixed(raw[j][k]) && ',' !in raw[j][k]
    ensures forall j :: 0 <= j < |KeptRows(RowOutcomes(raw)[..n])| ==> CleanRow(KeptRows(RowOutcomes(raw)[..n])[j])
  {
    if n > 0 {
      var outcomes := RowOutcomes(raw);
      KeptRowsAreClean(raw, n - 1);
      RowPrefixStep(outcomes, n - 1);
      RowOutcomeAt(raw, n - 1);
      if outcomes[n - 1].Kept? {
        TransformedRowIsClean(raw[n - 1]);
      }
    }
  }

  /** Every row of the output of `transform` on clean rows is clean. */
  lemma TransformRowsAreClean(raw: seq<seq<string>>)
    requires forall j, k :: 0 <= j < |raw| && 0 <= k < |raw[j]| ==> IsTrimFixed(raw[j][k]) && ',' !in raw[j][k]
    ensures forall j :: 0 <= j < |TransformRows(raw)| ==> CleanRow(TransformRows(raw)[j])
  {
    if raw != [] {
      KeptRowsAreClean(raw, |raw|);
      assert RowOutcomes(raw)[..|raw|] == RowOutcomes(raw);
      HeaderIsClean();
    }
  }

  /**
   * What `load` writes after `extract` and `transform` reads back, through `extract`, as
   * exactly the transformed rows.
   */
  lemma OutputReadsBack(lines: seq<string>)
    ensures var out := TransformRows(ExtractRows(lines));
            ExtractRows(OutputLines(out)) == out
  {
    ExtractedColumnsAreClean(lines);
    TransformRowsAreClean(ExtractRows(lines));
    LoadThenExtract(TransformRows(ExtractRows(lines)));
  }

  // ---------------------------------------------------------------------------
  // runPipeline

  /** How `runPipeline` ends: the summary and the lines written, an `IOException` printed, or `System.exit`. */
  datatype Report = Completed(summary: Summary, output: seq<string>) | ErrorPrinted(message: string) | Terminated(status: int)

  /** `runPipeline` on values. */
  function RunOutcome(source: CsvReader.Source, destination: Destination): Report {
    match source
    case Missing => Terminated(1)
    case Unreadable(message) => ErrorPrinted(ErrorLine(message))
    case Lines(lines) =>
      var raw := ExtractRows(lines);
      var transformed := TransformRows(raw);
      match destination
      case Unwritable(message) => ErrorPrinted(ErrorLine(message))
      case Writable => Completed(PrintSummary(|raw|, |transformed|), OutputLines(transformed))
  }

  /** `runPipeline`: extract, transform, load, then the summary; an `IOException` is caught and printed. */
  method RunPipeline(source: CsvReader.Source, destination: Destination) returns (report: Report)
    ensures report == RunOutcome(source, destination)
  {
    var extracted := Extract(source);
    match extracted
    case SystemExit(status) =>
      return Terminated(status);
    case ExtractFailed(e) =>
      return ErrorPrinted(ErrorLine(e.message));
    case Rows(rawData) =>
      var transformedData, _ := Transform(rawData);
      var loaded := Load(transformedData, destination);
      if loaded.Failure? {
        return ErrorPrinted(ErrorLine(loaded.error.message));
      }
      return Completed(PrintSummary(|rawData|, |transformedData|), loaded.value);
  }

  /**
   * With some non-blank line, the summary counts the header once, and the rows skipped are
   * exactly the rows `transform` warned about.
   */
  lemma SummaryCountsWarnings(lines: seq<string>)
    requires ExtractRows(lines) != []
    ensures RunOutcome(CsvReader.Lines(lines), Writable).Completed?
    ensures var s := RunOutcome(CsvReader.Lines(lines), Writable).summary;
            var raw := ExtractRows(lines);
            s.dataRowsProcessed == |raw| - 1 &&
            s.rowsSkipped == |TransformWarnings(raw)| &&
            s.rowsTransformed + s.rowsSkipped == s.dataRowsProcessed
  {
    TransformAccountsForEveryRow(ExtractRows(lines));
  }

  /** With no non-blank line there is no output at all, and the summary still subtracts a header row. */
  lemma EmptyInputSummary(lines: seq<string>)
    requires ExtractRows(lines) == []
    ensures RunOutcome(CsvReader.Lines(lines), Writable) == Completed(Summary(0, 1, -1, -1, 0), [])
  {
  }
}
