/**
 * The split ETL pipeline: `CSVReader` extracts products, `DataTransformer` applies the
 * business rules, and a writer loads the result, with the error policy of
 * `processProducts` and the summary of `runPipeline`.
 */
module EtlPipeline {
  import opened Wrappers
  import opened Exceptions
  import opened Text
  import opened Products
  import opened DataTransformer
  import opened CsvReader
  import opened Reporting

  const InputFile: string := "data/products.csv"
  const OutputFile: string := "data/transformed_products.csv"

  datatype Phase = ExtractPhase | TransformPhase | LoadPhase

  const AllPhases: seq<Phase> := [ExtractPhase, TransformPhase, LoadPhase]

  /** `validateFilePaths`: the input path is checked first, then the output path. */
  function ValidateFilePaths(inputFilePath: Nullable<string>, outputFilePath: Nullable<string>): (o: Outcome<Exception>)
    ensures o.Pass? <==>
      inputFilePath.NonNull? && !IsBlank(inputFilePath.value) && outputFilePath.NonNull? && !IsBlank(outputFilePath.value)
    ensures (inputFilePath.Null? || IsBlank(inputFilePath.value)) ==>
      o == Fail(IllegalArgument("Input file path cannot be null or empty"))
    ensures inputFilePath.NonNull? && !IsBlank(inputFilePath.value) && o.Fail? ==>
      o == Fail(IllegalArgument("Output file path cannot be null or empty"))
  {
    if inputFilePath.Null? || Trim(inputFilePath.value) == [] then
      Fail(IllegalArgument("Input file path cannot be null or empty"))
    else if outputFilePath.Null? || Trim(outputFilePath.value) == [] then
      Fail(IllegalArgument("Output file path cannot be null or empty"))
    else
      Pass
  }

  /** The `catch` clauses of `processProducts`: an `IOException` goes out as it came, anything else is wrapped. */
  function Rethrown(e: Exception): (thrown: Exception)
    ensures IsIOException(e) ==> thrown == e
    ensures !IsIOException(e) ==> thrown.Runtime? && thrown.cause == e
    ensures IsIOException(thrown) <==> IsIOException(e)
  {
    if IsIOException(e) then e else Runtime("ETL Pipeline execution failed", e)
  }

  /**
   * What a call of `processProducts` comes to: how it ended, the phases that completed,
   * and the records handed to the writer.
   */
  datatype Run = Run(outcome: Outcome<Exception>, completed: seq<Phase>, toWriter: seq<Record>)

  /** `processProducts` on values: the outcome of each phase decides whether the next one runs. */
  function Process(inputFilePath: Nullable<string>, outputFilePath: Nullable<string>,
                   source: Source, destination: Destination): Run
  {
    match ValidateFilePaths(inputFilePath, outputFilePath)
    case Fail(e) => Run(Fail(e), [], [])
    case Pass =>
      match OpenError(inputFilePath, source)
      case Some(e) => Run(Fail(Rethrown(e)), [], [])
      case None => AfterExtract(ReadRecords(source.lines), destination)
  }

  /** The transform and load phases of `processProducts`, once the products are extracted. */
  function AfterExtract(extracted: seq<Record>, destination: Destination): Run {
    match TransformAll(extracted)
    case Failure(e) => Run(Fail(Rethrown(e)), [ExtractPhase], [])
    case Success(records) =>
      match destination
      case Unwritable(message) => Run(Fail(IO(message)), [ExtractPhase, TransformPhase], records)
      case Writable => Run(Pass, AllPhases, records)
  }

  /**
   * `processProducts(inputFilePath, outputFilePath)`: validate both paths, then extract,
   * transform and load, stopping at the first exception.
   */
  method ProcessProducts(inputFilePath: Nullable<string>, outputFilePath: Nullable<string>,
                         source: Source, destination: Destination)
    returns (outcome: Outcome<Exception>, completed: seq<Phase>, toWriter: seq<Product>)
    ensures var run := Process(inputFilePath, outputFilePath, source, destination);
            outcome == run.outcome && completed == run.completed && Views(toWriter) == run.toWriter
  {
    var valid := ValidateFilePaths(inputFilePath, outputFilePath);
    if valid.Fail? {
      return valid, [], [];
    }
    var read := ReadProducts(inputFilePath, source);
    if read.Failure? {
      return Fail(Rethrown(read.error)), [], [];
    }
    outcome, completed, toWriter := TransformAndLoad(read.value.products, destination);
  }

  /** The try block of `processProducts` after the extract phase. */
  method TransformAndLoad(products: seq<Product>, destination: Destination)
    returns (outcome: Outcome<Exception>, completed: seq<Phase>, toWriter: seq<Product>)
    ensures var run := AfterExtract(Views(products), destination);
            outcome == run.outcome && completed == run.completed && Views(toWriter) == run.toWriter
  {
    completed := [ExtractPhase];
    NonNullProductsOfProducts(products);
    var list: seq<Product?> := products;
    var transformed := DataTransformer.Transform(NonNull(list));
    if transformed.Failure? {
      return Fail(Rethrown(transformed.error)), completed, [];
    }
    completed := completed + [TransformPhase];
    toWriter := transformed.value;
    match destination
    case Unwritable(message) =>
      outcome := Fail(IO(message));
    case Writable =>
      completed := completed + [LoadPhase];
      outcome := Pass;
  }

  /** A bad path is rejected before any phase runs, and the input path is examined first. */
  lemma PathsValidatedFirst(inputFilePath: Nullable<string>, outputFilePath: Nullable<string>,
                            source: Source, destination: Destination)
    requires ValidateFilePaths(inputFilePath, outputFilePath).Fail?
    ensures var run := Process(inputFilePath, outputFilePath, source, destination);
            run.outcome == ValidateFilePaths(inputFilePath, outputFilePath) && run.completed == [] && run.toWriter == []
  {
  }

  /** The phases completed are a prefix of extract, transform, load; the call succeeded exactly when all three did. */
  predicate PhasesOrdered(run: Run) {
    |run.completed| <= 3 && run.completed == AllPhases[..|run.completed|] &&
    (run.outcome.Pass? <==> run.completed == AllPhases)
  }

  lemma AfterExtractPhasesOrdered(extracted: seq<Record>, destination: Destination)
    ensures PhasesOrdered(AfterExtract(extracted, destination))
  {
    assert AllPhases[..1] == [ExtractPhase];
    assert AllPhases[..2] == [ExtractPhase, TransformPhase] && AllPhases[..3] == AllPhases;
  }

  /** The phases complete in the order extract, transform, load; the call succeeds exactly when all three did. */
  lemma PhasesInOrder(inputFilePath: Nullable<string>, outputFilePath: Nullable<string>,
                      source: Source, destination: Destination)
    ensures PhasesOrdered(Process(inputFilePath, outputFilePath, source, destination))
  {
    assert AllPhases[..0] == [];
    if ValidateFilePaths(inputFilePath, outputFilePath).Pass? && OpenError(inputFilePath, source).None? {
      AfterExtractPhasesOrdered(ReadRecords(source.lines), destination);
    }
  }

  /** The exception of a file that is missing, unreadable or unwritable comes out unchanged. */
  lemma IOExceptionsPassThrough(inputFilePath: Nullable<string>, outputFilePath: Nullable<string>,
                                source: Source, destination: Destination)
    requires ValidateFilePaths(inputFilePath, outputFilePath).Pass?
    ensures !source.Lines? ==>
      Process(inputFilePath, outputFilePath, source, destination) == Run(Fail(OpenError(inputFilePath, source).value), [], []) &&
      IsIOException(OpenError(inputFilePath, source).value)
    ensures source.Lines? && destination.Unwritable? ==>
      Process(inputFilePath, outputFilePath, source, destination).outcome == Fail(IO(destination.message)) &&
      Process(inputFilePath, outputFilePath, source, destination).completed == [ExtractPhase, TransformPhase]
  {
    if source.Lines? {
      TransformSucceedsOnRead(source.lines);
    }
  }

  /** Every product the reader returns has a name, so the transform phase never throws. */
  lemma TransformSucceedsOnRead(lines: seq<string>)
    ensures TransformAll(ReadRecords(lines)).Success?
    ensures |TransformAll(ReadRecords(lines)).value| == |ReadRecords(lines)|
  {
    ReadRecordsWellFormed(lines);
    var records := ReadRecords(lines);
    forall k | 0 <= k < |records| ensures records[k].name.NonNull? {
      assert records[k] in records;
    }
  }

  /**
   * The wrapping into a `RuntimeException` never happens: a call fails only with the
   * `IllegalArgumentException` of a bad path or with an `IOException`.
   */
  lemma NeverWrapped(inputFilePath: Nullable<string>, outputFilePath: Nullable<string>,
                     source: Source, destination: Destination)
    ensures var run := Process(inputFilePath, outputFilePath, source, destination);
            run.outcome.Fail? ==> !run.outcome.error.Runtime?
    ensures var run := Process(inputFilePath, outputFilePath, source, destination);
            run.outcome.Fail? && run.outcome.error.IllegalArgument? ==>
              run.completed == [] && ValidateFilePaths(inputFilePath, outputFilePath).Fail?
  {
    if source.Lines? {
      TransformSucceedsOnRead(source.lines);
    }
  }

  /** With good paths and files, every product read is transformed and handed to the writer. */
  lemma ProcessLoadsEveryProduct(inputFilePath: Nullable<string>, outputFilePath: Nullable<string>, lines: seq<string>)
    requires ValidateFilePaths(inputFilePath, outputFilePath).Pass?
    ensures var run := Process(inputFilePath, outputFilePath, Lines(lines), Writable);
            run.outcome.Pass? && Success(run.toWriter) == TransformAll(ReadRecords(lines)) &&
            |run.toWriter| == |ReadRecords(lines)|
  {
    TransformSucceedsOnRead(lines);
  }

  /** How `runPipeline` ends: with its summary, with an `IOException` it printed, or with an exception that escaped. */
  datatype Report = Completed(summary: Summary) | ErrorPrinted(message: string) | Escaped(error: Exception)

  /** `runPipeline` on values: the fixed input and output files, and only `IOException` caught. */
  function RunOutcome(source: Source, destination: Destination): Report {
    match OpenError(NonNull(InputFile), source)
    case Some(e) => if IsIOException(e) then ErrorPrinted(ErrorLine(e.message)) else Escaped(e)
    case None => RunAfterExtract(ReadRecords(source.lines), destination)
  }

  /** The rest of `runPipeline` once the products are extracted. */
  function RunAfterExtract(records: seq<Record>, destination: Destination): Report {
    match TransformAll(records)
    case Failure(e) => Escaped(e)
    case Success(outs) =>
      match destination
      case Unwritable(message) => ErrorPrinted(ErrorLine(message))
      case Writable => Completed(PrintSummary(|records| + 1, |outs| + 1))
  }

  /** `runPipeline`: extract, transform and load the fixed files, then print the summary. */
  method RunPipeline(source: Source, destination: Destination) returns (report: Report)
    ensures report == RunOutcome(source, destination)
  {
    var read := ReadProducts(NonNull(InputFile), source);
    if read.Failure? {
      if IsIOException(read.error) {
        return ErrorPrinted(ErrorLine(read.error.message));
      }
      return Escaped(read.error);
    }
    report := TransformLoadAndSummarize(read.value.products, destination);
  }

  /** The statements of `runPipeline` after `readProducts`. */
  method TransformLoadAndSummarize(products: seq<Product>, destination: Destination) returns (report: Report)
    ensures report == RunAfterExtract(Views(products), destination)
  {
    var totalRowsRead := |products| + 1;
    NonNullProductsOfProducts(products);
    var list: seq<Product?> := products;
    var transformed := DataTransformer.Transform(NonNull(list));
    if transformed.Failure? {
      return Escaped(transformed.error);
    }
    match destination
    case Unwritable(message) =>
      report := ErrorPrinted(ErrorLine(message));
    case Writable =>
      report := Completed(PrintSummary(totalRowsRead, |transformed.value| + 1));
  }

  lemma InputFileIsAPath()
    ensures ValidateFilePath(NonNull(InputFile)).Pass?
  {
    assert !IsTrimmed(InputFile[0]);
  }

  /** No exception escapes `runPipeline`: the fixed path is valid and the transform never throws. */
  lemma RunNeverEscapes(source: Source, destination: Destination)
    ensures !RunOutcome(source, destination).Escaped?
  {
    InputFileIsAPath();
    if source.Lines? {
      TransformSucceedsOnRead(source.lines);
    }
  }

  /**
   * The summary of `runPipeline` always reports every data row as transformed and none
   * as skipped, whatever the reader skipped with a warning.
   */
  lemma RunReportsNothingSkipped(lines: seq<string>)
    ensures RunOutcome(Lines(lines), Writable).Completed?
    ensures var s := RunOutcome(Lines(lines), Writable).summary;
            s.rowsSkipped == 0 && s.rowsTransformed == s.dataRowsProcessed == |ReadRecords(lines)|
  {
    InputFileIsAPath();
    TransformSucceedsOnRead(lines);
  }

  /**
   * A file of a header and one data line that the reader rejects with a warning: the
   * summary still reports no row skipped.
   */
  lemma SkippedRowIsNotReported(header: string, row: string)
    requires row != [] && IsTrimFixed(row) && ',' !in row
    ensures |ReadWarnings([header, row])| == 1
    ensures RunOutcome(Lines([header, row]), Writable) == Completed(Summary(1, 1, 0, 0, 0))
  {
    ShortRowRejected(header, row);
    NothingReadSummary([header, row]);
  }

  lemma NothingReadSummary(lines: seq<string>)
    requires ReadRecords(lines) == []
    ensures RunOutcome(Lines(lines), Writable) == Completed(Summary(1, 1, 0, 0, 0))
  {
    RunReportsNothingSkipped(lines);
  }

  /** The summary counting the rows the reader skipped as read, as the assignment 2 summary does. */
  function RunOutcomeIntended(source: Source, destination: Destination): Report {
    match RunOutcome(source, destination)
    case Completed(s) =>
      Completed(PrintSummary(|ReadRecords(source.lines)| + |ReadWarnings(source.lines)| + 1, s.rowsTransformed + 1))
    case other => other
  }

  /** With every data row counted as read, the skipped count is the number of warnings. */
  lemma IntendedSummaryCountsWarnings(lines: seq<string>)
    ensures RunOutcomeIntended(Lines(lines), Writable).Completed?
    ensures var s := RunOutcomeIntended(Lines(lines), Writable).summary;
            s.rowsSkipped == |ReadWarnings(lines)| && s.dataRowsProcessed == DataRows(lines) &&
            s.rowsTransformed == |ReadRecords(lines)|
  {
    RunReportsNothingSkipped(lines);
    EveryDataRowAccountedFor(lines);
  }
}
