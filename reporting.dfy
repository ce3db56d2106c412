/** What both pipelines have in common around their phases: the output file and the printed summary. */
module Reporting {

  /** Opening and writing the output file: it works, or fails with the message of an `IOException`. */
  datatype Destination = Writable | Unwritable(message: string)

  /** The figures `printSummary` prints, in its order. */
  datatype Summary = Summary(
    totalRows: int,
    headerRows: int,
    dataRowsProcessed: int,
    rowsTransformed: int,
    rowsSkipped: int)

  /** The message `runPipeline` prints for a caught `IOException`. */
  function ErrorLine(message: string): string {
    "Error during ETL process: " + message
  }

  function Max(a: int, b: int): int {
    if a >= b then a else b
  }

  /**
   * `printSummary(totalRows, transformedRows)`: both counts include a header row, which is
   * subtracted; the skipped count is clamped at zero.
   */
  function PrintSummary(totalRows: int, transformedRows: int): (s: Summary)
    ensures s.totalRows == totalRows && s.headerRows == 1
    ensures s.dataRowsProcessed == totalRows - 1 && s.rowsTransformed == transformedRows - 1
    ensures s.rowsSkipped >= 0
    ensures transformedRows <= totalRows ==> s.rowsTransformed + s.rowsSkipped == s.dataRowsProcessed
    ensures transformedRows >= totalRows ==> s.rowsSkipped == 0
  {
    Summary(totalRows, 1, totalRows - 1, transformedRows - 1, Max(0, (totalRows - 1) - (transformedRows - 1)))
  }
}
