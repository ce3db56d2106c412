# ETL product pipeline, integer sets and devices: a Dafny model

This project models, in Dafny, the core of a Java course repository:

- **The product ETL pipeline.** It reads product rows from a CSV file, applies fixed business rules and writes the transformed rows back out. There are two versions of it:
  - the split version of assignment 3: `CSVReader`, `DataTransformer`, the `Product` record and `ETLPipeline`;
  - the single-class version of assignment 2: `ETLPipeline`.
- **The `IntegerSet` class of assignment 6.** It is a set of integers kept in an `ArrayList` without duplicates.
- **The `DoorLock` and `Camera` devices of the midterm question 4.**

The business rules are applied to each product in a fixed order:

1. The name is upper-cased.
2. The category "Electronics" gets a 10% discount.
3. The price is rounded half-up to cents.
4. Electronics priced above 500 after rounding become "Premium Electronics".
5. A price range is set from the final price: "Low" up to 10, "Medium" up to 100, "High" up to 500, "Premium" above.

Java values are modelled as follows:

- **Strings** are `seq<char>`.
- **A Java `null` string** is `Nullable.Null`.
- **Prices** are exact `real`s.
- **Thrown exceptions** are `Result.Failure` or `Outcome.Fail` values of the `Exception` datatype.
- **Objects the code updates in place** are Dafny classes: `Product`, `IntegerSet`, `DoorLock` and `Camera`.

The file system is a parameter. `CsvReader.Source` is a file that is missing, unreadable or read as its lines. `Reporting.Destination` is an output file that is writable or fails with an `IOException`. Console output is modelled only where it is a result: the warnings for skipped rows, the error line, and the figures of the summary.

The modules, one per file:

| file | module | models |
|---|---|---|
| `wrappers.dfy` | `Wrappers`, `Exceptions` | Option/Result, Java `null`, the exceptions thrown |
| `text.dfy` | `Text` | `String.trim`, `toUpperCase`, `split(",")`, `String.join`, integer printing |
| `decimal.dfy` | `Decimal` | `Double.parseDouble` on decimal numerals, `BigDecimal.setScale(2, HALF_UP)`, `String.format("%.2f")` |
| `product.dfy` | `Products` | assignment 3 `Product` |
| `csv_reader.dfy` | `CsvReader` | assignment 3 `CSVReader` |
| `data_transformer.dfy` | `DataTransformer` | assignment 3 `DataTransformer` |
| `reporting.dfy` | `Reporting` | `printSummary`, shared by both pipelines |
| `etl_pipeline.dfy` | `EtlPipeline` | assignment 3 `ETLPipeline` |
| `monolithic_pipeline.dfy` | `MonolithicEtl` | assignment 2 `ETLPipeline` |
| `integer_set.dfy` | `IntegerSets` | assignment 6 `IntegerSet` |
| `devices.dfy` | `Devices` | midterm `DoorLock` and `Camera` |

### Behaviour of the code worth knowing

Four behaviours of the Java code are easy to miss; the model keeps each of them:

- **The assignment 3 header.** The assignment 3 reader treats *physical* line 1 as the header, even when that line is blank. So when line 1 is blank, the first non-blank line is parsed as data. This is `CsvReader.FirstLineNeverRead` and `CsvReader.ClassifyShape`. Assignment 2 instead drops the first *non-blank* line.
- **Rows skipped (assignment 3).** The assignment 3 summary counts only the products the reader returned as "read". So "Rows skipped" is always 0, even when the reader skipped rows with warnings. This is listed under Findings.
- **Row validation (assignment 2).** Assignment 2 does not check for empty fields or a negative price. Such rows are transformed and written; only a short row or a price that does not parse is skipped (`MonolithicEtl.TransformRowSkipsValidation`).
- **Warning numbers.** Assignment 3 warnings name the physical line number. Assignment 2 warnings name the index among the non-blank lines (`MonolithicEtl.TransformWarningsCiteRows`).

## Model

Source paths are relative to the repository root; line ranges are those of the Java code each member models.

| member | source | states |
|---|---|---|
| Text.Trim | src/org/howard/edu/lsp/assignment3/CSVReader.java:41 | the result has no removable character at either end; it is empty exactly for a blank line; a trimmed string is left unchanged |
| Text.TrimIdempotent | src/org/howard/edu/lsp/assignment3/CSVReader.java:84 | trimming a trimmed column again changes nothing |
| Text.ToUpper | src/org/howard/edu/lsp/assignment3/DataTransformer.java:71 | same length; each character is its ASCII upper case |
| Text.ToUpperIdempotent | src/org/howard/edu/lsp/assignment3/DataTransformer.java:71 | upper-casing twice is upper-casing once; no lower-case letter is left |
| Text.ToUpperKeepsFieldShape | src/org/howard/edu/lsp/assignment2/ETLPipeline.java:142 | upper-casing adds no comma and keeps a trimmed field trimmed |
| Text.SplitAll | src/org/howard/edu/lsp/assignment3/CSVReader.java:80 | the pieces hold no delimiter and join back to the input |
| Text.DropTrailingEmpty | src/org/howard/edu/lsp/assignment3/CSVReader.java:80 | `split` keeps a prefix of the pieces, drops only empty ones, and keeps no trailing empty piece |
| Text.Split | src/org/howard/edu/lsp/assignment3/CSVReader.java:80 | definition of `String.split(",")`: every piece between commas, trailing empty pieces dropped; `Text.SplitShape` and `Text.SplitJoin` state its properties |
| Text.SplitShape | src/org/howard/edu/lsp/assignment3/CSVReader.java:80 | a line without a comma is one column; otherwise the columns are the pieces without the trailing empty ones |
| Text.SplitAllJoin | src/org/howard/edu/lsp/assignment2/ETLPipeline.java:196 | splitting joined pieces gives the pieces back |
| Text.Join | src/org/howard/edu/lsp/assignment2/ETLPipeline.java:196 | definition of `String.join(",", row)`: the pieces with one comma between neighbours; split back by `Text.SplitAllJoin` and `Text.SplitJoin` |
| Text.JoinHasDelimiter | src/org/howard/edu/lsp/assignment2/ETLPipeline.java:196 | a joined line holds a comma exactly when it has more than one field |
| Text.SplitJoin | src/org/howard/edu/lsp/assignment2/ETLPipeline.java:196 | `split` undoes `String.join` when the last field is not empty |
| Text.JoinTrimFixed | src/org/howard/edu/lsp/assignment2/ETLPipeline.java:196 | a line joined from trimmed fields, the last not empty, is trimmed and not empty |
| Text.TrimAll | src/org/howard/edu/lsp/assignment3/CSVReader.java:83-85 | every column is trimmed, in place and order |
| Text.TrimAllFixed | src/org/howard/edu/lsp/assignment3/CSVReader.java:83-85 | trimming already trimmed columns changes nothing |
| Text.Columns | src/org/howard/edu/lsp/assignment3/CSVReader.java:80-85 | every column of a line is trimmed and holds no comma |
| Text.ColumnsJoin | src/org/howard/edu/lsp/assignment2/ETLPipeline.java:77-81 | splitting and trimming a joined line of clean fields gives the fields back |
| Text.TrimFields | src/org/howard/edu/lsp/assignment3/CSVReader.java:83-85 | the loop over the array leaves each element trimmed, as `TrimAll` of the old contents |
| Text.SplitAndTrim | src/org/howard/edu/lsp/assignment3/CSVReader.java:80-85 | a fresh array holding `Columns(line)` |
| Text.NatToStringValue | src/org/howard/edu/lsp/assignment3/CSVReader.java:125 | the printed line number reads back as that number |
| Text.NatToStringInjective | src/org/howard/edu/lsp/midterm/question4/DoorLock.java:80-81 | different numbers print differently |
| Decimal.ParseDecimal | src/org/howard/edu/lsp/assignment3/CSVReader.java:100 | a parse yields a value only for non-empty text; a negative value needs a leading minus |
| Decimal.ParseUnsigned | src/org/howard/edu/lsp/assignment3/CSVReader.java:100 | an unsigned numeral has a non-negative value |
| Decimal.RoundHalfUpCents | src/org/howard/edu/lsp/assignment3/DataTransformer.java:106-110 | the cents are within half a cent of the price; ties go away from zero |
| Decimal.RoundHalfUpIsNearest | src/org/howard/edu/lsp/assignment3/DataTransformer.java:106-110 | no whole number of cents is closer to the price than the rounded one |
| Decimal.RoundHalfUpTies | src/org/howard/edu/lsp/assignment3/DataTransformer.java:108 | a price exactly halfway between two cents rounds to the one of larger magnitude |
| Decimal.RoundHalfUpExact | src/org/howard/edu/lsp/assignment3/DataTransformer.java:106-110 | a price in whole cents is unchanged by rounding |
| Decimal.RoundHalfUpMonotone | src/org/howard/edu/lsp/assignment3/DataTransformer.java:106-110 | rounding never decreases when the price grows |
| Decimal.RoundToTwoDecimals | src/org/howard/edu/lsp/assignment3/DataTransformer.java:106-110 | the result is a whole number of cents within 0.005 of the price and stays non-negative |
| Decimal.CentsText | src/org/howard/edu/lsp/assignment2/ETLPipeline.java:161 | digits, a point, and exactly two digits |
| Decimal.FormatCents | src/org/howard/edu/lsp/assignment2/ETLPipeline.java:161 | always two decimals after a point; a leading minus only for a negative amount |
| Decimal.CentsTextCharacters | src/org/howard/edu/lsp/assignment2/ETLPipeline.java:161 | a printed amount is made of digits and a point only |
| Decimal.FormatCentsFieldShape | src/org/howard/edu/lsp/assignment2/ETLPipeline.java:161 | a printed price has no surrounding blanks and no comma |
| Decimal.ParseFormatCents | src/org/howard/edu/lsp/assignment2/ETLPipeline.java:161 | round trip: parsing a printed price gives exactly that many cents back |
| Decimal.UnsignedBody | src/org/howard/edu/lsp/assignment2/ETLPipeline.java:161 | round trip of the unsigned printed amount |
| Decimal.NegatedCents | src/org/howard/edu/lsp/assignment2/ETLPipeline.java:161 | a negative printed amount reads back negated |
| Decimal.ParseNegated | src/org/howard/edu/lsp/assignment3/CSVReader.java:100 | a minus sign negates the numeral after it |
| Decimal.ParseUnsignedDigitFirst | src/org/howard/edu/lsp/assignment3/CSVReader.java:100 | a numeral starting with a digit has no sign |
| Products.Product.constructor | src/org/howard/edu/lsp/assignment3/Product.java:35-41 | the four fields are set and the price range is "" |
| Products.Product.Empty | src/org/howard/edu/lsp/assignment3/Product.java:23-25 | every string is null and the price is 0 |
| Products.Product.WithPriceRange | src/org/howard/edu/lsp/assignment3/Product.java:52-58 | all five fields are copied |
| Products.Product.SetProductId | src/org/howard/edu/lsp/assignment3/Product.java:74-76 | only the id changes |
| Products.Product.SetName | src/org/howard/edu/lsp/assignment3/Product.java:92-94 | only the name changes |
| Products.Product.SetPrice | src/org/howard/edu/lsp/assignment3/Product.java:110-112 | only the price changes |
| Products.Product.SetCategory | src/org/howard/edu/lsp/assignment3/Product.java:128-130 | only the category changes |
| Products.Product.SetPriceRange | src/org/howard/edu/lsp/assignment3/Product.java:146-148 | only the price range changes |
| Products.Product.Equals | src/org/howard/edu/lsp/assignment3/Product.java:168-178 | `equals` as Java parses it: reflexive, false for null and other classes, otherwise the right-nested conditional expression |
| Products.EqualsSamePriceComparesIdOnly | src/org/howard/edu/lsp/assignment3/Product.java:173-174 | with equal prices and a non-null id, only the ids are compared |
| Products.EqualsDifferentPriceAllSet | src/org/howard/edu/lsp/assignment3/Product.java:173-177 | with different prices and the other product's strings all set, `equals` is false |
| Products.EqualsAsWrittenIsNotSymmetric | src/org/howard/edu/lsp/assignment3/Product.java:173-177 | two products that differ in id and price: one is "equal" to the other but not the other way round |
| Products.Product.EqualsIntended | src/org/howard/edu/lsp/assignment3/Product.java:168-178 | the intended `equals`: reflexive, false for null and other classes, otherwise equality of all five fields |
| Products.FieldsEqualIsEquality | src/org/howard/edu/lsp/assignment3/Product.java:173-177 | the intended comparison is exactly equality of the fields, hence symmetric |
| Products.Views | src/org/howard/edu/lsp/assignment3/DataTransformer.java:42-51 | the values of a list of products, position by position |
| CsvReader.ValidateFilePath | src/org/howard/edu/lsp/assignment3/CSVReader.java:144-148 | an `IllegalArgumentException` exactly for a null or blank path |
| CsvReader.ValidateProductData | src/org/howard/edu/lsp/assignment3/CSVReader.java:123-136 | passes exactly when id, name and category are not empty and the price is not negative; every failure is an `IllegalArgumentException` |
| CsvReader.ParseColumns | src/org/howard/edu/lsp/assignment3/CSVReader.java:87-110 | an accepted product has four non-empty fields, a non-negative price and range ""; every failure is an `IllegalArgumentException` |
| CsvReader.ParseColumnsAccepts | src/org/howard/edu/lsp/assignment3/CSVReader.java:87-110 | a row is accepted exactly when it has four columns, a parsable non-negative price and non-empty fields, and the product's fields are those columns |
| CsvReader.ParseColumnsIgnoresExtra | src/org/howard/edu/lsp/assignment3/CSVReader.java:94-97 | columns after the fourth play no part |
| CsvReader.ParseLine | src/org/howard/edu/lsp/assignment3/CSVReader.java:79-111 | definition of `parseProductFromLine` on values: split, trim, column count, price parse, then field validation; `CsvReader.ParseProductFromLine` is proved against it |
| CsvReader.ParseProductFromLine | src/org/howard/edu/lsp/assignment3/CSVReader.java:79-111 | a fresh product whose fields are the parse of the line, or the exception the parse throws |
| CsvReader.ClassifyLine | src/org/howard/edu/lsp/assignment3/CSVReader.java:39-62 | definition of one turn of the read loop: blank lines and physical line 1 skipped, otherwise the parsed product or a warning naming the line; `CsvReader.ClassifyShape` and `CsvReader.ClassifyParsed` state its cases |
| CsvReader.ClassifyShape | src/org/howard/edu/lsp/assignment3/CSVReader.java:39-51 | a line is passed over exactly when it is blank or is line 1; a rejection carries its line number |
| CsvReader.ClassifyParsed | src/org/howard/edu/lsp/assignment3/CSVReader.java:53-61 | a non-blank line after the first is accepted or warned about as its parse says |
| CsvReader.EveryDataRowAccountedFor | src/org/howard/edu/lsp/assignment3/CSVReader.java:39-62 | products read plus warnings equals the non-blank lines after the first |
| CsvReader.WarningsInLineOrder | src/org/howard/edu/lsp/assignment3/CSVReader.java:58-59 | each warning comes from its own line, in increasing line order |
| CsvReader.WarningsNameTheirLines | src/org/howard/edu/lsp/assignment3/CSVReader.java:53-61 | each warning names a non-blank line after the first whose parse failed with that exception; line numbers strictly increase |
| CsvReader.RejectedAt | src/org/howard/edu/lsp/assignment3/CSVReader.java:53-61 | a rejected line is not blank, not line 1, and its warning carries its number and parse failure |
| CsvReader.AcceptedAt | src/org/howard/edu/lsp/assignment3/CSVReader.java:53-57 | an accepted line is not blank, not line 1, and its product is its parse |
| CsvReader.ReadRecords | src/org/howard/edu/lsp/assignment3/CSVReader.java:24-69 | definition of the products `readProducts` returns, in line order; `CsvReader.ReadRecordsWellFormed`, `CsvReader.FirstLineNeverRead` and `CsvReader.EveryDataRowAccountedFor` state its properties |
| CsvReader.ReadWarnings | src/org/howard/edu/lsp/assignment3/CSVReader.java:39-62 | definition of the warnings the read loop prints, in line order; `CsvReader.WarningsNameTheirLines` and `CsvReader.EveryDataRowAccountedFor` state its properties |
| CsvReader.RecordsFromLines | src/org/howard/edu/lsp/assignment3/CSVReader.java:54-57 | every product read is the product of some accepted line |
| CsvReader.ReadRecordsWellFormed | src/org/howard/edu/lsp/assignment3/CSVReader.java:100-105 | every product read has four non-empty fields, a non-negative price and range "" |
| CsvReader.FirstLineNeverRead | src/org/howard/edu/lsp/assignment3/CSVReader.java:48-51 | what is on physical line 1 never matters |
| CsvReader.OneColumnLineRejected | src/org/howard/edu/lsp/assignment3/CSVReader.java:87-91 | a data line with no comma is rejected for insufficient columns |
| CsvReader.ShortRowRejected | src/org/howard/edu/lsp/assignment3/CSVReader.java:39-62 | a header and one short row: one warning for line 2, no product |
| CsvReader.OpenError | src/org/howard/edu/lsp/assignment3/CSVReader.java:25-31 | an exception before the loop exactly for a bad path or a file that cannot be read; it is an `IllegalArgumentException` exactly for a bad path, else an `IOException` |
| CsvReader.ReadProducts | src/org/howard/edu/lsp/assignment3/CSVReader.java:24-69 | the path check, then the "not found" or "Failed to read file" `IOException`, else exactly the products and warnings of the lines |
| CsvReader.ReadLine | src/org/howard/edu/lsp/assignment3/CSVReader.java:39-61 | one turn of the loop gives the outcome of that line, with a fresh product when it is accepted |
| CsvReader.Collect | src/org/howard/edu/lsp/assignment3/CSVReader.java:54-59 | an accepted product is appended; a rejected line adds its warning |
| CsvReader.ReadStep | src/org/howard/edu/lsp/assignment3/CSVReader.java:39-62 | the products and warnings so far grow by the next line's outcome |
| CsvReader.ReadLines | src/org/howard/edu/lsp/assignment3/CSVReader.java:35-68 | the loop returns fresh products whose values are `ReadRecords(lines)`, with the warnings `ReadWarnings(lines)` |
| DataTransformer.DeterminePriceRange | src/org/howard/edu/lsp/assignment3/DataTransformer.java:119-129 | one of the four labels |
| DataTransformer.PriceRangeBuckets | src/org/howard/edu/lsp/assignment3/DataTransformer.java:119-129 | each label covers exactly its interval of prices |
| DataTransformer.PriceRangeMonotone | src/org/howard/edu/lsp/assignment3/DataTransformer.java:119-129 | a higher price never gets a lower label |
| DataTransformer.PriceRangeBoundaries | src/org/howard/edu/lsp/assignment3/DataTransformer.java:120-126 | the bounds 10, 100 and 500 are inclusive |
| DataTransformer.DiscountedPrice | src/org/howard/edu/lsp/assignment3/DataTransformer.java:74-80 | definition of the 10% Electronics discount before rounding; `DataTransformer.TransformPrice` states its effect |
| DataTransformer.TransformRecord | src/org/howard/edu/lsp/assignment3/DataTransformer.java:61-97 | definition of `transformProduct` on values; the lemmas below state what it guarantees |
| DataTransformer.TransformKeepsIdUppercasesName | src/org/howard/edu/lsp/assignment3/DataTransformer.java:61-72 | a product is transformed exactly when it has a name, else `NullPointerException`; the id is kept and the name upper-cased |
| DataTransformer.TransformPrice | src/org/howard/edu/lsp/assignment3/DataTransformer.java:74-84 | the discount applies exactly to "Electronics", then the price is rounded |
| DataTransformer.TransformCategory | src/org/howard/edu/lsp/assignment3/DataTransformer.java:86-90 | "Premium Electronics" exactly for "Electronics" above 500 after rounding; otherwise the category is kept |
| DataTransformer.TransformPriceRange | src/org/howard/edu/lsp/assignment3/DataTransformer.java:92-94 | the range is that of the final price |
| DataTransformer.RecategorizedIsPremium | src/org/howard/edu/lsp/assignment3/DataTransformer.java:86-94 | a recategorized product is always in the "Premium" range |
| DataTransformer.TransformPriceBounds | src/org/howard/edu/lsp/assignment3/DataTransformer.java:74-84 | the output price is within half a cent of the discounted one and not negative for a non-negative input |
| DataTransformer.TransformIdempotent | src/org/howard/edu/lsp/assignment3/DataTransformer.java:61-97 | a second pass changes nothing when the category did not stay "Electronics" |
| DataTransformer.TransformExamplePremium | src/org/howard/edu/lsp/assignment3/DataTransformer.java:61-97 | "tv", Electronics, 600.00 becomes "TV", 540.00, Premium Electronics, range Premium |
| DataTransformer.TransformExampleWidget | src/org/howard/edu/lsp/assignment3/DataTransformer.java:61-97 | "widget", Electronics, 19.999 becomes "WIDGET", 18.00, Electronics, range Medium |
| DataTransformer.TransformProduct | src/org/howard/edu/lsp/assignment3/DataTransformer.java:61-97 | a fresh product holding the rules applied to the original, or `NullPointerException` for a null name |
| DataTransformer.NonNullProducts | src/org/howard/edu/lsp/assignment3/DataTransformer.java:44-45 | the nulls of the list are passed over; nothing is added |
| DataTransformer.NonNullProductsOfProducts | src/org/howard/edu/lsp/assignment3/DataTransformer.java:44-45 | a list without nulls is kept whole |
| DataTransformer.TransformAll | src/org/howard/edu/lsp/assignment3/DataTransformer.java:37-52 | succeeds exactly when every product has a name, then one output per input in order; otherwise `NullPointerException` |
| DataTransformer.Transform | src/org/howard/edu/lsp/assignment3/DataTransformer.java:37-52 | `IllegalArgumentException` for a null list; otherwise the transform of the non-null products as fresh objects, or the exception of the first that fails |
| DataTransformer.TransformStep | src/org/howard/edu/lsp/assignment3/DataTransformer.java:44-49 | one turn of the loop: a null is passed over, a product is transformed and appended, or the whole call fails as `TransformAll` does |
| Reporting.PrintSummary | src/org/howard/edu/lsp/assignment3/ETLPipeline.java:126-139 | the header is subtracted from both counts; skipped is clamped at zero and with it transformed plus skipped is the data rows |
| Reporting.ErrorLine | src/org/howard/edu/lsp/assignment3/ETLPipeline.java:79 | definition of the "Error during ETL process: " line printed for a caught `IOException` |
| EtlPipeline.ValidateFilePaths | src/org/howard/edu/lsp/assignment3/ETLPipeline.java:148-155 | the input path is checked before the output path, each null or blank path with its own message |
| EtlPipeline.Rethrown | src/org/howard/edu/lsp/assignment3/ETLPipeline.java:111-117 | an `IOException` is rethrown as it is; anything else is wrapped in a `RuntimeException` with it as cause |
| EtlPipeline.ProcessProducts | src/org/howard/edu/lsp/assignment3/ETLPipeline.java:91-118 | the outcome, the phases completed and the products loaded are those of `Process` |
| EtlPipeline.TransformAndLoad | src/org/howard/edu/lsp/assignment3/ETLPipeline.java:101-109 | the transform and load phases as `AfterExtract` describes them |
| EtlPipeline.Process | src/org/howard/edu/lsp/assignment3/ETLPipeline.java:91-118 | definition of `processProducts` on values: path check, extract, transform, load; `EtlPipeline.ProcessProducts` is proved against it |
| EtlPipeline.AfterExtract | src/org/howard/edu/lsp/assignment3/ETLPipeline.java:101-117 | definition of the transform and load phases; `EtlPipeline.AfterExtractPhasesOrdered` states its order |
| EtlPipeline.PathsValidatedFirst | src/org/howard/edu/lsp/assignment3/ETLPipeline.java:92 | a bad path fails the call before any phase runs |
| EtlPipeline.AfterExtractPhasesOrdered | src/org/howard/edu/lsp/assignment3/ETLPipeline.java:101-109 | after extraction the phases complete in order |
| EtlPipeline.PhasesInOrder | src/org/howard/edu/lsp/assignment3/ETLPipeline.java:91-118 | the phases complete in the order extract, transform, load; the call succeeds exactly when all three do |
| EtlPipeline.IOExceptionsPassThrough | src/org/howard/edu/lsp/assignment3/ETLPipeline.java:111-113 | an unreadable input or unwritable output comes out as the same `IOException` |
| EtlPipeline.TransformSucceedsOnRead | src/org/howard/edu/lsp/assignment3/ETLPipeline.java:98-103 | every product the reader returns transforms |
| EtlPipeline.NeverWrapped | src/org/howard/edu/lsp/assignment3/ETLPipeline.java:114-117 | the `RuntimeException` wrapping never happens; an `IllegalArgumentException` comes only from a bad path |
| EtlPipeline.ProcessLoadsEveryProduct | src/org/howard/edu/lsp/assignment3/ETLPipeline.java:98-109 | with good paths and files every product read is transformed and handed to the writer |
| EtlPipeline.RunPipeline | src/org/howard/edu/lsp/assignment3/ETLPipeline.java:60-81 | `runPipeline` ends as `RunOutcome` says |
| EtlPipeline.TransformLoadAndSummarize | src/org/howard/edu/lsp/assignment3/ETLPipeline.java:64-76 | the statements after the read end as `RunAfterExtract` says |
| EtlPipeline.RunOutcome | src/org/howard/edu/lsp/assignment3/ETLPipeline.java:60-81 | definition of `runPipeline` on values; `EtlPipeline.RunPipeline` is proved against it and `EtlPipeline.RunNeverEscapes` states that no exception escapes |
| EtlPipeline.RunAfterExtract | src/org/howard/edu/lsp/assignment3/ETLPipeline.java:64-80 | definition of `runPipeline` after the read; `EtlPipeline.TransformLoadAndSummarize` is proved against it |
| EtlPipeline.InputFileIsAPath | src/org/howard/edu/lsp/assignment3/ETLPipeline.java:18 | the fixed input path passes validation |
| EtlPipeline.RunNeverEscapes | src/org/howard/edu/lsp/assignment3/ETLPipeline.java:60-81 | no exception escapes `runPipeline` |
| EtlPipeline.RunReportsNothingSkipped | src/org/howard/edu/lsp/assignment3/ETLPipeline.java:64-76 | the summary always reports 0 skipped and every row read as transformed |
| EtlPipeline.SkippedRowIsNotReported | src/org/howard/edu/lsp/assignment3/ETLPipeline.java:64-76 | a file whose one data row gets a warning still reports 0 rows skipped |
| EtlPipeline.IntendedSummaryCountsWarnings | src/org/howard/edu/lsp/assignment3/ETLPipeline.java:126-139 | counting skipped rows as read, "Rows skipped" is the number of warnings and "Data rows processed" is the number of data rows |
| MonolithicEtl.ExtractRows | src/org/howard/edu/lsp/assignment2/ETLPipeline.java:74-84 | at most one row per line |
| MonolithicEtl.ExtractLines | src/org/howard/edu/lsp/assignment2/ETLPipeline.java:74-84 | the line loop returns `ExtractRows(lines)` |
| MonolithicEtl.Extract | src/org/howard/edu/lsp/assignment2/ETLPipeline.java:58-90 | a missing file ends the program with status 1; a read error is an `IOException`; otherwise the rows |
| MonolithicEtl.ExtractedColumnsAreClean | src/org/howard/edu/lsp/assignment2/ETLPipeline.java:75-81 | every extracted column is trimmed and holds no comma |
| MonolithicEtl.ExtractRowsCount | src/org/howard/edu/lsp/assignment2/ETLPipeline.java:74-84 | one row per non-blank line |
| MonolithicEtl.NonBlankCountIsIndices | src/org/howard/edu/lsp/assignment2/ETLPipeline.java:76 | the count of non-blank lines is the number of their positions |
| MonolithicEtl.ExtractKeepsNonBlankLines | src/org/howard/edu/lsp/assignment2/ETLPipeline.java:74-84 | blank lines are dropped and every other line gives exactly one row |
| MonolithicEtl.TransformedRow | src/org/howard/edu/lsp/assignment2/ETLPipeline.java:132-164 | fails exactly when the price does not parse, with its `NumberFormatException`; otherwise five columns starting with the id |
| MonolithicEtl.TransformRow | src/org/howard/edu/lsp/assignment2/ETLPipeline.java:132-164 | the step-by-step computation on locals gives `TransformedRow` |
| MonolithicEtl.TransformedRowIs | src/org/howard/edu/lsp/assignment2/ETLPipeline.java:132-164 | the output row is the split version's transform of the same columns, printed |
| MonolithicEtl.TransformedRowColumns | src/org/howard/edu/lsp/assignment2/ETLPipeline.java:132-164 | the columns: id kept, name upper-cased, the rounded price printed so that it reads back exactly, the category recategorized only for expensive Electronics, the range of the rounded price |
| MonolithicEtl.ReadsBackAs | src/org/howard/edu/lsp/assignment2/ETLPipeline.java:161 | a price printed from cents reads back as that number of cents |
| MonolithicEtl.RowPrice | src/org/howard/edu/lsp/assignment2/ETLPipeline.java:139-150 | the rounded price is a whole number of cents |
| MonolithicEtl.TransformRowSkipsValidation | src/org/howard/edu/lsp/assignment2/ETLPipeline.java:132-164 | a row with an empty field or a negative price is transformed here while the split reader rejects it |
| MonolithicEtl.ClassifyRow | src/org/howard/edu/lsp/assignment2/ETLPipeline.java:108-121 | definition of one turn of the `transform` loop: a short row or a failing row is dropped with a warning naming its index, otherwise kept transformed; `MonolithicEtl.RowOutcomeAt` relates it to the loop |
| MonolithicEtl.RowOutcomeAt | src/org/howard/edu/lsp/assignment2/ETLPipeline.java:107-124 | the outcome of row `i` is that row's classification |
| MonolithicEtl.TransformAt | src/org/howard/edu/lsp/assignment2/ETLPipeline.java:108-121 | one turn of the loop: a short row gets the malformed warning, a failing row the error warning, the rest are kept |
| MonolithicEtl.Transform | src/org/howard/edu/lsp/assignment2/ETLPipeline.java:95-127 | the output is the header and every kept row in order; the warnings are those of the dropped rows |
| MonolithicEtl.TransformStep | src/org/howard/edu/lsp/assignment2/ETLPipeline.java:107-124 | the output and warnings so far grow by row `i`'s outcome |
| MonolithicEtl.CountRows | src/org/howard/edu/lsp/assignment2/ETLPipeline.java:107-124 | each row after the header is kept or warned about, never both |
| MonolithicEtl.TransformAccountsForEveryRow | src/org/howard/edu/lsp/assignment2/ETLPipeline.java:95-127 | the output has the header plus one row per input row without a warning |
| MonolithicEtl.RowWarningsInOrder | src/org/howard/edu/lsp/assignment2/ETLPipeline.java:107-124 | warnings come in increasing row order |
| MonolithicEtl.TransformWarningsCiteRows | src/org/howard/edu/lsp/assignment2/ETLPipeline.java:111-121 | each warning cites a row index of at least 1, malformed exactly for fewer than four columns, failed for a price that does not parse; in increasing order |
| MonolithicEtl.OutputLines | src/org/howard/edu/lsp/assignment2/ETLPipeline.java:195-197 | one line per row, its columns joined with commas |
| MonolithicEtl.Load | src/org/howard/edu/lsp/assignment2/ETLPipeline.java:193-199 | an unwritable output is an `IOException`; otherwise the lines of the rows |
| MonolithicEtl.CleanRowRoundTrip | src/org/howard/edu/lsp/assignment2/ETLPipeline.java:196 | the line of a clean row is not blank and reads back as the same columns |
| MonolithicEtl.LoadThenExtract | src/org/howard/edu/lsp/assignment2/ETLPipeline.java:193-199 | round trip: extracting the lines `load` writes gives clean rows back unchanged |
| MonolithicEtl.TransformedRowIsClean | src/org/howard/edu/lsp/assignment2/ETLPipeline.java:163 | a transformed row of clean columns is clean |
| MonolithicEtl.KeptRowsAreClean | src/org/howard/edu/lsp/assignment2/ETLPipeline.java:107-124 | the kept rows of clean input rows are clean |
| MonolithicEtl.TransformRowsAreClean | src/org/howard/edu/lsp/assignment2/ETLPipeline.java:95-127 | every output row of `transform` on clean rows is clean |
| MonolithicEtl.OutputReadsBack | src/org/howard/edu/lsp/assignment2/ETLPipeline.java:31-53 | what `load` writes reads back through `extract` as exactly the transformed rows |
| MonolithicEtl.RunPipeline | src/org/howard/edu/lsp/assignment2/ETLPipeline.java:31-53 | `runPipeline` ends as `RunOutcome` says |
| MonolithicEtl.RunOutcome | src/org/howard/edu/lsp/assignment2/ETLPipeline.java:31-53 | definition of `runPipeline` on values; `MonolithicEtl.RunPipeline` is proved against it |
| MonolithicEtl.SummaryCountsWarnings | src/org/howard/edu/lsp/assignment2/ETLPipeline.java:204-217 | the summary counts the header once, and the rows skipped are exactly the rows warned about |
| MonolithicEtl.EmptyInputSummary | src/org/howard/edu/lsp/assignment2/ETLPipeline.java:95-100 | with no non-blank line there is no output, and the summary still subtracts a header row |
| IntegerSets.Select | src/org/howard/edu/lsp/assignment6/IntegerSet.java:132-144 | `retainAll`/`removeAll`: the values of the list that are (or are not) in the other list |
| IntegerSets.SelectAppend | src/org/howard/edu/lsp/assignment6/IntegerSet.java:132-144 | selection keeps the relative order |
| IntegerSets.SelectNoDuplicates | src/org/howard/edu/lsp/assignment6/IntegerSet.java:132-144 | selection keeps the no-duplicates invariant |
| IntegerSets.SelectElements | src/org/howard/edu/lsp/assignment6/IntegerSet.java:132-144 | the values selected are the intersection or the difference |
| IntegerSets.UnionOf | src/org/howard/edu/lsp/assignment6/IntegerSet.java:118-124 | definition of what the `union` loop leaves; `IntegerSets.UnionAppendsMissing` and `IntegerSets.UnionContents` state its properties |
| IntegerSets.UnionAppendsMissing | src/org/howard/edu/lsp/assignment6/IntegerSet.java:118-124 | the union keeps the old values in front and appends the missing values of the other, in its order |
| IntegerSets.UnionContents | src/org/howard/edu/lsp/assignment6/IntegerSet.java:118-124 | the union holds exactly the values of both, without duplicates |
| IntegerSets.UnionWithSelf | src/org/howard/edu/lsp/assignment6/IntegerSet.java:118-124 | union with itself changes nothing |
| IntegerSets.RemoveFirst | src/org/howard/edu/lsp/assignment6/IntegerSet.java:108-110 | definition of `List.remove(Object)`: the first occurrence taken out; `IntegerSets.RemoveFirstElements` and `IntegerSets.RemoveFirstAt` state its properties |
| IntegerSets.RemoveFirstElements | src/org/howard/edu/lsp/assignment6/IntegerSet.java:108-110 | removing takes out the value only, keeps no duplicates, and changes nothing when it is absent |
| IntegerSets.RemoveFirstAt | src/org/howard/edu/lsp/assignment6/IntegerSet.java:108-110 | the first occurrence is the one taken out |
| IntegerSets.DistinctCardinality | src/org/howard/edu/lsp/assignment6/IntegerSet.java:31-33 | a list without duplicates has as many values as entries |
| IntegerSets.Render | src/org/howard/edu/lsp/assignment6/IntegerSet.java:177-180 | a bracketed list, "[]" exactly for the empty list |
| IntegerSets.RenderExample | src/org/howard/edu/lsp/assignment6/IntegerSet.java:177-180 | 1, 2, 3 added in order print as "[1, 2, 3]" |
| IntegerSets.ComplementEmptyIffContained | src/org/howard/edu/lsp/assignment6/IntegerSet.java:152-160 | the complement is empty exactly when every value of the other set is in this one; so a complement taken from an empty `other` leaves the set empty, whatever it held |
| IntegerSets.SubsetOfSameSize | src/org/howard/edu/lsp/assignment6/IntegerSet.java:50-53 | a subset of the same size is the whole set, which makes the size-and-containsAll test equality |
| IntegerSets.IntegerSet.constructor | src/org/howard/edu/lsp/assignment6/IntegerSet.java:17 | a new set is empty and valid |
| IntegerSets.IntegerSet.Clear | src/org/howard/edu/lsp/assignment6/IntegerSet.java:22-24 | the set becomes empty |
| IntegerSets.IntegerSet.Length | src/org/howard/edu/lsp/assignment6/IntegerSet.java:31-33 | the number of entries, which is the number of values |
| IntegerSets.IntegerSet.DistinctLength | src/org/howard/edu/lsp/assignment6/IntegerSet.java:31-33 | a valid set has one entry per value |
| IntegerSets.IntegerSet.Contains | src/org/howard/edu/lsp/assignment6/IntegerSet.java:62-64 | true exactly for a value of the set |
| IntegerSets.IntegerSet.IsEmpty | src/org/howard/edu/lsp/assignment6/IntegerSet.java:167-169 | true exactly for the empty set, and exactly when the length is 0 |
| IntegerSets.IntegerSet.Equals | src/org/howard/edu/lsp/assignment6/IntegerSet.java:43-54 | false for null and other classes, true for itself, otherwise same length and every value of the other contained |
| IntegerSets.IntegerSet.EqualsIsSameValues | src/org/howard/edu/lsp/assignment6/IntegerSet.java:43-54 | for valid sets `equals` is equality of the values in any order |
| IntegerSets.IntegerSet.Largest | src/org/howard/edu/lsp/assignment6/IntegerSet.java:72-77 | `IllegalStateException` for the empty set; otherwise a value of the set no smaller than any other |
| IntegerSets.IntegerSet.Smallest | src/org/howard/edu/lsp/assignment6/IntegerSet.java:85-90 | `IllegalStateException` for the empty set; otherwise a value of the set no larger than any other |
| IntegerSets.IntegerSet.Add | src/org/howard/edu/lsp/assignment6/IntegerSet.java:97-101 | the value is appended only when absent; the invariant is kept |
| IntegerSets.IntegerSet.Remove | src/org/howard/edu/lsp/assignment6/IntegerSet.java:108-110 | the value is taken out and is no longer contained; the invariant is kept |
| IntegerSets.IntegerSet.Union | src/org/howard/edu/lsp/assignment6/IntegerSet.java:118-124 | the missing values of the other set are appended in its order; the values are the union |
| IntegerSets.IntegerSet.Intersect | src/org/howard/edu/lsp/assignment6/IntegerSet.java:132-134 | the values also in the other set are kept in order; the values are the intersection |
| IntegerSets.IntegerSet.Diff | src/org/howard/edu/lsp/assignment6/IntegerSet.java:142-144 | the values found in the other set are dropped; the values are the difference |
| IntegerSets.IntegerSet.Complement | src/org/howard/edu/lsp/assignment6/IntegerSet.java:152-160 | the set becomes the values of the other set it did not hold, in the other's order |
| IntegerSets.IntegerSet.ToString | src/org/howard/edu/lsp/assignment6/IntegerSet.java:177-180 | a bracketed list, "[]" exactly for the empty set |
| Devices.BatteryCheck | src/org/howard/edu/lsp/midterm/question4/DoorLock.java:66-68 | passes exactly for 0..100; otherwise the "battery 0..100" `IllegalArgumentException` |
| Devices.ConnectionText | src/org/howard/edu/lsp/midterm/question4/DoorLock.java:79 | "up" exactly when connected, else "down" |
| Devices.StatusLine | src/org/howard/edu/lsp/midterm/question4/DoorLock.java:78-82 | definition of the `getStatus` text; `Devices.StatusLineShape` and `Devices.StatusLineDeterminesState` state its properties |
| Devices.StatusLineShape | src/org/howard/edu/lsp/midterm/question4/DoorLock.java:78-82 | the status line starts with the device kind and shows whether it is up |
| Devices.BatteryTextInjective | src/org/howard/edu/lsp/midterm/question4/DoorLock.java:81 | the battery text determines the level |
| Devices.StatusLineDeterminesState | src/org/howard/edu/lsp/midterm/question4/DoorLock.java:78-82 | the status line determines the connection flag and the battery level |
| Devices.KindsAreDistinguished | src/org/howard/edu/lsp/midterm/question4/Camera.java:78-82 | a door lock's status line is never a camera's |
| Devices.DoorLock.Init | src/org/howard/edu/lsp/midterm/question4/DoorLock.java:17-20 | a door lock with the given id, location and level, not connected |
| Devices.DoorLock.Create | src/org/howard/edu/lsp/midterm/question4/DoorLock.java:17-20 | the constructor throws for a level out of range, else a fresh valid door lock, not connected |
| Devices.DoorLock.Connect | src/org/howard/edu/lsp/midterm/question4/DoorLock.java:26-28 | connected; nothing else changes |
| Devices.DoorLock.Disconnect | src/org/howard/edu/lsp/midterm/question4/DoorLock.java:34-36 | not connected; nothing else changes |
| Devices.DoorLock.IsConnected | src/org/howard/edu/lsp/midterm/question4/DoorLock.java:44-46 | the connection flag |
| Devices.DoorLock.GetBatteryPercent | src/org/howard/edu/lsp/midterm/question4/DoorLock.java:54-56 | the level, always within 0..100 for a valid lock |
| Devices.DoorLock.SetBatteryPercent | src/org/howard/edu/lsp/midterm/question4/DoorLock.java:65-70 | the level is assigned exactly when the guard passes; the invariant and the other fields are kept |
| Devices.DoorLock.GetStatus | src/org/howard/edu/lsp/midterm/question4/DoorLock.java:78-82 | the "DoorLock[...]" status line of the current state |
| Devices.Camera.Init | src/org/howard/edu/lsp/midterm/question4/Camera.java:17-20 | a camera with the given id, location and level, not connected |
| Devices.Camera.Create | src/org/howard/edu/lsp/midterm/question4/Camera.java:17-20 | the constructor throws for a level out of range, else a fresh valid camera, not connected |
| Devices.Camera.Connect | src/org/howard/edu/lsp/midterm/question4/Camera.java:26-28 | connected; nothing else changes |
| Devices.Camera.Disconnect | src/org/howard/edu/lsp/midterm/question4/Camera.java:34-36 | not connected; nothing else changes |
| Devices.Camera.IsConnected | src/org/howard/edu/lsp/midterm/question4/Camera.java:44-46 | the connection flag |
| Devices.Camera.GetBatteryPercent | src/org/howard/edu/lsp/midterm/question4/Camera.java:54-56 | the level, always within 0..100 for a valid camera |
| Devices.Camera.SetBatteryPercent | src/org/howard/edu/lsp/midterm/question4/Camera.java:65-70 | the level is assigned exactly when the guard passes; the invariant and the other fields are kept |
| Devices.Camera.GetStatus | src/org/howard/edu/lsp/midterm/question4/Camera.java:78-82 | the "Camera[...]" status line of the current state |

## Left out

**Number handling**

- `Double.parseDouble` is modelled on plain decimal numerals only: an optional sign, digits, and optionally a point and more digits, with at least one digit. Not modelled:
  - `NaN` and `Infinity`;
  - exponents, hexadecimal forms and the `d`/`f` suffixes;
  - surrounding blanks (the columns are already trimmed).
- Prices are exact reals. The binary rounding of `double` is not modelled. The discount is the exact `price * 0.9`, and `new BigDecimal(double)` sees that exact value.
- Text.ToUpper: maps ASCII `a`-`z` only. Java's `toUpperCase()` follows the default locale over all of Unicode: `é` becomes `É`, `ß` becomes `SS` (the length changes, which `Text.ToUpper`'s same-length contract rules out), and a Turkish locale maps `i` to `İ`.
- Decimal.FormatCents: always writes `.` as the decimal separator. `String.format("%.2f")` uses the default locale's separator, so a German locale prints `19,99`; that case is not modelled.
- `Decimal.RoundToTwoDecimals` returns the exact number of cents. It does not model the conversion back to the nearest `double`.
- Java `int` width and overflow are not modelled (line numbers, counts, battery levels). No count in the core comes near 2^31.

**Console output and I/O**

- Console output is not modelled as printing. That covers the progress lines of both pipelines and the banner lines of `printSummary`. Only the figures the summary prints, the warnings' contents and the error line are modelled.
- `CSVWriter` is not part of this model. The assignment 3 load phase is a `Destination` that is writable or fails with an `IOException`. The written file's format is modelled only for assignment 2's `load`.
- `System.exit(1)` in assignment 2's `extract` ends the model with `Terminated(1)`. Nothing after it runs.
- The causes chained onto rethrown exceptions are kept only for the `RuntimeException` wrapper. The message texts of `IOException`s coming from the file system are parameters.

**Classes and members**

- `Product.toString`, `Product.hashCode` and the getters are left out. The getters are the fields of `Product.View`. `hashCode` is integer arithmetic with wrap-around, and no modelled operation uses it. The `ETLPipeline` getters and the constructors that only store collaborators are left out too.
- The device base class `Device` and the `Networked`/`BatteryPowered` interfaces are not part of this model. `DoorLock` and `Camera` carry their fields (id, location, connection flag) directly. `Thermostat` and the midterm `main` are not part of this model either.
- `main` methods are left out. Each only calls `runPipeline`.
- Devices.DoorLock.Create, Devices.DoorLock.Init, Devices.Camera.Create, Devices.Camera.Init: the check of `id` and `location` done by the `Device` constructor, which the constructors document as throwing `IllegalArgumentException`, is not modelled, because `Device` is not part of this model; any id and location are accepted. The connection flag starts false, which assumes `Device` initialises it so.

**Aliasing and weakened contracts**

- IntegerSets.IntegerSet.Union: when `other` is the same object as `this`, Java's iteration over the list being extended is not modelled. The model reads `other`'s old list, and nothing is appended in that case anyway (`IntegerSets.UnionWithSelf`).
- DataTransformer.Transform and CsvReader.ReadLines: the Java lists are modelled as Dafny sequences of object references. No caller observes the list object itself, so its in-place growth is not modelled.

## Findings

| source | as written | input that shows it | evidently intended | confidence | as-written member | corrected member |
|---|---|---|---|---|---|---|
| src/org/howard/edu/lsp/assignment3/Product.java:173-177 | `a && b ? c : d && e ? f : ...` parses as `(a && b) ? c : ((d && e) ? f : ...)`, so `equals` compares only the id when the prices match and the id is set, and compares other fields when the prices differ | `P1`/WIDGET/1.00/Toys/Low against null/WIDGET/2.00/Toys/Low: `equals` is true one way and false the other | equality of all five fields, symmetric | high (not executed: derived from Java's operator precedence) | Products.EqualsAsWrittenIsNotSymmetric | Products.Product.EqualsIntended |
| src/org/howard/edu/lsp/assignment3/ETLPipeline.java:64 | the rows read are counted as `products.size() + 1`, the products the reader kept, so "Rows skipped" is always 0 | a header and one data line without a comma: the reader warns about line 2, the summary reports 1 row read, 0 processed, 0 skipped | count every data row read, so "Rows skipped" is the number of warnings, as assignment 2 reports it | medium (not executed: the intended count is inferred from the summary's own "Rows skipped" line) | EtlPipeline.SkippedRowIsNotReported | EtlPipeline.IntendedSummaryCountsWarnings |
