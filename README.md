# Container analysis report — a verified model

`main.py` is a single-page Streamlit tool for customs shipment data. The user
uploads Excel workbooks of shipment lines. The tool:

- reads each workbook with its first row skipped and drops the leading index
  column;
- skips a file that is empty, that lacks one of the seven required columns,
  or that cannot be read;
- tags each accepted file with its name and concatenates the files;
- derives an importer key, a parsed date, a master bill number (with a
  synthesised fallback) and a container name;
- clusters the normalised importer names with a fuzzy scorer;
- computes four grouped reductions: the products per container, the weight
  per (container, product), the shipment cost per container and the value per
  importer;
- writes five sheets. The cleaned sheet drops the listed columns. On every
  sheet the rows are sorted in descending order of the first numeric amount
  column, when there is one. Every column gets a width; date columns get a
  date format and numeric amount columns a number format.

This project models that pipeline in Dafny and proves what it promises.

| module | file | what it models |
|---|---|---|
| `Wrappers` | `wrappers.dfy` | `Option`, standing for NaN / NaT |
| `Sequences` | `sequences.dfy` | pandas' first-seen `unique`, sorted group keys, grouped sums that skip missing values |
| `Text` | `text.dfy` | `str.strip` / `upper` / `lower`, substring search, the name normalisation of main.py:29 |
| `Cells` | `cells.dfy` | cell values, `astype(str)` (a missing cell prints as `nan`), `strftime('%B%d')` |
| `Clustering` | `clustering.dfy` | `normalize_importer_names`, with its loop kept as a `method` |
| `Ingest` | `ingest.dfy` | the per-file acceptance loop and `pd.concat` |
| `Derive` | `derive.dfy` | the per-row columns of main.py:77-93 |
| `Aggregate` | `aggregate.dfy` | the four grouped reductions of main.py:95-119 |
| `Report` | `report.dfy` | `write_sheet`: drop, sort column, descending sort, widths and formats |
| `Pipeline` | `pipeline.dfy` | the whole run and the five sheets of main.py:167-171 |

Conventions:

- Calls the model cannot see are parameters:
  - rapidfuzz's `fuzz.token_sort_ratio` is `sim`, a function onto the reals
    from 0 to 100 (`Clustering.Score`), compared with the threshold 90;
  - `pd.to_datetime` and `pd.to_numeric` (with `errors='coerce'`) are the
    fields of `Derive.Parsers`;
  - `pd.read_excel(file, header=1)` is given as its result, `Ingest.Upload.sheet`,
    where `None` means reading raised.
- `process.extractOne` is `Clustering.BestMatch`, the first choice that has
  the highest score.
- The ignore list is copied literally. A comma is missing between
  `'Exporter Contact'` and `'Packaging type'`, so Python joins them into the
  single name `"Exporter ContactPackaging type"`. Neither intended column is
  dropped from the cleaned sheet, and the model keeps that behaviour.

Where the code departs from the tool's stated behaviour, the model follows
the code:

- `Date_str` is `'%B%d'` exactly as printed ("January05"). It is not
  upper-cased.
- Normalisation strips the ends of a name only. Inner runs of spaces stay,
  as `Text.NormalizeKeepsInnerSpaces` shows.
- In "Weight per Product", pandas' `groupby` drops rows whose description
  is missing. Their weight is counted nowhere on that sheet.
- When a row has no bill number and no date, the master bill number stays
  missing and the container name is the text `nan`. That text is an ordinary
  group key: every such row, of every importer, falls into one container
  called `nan` on the products, weight and shipment-cost sheets.
- The mapping built by `normalize_importer_names` is discarded. Every sheet
  is keyed on the stripped, upper-cased `Importer`, never on a canonical
  name. `Pipeline.Run` returns the clusters only so that they can be stated.

## Model

| member | source | states |
|---|---|---|
| Clustering.BestMatch | main.py:40 | the chosen index has the highest score of all choices, and every earlier choice scores strictly lower (the first best one) |
| Clustering.NormalizeImporterNames | main.py:28-48 | the `Normalized_Importer` column is the normalisation of each importer; the clusters are those of the distinct names in first-seen order; exactly the column's values have a map entry; canonical names map to themselves; every value is canonical; canonical names are distinct |
| Clustering.ClusterNames | main.py:34-46 | the loop ends in exactly the state of walking the names one step at a time from the first |
| Clustering.ClusterOfColumn | main.py:34-47 | clustering a column's distinct values gives every value of that column a map entry and nothing else, with canonical names fixed, all values canonical and no duplicate canonical name |
| Clustering.ClusterProperties | main.py:31-47 | for distinct names: keys are the names; canonical names are exactly the self-mapped names in first-seen order and start with the first name; every value is canonical; two canonical names score below the threshold (later against earlier); a joined name scored at least the threshold against its canonical name |
| Clustering.ClusterPrefix | main.py:34-46 | walking more names only appends canonical names and never changes an existing map entry |
| Clustering.StepDecision | main.py:40-46 | one step joins the best match when its score reaches the threshold, and otherwise maps the name to itself; the best score is below the threshold exactly when every canonical score is |
| Clustering.ClusterDecision | main.py:35-46 | the name at a later position joins the best canonical name so far when that score reaches the threshold, and otherwise becomes canonical; it becomes canonical if and only if it scored below the threshold against every earlier canonical name |
| Text.NormalizeShape | main.py:29 | a normalised name holds only A-Z, 0-9 and spaces, and does not begin or end with a space |
| Text.NormalizeIdempotent | main.py:29 | normalising twice is normalising once |
| Text.NormalizeIgnoresCase | main.py:29 | names equal up to ASCII case normalise alike |
| Text.NormalizeLower | main.py:29 | lower-casing a name first changes nothing |
| Text.NormalizeOfNormal | main.py:29 | a name already of the normal shape is its own normalisation |
| Text.NormalizeIgnoresPunctuation | main.py:29 | inserting characters that are not letters, digits or spaces changes nothing |
| Text.NormalizeKeepsInnerSpaces | main.py:29 | a run of two spaces inside a name survives normalisation |
| Text.StripJoin | main.py:84-86 | stripping `importer + " " + date` of two trimmed parts gives the join itself, or the date alone when the importer is empty |
| Ingest.Missing | main.py:63 | a required column is reported missing exactly when it is absent; each is reported once, in the order of the required list |
| Ingest.MissingNone | main.py:63-64 | nothing is missing if and only if every required column is present |
| Ingest.CheckAccepts | main.py:53-71 | a file is accepted if and only if it was read, still holds a present value after the index column goes, has text headers and has every required stripped column; the accepted table carries the file's name and its rows |
| Ingest.IngestFiles | main.py:51-71 | one verdict per upload, in order, and `all_data` holds the accepted tables in upload order |
| Ingest.AcceptedTablesAre | main.py:53-71 | a table is kept if and only if some upload's verdict accepted it; every kept table has all required columns and the name of an upload |
| Ingest.AcceptedTablesAppend | main.py:53-71 | accepting two batches in a row keeps the first batch's tables, then the second's |
| Ingest.ConcatAppend | main.py:76 | concatenating two batches of tables gives the rows of the first, then those of the second |
| Ingest.ConcatOne | main.py:68-76 | concatenating one table gives its rows, each tagged with its file name |
| Derive.ImporterKey | main.py:77 | the importer key is trimmed and holds no lower-case ASCII letter |
| Derive.DateStrReads | main.py:82 | `Date_str` is missing exactly when the date is, and otherwise reads back as the date's month and day |
| Derive.BillKept | main.py:83-87 | a bill number that does not print as `nan` is kept as printed, and the container is its stripped text |
| Derive.BillFallback | main.py:82-87 | a missing bill number on a dated row becomes `Importer + " " + Date_str`, and so does the container, without the space when the importer is empty |
| Derive.BillUnknown | main.py:83-87 | a missing bill number on an undated row stays missing, and its container is `nan` |
| Derive.ContainerTrimmed | main.py:86-87 | a container name has no whitespace at either end |
| Derive.FallbackSameDay | main.py:82-87 | two rows without a bill number, of one importer and dated on the same month and day, share a container, whatever their years |
| Cells.ReadDateTextOfDate | main.py:82 | the `'%B%d'` text of a date reads back as its month and day |
| Cells.DateTextSame | main.py:82 | two dates have the same `'%B%d'` text if and only if they share month and day |
| Aggregate.ProductsOfAre | main.py:96-97 | a container's product list holds each present description of its rows exactly once, in first-seen order, and nothing else |
| Aggregate.ProductsPerContainerRows | main.py:95-104 | one row per distinct container, ascending; each row's list is that container's products and its count is the list's length |
| Aggregate.WeightPerProductRows | main.py:106-109 | one row per (container, description) pair that occurs with a present description, and no pair twice |
| Aggregate.WeightPerContainer | main.py:106-109 | a container's listed weights add up to the present weights of its rows that have a description |
| Aggregate.ShipmentCostRows | main.py:111-114 | one row per distinct container, ascending; each total is the sum of that container's present costs; the totals add up to all present costs |
| Aggregate.ValuePerImporterRows | main.py:116-119 | one row per distinct importer key, ascending; each total is the sum of that importer's present values; the totals add up to all present values |
| Sequences.GroupSumTotal | main.py:107-119 | when the group keys cover every row's key, each once, the group totals add up to the total of all rows |
| Report.DropColumnsKeeps | main.py:125-126 | exactly the columns whose name is not listed remain, in order, with their own cells; a listed name that no column has is ignored; the number of rows is unchanged |
| Report.DropNothing | main.py:125-126 | when no column carries a listed name, no column is dropped |
| Report.SortColumn | main.py:128-135 | the chosen column is numeric and names an amount, and no column before it does; there is none exactly when no column does |
| Report.SortDesc | main.py:137-138 | the rows come out in descending order of the column, missing values last, and are a permutation of the input |
| Report.InsertDescSorted | main.py:137-138 | inserting a row into sorted rows keeps them sorted |
| Report.LongestTextIs | main.py:152 | the longest text is at least each cell's printed length, and is some cell's length when there is a cell |
| Report.SettingBounds | main.py:151-165 | the width is 5 more than the longer of the header and the longest cell (10 when every cell is missing), 5 more again for dates; the date format goes exactly to date columns and the number format exactly to numeric amount columns |
| Report.ScanColumn | main.py:151-152 | one pass over a column finds its longest printed cell and whether every cell is missing |
| Report.ColumnSetting | main.py:151-165 | the setting of a column is the width and format rule applied to its scan |
| Report.ColumnSettings | main.py:148-165 | one setting per column, in column order, each the rule's setting for that column's cells |
| Report.WriteSheet | main.py:124-165 | the sheet carries its name, the frame after drop and sort, and each column's setting |
| Pipeline.WeightSortColumn | main.py:128-135 | the weight sheet sorts by its `Weight (kgs)` column, whatever the kind of its description column |
| Pipeline.CostSortColumn | main.py:128-135 | the shipment-cost sheet sorts by its total |
| Pipeline.ValueSortColumn | main.py:128-135 | the value-per-importer sheet sorts by its total |
| Pipeline.CleanedSortColumn | main.py:125-135 | the ignore list drops none of the modelled cleaned columns; the cleaned sheet sorts by the raw `Value(USD)` when pandas reads it as numbers, and otherwise by `Weight (kgs)` |
| Pipeline.WriteWorkbook | main.py:167-171 | the five sheets, in order, each written from its frame with its name, and only the cleaned sheet drops columns |
| Pipeline.WorkbookSorted | main.py:168-171 | the products sheet is its frame unchanged, so it keeps the ascending container order; the weight, cost and value sheets each hold exactly the rows of their aggregate, in descending order of the amount column |
| Pipeline.CleanedSheetSorted | main.py:167 | the cleaned sheet keeps every modelled column and all rows, in descending order of the raw value when it is numeric, else of the weight |
| Text.Normalize | main.py:29 | the normalised name: upper-cased, stripped of every character outside A-Z, 0-9 and space, then trimmed; its properties are stated by the `Text.Normalize*` lemmas |
| Text.Strip | main.py:86 | `str.strip`: the result is the input with whitespace removed at both ends, so it is a slice of the input with only whitespace before and after it; it is trimmed, and it is the input itself when that is already trimmed |
| Clustering.Step | main.py:35-46 | one iteration of the loop: the first name becomes canonical; a later name joins the best canonical match when its score reaches the threshold, and is appended as canonical otherwise |
| Clustering.Cluster | main.py:34-46 | the state after the loop has walked the names from the first to the last |
| Ingest.Check | main.py:54-71 | the verdict on one file: read error, empty after dropping the index column, non-text header, missing columns (listed), or accepted with its name attached |
| Ingest.Concat | main.py:76 | the rows of the accepted tables, table by table in upload order, each read by column name |
| Derive.MasterBill | main.py:83-84 | the bill number as text, with `nan` read as missing and a missing one replaced by `Importer + " " + Date_str` |
| Derive.ContainerName | main.py:86-87 | the stripped text of the master bill number, `nan` when it is missing |
| Derive.DeriveRow | main.py:77-93 | one derived row: importer key, normalised importer, parsed date, `Date_str`, bill, container and the parsed amounts |
| Cells.DateText | main.py:82 | `strftime('%B%d')`: the English month name followed by the day in two digits |
| Cells.ZeroPad | main.py:83 | the digits of the number, preceded by zeros up to the width: the last characters are the number's own digits and every one before them is '0' |
| Cells.ReadZeroPad | main.py:83 | a zero-padded number reads back as that number |
| Cells.IsoTextInjective | main.py:83 | two dates with the same "YYYY-MM-DD" text are the same date |
| Cells.IsoTextExample | main.py:83 | January 5, 2020 prints as "2020-01-05" |
| Cells.Show | main.py:83 | `astype(str)` of one cell, with `nan` for a missing one |
| Aggregate.ProductsPerContainer | main.py:95-104 | one products row per container in ascending order, with its product list and the list's length |
| Aggregate.WeightPerProduct | main.py:106-109 | one row per (container, present description) pair, with the sum of its present weights |
| Aggregate.ShipmentCost | main.py:111-114 | the present costs summed per container, containers ascending |
| Aggregate.ValuePerImporter | main.py:116-119 | the present values summed per importer key, keys ascending |
| Report.DropColumns | main.py:125-126 | the frame without the columns whose name is listed |
| Report.Shape | main.py:125-138 | the frame as written: columns dropped when a list is given, then rows sorted by the sort column when there is one |
| Report.ShapeRows | main.py:125-138 | shaping keeps the columns left after dropping and the same rows; with a sort column the rows are in descending order of it, without one they keep their order |
| Pipeline.ProductsSortColumn | main.py:128-135 | the products sheet has no sort column: "Total Products in Container" names no amount |
| Pipeline.Frames | main.py:167-171 | the five frames in the order they are written: cleaned data, products, weight, cost, value |
| Pipeline.WorkbookOf | main.py:167-171 | each of the five sheets is `write_sheet` of its frame, with its name, and only the cleaned sheet gets the ignore list |
| Pipeline.Run | main.py:50-171 | one verdict per upload; no workbook exactly when no file was accepted; otherwise the clusters of the normalised importer column and the five written sheets |

## Left out

- The Streamlit interface is not modelled: page set-up, the uploader, the
  warning and error texts, `st.stop`, the success message and the download
  button. The verdicts stand for the warnings and errors.
- Reading workbooks (`pd.read_excel(..., header=1)`) is a parameter: each
  upload arrives already parsed, or as a failure.
- Writing the workbook through xlsxwriter is reduced to what `set_column`
  receives. The bytes, `to_excel`, the bold header format and `freeze_panes`
  are not modelled.
- A sort column with an empty name would be skipped by `if sort_col:`. No
  amount name is empty, so the model does not represent that check.
- rapidfuzz's `token_sort_ratio`, `pd.to_datetime` and `pd.to_numeric` are
  parameters. Their own behaviour is not modelled.
- Numbers are integers. Floating-point values, float sums and the float
  text that `astype(str)` prints (`"100.0"`) are not modelled, so a column
  width comes from the integer's text.
- Dates carry no time of day. A parsed date column prints as "YYYY-MM-DD"
  (`Cells.IsoTextExample`), and different dates print differently
  (`Cells.IsoTextInjective`).
- Cells.Show: it prints a cell the same way whatever its column's dtype.
  pandas does not, in two cases the model leaves out:
  - in a column of mixed values (a bill number or a description that holds
    a date) pandas prints a date as "YYYY-MM-DD 00:00:00", where `Show`
    prints "YYYY-MM-DD";
  - a blank cell of a date-typed column prints as "NaT", not "nan". When the
    whole `Master Bill Number` column reads as dates, main.py:83's
    `replace("nan", np.nan)` does not fire and a blank bill stays "NaT",
    where `Derive.MasterBill` falls back to `Importer + " " + Date_str`.
  Such texts, their container names and their widths are not modelled as
  pandas prints them.
- Cells.Repr: a text inside a products list is always printed in single
  quotes. Python's `repr` switches to double quotes for a text that holds a
  single quote, and escapes backslashes and control characters, so the
  width of such a list can differ by those characters.
- Upper- and lower-casing cover ASCII letters only. Python's Unicode case
  mapping is not modelled.
- When a file has two columns with the same stripped name, the model reads
  the first. pandas would hand back both.
- The concatenated frame is modelled through the seven required columns and
  `source_file`. The cleaned sheet holds those columns plus the derived ones;
  the other columns a file brings are not modelled.
- Report.SortDesc: states the descending order and the permutation but not
  the order of equal keys. pandas' default sort is not stable, so the
  source promises none either.
- Aggregate.WeightPerProductRows: the (container, description) groups come in
  first-seen order. pandas sorts them, but a description column of mixed
  types has no order the model could state.
- Pipeline.Run: the cleaned sheet's frame covers only the modelled columns,
  and the model reorders them: the seven required columns in the order of
  the required list, then the derived ones in the order main.py adds them.
  `pd.concat` keeps the first accepted file's column order instead. Among the
  modelled columns the sort column does not depend on that order, because
  `Value(USD)` is the only one of the seven required columns that names an
  amount.
- Pipeline.CleanedSortColumn / Pipeline.CleanedSheetSorted: both hold only
  when the files bring no other numeric column whose name holds "cost",
  "revenue", "weight" or "value" and that the ignore list keeps (a "Gross
  Weight" column, say). Such a column comes before the derived columns, and
  main.py:128-135 would sort the cleaned sheet by it, or by an earlier one.
- Clustering.BestMatch: it is exact for real-valued scores. If a scorer
  rounded its scores to integers, two choices such as 92.3 and 92.7 would
  tie and the first would win, where `extractOne` picks the second. The
  scorer is a parameter, so the model leaves that to the scorer.

