# jonah: spreadsheet diff of vendor line items

jonah compares two revisions of a construction-cost spreadsheet. Each sheet
stacks several per-vendor sub-tables. Every sub-table starts with a row whose
first cell is `Vendor`, and that row also holds the sub-table's column labels.

The program works in two stages:

- `clean` flattens a sheet into one table with a filled vendor column.
- `compare` classifies every line item of the new sheet against the old one, at three
  levels: vendor, then PO number, then cost code. A line item whose three keys are all
  present in the old sheet is an exact match, and `compare` reports its five monetary
  differences, new minus old.

The model has four modules.

- `Sheet` (sheet.dfy) holds:
  - cells (`Empty` stands for a missing value);
  - the raw grid handed over by the spreadsheet reader;
  - tables;
  - the errors the code raises, as values of a `Result`.
- `Cleaning` (cleaning.dfy) is `clean`.
  - Its pure part consists of the functions `Markers`, `Tables`, `DroppedAll` and
    `FilledAll`, together with the specification `Flatten`.
  - Its two loops are the methods `FillBlocks` and `CheckHeaders`.
  - The method `Clean` puts the steps together and is proved equal to `Flatten`.
  - `CleaningProps` (cleaning_props.dfy) proves what `Flatten` promises.
- `Comparison` (comparison.dfy) is `make_new_item_row` and `compare`.
  - `Classify` is the four-case decision for one new row.
  - `Diff` is the specification of the whole loop.
  - The method `Compare` builds the sets of old vendors and of their PO numbers, runs
    the loop, and is proved equal to `Diff`.
  - `ComparisonProps` (comparison_props.dfy) proves the case analysis, the uniqueness
    check and the differences.
- `Output` (output.dfy) is the last two statements of `compare`: building the frame
  and selecting the fixed column order.
  - `OutputProps` (output_props.dfy) relates the selection as written to the
    intended one.

Monetary amounts are integers, so every difference is exact. Key columns compare as a
data-frame column comparison does: a missing key equals nothing, not even another
missing key.

## Model

| member | source | states |
|---|---|---|
| Cleaning.Markers | jonah/jonah.py:6 | The marker indices are exactly the rows whose first cell is `Vendor`. Each appears once, and they are strictly increasing. |
| Cleaning.Blocks | jonah/jonah.py:8 | Slicing at k increasing marker positions gives k-1 blocks, and none when k < 2. |
| Cleaning.Tables | jonah/jonah.py:8-10 | There is one promoted block fewer than there are marker rows, and every block's header is a marker row. |
| CleaningProps.TablesCount | jonah/jonah.py:8 | With k marker rows there are k-1 blocks, and none when k < 2. |
| CleaningProps.BlockShape | jonah/jonah.py:6-8 | Block i is the slice from marker i up to marker i+1. It starts with a marker row and contains no other marker row. |
| CleaningProps.BlocksCover | jonah/jonah.py:8 | Concatenated, the blocks are exactly the rows from the first marker up to, but not including, the last marker. |
| CleaningProps.FlattenIgnoresTail | jonah/jonah.py:8 | Appending marker-free rows after the last marker leaves the result or error of `clean` unchanged. |
| CleaningProps.TableOfBlock | jonah/jonah.py:10 | A block's header is its marker row, and its data is the rows strictly between that marker and the next. |
| Cleaning.IndexOf | jonah/jonah.py:13 | Gives the first header position holding the label, or none exactly when the label is absent. |
| Cleaning.KeepWithValue | jonah/jonah.py:13 | A row is kept exactly when it occurs in the block and has a value in the PO column. |
| Cleaning.DropWithValue | jonah/jonah.py:13 | A row is dropped exactly when it occurs in the block and lacks a PO value. |
| Cleaning.KeepWithValueAppend | jonah/jonah.py:13 | Filtering a concatenation filters each part and concatenates the results, so kept rows stay in their original order. |
| Cleaning.KeepWithValueSingle | jonah/jonah.py:13 | A single row is kept exactly when it has a PO value. Together with the previous row this fixes the filter to the in-order one. |
| Cleaning.KeepWithValuePartition | jonah/jonah.py:13 | Kept rows plus dropped rows equal the block's rows, as a multiset and in count: no other row is removed. |
| Cleaning.KeepWithValueAll | jonah/jonah.py:13 | When every row has a PO value, the block is unchanged. |
| Cleaning.DroppedAll | jonah/jonah.py:13 | Dropping rows keeps the number of blocks and every block's header. |
| Cleaning.FirstVendor | jonah/jonah.py:20 | Gives the first non-missing vendor value, with every earlier vendor cell missing. It gives none exactly when the block has no vendor value. |
| Cleaning.Fill | jonah/jonah.py:21 | Every non-empty row gets the vendor in its vendor column. The header, the row count, the row widths and every other cell are unchanged. |
| Cleaning.FillBlocks | jonah/jonah.py:18-22 | The loop succeeds exactly when every block has a vendor value, and then returns every block filled with its first vendor, in order. Otherwise it fails with the missing-vendor error. |
| Cleaning.CheckHeaders | jonah/jonah.py:25-27 | The loop returns true exactly when each block's labels equal the next block's. |
| Cleaning.SameHeadersIffAll | jonah/jonah.py:25-27 | Checking neighbouring blocks is equivalent to all blocks sharing one header. |
| CleaningProps.FlattenRejectsMismatch | jonah/jonah.py:25-27 | Two blocks whose marker rows differ make `clean` fail with a header mismatch, once the PO and vendor checks have passed. |
| CleaningProps.FlattenHeader | jonah/jonah.py:25-29 | On success, every marker row except the last equals the result's header. |
| CleaningProps.FlattenTooFewMarkers | jonah/jonah.py:29 | A sheet with columns and fewer than two marker rows fails, because there are no blocks to concatenate. |
| CleaningProps.FlattenSucceeds | jonah/jonah.py:5-30 | `clean` succeeds exactly when the sheet has columns and at least two marker rows, every block has a PO column and a vendor value, and all blocks share one header. |
| CleaningProps.FlattenRowCount | jonah/jonah.py:29 | The result's row count is the total number of rows that survive the PO filter. |
| CleaningProps.FlattenedRows | jonah/jonah.py:5-30 | For a rectangular sheet, the header is a marker row of the sheet's width. Every result row has that width, a non-missing vendor and a PO value. |
| Cleaning.Flatten | jonah/jonah.py:5-30 | The specification of `clean`. It fails with the column error exactly when the sheet has no columns, fails only with one of the five errors `clean` can raise, and on success has a marker row as its header. |
| Cleaning.Clean | jonah/jonah.py:5-30 | The method returns exactly `Flatten`: the result, or the first failing check in the code's order. |
| Comparison.NewItemRow | jonah/jonah.py:40-46 | Fails exactly when no flag is set. Otherwise it copies the row, carries no differences, and its flags satisfy new vendor ⇒ new PO ⇒ new cost code, with new PO = new_vendor ∨ new_po. |
| Comparison.Matching | jonah/jonah.py:89 | Gives exactly the old rows with the same vendor, PO number and cost code, and never more rows than the old table has. |
| Comparison.Classify | jonah/jonah.py:69-100 | The output row for one new row copies it and carries differences exactly when no flag is set. A failure is always the ambiguous-match error with the keys and the number of matching old rows. |
| Comparison.Diff | jonah/jonah.py:66-100 | The specification of the loop. On success there is one output row per new row; a failure is always an ambiguous match. |
| ComparisonProps.KnownLevelsNest | jonah/jonah.py:71-83 | A known cost code implies a known PO number, which implies a known vendor. |
| ComparisonProps.ClassifyCases | jonah/jonah.py:69-96 | The four cases in priority order. An unknown vendor gives (T,T,T), an unknown PO gives (F,T,T), an unknown cost code gives (F,F,T), and an exact match gives (F,F,F) with differences. |
| ComparisonProps.ClassifyShape | jonah/jonah.py:40-100 | Every output row copies its new row, its flags nest, and it carries differences exactly when no flag is set. |
| ComparisonProps.ExactMatchUnique | jonah/jonah.py:87-91 | An exact match has at least one matching old row. It fails exactly when there is more than one, with the keys and the count. |
| ComparisonProps.MatchingOne | jonah/jonah.py:89 | When exactly one old row, by position, has the keys, the match is that one row. |
| ComparisonProps.UniqueMatchOk | jonah/jonah.py:87-100 | When exactly one old row has the keys, the row succeeds with no flags set, and its differences are new minus that row's values. |
| ComparisonProps.ExactMatchOkIffUnique | jonah/jonah.py:87-91 | An exact match succeeds exactly when a single old row, by position, has the row's vendor, PO number and cost code. |
| ComparisonProps.ExactMatchDeltas | jonah/jonah.py:97-99 | A successful exact match has one old row with its keys, and each of the five differences is new minus that row's value. |
| ComparisonProps.DuplicateKeysRejected | jonah/jonah.py:89-91 | Two old rows with the same three keys make every new row with those keys fail. |
| ComparisonProps.ClassifyErr | jonah/jonah.py:91 | The only way a row fails is an ambiguous exact match. |
| ComparisonProps.DiffOk | jonah/jonah.py:66-100 | `compare` succeeds exactly when every new row can be classified. It then emits one output row per new row, in the new table's order. |
| ComparisonProps.DiffErr | jonah/jonah.py:66-100 | On failure, the error is that of the first new row that cannot be classified. |
| Comparison.DiffPrefixErr | jonah/jonah.py:91 | Once a prefix of the new table fails, the whole comparison fails with the same error. |
| Comparison.Compare | jonah/jonah.py:55-100 | The set and dictionary of old vendors and PO numbers, followed by the loop, compute exactly `Diff`. |
| OutputProps.SingleOldExact | jonah/jonah.py:87-100 | With a single old row carrying the same keys, the new row is an exact match with differences new minus old. |
| OutputProps.ExactThenNewVendor | jonah/jonah.py:66-100 | A matched row and then a row of an unknown vendor give, in order, the differences and then the (T,T,T) row. |
| OutputProps.NewCostCodeOnly | jonah/jonah.py:81-85 | A new cost code under a known vendor and PO number is flagged as a new cost code only. |
| Output.Render | jonah/jonah.py:103 | One output row has the 16 cells of the fixed column order. Each difference cell is missing exactly when the row carries no differences. |
| Output.SelectAsWritten | jonah/jonah.py:102-103 | The selection as written fails only with the missing-columns error, and when it succeeds it equals the intended selection. |
| Output.Select | jonah/jonah.py:102-103 | The intended frame has one 16-column row per output row. |
| OutputProps.ReportRows | jonah/jonah.py:93-103 | The intended frame exists exactly when the diff succeeds, with one row per new row, in order. Each row shows the keys, the three flags and all five amounts in the fixed column order. The difference columns are missing exactly for the three kinds of new row, and otherwise hold the differences. |
| OutputProps.FrameColumnsShape | jonah/jonah.py:102 | The frame built from the records has the shared columns once it has a row. It has the difference columns exactly when some row is an exact match. |
| OutputProps.SelectAsWrittenOk | jonah/jonah.py:102-103 | The selection as written succeeds exactly when some row is an exact match, and it then equals the intended selection. |
| OutputProps.NoExactMatchRejected | jonah/jonah.py:102-103 | When no new row is an exact match, `compare` as written fails, while the intended frame has one row per new row. |
| OutputProps.OnlyNewVendorRejected | jonah/jonah.py:102-103 | With an empty old sheet and one new line item, `compare` as written fails. The intended frame is that one row, flagged (T,T,T). |

## Left out

- Reading and writing files (`read_excel`, `to_csv`), the command line (`main`), the stub `compare_spreadsheets`, the Streamlit front end in jonah/app.py and the packaging in setup.py are not part of this model.
- There is no change log to model: the code has none, though the front end unpacks one.
- The grid is the data frame after reading. Its first row, which the reader consumes as column labels, is outside the model.
  - `rename` replaces labels positionally, so those labels never matter.
- Floating-point amounts and data-type coercion are not modelled. Amounts are integers, so the differences are exact.
- Comparison.Compare: matches a missing key against nothing. Python set membership of a NaN depends on object identity.
  - This matters only for a missing cost code, since the vendor is filled and PO-less rows are gone.
- Cleaning.IndexOf: resolves a duplicated column label to its first occurrence. A data frame would select every column with that label.
  - The model also takes the vendor column to be the first column. That is the column labelled `Vendor` by the marker row, unless a later column carries the same label.
- Comparison.NewItemRow: the output row holds the line item's vendor, PO number, cost code and five amounts. Any other column that `to_dict` would copy is not modelled.
  - The typed view of a cleaned table as line items is not modelled either.
- Errors carry no message text. The ambiguous-match error carries the keys and the count that the message prints.
- Three behaviours of the code differ from what the sheet layout suggests, and the model follows the code:
  - the rows from the last marker row on are never part of a block (FlattenIgnoresTail);
  - a block takes its first non-missing vendor value and does not check that only one exists;
  - a sheet with fewer than two marker rows fails, because concatenating no blocks fails.

## Findings

| source | as written | input that shows it | evidently intended | confidence | as-written member | corrected member |
|---|---|---|---|---|---|---|
| jonah/jonah.py:102-103 | The frame is built from the records, whose `*_diff` keys exist only for exact matches. Selecting `output_order` from that frame raises KeyError unless some row is an exact match. | An empty old sheet and a new sheet with one line item, or any new sheet without an exact match, including an empty one. | One row per new row in the fixed column order, with the difference columns left missing for the new rows. | not executed | Output.SelectAsWritten (OutputProps.OnlyNewVendorRejected, OutputProps.NoExactMatchRejected) | Output.Select (OutputProps.ReportRows, OutputProps.SelectAsWrittenOk) |
