# Coffee-shop ETL core, modelled in Dafny

This project models the core of a coffee-shop ETL pipeline. The pipeline takes point-of-sale
CSV records and turns them into four relational tables: branches, transactions, products and
product_transactions. It then writes those tables to a PostgreSQL database.

The model covers these stages:

- **extract** (`src/etl.py`). It drops the header record and keys every other record by the
  seven column names. It works on records already split into fields.
- **parse_items** (`src/etl.py`; an identical copy is in `src/extract_data.py`). It splits the
  items text on commas and strips each segment. Each segment is matched against the pattern
  with a variant first, then the pattern without one. The price goes through `float()`.
- **transform** (`src/etl.py`). It rewrites each row dictionary in place:
  - the items text becomes the parsed items;
  - the total cost becomes a number;
  - the timestamp is rewritten from `DD/MM/YYYY HH:MM` to `YYYY-MM-DD HH:MM:SS`;
  - `customer_name` and `credit_card` are removed.
- **normalize** (`src/etl.py`). One forward pass builds the four tables. Branches are keyed by
  location and products by (name, variant, size, price). Each gets dense 1-based ids in
  first-seen order.
- **prepare_data** and **validate_data**, the earlier extraction stage
  (`src/extract_data.py`).
- **The four separate normalisers** of the earlier variant (`src/normalise_data.py`).
- **save_data_in_db** (`src/utils/sql_utils.py`): the batch loader, with identity-column
  exclusion, one `executemany`, then a commit, or a rollback and a re-raise.
- **insert_data** (`src/load_data.py`): the row-by-row loader. It uses named parameters, one
  commit, and on failure a rollback with the exception swallowed.

How the model represents things:

- **Dictionaries** are insertion-ordered association lists (`Values.Dict`). Key order matters:
  it is the column order of the generated SQL.
- **Rows that `transform` updates in place** are objects of class `Values.Row`.
- **The database connection** is a class (`Connection.Connection`) that records every call
  made on it, in order. The set of places in that record where the database refuses a call is
  fixed when the connection is made. A refused call raises `DbError(place)`.
- **Regular expressions** are character-class grammars:
  - `\w` is ASCII letters, digits and `_`;
  - `\s` and `str.strip()` use the `str.isspace` set;
  - `[a-zA-Z\s]` and `[0-9.]` are as written.
- **Prices and costs** are exact rationals (`real`), so `"1.50"` and `"1.5"` give the same
  product key.
- **`strptime` and `strftime`** are an explicit field grammar, a calendar check and
  zero-padded formatting.

Each imperative loop of the source is a Dafny method with loop invariants. Its `ensures` ties
its result to a loop-free reference function. The properties the source promises are lemmas
about those reference functions.

## Model

| member | source | states |
|---|---|---|
| Etl.NonBlank | src/etl.py:12-16 | the reader hands out records of its input, in input order (a subsequence), and never more than it is given |
| Etl.NonBlankOrder | src/etl.py:12-16 | the records handed out are exactly the input's records with at least one field, each occurrence once, in input order: the j-th comes from place `idx[j]`, the places increase, and a place is listed exactly when its record has a field |
| Etl.NonBlankMembers | src/etl.py:12-16 | a record is handed out exactly when it is in the input and has at least one field |
| Etl.Extract | src/etl.py:10-24 | fails, with StopIteration, exactly when the reader yields no record (`next(reader)` on line 19); otherwise returns one row per record after the header |
| Etl.ColumnNamesUnique | src/etl.py:8 | every keyed record has exactly the seven column names as keys, in order, each once |
| Etl.KeyRecordGet | src/etl.py:12-16 | under column c, a keyed record holds the record's c-th field, or None when the record is shorter |
| Etl.ExtractRow | src/etl.py:19-21 | row j of the result is the (j+1)-th non-empty record keyed by the column names, with None for missing fields |
| Etl.CostOf | src/etl.py:71 | `float(row.get("total_cost", 0.0))`, when it does not raise, always gives a number |
| Etl.StampOf | src/etl.py:72 | the timestamp rewrite, when it does not raise, always gives text |
| Etl.RunRows | src/etl.py:69-74 | the loop over the rows leaves exactly as many rows as it was given |
| Etl.ExecStmt | src/etl.py:70-74 | one assignment or pop of the loop body, done in place: the row becomes the statement's result, or is left as it was when the right-hand side raises |
| Etl.TransformOne | src/etl.py:70-74 | the loop body on one row, in place: the row and the exception are those of the body's statements run in order up to the first that raises |
| Etl.Transform | src/etl.py:67-76 | returns the same list; the rows' new contents and the exception are those of the reference loop `TransformAll` on the old contents |
| Etl.Spliced | src/etl.py:69-74 | after row i raises, the list is the rewritten rows before i, row i as left, and the untouched rows after it |
| Etl.Unrolled | src/etl.py:70-74 | the loop body as nested cases: items replaced, then cost converted, then timestamp rewritten, then the two pops; the first exception ends it |
| Etl.ConvertThenRest | src/etl.py:71-74 | the body from the cost conversion on: a failed conversion raises and leaves the row; otherwise it continues with the converted cost stored |
| Etl.ReformatThenDiscard | src/etl.py:72-74 | the body from the timestamp rewrite on: a failed rewrite raises; otherwise the new timestamp is stored and both private keys are popped |
| Etl.TransformRowError | src/etl.py:71-72 | a row raises exactly the cost conversion's exception, or else the timestamp's, or nothing; the cost is converted first |
| Etl.TransformRowGet | src/etl.py:70-74 | a row that passes holds the parsed items, the number and the new timestamp, has no customer name or card number, and keeps every other key's value |
| Etl.RowPrivacy | src/etl.py:73-74 | a row that passes has neither `customer_name` nor `credit_card` among its keys |
| Etl.RunSucceeded | src/etl.py:69-74 | when the loop raises nothing, every row is the step's result on its old contents |
| Etl.RunFailed | src/etl.py:69-74 | when the loop raises, there is a first row whose step raised: the rows before it are rewritten, it is as the step left it, and the rows after it are untouched |
| Etl.RunAllPass | src/etl.py:69-74 | conversely, when every row passes, the loop rewrites every row and raises nothing |
| Etl.RunStopsAt | src/etl.py:69-74 | conversely, when the rows before p pass and row p raises, the loop raises row p's exception, with rows after p untouched |
| Etl.TransformPrivacy | src/etl.py:67-76 | after a transform that raises nothing, no row has `customer_name` or `credit_card` |
| Etl.TransformRow | src/etl.py:70-74 | defining function of the loop body on one row; specified by `Unrolled`, `TransformRowError`, `TransformRowGet`, `RowPrivacy` and `TransformOne` |
| Etl.TransformAll | src/etl.py:69-74 | defining function of the loop over the rows; specified by `RunSucceeded`, `RunFailed`, `RunAllPass`, `RunStopsAt`, `Transform` and `TransformPrivacy` |
| ItemParser.WordRun | src/etl.py:34 | the longest run of `\w` characters that opens the text |
| ItemParser.ParseItems | src/etl.py:27-66 | the loop over the comma-separated segments returns exactly `ParsedItems(column)`: the items in segment order, up to the first price `float()` refuses |
| ItemParser.WithVariantComplete | src/etl.py:34 | every text of the shape size, padded name, `-`, padded variant, `-`, blanks and price is matched, with the stripped groups |
| ItemParser.WithoutVariantComplete | src/etl.py:35 | every text of the shape size, padded name, `-`, blanks and price is matched by the pattern without a variant, with variant None |
| ItemParser.WithVariantSound | src/etl.py:34 | a text the first pattern accepts is made of the pieces the pattern describes, and the groups are those pieces stripped |
| ItemParser.WithoutVariantSound | src/etl.py:35 | a text the second pattern accepts is made of the pieces that pattern describes |
| ItemParser.PatternsExclusive | src/etl.py:34-35 | the two patterns never both match, because they need different numbers of hyphens |
| ItemParser.StrippedName | src/etl.py:43 | a stripped name or variant group is its own strip and contains no `-` |
| ItemParser.PriceFloat | src/etl.py:46 | `float()` of a matched price is the numeral it spells |
| ItemParser.VariantFromFirstPattern | src/etl.py:40-59 | an item has a variant string exactly when its segment matched the first pattern, and then it is that pattern's variant group |
| ItemParser.MatchWellFormed | src/etl.py:43-45 | the groups of either pattern are stripped, free of `-`, and the size is a non-empty word |
| ItemParser.SegmentWellFormed | src/etl.py:43-45 | every emitted item's size, name and variant are stripped and free of `-`, the size is non-empty, and the price is not negative |
| ItemParser.CollectWellFormed | src/etl.py:37-59 | every item in the result is well formed |
| ItemParser.CollectLength | src/etl.py:31-62 | the result is never longer than the number of segments |
| ItemParser.CollectUpToBadPrice | src/etl.py:46-66 | when the segment at p is the first with a refused price, the result is exactly the items of the segments before p |
| ItemParser.KeptAppend | src/etl.py:37-59 | the reference list of items of a sequence of segments distributes over concatenation |
| ItemParser.NoSeparators | src/etl.py:31-62 | a field with neither a comma nor a hyphen yields no item |
| ItemParser.SegmentWithVariant | src/etl.py:38-48 | a segment in the first pattern's shape becomes that item, or a refused price |
| ItemParser.SegmentWithoutVariant | src/etl.py:50-59 | a segment in the second pattern's shape becomes that item with variant None, or a refused price |
| ItemParser.BlankNameAccepted | src/etl.py:51-55 | a name of whitespace only is matched and stripped to the empty name |
| ItemParser.MissingVariantSkipped | src/etl.py:34-62 | two hyphens with only blanks between them match neither pattern, and the segment is skipped |
| ItemParser.ParseSegment | src/etl.py:38-59 | defining function of the loop body on one segment; specified by `SegmentWithVariant`, `SegmentWithoutVariant`, `SegmentWellFormed`, `VariantFromFirstPattern` and `MissingVariantSkipped` |
| ItemParser.ParsedItems | src/etl.py:31-62 | defining function of what `parse_items` returns; specified by `ParseItems`, `CollectWellFormed`, `CollectLength`, `CollectUpToBadPrice` and `NoSeparators` |
| ItemExamples.ExampleNotValid | src/test_extract_data.py:27-30 | `parse_items("This is not valid")` is the empty list |
| ItemExamples.ExampleWithVariant | src/etl.py:40-47 | `Large Latte - Vanilla - 3.5` becomes size Large, name Latte, variant Vanilla, price 3.5 |
| ItemExamples.ExampleMissingVariant | src/test_extract_data.py:52 | `Regular Coffee - - 2.5` matches neither pattern |
| Text.Find | src/etl.py:72 | the first position of a character, or its absence; strptime's `/` and `:` separators are found with it, as is the point of a number in `float()` |
| Text.SplitOn | src/etl.py:31 | `split` returns at least one piece |
| Text.Repeat | src/utils/sql_utils.py:114 | `[x] * n` has n elements, each x |
| Text.StripShape | src/etl.py:38 | `strip()` returns a slice of its input with only whitespace cut from each end, and does not begin or end with whitespace |
| Text.StripUnpadded | src/etl.py:38 | a text with no whitespace at either end is its own strip |
| Text.StripStrip | src/etl.py:43-45 | strip is idempotent |
| Text.StripKeeps | src/etl.py:38 | strip keeps only characters of its input |
| Text.StripPadded | src/etl.py:43-45 | whitespace around a group does not change the group once stripped |
| Text.SplitOnNoSeparator | src/etl.py:31 | a text without the separator splits into itself |
| Text.SplitOnPieces | src/etl.py:31 | no piece of `split(c)` contains c |
| Text.JoinSplit | src/etl.py:31 | joining the pieces of `split(c)` with c gives the text back |
| Text.SplitJoinPadded | src/utils/sql_utils.py:113-114 | splitting a `", "`-join at the commas gives back the parts, each after the first with the padding in front |
| Text.SubsequenceIndices | src/utils/sql_utils.py:106-109 | a subsequence takes its elements from strictly increasing places of the longer sequence, which is what keeping entries in their original order means |
| Text.SplitJoin | src/etl.py:31 | `split` undoes `join` when no part contains the separator |
| Text.Strip | src/etl.py:38 | defining function of `str.strip()`; specified by `StripShape`, `StripUnpadded`, `StripStrip`, `StripKeeps` and `StripPadded` |
| Decimal.ParseNumeral | src/etl.py:46 | `float()` of a `[0-9.]+` text is never negative |
| Decimal.PointedNumeral | src/etl.py:46 | a numeral with a point has the value of its whole and fractional digits |
| Decimal.TrailingZero | src/etl.py:46 | trailing zeros after the point do not change the value |
| Decimal.NumeralAccepts | src/etl.py:46 | a `[0-9.]+` text is accepted exactly when it has at most one point and at least one digit |
| Decimal.ExampleTrailingZero | src/etl.py:113 | `"1.50"` and `"1.5"` give the same price, so the same product key |
| Decimal.ExampleRejected | src/etl.py:46-66 | `float()` refuses `"1.2.3"` and `"."` |
| Decimal.ExampleCell | src/extract_data.py:84 | the cell `" 10.00 "` converts to 10.0 |
| Decimal.ExampleNotANumber | src/extract_data.py:84 | `float("abc")` raises |
| Decimal.PyFloat | src/extract_data.py:84 | defining function of `float()` on text; specified by `ParseNumeral`, `PointedNumeral`, `NumeralAccepts`, `TrailingZero`, `ItemParser.PriceFloat` and the examples |
| Timestamps.ParseSource | src/etl.py:72 | strptime with `%d/%m/%Y %H:%M` only returns real calendar dates and times |
| Timestamps.ParseAfterDay | src/etl.py:72 | after the day field, strptime only returns real calendar dates and times |
| Timestamps.ParseAfterMonth | src/etl.py:72 | after the month field, strptime only returns real calendar dates and times |
| Timestamps.ParseClock | src/etl.py:72 | after the year field, strptime only returns real calendar dates and times |
| Timestamps.Assemble | src/etl.py:72 | fields are combined into a date only when it is a real calendar date and time |
| Timestamps.Digits | src/etl.py:72 | zero-padded formatting has exactly the width asked for, all digits |
| Timestamps.SourceRoundTrip | src/etl.py:72 | the zero-padded source text of a date reads back as that date when the calendar allows it, and raises otherwise |
| Timestamps.ParseSourceComplete | src/etl.py:72 | every text of the form day `/` month `/` four-digit year, one or more whitespace characters, hour `:` minute, with the day, month, hour and minute each one or two digits within their ranges (the day also a blank and a non-zero digit), is read as the date its fields spell when the calendar allows it, and raises otherwise |
| Timestamps.ParseSourceSound | src/etl.py:72 | conversely, every text strptime accepts has exactly that form, and the date returned is the one its fields spell |
| Timestamps.ExampleUnpadded | src/normalise_data.py:23 | `1/1/2024 9:05`, with fields not zero-padded, reads as 2024-01-01 09:05 |
| Timestamps.ReformatFields | src/etl.py:72 | the rewrite raises exactly when strptime does; otherwise the output has 19 characters, ends in `00` seconds, and every field of the parsed date reads back from it |
| Timestamps.Reformat | src/etl.py:72 | defining function of the timestamp rewrite; specified by `ReformatFields` and `ExampleReformat` |
| Timestamps.FormatIso | src/etl.py:72 | defining function of `strftime("%Y-%m-%d %H:%M:%S")`; specified by `IsoShape` |
| Timestamps.IsoShape | src/etl.py:72 | the output is `YYYY-MM-DD HH:MM:00`, zero-padded, and every field reads back from it |
| Timestamps.ExampleReformat | src/etl.py:72 | `"21/04/2024 09:00"` becomes `"2024-04-21 09:00:00"` |
| Timestamps.ExampleNotLeapYear | src/normalise_data.py:23 | `29/02/2023 10:00` raises: 2023 is not a leap year |
| Timestamps.ExampleLeapYear | src/normalise_data.py:23 | `29/02/2024 10:00` is accepted |
| Values.Row.constructor | src/etl.py:69 | a row object holds the given dictionary |
| Values.Contents | src/etl.py:69 | the list of dictionaries the rows hold, one per row |
| Values.GetPut | src/etl.py:70-72 | after `d[k] = v`, k reads v and every other key reads as before |
| Values.GetKeys | src/etl.py:94 | `get` finds a value exactly when the key is among the keys |
| Values.GetAt | src/utils/sql_utils.py:119 | with unique keys, each entry is what a lookup of its key finds |
| Values.KeysPut | src/etl.py:70-72 | assignment keeps the key order and adds a new key at the end |
| Values.GetPop | src/etl.py:73-74 | after `pop(k, None)`, k reads nothing and every other key reads as before |
| Values.PopAbsent | src/etl.py:73-74 | popping an absent key changes nothing |
| Values.KeysPop | src/etl.py:73-74 | the keys after a pop are the old keys other than k |
| Values.Get | src/etl.py:70 | defining function of `d.get(k)`; specified by `GetKeys`, `GetAt`, `GetPut` and `GetPop` |
| Values.Put | src/etl.py:70-72 | defining function of `d[k] = v`; specified by `GetPut` and `KeysPut` |
| Values.Pop | src/etl.py:73-74 | defining function of `d.pop(k, None)`; specified by `GetPop`, `PopAbsent` and `KeysPop` |
| Numbering.Position | src/etl.py:95-98 | the first place of a value in a list |
| Numbering.DedupSpec | src/etl.py:95-121 | first-seen deduplication keeps each value once and loses none |
| Numbering.NumberedStep | src/etl.py:95-121 | meeting a known key changes nothing; meeting a new key numbers it one past the count |
| Numbering.NumberedPosition | src/etl.py:95-98 | a value's number is one more than its place in first-seen order |
| Numbering.DedupPrefix | src/etl.py:95-98 | numbers once given never change as more rows are met |
| Numbering.DedupOrder | src/etl.py:95-98 | a key first met before another is numbered before it |
| Raising.FirstRaisedStep | src/etl.py:92-127 | a pass over one more element raises the earlier exception, or else the new element's |
| Raising.FirstRaisedSticks | src/etl.py:92-127 | once an element has raised, the later elements do not matter |
| Raising.FirstRaisedAt | src/etl.py:92-127 | when the elements before i raise nothing, the pass raises element i's exception |
| Raising.FirstRaisedNone | src/etl.py:92-127 | the pass raises nothing exactly when no element raises |
| Raising.FirstRaisedSome | src/etl.py:92-127 | when the pass raises, it raises the exception of an element before which none raises |
| Raising.MapAllSticks | src/normalise_data.py:19-26 | once an element has raised, the later elements do not matter |
| Raising.MapAllRecord | src/normalise_data.py:19-26 | a pass that raises nothing has one result per element, with that element's 1-based index |
| Raising.MapAllSucceeds | src/normalise_data.py:19-26 | the pass raises nothing exactly when no element raises |
| Raising.MapAllError | src/normalise_data.py:19-26 | when the pass raises, it raises what the first failing element raises |
| Raising.MapAllSingle | src/normalise_data.py:19-26 | a one-element pass gives that element's result |
| EtlNormalize.AddItems | src/etl.py:112-127 | the inner loop keeps the products numbered in first-seen order and the product transactions recorded for every item met |
| EtlNormalize.ReadFields | src/etl.py:103-112 | the loop body's reads of timestamp, total_cost, payment_method and items fail exactly as the reference row check does, in the same order |
| EtlNormalize.Normalize | src/etl.py:79-138 | fails exactly when some row raises, with the first row's exception; otherwise returns exactly the reference tables |
| EtlNormalize.RowPasses | src/etl.py:103-112 | a row with all four fields and an item list, or an empty items text, raises nothing |
| EtlNormalize.FlatStep | src/etl.py:112 | the items bought in one more row come after those of the rows before it |
| EtlNormalize.BranchStep | src/etl.py:94-100 | one more row keeps the branch map numbering the distinct locations in first-seen order |
| EtlNormalize.TransactionStep | src/etl.py:103-109 | one more row appends its transaction with payment id i and its location's branch id |
| EtlNormalize.ProductStep | src/etl.py:113-121 | one more item keeps the products dictionary numbering the distinct items in first-seen order |
| EtlNormalize.RecordedStep | src/etl.py:122-127 | one more product transaction points at its item's product |
| EtlNormalize.TaggedAppend | src/etl.py:112 | the items of a row, tagged with its payment id, extend one at a time |
| EtlNormalize.BranchTableAppend | src/etl.py:96-98 | a new branch is appended with id one past the count |
| EtlNormalize.ProductTableAppend | src/etl.py:115-121 | a new product is appended with id one past the count |
| EtlNormalize.BranchIdsFromState | src/etl.py:94-100 | at the end of the pass, the branch list is the first-seen table and the map gives each row's branch id |
| EtlNormalize.TransactionsFromState | src/etl.py:103-109 | at the end of the pass, the transactions are the reference table |
| EtlNormalize.ProductsFromState | src/etl.py:122-127 | at the end of the pass, the product transactions are the reference table |
| EtlNormalize.FlatShape | src/etl.py:112-124 | every item bought belongs to the row its payment id names |
| EtlNormalize.FlatIndex | src/etl.py:112 | every item of every row is bought, under its row's payment id |
| EtlNormalize.FlatOrdered | src/etl.py:92-112 | items are bought in row order |
| EtlNormalize.FlatLength | src/etl.py:112 | there is one item bought per item of each row |
| EtlNormalize.ItemCountLast | src/etl.py:112 | the item count of the rows is that of all but the last, plus the last row's items |
| EtlNormalize.TransactionBranch | src/etl.py:92-109 | one transaction per row, the i-th with payment id i, pointing at an existing branch whose name and location are the row's location |
| EtlNormalize.UnknownBranch | src/etl.py:94 | a row without a location is booked at the branch "Unknown" |
| EtlNormalize.SameBranch | src/etl.py:95-100 | two rows get the same branch id exactly when their locations are equal |
| EtlNormalize.BranchesDistinct | src/etl.py:95-98 | no two branches share a location, and every branch is some row's location |
| EtlNormalize.BranchFirstSeen | src/etl.py:95-98 | branch ids follow the order in which locations first occur |
| EtlNormalize.ProductTransactionRefs | src/etl.py:122-127 | product transaction u has id u+1 and quantity 1, and points at an existing transaction and an existing product bought in that transaction's row |
| EtlNormalize.SameProduct | src/etl.py:113-125 | two items bought share a product id exactly when their (name, variant, size, price) are equal |
| EtlNormalize.ProductsDistinct | src/etl.py:113-121 | no two products are the same item |
| EtlNormalize.ProductCovered | src/etl.py:112-121 | every item of every row is among the products |
| EtlNormalize.ProductTransactionsInOrder | src/etl.py:122-127 | there is one product transaction per item bought, in row order |
| EtlNormalize.RowError | src/etl.py:103-112 | defining function of the exception one row raises; specified by `ReadFields` and `RowPasses` |
| EtlNormalize.Reference | src/etl.py:92-138 | defining function of the four tables; specified by `Normalize`, `TransactionBranch`, `SameBranch`, `BranchesDistinct`, `BranchFirstSeen`, `ProductTransactionRefs`, `SameProduct`, `ProductsDistinct`, `ProductCovered` and `ProductTransactionsInOrder` |
| EtlExamples.SaleFields | src/etl.py:94-112 | a sale row reads back its location, items and fields, and raises nothing |
| EtlExamples.SalesPass | src/etl.py:92-127 | two well-formed sales raise nothing |
| EtlExamples.SalesItems | src/etl.py:112-121 | the items bought across two sales, and the distinct ones in first-seen order |
| EtlExamples.SalesBranches | src/etl.py:95-98 | two sales at one location give one branch |
| EtlExamples.SalesTables | src/etl.py:79-138 | the four tables of two sales: one branch, payment ids 1 and 2, two products, three product transactions |
| ExtractData.Cleaned | src/extract_data.py:80-86 | a cleaned row has exactly the five columns, in order |
| ExtractData.PrepareData | src/extract_data.py:70-90 | the loop returns exactly the cleaned rows of the rows that clean without raising |
| ExtractData.ValidateData | src/extract_data.py:107-126 | fails exactly when some row's check raises, with the first such exception; otherwise returns (the valid rows, the invalid rows) |
| ExtractData.PrepareRowKeys | src/extract_data.py:80-86 | a cleaned row has exactly the five columns and never `customer_name` or `credit_card` |
| ExtractData.PrepareRowStripped | src/extract_data.py:81-85 | every text field of a cleaned row is stripped |
| ExtractData.PrepareRowNotANumber | src/extract_data.py:84-89 | a row whose total_cost is not a number is dropped |
| ExtractData.PrepareRowDefaults | src/extract_data.py:81-85 | in any row that cleans, a missing timestamp, location or payment_method becomes the empty text, missing items the empty list, and a missing total_cost 0.0 |
| ExtractData.PrepareMissingCost | src/extract_data.py:84 | a row without total_cost whose other fields are text or missing always cleans, with total_cost 0.0 |
| ExtractData.PrepareEmptyRow | src/extract_data.py:81-85 | example: the empty row cleans to blank texts, no items and 0.0 |
| ExtractData.CollectedRows | src/extract_data.py:78-90 | the kept results are an increasing choice of inputs, exactly those that do not fail |
| ExtractData.PreparedRows | src/extract_data.py:78-90 | the output is an order-preserving subsequence: exactly the rows that clean without raising, cleaned |
| ExtractData.PreparedPrivacy | src/extract_data.py:80-87 | every output row has the five columns and no personal data |
| ExtractData.FieldsFilledIff | src/extract_data.py:120 | `all(...)` is true exactly when every listed field is present, text, and not blank |
| ExtractData.RowValidIff | src/extract_data.py:119-120 | a row is valid exactly when its five required fields are each present and not blank after strip |
| ExtractData.Partition | src/extract_data.py:113-126 | every row lands in exactly one of the two lists, as a multiset split of the input |
| ExtractData.FilterRows | src/extract_data.py:117-123 | each list keeps its rows in input order and holds exactly the rows whose check gives its verdict |
| ExtractData.PrepareRow | src/extract_data.py:80-86 | defining function of the cleaned row, or None when building it raises; specified by `PrepareRowKeys`, `PrepareRowStripped`, `PrepareRowNotANumber`, `PrepareRowDefaults` and `PrepareMissingCost` |
| ExtractData.FieldsFilled | src/extract_data.py:120 | defining function of `all(...)` over the listed fields; specified by `FieldsFilledIff` |
| ExtractData.RowCheck | src/extract_data.py:119-120 | defining function of the check on one row; specified by `RowValidIff` |
| ExtractExamples.GoodRow | src/test_extract_data.py:48-55 | the first sample row is valid |
| ExtractExamples.BadRow | src/test_extract_data.py:56-62 | the sample row with an empty timestamp is invalid |
| ExtractExamples.ExampleValidate | src/test_extract_data.py:47-66 | the two sample rows split into one valid row and one invalid row |
| ExtractExamples.LatteSegment | src/extract_data.py:38-46 | `Large Latte - Vanilla - 3.5` becomes one item with variant Vanilla |
| ExtractExamples.LatteColumn | src/extract_data.py:20-64 | that field parses to exactly that one item |
| ExtractExamples.ExamplePrepare | src/extract_data.py:80-86 | a raw row is cleaned to the number 10.0 and the list of its parsed items |
| NormaliseData.NormalizeBranches | src/normalise_data.py:6-14 | exactly one branch, id 1, named and located "Edinburgh", whatever the input |
| NormaliseData.NormalizeTransactions | src/normalise_data.py:17-27 | the loop returns the reference transactions, or the first row's exception |
| NormaliseData.NormalizeProducts | src/normalise_data.py:30-45 | the loop returns the distinct items in first-seen order, numbered 1, 2, ..., or the first exception |
| NormaliseData.AddProducts | src/normalise_data.py:34-44 | the inner loop keeps the numbering and advances the counter only on a new key |
| NormaliseData.LookUpItems | src/normalise_data.py:55-63 | the inner loop raises the first missing key's KeyError; otherwise it appends one record per item with the next id |
| NormaliseData.NormalizeProductTransactions | src/normalise_data.py:48-64 | fails exactly when some row raises, with the first such exception; otherwise every item is known and the result is one record per item bought |
| NormaliseData.TransactionFields | src/normalise_data.py:20-26 | a record has the given payment id and branch 1, the parsed timestamp, and the row's total and payment method |
| NormaliseData.TransactionsRecord | src/normalise_data.py:19-26 | one record per row, the i-th with payment id i and branch 1 |
| NormaliseData.ProductsUnique | src/normalise_data.py:36-44 | no two products are the same item, and the ids are 1, 2, ... in list order |
| NormaliseData.ProductsCover | src/normalise_data.py:33-44 | every item of every row is among the products |
| NormaliseData.ProductsFirstSeen | src/normalise_data.py:36-44 | products are numbered in the order their items are first met |
| NormaliseData.ProductMapKeys | src/normalise_data.py:49-51 | the product map holds exactly the items of the products |
| NormaliseData.ProductMapLast | src/normalise_data.py:49-51 | of products with the same item, the last one gives the id |
| NormaliseData.ProductMapOfTable | src/normalise_data.py:49-51 | from a product table without repeats, the map gives each item its own id |
| NormaliseData.MissingProduct | src/normalise_data.py:56-60 | an item missing from the products makes the pass raise |
| NormaliseData.ProductMapOfProducts | src/normalise_data.py:30-51 | over the products of the same rows, the map numbers the distinct items in first-seen order |
| NormaliseData.LookupsSucceed | src/normalise_data.py:49-60 | given `normalize_products(data)`, every lookup succeeds and the pass raises nothing |
| NormaliseData.LookupsAgree | src/normalise_data.py:48-64 | the product transactions then equal those of `normalize` in src/etl.py |
| NormaliseData.TransactionAt | src/normalise_data.py:20-26 | defining function of one transaction record; specified by `TransactionFields` |
| NormaliseData.Products | src/normalise_data.py:30-45 | defining function of the product table; specified by `NormalizeProducts`, `ProductsUnique`, `ProductsCover` and `ProductsFirstSeen` |
| NormaliseData.ProductMap | src/normalise_data.py:49-51 | defining function of the dictionary comprehension; specified by `ProductMapKeys`, `ProductMapLast`, `ProductMapOfTable` and `ProductMapOfProducts` |
| NormaliseData.LookedUp | src/normalise_data.py:54-63 | defining function of the product transactions when every lookup succeeds; specified by `LookUpItems`, `NormalizeProductTransactions` and `LookupsAgree` |
| NormaliseExamples.SaleTransaction | src/test_normalise_data.py:27-45 | the sample row gives payment 1, branch 1, 2024-01-01 10:00, 100.0, "card" |
| NormaliseExamples.ExampleTransactions | src/test_normalise_data.py:27-45 | the transactions of the sample row are exactly that one record |
| NormaliseExamples.ExampleBranches | src/test_normalise_data.py:15-24 | the branch table of the sample input is the one Edinburgh branch |
| NormaliseExamples.ExampleProducts | src/normalise_data.py:30-45 | one row with one item gives one product, id 1 |
| NormaliseExamples.ExampleProductTransactions | src/normalise_data.py:48-64 | that item gives one product transaction: id 1, payment 1, product 1, quantity 1 |
| Connection.Outcome | src/utils/sql_utils.py:120-121 | a call raises exactly when its place is refused, and the exception names its place |
| Connection.Connection.constructor | src/load_data.py:43 | a new connection has an empty record |
| Connection.Connection.Perform | src/load_data.py:57-61 | a call is appended to the record and raises when refused |
| SqlUtils.FilterRow | src/utils/sql_utils.py:106-109 | a filtered row is no longer than the row, has exactly the row's keys that are not excluded, and is a subsequence of the row: the kept entries, values included, stay in their original order |
| SqlUtils.Filtered | src/utils/sql_utils.py:106-109 | one filtered row per input row |
| SqlUtils.Rows | src/utils/sql_utils.py:119 | one value tuple per row, in the row's key order |
| SqlUtils.SaveTrace | src/utils/sql_utils.py:83-126 | empty data makes no call; otherwise one executemany, whose statement is built from the first filtered row and whose rows are all the filtered rows, then a commit when accepted, or a rollback with an exception raised |
| SqlUtils.SaveDataInDb | src/utils/sql_utils.py:83-126 | the calls appended and the exception raised are exactly those of `SaveTrace` |
| SqlUtils.FilterGet | src/utils/sql_utils.py:106-109 | a filtered row answers every lookup as the row does, except under an excluded key |
| SqlUtils.FilterKeys | src/utils/sql_utils.py:106-109 | filtering keeps keys unique, the kept keys are a subsequence of the row's keys (so the column order follows the row's), and rows with the same key sequence filter to the same key sequence |
| SqlUtils.IdentityExcluded | src/utils/sql_utils.py:93-109 | each known table loses exactly its identity column |
| SqlUtils.NothingExcluded | src/utils/sql_utils.py:101-109 | a row with no excluded key, for example in any other table, is kept whole |
| SqlUtils.RowsMatchColumns | src/utils/sql_utils.py:113-120 | when rows share the first row's key order, each value lands under its own column |
| SqlUtils.BatchPlaceholders | src/utils/sql_utils.py:113-115 | the column list and the placeholder list have the same number of entries, each placeholder `%s` |
| SqlUtils.ExcludedColumns | src/utils/sql_utils.py:93-102 | defining function of the identity columns; specified by `IdentityExcluded` and `NothingExcluded` |
| SqlUtils.BatchQuery | src/utils/sql_utils.py:113-115 | defining function of the batch statement; specified by `BatchPlaceholders`, `SaveTrace` and `LoaderExamples.ExampleBatchQuery` |
| LoadData.NamedPlaceholders | src/load_data.py:55 | one `%(key)s` per key, in order |
| LoadData.Executes | src/load_data.py:53-57 | one execute per row, in input order, with the row as its parameters |
| LoadData.FirstRefused | src/load_data.py:53-58 | the number of calls accepted before the first refusal |
| LoadData.InsertTrace | src/load_data.py:50-62 | ends in a commit exactly when no call is refused, after all executes; otherwise the executes up to the refused one, then a rollback |
| LoadData.InsertData | src/load_data.py:43-62 | the calls appended and the exception raised are exactly those of `InsertTrace` |
| LoadData.Swallowed | src/load_data.py:60-62 | a rollback happens exactly when some call was refused, and only a refused rollback raises |
| LoadData.NamedPlaceholdersMatch | src/load_data.py:54-56 | the j-th placeholder names the j-th column |
| LoadData.NamedInsertQuery | src/load_data.py:54-56 | defining function of the statement for one row; specified by `NamedPlaceholders`, `NamedPlaceholdersMatch`, `Executes` and `LoaderExamples.ExampleNamedQuery` |
| LoaderExamples.ExampleNamedQuery | src/test_load_data.py:79-83 | the test row gives `INSERT INTO test_table (col1, col2) VALUES (%(col1)s, %(col2)s)` |
| LoaderExamples.OneRowAccepted | src/load_data.py:53-58 | one row, all accepted: its execute, then one commit |
| LoaderExamples.OneRowRefused | src/load_data.py:57-62 | one row whose execute is refused: that execute, then a rollback, and nothing raised |
| LoaderExamples.ExampleInsert | src/test_load_data.py:76-110 | success: one execute with the row, then a commit; failure: the same execute, then a rollback, nothing raised |
| LoaderExamples.ExampleFiltered | src/utils/sql_utils.py:97-109 | a products row loses `product_id` and keeps the rest in order |
| LoaderExamples.ExampleBatchQuery | src/utils/sql_utils.py:113-115 | the products statement is `INSERT INTO products (name, variant, size, price) VALUES (%s, %s, %s, %s)` |
| LoaderExamples.OneRowSaved | src/utils/sql_utils.py:119-126 | one row: executemany then commit; with the commit refused, a rollback follows and the commit's exception is raised again |
| LoaderExamples.ExampleSave | src/utils/sql_utils.py:83-126 | the full call record for one products row, accepted and with the commit refused |

## Left out

- CSV tokenisation (`csv.DictReader`) is library code. `Etl.Extract` takes the records it would yield. Its rule of skipping records with no field and filling short records with None is modelled; fields beyond the seventh are not.
- File I/O is left out: `read_csv`, `save_data_to_json`, `save_data_to_csv`, `load_json_data`, `load_json` and the `__main__` blocks.
- The Lambda handlers, `connect_to_database`, the schema scripts, `create_guid`, logging and printing are left out. They are orchestration, randomness or output with no logic to prove.
- IEEE floating point is left out. Prices and totals are exact rationals. `float()` is modelled for numerals of digits with at most one point, with optional surrounding blanks and one sign. Exponents, `inf`, `nan` and underscores are not modelled.
- A Python `int` and `float` that compare equal (`1 == 1.0`) are different `Value`s in the model. A dictionary key that depends on that equality is not modelled.
- `\w` is ASCII only. Python's Unicode word characters are not modelled.
- Etl.Transform: requires the rows to be distinct objects. A list that holds the same dictionary twice (aliasing) is not modelled.
- A product item that is not a well-formed item dictionary (missing `item_name`, say) is not modelled. Rows carry items as already parsed `Item` values, so only a missing or non-list `items` field raises.
- The cursor's `with` block and `connection.cursor()` itself are left out. They are assumed never to raise. So are the cursor's closing and any driver behaviour beyond accepting or refusing a call.
- `datetime` objects are their five fields. strptime's other directives, locales and seconds are not modelled.
- Timestamps.ParseSource: `\d` in strptime's patterns matches any Unicode decimal digit; the model accepts ASCII digits only.
- Timestamps.FormatIso: strftime's `%Y` for a year below 1000 is platform-dependent (glibc does not pad it); the model always pads it to four digits.

These are places where the code behaves in ways its comments and names do not suggest. The model follows the code in each case:

- `extract` on input with no record raises StopIteration at `next(reader)`. It does not return an empty list.
- In `parse_items`, a matched price that `float()` refuses (such as `1.2.3`) ends the whole field. Only the items parsed before it are returned (`ItemParser.CollectUpToBadPrice`).
- `parse_items` accepts a name of blanks only and returns it as the empty string (`ItemParser.BlankNameAccepted`). Emitted names and variants can therefore be empty.
- `Regular Coffee - - 2.5`, the sample segment of the extraction tests, matches neither pattern and yields no item (`ItemExamples.ExampleMissingVariant`).
- `transform` raising on a bad timestamp leaves the earlier rows rewritten and the failing row partly rewritten (`Etl.RunFailed`).
- Payment ids are the 1-based row numbers, so they follow the rows' order and nothing else.
- `validate_data` raises AttributeError on a required field that is not text, if no blank field comes before it. It does not sort that row into `invalid`.
- `save_data_in_db` binds values by position. Rows whose key order differs from the first row's put values under the wrong columns; `SqlUtils.RowsMatchColumns` states the condition under which they do not.
- When the rollback in `save_data_in_db` or `insert_data` is itself refused, its exception is the one that escapes.
