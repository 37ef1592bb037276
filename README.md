# Retail CSV-to-MySQL pipeline, modelled in Dafny

This project models the two stages of `scripts/retail_pipeline.py` and proves
properties of both.

The **loader/cleaner** `load_clean_csv` takes the table `read_csv` produced
and does four things:

- converts the Date column;
- drops the rows whose date did not parse, and counts them;
- coerces Holiday/Promotion to a boolean;
- fills missing values in Weather Condition, Discount and Competitor Pricing.

The **batch writer** `insert_data_to_mysql` does the following:

- steps through the table in slices of `batch_size` rows;
- builds one 15-value parameter tuple per row, in the column order of the
  INSERT statement;
- executes and commits one statement per slice;
- keeps a running `inserted_count`.

Modules:

- `Table`: columns, cell values, rows as maps from column to value, and a
  table as a column set plus a row sequence.
- `Cleaning`: the cleaner, written as functions over the table.
  - The date filter is given by a prefix recursion (`KeepParsed`).
  - An independent definition of the survivors by position (`Survivors`)
    is proved equal to it, which gives the properties that matter:
    - which rows survive;
    - in what order;
    - how many are dropped;
    - that nothing but Date decides.
  - `Series.mean` is modelled on exact reals and skips missing values.
- `Batching`: the slices `iloc[i:i+B]` for `i in range(0, N, B)` as a
  function, with these lemmas:
  - the slices partition the table in order;
  - there are ceil(N/B) of them;
  - each is non-empty, at most B long, and full except perhaps the last;
  - batch k is `s[k*B .. min((k+1)*B, N)]`;
  - the first k batches hold the first min(k*B, N) rows.
- `Encoding`: the per-row tuple. It is a list of bindings: a source column
  and a conversion (`int(...)`, `float(...)` or none) per placeholder.
  Building fails with the error of the first position that fails.
- `Writer`: the write loop as imperative methods.
  - The database is a ghost log of committed batches.
  - Whether the server accepts a statement is a parameter, which may depend
    on the batch number as well as the tuples.
  - The method states the log, the counter and the final status, and ties
    them to the batches of the table.
- `Pipeline`: facts that join the two stages, and worked examples of both.

Four behaviours of `scripts/retail_pipeline.py` are easy to misread; the
model follows the code:

- **The Competitor Pricing default.** `df` is reassigned by `dropna`
  (line 37) before `df['Price'].mean()` is evaluated (line 50). The mean is
  therefore over the rows that survived the date filter, not over the file
  as read (`CompetitorFillOverSurvivors`).
- **Missing values after the fill.** When no surviving row has a Price,
  `mean()` (line 50) is NaN, and `fillna` with NaN (lines 47-51) leaves Competitor
  Pricing missing (`CompetitorFillMissingIff`, `CompetitorStaysMissing`).
- **Holiday/Promotion coercion.** `astype(bool)` (line 44) uses the Python
  truthiness of whatever is stored, not only of 0/1. Under it NaN is true
  (`Cleaning.Truthy`).
- **Non-positive batch sizes.** `range(0, len(df), batch_size)` (line 73)
  with step 0 raises before anything is written (`Writer.InsertData`). A
  negative step gives an empty range, so nothing is written and the
  function returns normally.

## Model

| member | source | states |
|---|---|---|
| Cleaning.KeepParsed | scripts/retail_pipeline.py:33-37 | the filtered rows are no more than the input rows, all have a parsed Date (a timestamp), and keep the input's column set |
| Cleaning.Survivors | scripts/retail_pipeline.py:33-37 | the surviving positions are in range, strictly increasing, and contain position i exactly when row i's Date parses |
| Cleaning.KeptAreSurvivors | scripts/retail_pipeline.py:33-37 | the rows `dropna` keeps are exactly the rows at the surviving positions, in source order, with Date converted |
| Cleaning.DroppedAreUnparsed | scripts/retail_pipeline.py:36-40 | rows_before - rows_after equals the number of rows whose Date does not parse |
| Cleaning.SurvivalDependsOnlyOnDate | scripts/retail_pipeline.py:33-37 | two tables with the same Date values have the same survivors and the same number of kept rows, whatever their other fields |
| Cleaning.CleanRow | scripts/retail_pipeline.py:33-51 | a surviving row keeps its columns; Date becomes the parsed instant; Holiday/Promotion becomes the boolean of its truthiness; a missing Weather Condition, Discount or Competitor Pricing gets its default and a present one is unchanged; every other field is unchanged |
| Cleaning.Clean | scripts/retail_pipeline.py:22-55 | no Date column is a KeyError; otherwise cleaning fails exactly when the mean of Price fails; a cleaned table has the input's columns in every row, and kept + dropped = input rows |
| Cleaning.MeanSkipsMissing | scripts/retail_pipeline.py:50 | `mean` ignores missing values: inserting a NaN anywhere leaves the result unchanged |
| Cleaning.MeanMissingIff | scripts/retail_pipeline.py:50 | a successful mean is NaN exactly when every value is missing, and a number otherwise |
| Cleaning.MeanWithinBounds | scripts/retail_pipeline.py:50 | when every present value lies between lo and hi, so does the mean |
| Cleaning.CompetitorFillOverSurvivors | scripts/retail_pipeline.py:37-50 | the Competitor Pricing default is the mean of Price over the rows that survived the date filter, in order |
| Cleaning.CompetitorFillFails | scripts/retail_pipeline.py:50 | computing the default fails exactly when Price exists and some surviving row holds a non-numeric Price |
| Cleaning.CompetitorFillMissingIff | scripts/retail_pipeline.py:47-51 | without a Price column the default is 0.0; the default is NaN exactly when Price exists and no surviving row has a Price |
| Cleaning.CleanFailsIff | scripts/retail_pipeline.py:33-50 | cleaning fails exactly when Date is absent, or Price exists and a surviving row's Price is not a number |
| Cleaning.CleanKeepsSurvivors | scripts/retail_pipeline.py:33-51 | the cleaned table holds, in source order, one row per row whose Date parses, each cleaned with the one shared default; dropped counts the others |
| Cleaning.CleanedColumns | scripts/retail_pipeline.py:42-51 | after cleaning, Holiday/Promotion is a boolean in every row, Weather Condition and Discount are never missing, and Competitor Pricing is never missing when the default is a number |
| Batching.Batches | scripts/retail_pipeline.py:73-74 | there are no batches exactly when the table is empty |
| Batching.BatchSizes | scripts/retail_pipeline.py:73-74 | every batch is non-empty and at most B rows long, and all but the last are exactly B rows long |
| Batching.BatchesFlatten | scripts/retail_pipeline.py:73-74 | the batches concatenated in order give back the table |
| Batching.BatchesCount | scripts/retail_pipeline.py:73 | there are ceil(N / B) batches |
| Batching.BatchAt | scripts/retail_pipeline.py:73-74 | batch k starts inside the table and is the slice from k*B up to min((k+1)*B, N) |
| Batching.BatchesPrefix | scripts/retail_pipeline.py:73-74 | the first k batches together are the first min(k*B, N) rows |
| Batching.LastBatchSize | scripts/retail_pipeline.py:73-74 | the last batch holds N mod B rows, or B rows when B divides N |
| Batching.NextBatch | scripts/retail_pipeline.py:73-74 | when batches k.. are those of the rows from i on, batch k exists, is the slice from i, and the batches after it are those of the rows after that slice |
| Encoding.BindingsMatchInsertColumns | scripts/retail_pipeline.py:65-94 | there are fifteen tuple positions and fifteen destination columns, and position k reads the column that destination column k is named after |
| Encoding.Truncate | scripts/retail_pipeline.py:84-91 | `int()` of a float truncates toward zero: the result is within one of x, on zero's side |
| Encoding.EncodeFields | scripts/retail_pipeline.py:78-94 | the tuple exists exactly when every position converts, and then holds one value per position in order; otherwise the error is that of the first failing position |
| Encoding.EncodeRows | scripts/retail_pipeline.py:75-95 | the batch's list exists exactly when every row has a tuple, and then has one tuple per row in row order; otherwise the error is that of the first failing row |
| Encoding.EncodeRowShape | scripts/retail_pipeline.py:78-94 | a built tuple has fifteen values; the row has all fifteen columns; as-is positions carry the row's value, `int` positions an integer and `float` positions a float |
| Encoding.HolidayEncodesAsBit | scripts/retail_pipeline.py:91 | a boolean Holiday/Promotion is sent as the integer 1 or 0 |
| Encoding.MissingColumnFails | scripts/retail_pipeline.py:78-94 | a row lacking any of the fifteen columns has no tuple |
| Writer.BuildBatch | scripts/retail_pipeline.py:75-95 | the nested loop's list is the batch's encoding, or the first row's error |
| Writer.WriteBatches | scripts/retail_pipeline.py:63-100 | the log holds, in order, the encodings of the first batches, each accepted by the server under its batch number; `inserted_count` is min(k*B, N) for k commits, and the committed rows are the first rows of the table; the run completes exactly when all batches are committed, with count N; otherwise the first uncommitted batch is the one that failed |
| Writer.InsertData | scripts/retail_pipeline.py:58-107 | a zero batch size fails before any commit; a negative one commits nothing and completes; a positive one behaves as the write loop states |
| Pipeline.CleanedRowEncoding | scripts/retail_pipeline.py:33-91 | for the k-th cleaned row, the Date sent is the instant parsed from the k-th survivor's Date, and the flag sent is 1 exactly when its stored Holiday/Promotion was truthy |
| Pipeline.ThreeRowScenario | scripts/retail_pipeline.py:33-74 | three rows, the first with date 2024-13-40 and the second without Discount, any surviving Price numeric: one row is dropped, the other two remain in order, cleaned with the one Competitor Pricing default, the missing Discount becomes 0.0, and the default batch size gives one batch |
| Pipeline.ThreeRowsCleaned | scripts/retail_pipeline.py:33-51 | with the first date unparsable, the other two parsing and their Prices numeric (if there is a Price column), the last two rows survive, cleaned with the Competitor Pricing default, and one row is dropped |
| Pipeline.ThreeSurvivors | scripts/retail_pipeline.py:33-37 | the survivors of three rows are the positions, in order, of those whose Date parses |
| Pipeline.MeanOfTenTwentyThirty | scripts/retail_pipeline.py:50 | the mean of 10, 20 and 30 is 20 |
| Pipeline.CompetitorMeanScenario | scripts/retail_pipeline.py:47-51 | prices 10, 20 and 30 with valid dates: a missing Competitor Pricing is filled with 20.0 |
| Pipeline.CompetitorStaysMissing | scripts/retail_pipeline.py:47-51 | when the only surviving Price is missing, a missing Competitor Pricing stays missing |
| Pipeline.TwelveRowsInFives | scripts/retail_pipeline.py:73-74 | twelve rows in batches of five give three statements of 5, 5 and 2 rows |

## Left out

- `get_db_connection` (lines 6-19): a network connection with fixed credentials, which calls `exit(1)` on failure. The writer starts after the connection is open.
- `pd.read_csv` (line 24): CSV parsing. The model starts from the parsed table.
- The parsing inside `pd.to_datetime(..., format='%Y-%m-%d', errors='coerce')` (line 33). It is the `parse` parameter, with the rule that a missing cell never parses. No calendar check is claimed.
- Floating-point arithmetic in `Series.mean()` (line 50). Sums and quotients are exact reals, and infinities are not modelled.
- `int(...)` and `float(...)` of numeric strings (lines 84-92). The model rejects text where Python would parse a numeric string. A missing value is rejected by `int` and passed through as NaN by `float`, as in Python.
- `iterrows` upcasting a row to a common dtype (line 77). Each cell keeps its own value.
- `executemany` and `commit` (lines 97-98). The server's verdict is the `accepts` parameter, and the database is the ghost log of committed batches.
  - Nothing else of MySQL is modelled: column types, constraints, and duplicate rows when the script is run twice.
  - A rejected statement raises out of the function, so the count is lost to the caller. The model still returns it, alongside the failure.
  - `cursor.close()` and `conn.close()` (lines 106-107) are not modelled, and neither is the cursor/connection lifecycle (lines 59-60).
- All `print` output, `df.head` previews and the `time.time()` timing (lines 23-30, 40, 53, 62, 101-104).
- The `__main__` block with its fixed file path (lines 109-113).
