# Data_Wrangler in Dafny

A model of the `Data_Wrangler` class of `classes/data_wrangler.py`. The class:

- reads a JSON file of `(tableName, data)` records;
- unpacks it into a dictionary of tables, publishing `keys`, `tables`, `num_entries` and `scraped_data` and setting the `is_data_unpacked` flag;
- caches the tables in an SQLite relation `Food_Recalls`. This tags every table with a leading `TableName` column, issues a DROP, a CREATE over the first table's columns, and then one INSERT per row.

The modules follow the program's structure:

| module | file | what it holds |
|---|---|---|
| `Wrappers`, `Sequences` | `wrappers.dfy` | `Option` (Python's `None`, or a call that raised); `IndexOf` |
| `Quoting` | `quoting.dfy` | the quote / join / `lstrip` expressions that build column and value lists, and a reader that recovers the pieces |
| `SqlText` | `sql_text.dfy` | the DROP, CREATE and INSERT statements, their exact text, and lemmas that their text reads back |
| `Tables`, `OrderedDicts` | `tables.dfy` | a table (column names and rows of values); `insert(0, 'TableName', key)`; Python's insertion-ordered `dict` |
| `Unpacking` | `unpacking.dfy` | what `unpack_data` computes from the frame it read |
| `Caching` | `caching.dfy` | what `_init_db` and `cache_data` do, as functions of the state they start from |
| `Wrangler` | `wrangler.dfy` | the class `DataWrangler`: its fields and its methods with loops, each proved against the functions above |

How the model represents the parts it does not compute:

- **The file read.** The result of `pd.read_json` is the parameter `src` of `UnpackData`. It is a missing file, invalid JSON, another read error, or a frame with its column names and records.
- **pandas' conversions.** `pd.json_normalize` and `pd.DataFrame` are the function parameters `normalize` and `construct`. Each returns a table, or `None` when it raised.
- **The store.** SQLite itself is not modelled. Every DROP, CREATE and INSERT passed to `cur.execute` is appended to the field `issued` as a `Statement` (`Drop`, `Create(columns)` or `Insert(columns, row)`). `SqlText.Text` gives each statement's exact SQL text.
- **Shared tables.** The tables in `tables` are the same DataFrame objects as the values of `scraped_data`. The class invariant therefore keeps `scrapedData == Some(OrderedDict(keys, tables))`, and tagging in `_init_db` changes both.

The required-column check at line 207 differs between the code and the intended behaviour (see Findings):

- The class methods model the intended check: both columns must be in the frame that was read.
- `Unpacking.UnpackAsWritten` models the code as written.

## Model

| member | source | states |
|---|---|---|
| Quoting.Quote | classes/data_wrangler.py:325 | `f'"{name.replace('"', "")}"'`, the quoting of lines 325, 359 and 380: the name with its double quotes deleted, between two double quotes (its form is stated by `QuoteForm`) |
| Quoting.QuoteAll | classes/data_wrangler.py:325 | the list comprehension quoting each piece, in order |
| Quoting.Join | classes/data_wrangler.py:328 | `sep.join(parts)`: the parts in order with the separator between neighbours |
| Quoting.LStrip | classes/data_wrangler.py:329 | `s.lstrip(chars)` (characterised by `LStripRemovesLongestPrefix`) |
| Quoting.QuotedList | classes/data_wrangler.py:325-329 | the quoted pieces joined with `", "` and left-stripped of commas and spaces; by `QuotedListSkipsLStrip` and `ReadQuotedList` this is exactly the join, holding one quoted field per piece |
| Quoting.StripQuotes | classes/data_wrangler.py:325 | `name.replace('"', "")` leaves no double quote, and its length is the input's length less the number of double quotes |
| Quoting.StripQuotesKeepsOtherChars | classes/data_wrangler.py:325 | deleting double quotes keeps the count of every other character |
| Quoting.StripQuotesIdentity | classes/data_wrangler.py:325 | deleting double quotes changes a string exactly when it holds one |
| Quoting.QuoteForm | classes/data_wrangler.py:325 | the quoted form starts and ends with `"` and has no other `"`. Its length is the input's length less its double quotes, plus 2 |
| Quoting.LStripRemovesLongestPrefix | classes/data_wrangler.py:329 | `lstrip(', ')` removes the longest prefix made only of commas and spaces, and keeps the rest unchanged |
| Quoting.QuotedListSkipsLStrip | classes/data_wrangler.py:328-329 | every quoted piece starts with `"`, so `lstrip(', ')` after the join removes nothing |
| Quoting.ReadQuotedPiece | classes/data_wrangler.py:380 | a quoted value reads back as the value with its double quotes deleted, followed by the text after it |
| Quoting.ReadQuotedList | classes/data_wrangler.py:359-363 | the joined, stripped list reads back as one field per input piece, in order, each the piece without its double quotes. So it has exactly as many quoted fields as there were pieces |
| SqlText.CreateStatement | classes/data_wrangler.py:332 | the text `CREATE TABLE IF NOT EXISTS Food_Recalls(<quoted column list>)` (read back by `CreateStatementReadsBack`) |
| SqlText.InsertStatement | classes/data_wrangler.py:366-385 | the text `INSERT INTO Food_Recalls (<quoted columns>) VALUES (<quoted values>)` for one row (read back by `InsertStatementReadsBack`) |
| SqlText.Text | classes/data_wrangler.py:315-388 | the exact SQL text of each statement passed to `cur.execute`: the DROP of line 315, the CREATE of line 332, the INSERT of lines 385-388 |
| SqlText.CreateStatementReadsBack | classes/data_wrangler.py:322-332 | the CREATE statement declares, in order, exactly the given column names, each without its double quotes |
| SqlText.InsertStatementReadsBack | classes/data_wrangler.py:366-385 | an INSERT names exactly the given columns and carries exactly the row's values, in order, each without its double quotes |
| Tables.WithTableName | classes/data_wrangler.py:319 | the tagged table has one more column, `TableName`, placed first. Every row gains the key as its first value. Every other column and value keeps its order, and the row count is unchanged |
| Tables.TableNameRemovable | classes/data_wrangler.py:319 | dropping the first column of a tagged table gives back the original table |
| OrderedDicts.OrderedDict.Put | classes/data_wrangler.py:232 | `d[k] = v` keeps the keys distinct. A new key is appended and an existing key keeps its position. Only `k`'s value changes |
| OrderedDicts.PutGet | classes/data_wrangler.py:232 | after `d[k] = v`, looking up `k` gives `v` and every other key gives what it gave before |
| Unpacking.HasRequiredColumns | classes/data_wrangler.py:205-210 | the intended check: both `tableName` and `data` are columns of the frame read at line 202 |
| Unpacking.Convert | classes/data_wrangler.py:220-230 | the normaliser's table if it succeeds, else the fallback's table, else nothing (the record is skipped) |
| Unpacking.Collect | classes/data_wrangler.py:213-232 | the dictionary built from the records has distinct keys and one table per key |
| Unpacking.CollectKeys | classes/data_wrangler.py:216-232 | a name is a key exactly when some record of that name converted, by the normaliser or else the fallback |
| Unpacking.CollectValues | classes/data_wrangler.py:216-232 | each key holds the table of the last record of that name that converted |
| Unpacking.CollectOrder | classes/data_wrangler.py:216-232 | keys are ordered by the position of the first converted record of each name |
| Unpacking.CollectDistinctRecords | classes/data_wrangler.py:213-232 | when every record converts and no name repeats, the keys and tables are the records' names and tables, in input order |
| Unpacking.Unpack | classes/data_wrangler.py:200-263 | how `unpack_data` ends with the intended column check: a missing file, a ValueError, another error, no converted table, or the dictionary stored (its condition is `UnpackStoresIffSomeRecordConverts`; the class method `UnpackData` is proved against it) |
| Unpacking.UnpackAsWritten | classes/data_wrangler.py:206-210 | how `unpack_data` ends as written: every frame that is read ends in the generic handler, because line 207 names an unbound variable (shown by `ColumnCheckTypoBlocksUnpack`) |
| Unpacking.UnpackStoresIffSomeRecordConverts | classes/data_wrangler.py:200-249 | unpacking publishes tables exactly when the frame has both required columns and at least one record converts |
| Unpacking.ColumnCheckTypoBlocksUnpack | classes/data_wrangler.py:206-208 | for every readable frame with both columns and a record that converts, the code as written ends in the generic handler, while the intended check publishes the tables |
| Unpacking.ColumnCheckTypoExample | classes/data_wrangler.py:207 | a concrete one-record frame on which the two differ |
| Caching.FirstConflict | classes/data_wrangler.py:318-319 | the index of the first table that already has a `TableName` column (where `insert` raises), or the number of tables; no earlier table has one |
| Caching.TagFirst | classes/data_wrangler.py:318-319 | the tables after the first `n` of them were tagged with their own keys, the rest untouched |
| Caching.AllInserts | classes/data_wrangler.py:370-388 | the INSERTs of the nested loops, one per row, over the first table's columns (position and count stated by `AllInsertsAt` and `AllInsertsLength`) |
| Caching.AllInsertsLength | classes/data_wrangler.py:370-388 | the insert loop issues exactly one INSERT per row, the total being the sum of the row counts |
| Caching.AllInsertsAt | classes/data_wrangler.py:370-388 | row `r` of table `t` is issued at position (rows of the tables before `t`) + `r`: table order, then row order |
| Caching.InsertsMatchSchema | classes/data_wrangler.py:356-388 | when every row has one value per column of the first table, every statement issued is an INSERT into those columns with one value per column |
| Caching.InitDbEffect | classes/data_wrangler.py:304-345 | with the flag 0, `_init_db` refuses: it issues nothing and leaves the tables alone. When the flag is set it issues the DROP first. When it raises, the DROP is all it issued. When it creates the relation, every table is tagged with its own key and exactly the DROP and the CREATE over `TableName` followed by the first table's columns were issued |
| Caching.InitDbCreatesIffUntagged | classes/data_wrangler.py:304-319 | the relation is created exactly when the flag is set, tables exist, and no table has a `TableName` column yet |
| Caching.CacheEffect | classes/data_wrangler.py:396-417 | how `cache_data` ends: `_init_db`'s outcome, followed by `_insert_data`'s INSERTs when the relation was created (stated in full by `CachedRun`, `CachedRunInsert` and `SecondCacheFails`) |
| Caching.CachedRun | classes/data_wrangler.py:396-409 | a cache run over untagged tables succeeds and tags table `i` with `keys[i]`. It issues the DROP, then the CREATE over `TableName` followed by the first table's columns, and then exactly one statement per row |
| Caching.CachedRunInsert | classes/data_wrangler.py:366-388 | in such a run, row `r` of table `t` is the INSERT at position 2 + (rows before table `t`) + `r`. It names the created columns and carries `keys[t]` followed by the row's values |
| Caching.SecondCacheFails | classes/data_wrangler.py:315-319 | after a successful run, a second run issues only the DROP and then fails at the first table, leaving the tables as they were |
| Caching.CachedRunMatchesSchema | classes/data_wrangler.py:356-388 | when all tables are rectangular with as many columns as the first, every statement after the CREATE is an INSERT into the created columns with one value per column |
| Wrangler.CollectRecords | classes/data_wrangler.py:213-232 | the record loop builds exactly the dictionary `Collect` describes |
| Wrangler.DataWrangler.constructor | classes/data_wrangler.py:49-64 | a new object keeps its path, has the flag 0 and nothing unpacked |
| Wrangler.DataWrangler.SetIsDataUnpacked | classes/data_wrangler.py:84-89 | the setter stores 0 or 1 and silently ignores any other integer |
| Wrangler.DataWrangler.UnpackData | classes/data_wrangler.py:177-263 | a missing file or an unexpected error sets the flag to 0 and keeps the rest. A ValueError, or no converted table, changes nothing. Otherwise `keys` and `tables` are the dictionary's keys and values in order, `num_entries` is their number, `scraped_data` is the dictionary, and the flag is 1 |
| Wrangler.DataWrangler.Store | classes/data_wrangler.py:239-249 | publishing a non-empty dictionary sets every unpacked attribute from it and the flag to 1 |
| Wrangler.DataWrangler.InitDb | classes/data_wrangler.py:294-345 | `_init_db` ends, changes the tables and issues statements exactly as `InitDbEffect` says, with `scraped_data` changed alongside `tables` |
| Wrangler.DataWrangler.TagTables | classes/data_wrangler.py:318-319 | the tagging loop tags the tables before the first conflict, in place, and reports whether there was one |
| Wrangler.DataWrangler.InsertData | classes/data_wrangler.py:347-394 | `_insert_data` appends exactly the INSERTs of `AllInserts` over the first table's columns, and changes nothing else |
| Wrangler.DataWrangler.CacheData | classes/data_wrangler.py:396-417 | `cache_data` ends, changes the tables and issues statements exactly as `CacheEffect` says |

## Left out

- Reading the file (`_read_file`, `pd.read_json`, line 174) is not modelled. Its outcome is the parameter `src`.
- The internals of `pd.json_normalize` and `pd.DataFrame` are not modelled. They are the parameters `normalize` and `construct`.
- Column names are strings. A column name that is not a string (`pd.DataFrame([[1, 2]])` has the columns 0 and 1) makes `name.replace` raise AttributeError at line 325 after the DROP and the tagging, or at line 359; that failure is not modelled.
- Cell values are strings. A value that is not a string makes `name.replace` raise AttributeError at line 380, after some INSERTs were issued; that failure is not modelled.
- The SQLite connection, `commit` and `close` are not modelled, and neither is what the store does with a statement.
  - The `sqlite_master` lookup at lines 339-340 is taken to find the relation, so `_init_db` returns True exactly when it created it.
  - A statement the store rejects (a duplicate column name, or an INSERT whose value count differs from the column count) is not modelled. `Caching.CachedRunMatchesSchema` states when every INSERT has matching counts.
- `metadata()`, every `print`, and the text of the error messages (including the join at line 209) are console output only.
- The property getters, and the setters of `path`, `structure`, `keys`, `tables`, `num_entries` and `scraped_data`, are not modelled. Their `isinstance` checks are enforced by Dafny's types, so the TypeError they raise cannot occur.
- Wrangler.DataWrangler.SetIsDataUnpacked does not model the TypeError raised for a flag that is not an integer, because the parameter's type rules it out.

## Findings

| source | as written | input that shows it | evidently intended | confidence | as-written member | corrected member |
|---|---|---|---|---|---|---|
| classes/data_wrangler.py:207 | the check reads `fda_tables.unpacked.columns`, but `fda_tables` is a local first assigned at line 213. Because it is read inside a generator expression, every frame that is read raises NameError, which the generic handler at lines 260-263 catches, setting the flag to 0 | a frame with columns `tableName` and `data` and one record `Active Investigations` whose payload the normaliser converts | check the columns of `fda_tables_unpacked`, the frame read at line 202, as tests/test_data_wrangler.py:116 expects (flag 1 after unpacking) | high; not executed | Unpacking.UnpackAsWritten (shown by Unpacking.ColumnCheckTypoExample) | Unpacking.Unpack (proved by Unpacking.UnpackStoresIffSomeRecordConverts) |
