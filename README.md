# RAD data preparation, modelled in Dafny

RAD ("Red Hat Anomaly Detection") feeds tables of host facts to an
Isolation Forest. This project models the code in `rad.py` that gets those
tables ready:

- **`inventory_data_to_pandas`, rows part** (`rad.py:110-174`). It walks the
  `results` of a host-inventory reply in order:
  - A result without `facts` or without `account` aborts the call. So does
    a malformed `facts` element.
  - A host whose `facts` is empty is put on `lacks_data` by its
    `display_name`.
  - Every fact becomes one or more `(ix, value, col)` rows. Ints and bools
    become floats. Each list item becomes its own `key|item` column holding
    `True`. A nested dict contributes its entries. Strings are kept. Any
    other value becomes `-1`.
- **`preprocess`** (`rad.py:203-233`). It optionally moves columns into the
  index and optionally drops columns. Then it encodes every object or bool
  column as float category codes, records each column's category-to-code
  mapping, and keeps only numeric columns. A missing `index` or `drop`
  column is caught, and the call returns an empty table with an empty
  mapping.
- **`preprocess_on`** (`rad.py:252-272`). It groups the table on the `on`
  columns and keeps the groups with more than `min_records` rows. It runs
  `preprocess` on each kept group, with `on` as the index when no `index` is
  given. A missing `on` column is caught, and the call returns `None`.

Python's dynamic typing is modelled on the values Python's JSON decoder
produces (module `Json`):

- `x in v` is dict-key, list or substring membership.
- `v[k]` works on dicts only.
- `len(v)` and `for x in v` are defined on lists, strings and dicts.

Any other use raises `TypeError`. The pandas table is modelled as named,
typed columns of cells (module `Frames`, with `groupby` in `Grouping`). Each
pandas call the code makes is written as a rule on that table.

Each loop of the source is a Dafny method, proved equal to a specification
function. The specification functions recurse on the prefix, so each loop
invariant reads "the function of what has been visited so far". The
properties are stated as lemmas about those functions:

- error cases;
- where each row comes from;
- the mappings being a bijection onto `0..k-1`;
- group partition and chunk counts.

Where the repository's tests and its code disagree, the model follows the
code:

- `tests/test_rad.py:91-95` expects `preprocess` to raise `KeyError` for a
  bad `index`. The code catches it (`rad.py:231-233`), and so does the
  model (`PreprocessProperties.MissingKeyEmpties`).
- `tests/test_rad.py:123-127` expects `preprocess_on` to raise `KeyError`
  for a bad `on`. The code catches it and returns `None` (`rad.py:271-272`),
  and so does the model (`ChunkingProperties.MissingOnColumnGivesNone`).

## Model

| member | source | states |
|---|---|---|
| Json.Contains | rad.py:119-122 | `key in v` is defined exactly for dicts, lists and strings; on a dict it is key presence |
| Json.Subscript | rad.py:125-126 | `v[key]` succeeds exactly on a dict holding `key`; otherwise KeyError on a dict, TypeError on anything else |
| Json.Iterate | rad.py:129-137 | iteration, and hence `len`, is defined exactly on lists (items), strings (one-character strings) and dicts (keys) |
| Inventory.ListRows | rad.py:153-157 | one row per list item, in order, each with value `True` and column `key|item` |
| Inventory.DictRows | rad.py:166-170 | one row per entry of a nested dict, in order, with the entry's value under the inner key |
| Inventory.FactRows | rad.py:147-174 | one fact yields as many rows as its width (list length, dict size, else 1), all indexed by the host's name: an int or bool as a float, a string as itself, one `True` per list item under `key|item`, one row per nested-dict entry under the inner key, `-1` for anything else |
| Inventory.EntriesRows | rad.py:145-174 | the rows of a `facts` dict number the sum of the facts' widths, all indexed by the host's name |
| Inventory.ElementRows | rad.py:137-145 | a `facts` element yields rows if and only if it is a dict holding a `facts` dict, and then exactly that dict's rows, each carrying the host's name; a non-dict is the "must be dict" error, a dict without `facts` the KeyError |
| Inventory.ElementsRows | rad.py:137-174 | the rows of all elements of a result's `facts` list carry the host's name |
| Inventory.ResultOutcome | rad.py:119-174 | one result's contribution: a non-container is a TypeError; no `facts` is the first error, then no `account`, then no `display_name`; a success is a dict with a `display_name` whose contribution is decided by its name and `facts` |
| Inventory.DataOutcome | rad.py:128-174 | a `facts` value that cannot be iterated is a TypeError; an empty one gives `Lacking` with the host's name, and a success is `Lacking` exactly when `facts` is empty; emitted rows are all indexed by that name |
| Inventory.FoldOutcomes | rad.py:116-174 | the outer loop's accumulation succeeds only when every result's contribution succeeded |
| Inventory.FlattenResults | rad.py:116-174 | no results give two empty lists, and a success means every result was well formed |
| Inventory.Flatten | rad.py:110-116 | a reply that is not a dict is a TypeError, one without `results` a KeyError; a success means `results` is iterable and the two lists are the fold over its entries |
| Inventory.AppendFact | rad.py:147-174 | the per-fact branch (including its loops over list items and dict entries) appends exactly the fact's rows |
| Inventory.AppendFacts | rad.py:145-174 | the loop over a `facts` dict appends exactly the rows of its entries, in order |
| Inventory.AppendElement | rad.py:137-145 | one element appends its rows or raises its error |
| Inventory.AppendElements | rad.py:137-174 | the loop over a `facts` list appends all elements' rows, or raises the first malformed element's error |
| Inventory.AppendResult | rad.py:118-174 | one pass of the outer loop adds the result's contribution to `rows` or `lacks_data`, or raises its error |
| Inventory.InventoryDataToRows | rad.py:110-174 | the whole loop returns the specified `rows` and `lacks_data`, or the specified error |
| InventoryProperties.FlattenOkIff | rad.py:116-142 | the call succeeds if and only if every result is well formed |
| InventoryProperties.FirstFailureAborts | rad.py:116-142 | the first malformed result decides the error |
| InventoryProperties.FlattenIsConcatenation | rad.py:110-174 | `rows` is the concatenation of every result's rows in order; `lacks_data` lists the names of the hosts with empty `facts`, in order |
| InventoryProperties.ResultNamesItsRows | rad.py:125-131 | a well-formed result has a `display_name`, and its name or rows are indexed by it |
| InventoryProperties.RowsCarryDisplayName | rad.py:126-174 | every row comes from some well-formed result and is indexed by that result's `display_name` |
| InventoryProperties.EmptyFactsLackData | rad.py:129-131 | a result with an empty `facts` list adds its name to `lacks_data` and no rows |
| InventoryProperties.ElementsOkIff | rad.py:137-145 | a `facts` list yields rows if and only if every element is a dict with a `facts` dict |
| InventoryProperties.EmptyFactDictsLeaveNoRows | rad.py:137-145 | elements that are dicts holding an empty `facts` dict, whatever other keys such as `namespace` they hold, add no rows and raise nothing |
| InventoryProperties.EmptyFactDictsLeaveNoTrace | rad.py:119-145 | a host whose non-empty `facts` list holds only such elements contributes no rows and is not put on `lacks_data`: the two lists are unchanged |
| Frames.ColumnNamed | rad.py:208 | the column picked for a key is a column of that name |
| Frames.Without | rad.py:208-212 | the remaining columns are exactly those whose names were not given |
| Frames.SetIndex | rad.py:207-208 | `set_index` succeeds exactly when every key names a column (for a non-empty key list; the empty one is under Left out) |
| Frames.DropColumns | rad.py:211-212 | `drop` succeeds exactly when every label names a data column |
| Frames.KeepNumeric | rad.py:227 | exactly the numeric columns are kept |
| Encoding.Categories | rad.py:219-223 | a column's categories are its non-missing values, each once |
| Encoding.IndexOf | rad.py:219-220 | the position found lies in `-1..k-1`, is -1 exactly when the cell is not among the categories, and otherwise holds the cell |
| Encoding.Codes | rad.py:220 | one float code per cell: a whole number in `-1..k-1`, -1 exactly when the cell is not a category, otherwise the position of the cell's category |
| Encoding.CategoryMap | rad.py:224 | the mapping's keys are the categories, and each is sent to a position in `0..k-1` holding that category |
| Encoding.CategoryMapIsBijection | rad.py:223-224 | the recorded mapping sends the categories one-to-one onto `0..k-1`, each category to its own code |
| Encoding.CodesRoundTrip | rad.py:219-220 | decoding a cell's code through the categories gives the cell back; -1 exactly for missing |
| Preprocess.EncodedColumns | rad.py:216-220 | encoding keeps the column count and replaces each object or bool column by its codes, in place |
| Preprocess.ColumnMappings | rad.py:215-224 | a mapping is recorded under the name of every object or bool column, and every recorded mapping is the category mapping of an object or bool column of that name |
| Preprocess.Selected | rad.py:205-212 | after `set_index` and `drop`, every remaining column is a column of the input; None stands for the KeyError (its exact condition is `SelectedNoneIff`) |
| Preprocess.PreprocessSpec | rad.py:203-233 | every column of the result is numeric, and every name with a mapping is that of an object or bool column of the input |
| Preprocess.EncodeCategoricals | rad.py:215-224 | the encoding loop yields the specified encoded columns and mappings |
| Preprocess.Preprocess | rad.py:203-233 | `preprocess` returns the specified table and mappings, including the empty result on a missing key |
| PreprocessProperties.NumericFrameUnchanged | rad.py:203-230 | a table of numeric columns comes back unchanged with no mappings (tests/test_rad.py:70-80) |
| PreprocessProperties.MappingIsCodeRange | rad.py:219-224 | every mapping's keys are its column's non-missing values, and its values are exactly `0..k-1` |
| PreprocessProperties.MappingCount | rad.py:216-224 | with distinct column names there is one mapping per object or bool column (tests/test_rad.py:82-89) |
| PreprocessProperties.OnlyOtherColumnsRemoved | rad.py:226-227 | after encoding, exactly the non-numeric, non-object, non-bool columns are removed |
| PreprocessProperties.DataColumns | rad.py:207-212 | the columns `drop` sees are exactly the input columns not moved into the index |
| PreprocessProperties.SelectedNoneIff | rad.py:206-212 | `set_index` then `drop` fail if and only if an `index` key is not a column or a `drop` label is not among the remaining data columns |
| PreprocessProperties.MissingKeyEmpties | rad.py:206-233 | a missing `index` column, or a `drop` label missing from the data columns (with or without `index`), yields an empty table and no mappings |
| PreprocessProperties.ValidIndexMissingDropEmpties | rad.py:263-267 | the call `preprocess_on` makes, a valid index column with a `drop` label that is no column, yields an empty table and no mappings |
| PreprocessProperties.DropOfIndexColumnEmpties | rad.py:207-212 | dropping a column just moved into the index is a KeyError, so the result is empty |
| PreprocessProperties.IndexColumnBecomesIndex | rad.py:207-208 | a valid `index` column becomes the result's index (tests/test_rad.py:97-103) |
| PreprocessProperties.StaysRectangular | rad.py:203-230 | every column of the result holds one cell per row |
| Grouping.KeyColumns | rad.py:259 | `groupby(on)` finds its key columns exactly when every `on` name is a column |
| Grouping.GroupKeys | rad.py:259 | the groups are the distinct keys without missing cells, each seen in some row, every such row's key among them |
| Grouping.RowsWith | rad.py:259 | a group's rows are exactly the rows with its key, in increasing order |
| Grouping.SelectRows | rad.py:259 | a chunk keeps every column, holds the group's cells, and has one row per group row |
| Chunking.EffectiveIndex | rad.py:263-264 | a chunk is always preprocessed with an index: the given `index`, or `on` when none was given |
| Chunking.IsBig | rad.py:260 | a group can have more than `min_records` rows only if the table has more than `min_records` rows |
| Chunking.BigGroups | rad.py:259-260 | the kept groups are no more than the groups, and each has more than `min_records` rows |
| Chunking.ChunkResults | rad.py:259-268 | at most one chunk per group key |
| Chunking.PreprocessOnSpec | rad.py:236-272 | the result is present if and only if every `on` name is a column, and then holds at most one chunk per distinct group key |
| Chunking.AddChunk | rad.py:260-268 | one pass of the loop: a big group appends `preprocess` of its chunk under the effective index, a small one changes nothing, and `index` stays either the given one or `on` |
| Chunking.PreprocessOn | rad.py:236-272 | the loop returns the specified chunks (with `min_records` defaulting to 50), the first large chunk setting `index` to `on` for good; None on a missing `on` column |
| ChunkingProperties.GroupsPartitionRows | rad.py:259 | groups are non-empty; a row with a complete key is in its key's group and no other; a row with a missing key cell is in none |
| ChunkingProperties.BigGroupsMembers | rad.py:259-260 | the groups kept are exactly the groups with more than `min_records` rows |
| ChunkingProperties.ChunksOfBigGroups | rad.py:259-268 | the returned chunks are, one for one and in order, `preprocess` of the kept groups' chunks |
| ChunkingProperties.ChunkOrigin | rad.py:259-268 | every returned chunk is `preprocess` of one group with more than `min_records` rows |
| ChunkingProperties.EveryBigGroupChunked | rad.py:259-268 | every group with more than `min_records` rows yields a chunk |
| ChunkingProperties.AllGroupsChunked | rad.py:259-268 | when every group is large enough, there is one chunk per group |
| ChunkingProperties.OneChunkPerGroup | rad.py:259-269 | with `min_records <= 0` the number of chunks is the number of distinct keys (tests/test_rad.py:114-121) |
| ChunkingProperties.MissingOnColumnGivesNone | rad.py:271-272 | a missing `on` column makes the call return None |
| ChunkingProperties.ChunkIndexedByOn | rad.py:263-267 | preprocessing a chunk with `index=on` makes the `on` columns its index and keeps its row count |
| ChunkingProperties.ChunksIndexedByOn | rad.py:262-268 | without `index` and `drop`, every chunk is indexed by the `on` columns and has more than `min_records` rows |

## Left out

- `fetch_s3` and `fetch_inventory_data` (`rad.py:29-87`): network and file-system I/O. The decoded reply is a parameter.
- The pandas tail of `inventory_data_to_pandas` (`rad.py:177-184`): `DataFrame(rows).drop_duplicates()`, appending the `lacks_data` hosts, `pivot` and dropping the NaN column. The model stops at the two lists that tail consumes.
- The Isolation Forest engine and the scoring functions are not part of this model. They rest on floating point and randomness.
- `setup.py` (packaging) and `logging.error` calls (side effects only).
- Inventory.Column: a list item's column is kept as the pair (key, item), not rendered as the text `"key|item"`. Python's `str.format` of arbitrary values is not modelled.
- Inventory.AsFloat: Python's `float(v)` rounds an int to the nearest double and raises an uncaught `OverflowError` once its magnitude reaches about 2^1024 (`rad.py:149`), which aborts the call; the model keeps the exact value and emits the row.
- Json.Json: a dict is assumed to have distinct keys, as Python's decoder yields. A JSON text that repeats a key is not modelled.
- Json.Error: `TypeError` and `AttributeError` (e.g. `.items()` on a non-dict `facts`) are one error, `TypeMismatch`.
- Encoding.Categories: pandas sorts a column's categories by value; the model keeps first-appearance order. Codes and mappings are therefore the same up to that renumbering.
- Encoding.Categories: cells of different kinds never compare equal here, so a bool `True` and the number `1.0` (an int is a number cell too) are two categories. Python and pandas treat `True == 1 == 1.0` and `False == 0 == 0.0` as equal with equal hashes, so `astype("category")` and `dict(zip(...))` (`rad.py:219-224`) merge them into one category, one code and one mapping key.
- Grouping.GroupKeys: by the same cell comparison, keys holding `True` and `1.0` in the same position are two groups here, where `groupby` (`rad.py:259`) forms one.
- Grouping.GroupKeys: pandas sorts groups by key; the model visits them in first-appearance order. Chunk order differs accordingly, but chunk contents do not.
- Frames.Kind: pandas dtypes are reduced to four families: numeric, object, bool and other. Float codes are `Num` cells holding the code as a real.
- Frames.SetIndex: an empty key list is modelled as succeeding with no index columns. pandas's `set_index([])` instead raises `ValueError`, which the `except KeyError` at `rad.py:231` does not catch, so `preprocess(frame, index=[])` raises to its caller, and so does `preprocess_on(..., index=[])` at its first large chunk (`rad.py:267`).
- Frames.SetIndex: `set_index` and `groupby` are modelled on data columns only. Index-level names as `on` or `index` keys are not modelled.
- Preprocess.ColumnMappings: when an object or bool column shares its name with another column, `df[column]` is a table, and `.cat` on it raises an uncaught `AttributeError` (`rad.py:219-220`); the model does not raise and keeps the mapping of the later column of that name.
- Frames.ColumnNamed: with duplicate column names, pandas's behaviour is not modelled; the model takes the first column of that name.
- Chunking.PreprocessOn: requires a non-empty `on`. pandas raises an uncaught `ValueError` for an empty key list, and that error is not modelled.
- Chunking.PreprocessOn: `on` and `index` given as one string are modelled as the one-element list.
