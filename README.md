# axs_web sheet flattening, response envelope and item-limit check, in Dafny

This project models the three pieces of logic in the `axs_web` Flask backend
(`app.py`) that are more than glue over Flask, `requests` and gspread:

- **The sheet flattening in `get_sheet_data`.** The grid of cell strings
  read from a worksheet (`all_values`) becomes four things: the header row,
  one record per remaining row that maps each header to that row's cell, the
  row count (`total`) and a status envelope (`errorResponse`). Short rows
  read as `""` past their end. Cells beyond the header count are ignored.
  When a header repeats, the last column with that header wins. An empty
  grid gives a distinct error envelope and no record list. The grid and the
  worksheet title are inputs to the model.
- **The `MKTResponse` envelope.** It is a four-field record (`EsError`,
  `ErrorCode`, `Message`, `Result`) with `success` and `error` constructors
  and `to_dict`.
- **The item-limit summary in `combined_process`.** It counts the submitted
  `items`, reads `max_connections` from the Node.js configuration (100 when
  absent), and reports whether the count is within that maximum.

Modules, one file each:

- `Wrappers` (`wrappers.dfy`): `Option`, standing for Python's `None`.
- `JsonValue` (`json.dfy`): JSON values, plus Python's `dict.get`, `len`,
  and how an int compares with a JSON value.
- `Envelope` (`envelope.dfy`): `MKTResponse`. `ErrorCode` is a sum type,
  `IntCode(int) | TextCode(string)`, because the source passes the int `-1`
  on the empty-sheet path and the string `"0"` on success. `Message` is an
  `Option<string>` and `Result` is a JSON value (null when `None`).
- `SheetData` (`sheet_data.dfy`): the flattening.
  - The record of a row has a declarative specification, `RecordOf`: each
    distinct header maps to the cell at its last column.
  - The source's two nested loops are the methods `BuildRecord` (inner loop)
    and `GetSheetData` (outer loop). Both are proved against that
    specification.
  - `Flatten` is the function form of the whole result. `ToDict` is the
    dictionary the source returns. A key the source leaves out is `None` in
    the `SheetResult` datatype and absent from the dictionary.
- `CombinedProcess` (`combined_process.dfy`): the limit computation.
  - `None` stands for the inputs on which the source raises and falls into
    its generic error reply:
    - the request body or the configuration is not a JSON object;
    - `items` has no length;
    - the maximum cannot be compared with an int.
  - Nothing checks that `max_connections` is a number before the
    comparison, so a boolean maximum counts as 0 or 1, as in Python.

## Model

| member | source | states |
|---|---|---|
| `Envelope.Success` | app.py:65-73 | a success envelope has the error flag clear, code `"0"`, the given message (default `"Operación exitosa"`) and the given result |
| `Envelope.Error` | app.py:75-83 | an error envelope has the error flag set and carries the given code, message and result (default none) |
| `Envelope.ToDict` | app.py:56-63 | the dictionary has exactly the keys `EsError`, `ErrorCode`, `Message`, `Result`, each holding its field unchanged |
| `Envelope.ToDictRoundTrip` | app.py:56-63 | every envelope is recovered from its dictionary by `FromDict`, so `to_dict` loses no field |
| `Envelope.ToDictInjective` | app.py:56-63 | two envelopes with the same dictionary are equal |
| `Envelope.ConstructorDefaults` | app.py:50-54 | the constructor with no arguments gives an error envelope with code `""`, no message and no result |
| `Envelope.SuccessDict` | app.py:56-73 | the dictionary of `success(result, message)` is `EsError=false`, `ErrorCode="0"`, that message and that result |
| `Envelope.SuccessIsNotError` | app.py:65-83 | success and error envelopes always differ, and their `EsError` entries are false and true respectively |
| `JsonValue.PyLen` | app.py:251 | `len()` is defined exactly on strings, lists and dicts; for a list it is the number of elements |
| `JsonValue.AsPyInt` | app.py:252 | a value compares with an int exactly when it is an int (itself) or a bool (true as 1, false as 0) |
| `JsonValue.Get` | app.py:246 | `dict.get` gives the stored value when the key is present and the default otherwise |
| `SheetData.Cell` | app.py:157 | the cell read for column `i` is `row[i]` when the row has that column and `""` past its end |
| `SheetData.LastIndex` | app.py:156-157 | the position found carries the header and no later column carries it |
| `SheetData.RecordOf` | app.py:155-157 | the key set of a record is exactly the set of header strings |
| `SheetData.BuildRecord` | app.py:155-157 | the loop that assigns `row_dict[header]` column by column yields exactly the record `RecordOf` specifies |
| `SheetData.RecordLastWins` | app.py:156-157 | a header whose last column is `i` maps to `row[i]` when `i < len(row)` and to `""` otherwise |
| `SheetData.RecordDistinctHeaders` | app.py:156-157 | with no repeated header, the header at column `i` maps to the cell at column `i` (or `""`) for every `i` |
| `SheetData.RecordValuesFromHeaderColumns` | app.py:156-157 | every value in a record is the cell (or `""`) of some column below the header count that carries its key |
| `SheetData.RecordOnlyReadsHeaderColumns` | app.py:156-157 | two rows that agree, after padding, on the columns the headers cover give the same record |
| `SheetData.RecordPaddedRow` | app.py:157 | padding a short row with `""` cells does not change its record |
| `SheetData.RecordTruncatedRow` | app.py:156-157 | dropping the cells beyond the header count does not change a record |
| `SheetData.DistinctCount` | app.py:155-157 | a list holds at most as many distinct strings as its length, and exactly that many when no string repeats |
| `SheetData.RecordSize` | app.py:155-157 | a record has at most one entry per header column, and exactly one per column when no header repeats |
| `SheetData.RowOf` | app.py:155-157 | reading a record back gives one cell per header |
| `SheetData.RowOfRecordOf` | app.py:156-157 | with distinct headers, reading a record back gives each covered cell of the row (`""` past its end), and gives the row itself when it has one cell per header |
| `SheetData.Records` | app.py:153-158 | there is one record per data row, and record k is the record of row k, so row order is kept |
| `SheetData.Flatten` | app.py:143-168 | empty grid: no headers, total 0, no record list, no sheet name, envelope `error(-1, "sin datos")`; otherwise: headers are the first row, one record per remaining row, `total` equals that count, the sheet name is the title and the envelope is `success("OK")` |
| `SheetData.GetSheetData` | app.py:141-169 | the loop that appends one record per row after the header row produces exactly `Flatten`'s result |
| `SheetData.FlattenRecordCells` | app.py:149-158 | record k has the header set as keys and is built from grid row k+1, each header holding that row's cell at its last column |
| `SheetData.HeaderOnlySheet` | app.py:149-168 | a grid holding only a header row gives an empty record list, total 0 and a success envelope |
| `SheetData.FlattenRoundTrip` | app.py:149-158 | for a rectangular grid with distinct headers, the header row followed by each record read back into a row is the original grid, so the flattening keeps row order and every cell |
| `SheetData.RecordsJson` | app.py:166 | the JSON list has one object per record, in order, each holding the record's header-to-cell entries as strings |
| `SheetData.ToDict` | app.py:146 | the returned dictionary always has `headers`, `total` and `errorResponse`; it has `sheet_name` and `inventoryList` exactly when those are present, holding the sheet name and the records as JSON objects in order; headers, total and envelope are rendered unchanged; it has no other keys |
| `SheetData.EmptySheetDict` | app.py:143-146 | the whole dictionary for an empty grid is `headers=[]`, `total=0` and the envelope `EsError=true`, `ErrorCode=-1`, `Message="sin datos"`, `Result=null` |
| `SheetData.LoadedSheetDict` | app.py:161-169 | for a non-empty grid the dictionary has exactly five keys: the title, the header row, the remaining-row count as `total`, under `inventoryList` element k the JSON object of the record of grid row k+1, and the envelope `EsError=false`, `ErrorCode="0"`, `Message="Operación exitosa"`, `Result="OK"` |
| `CombinedProcess.Process` | app.py:246-252 | non-object inputs fail. A reply keeps the body and reports `max_connections` (default 100) as allowed. It counts `len(items)` (default empty list) and is within limits iff that count is at most the maximum |
| `CombinedProcess.WithinLimitsIff` | app.py:246-252 | for L listed items and an integer maximum M, the reply counts L, reports M and is within limits iff L ≤ M |
| `CombinedProcess.DefaultLimit` | app.py:246 | without `max_connections` the maximum is 100 and the reply is within limits iff L ≤ 100 |
| `CombinedProcess.MissingItems` | app.py:251-252 | a body without `items` counts 0 items, which are within limits iff the maximum is non-negative |
| `CombinedProcess.BooleanLimit` | app.py:246-252 | a boolean `max_connections` is reported as given and the reply is within limits iff L ≤ 1 for true, L ≤ 0 for false |
| `CombinedProcess.ProcessDefinedIff` | app.py:246-252 | for object inputs, a reply exists iff `items` has a length and the maximum is an int or a bool |

## Left out

- Flask app construction, CORS, request logging and the security headers (app.py:12-40): framework configuration with no logic of its own.
- Google Sheets access (app.py:89-114, 127-141, 174-186): credentials, authorisation, opening by URL or key, worksheet selection, `get_all_values`, the worksheet title and `get_all_worksheets`. These are calls into gspread and the network. The grid and the title are inputs to `Flatten` and `GetSheetData`.
- The Node.js calls in `get_node_config`, `combined_process` and `check_node_api` (app.py:196-243, 300-307): HTTP requests, timeouts, status pass-through and JSON decoding are network I/O. Only the pure computation at app.py:246-252 is modelled.
- The Flask reply wrapper of `combined_process` (app.py:255-259): it `jsonify`s `success`, the computed `result` and `node_config_used` with status 200. It adds nothing to the computation, which `CombinedProcess.Process` models.
- The `except Exception` fallbacks and the 404/500/exception handlers (app.py:171-172, 261-265, 271-294): their replies depend on runtime exception text. `CombinedProcess.Process` returns `None` where the source would take that path.
- The `__main__` entry point and environment lookups (app.py:315-324): process startup.
- `SheetData.RecordOf`: Python dictionaries keep the order in which keys were first inserted. A Dafny `map` has no order, so the model does not state the key order of the JSON records.
- `CombinedProcess.Process`: the `Json` type has no floating-point numbers, so a float anywhere in the request body or the configuration is not covered, including a float `max_connections`.
