# JSON to Excel converter: the flattening transform

This project models `process_json_data`, the part of the JSON-to-Excel
converter that turns a parsed JSON document of annotation results into the
ordered list of rows written to the spreadsheet. The model has three layers:

- **Items.** The document's root is resolved to a list of items: `payload.results`, a list root, or a single dict.
- **Rows per item.** Each item contributes, for every high-order entry, one "High-Order Text" row. Right after it come one "Low-Order Text" row per low-order entry under it.
- **Reasoning.** An item's reasonings are gathered into a lookup keyed by the `str()` of their publication ID, and a later entry wins. A low-order row shows the looked-up reasoning only when its publication ID is non-empty and has not yet appeared under the same high-order entry.

Modules:

- `JsonValues` (json.dfy): the decoded JSON value and the Python built-ins the transform applies to it. These are `dict.get` with a default, `str()`, iteration by a loop whose body calls `.get`, `', '.join` and the `in` test.
- `Entries` (entries.dfy): the entries once read, the seven-field row, and the rows for given entries as plain functions. This is the specification of the output.
- `Decoder` (decode.dfy): root resolution, and reading the document in the program's own traversal order. It fails where the program fails: the program raises on a non-dict entry, on a value that cannot be iterated, or on a join over non-strings.
- `Flattening` (flatten.dfy): `Flatten`, plus the program's three nested loops as methods. The methods append to a row list and keep a `set` of publication IDs already shown per high-order entry. `ProcessJsonData` is proved to give exactly `Flatten`'s answer, error cases included. The two inner loops are proved to give exactly `EntriesRows` and `LowRows` of the decoded entries, or the decoder's first error.
- `FlatteningProperties` (flatten.dfy): what the transform promises about a whole document: root shapes, the row count, and the fields and reasonings of each row.
- `Scenarios` (scenarios.dfy): concrete documents and their proved outputs.

The result of a run is `Ok(rows)` or `Err(e)`:

- `UnsupportedShape`: the root is neither a dict nor a list. The program prints a message and exits with status 1.
- `Malformed`: the program raises an exception.
- `Unmodelled`: the run meets a value whose text the model does not represent. That is the `str()` of a float, a list or a dict, or a join over the keys of a non-empty dict. The model makes no claim about the rest of the run, which may still raise later.

The first failure in traversal order decides the result.

## Model

| member | source | states |
|---|---|---|
| Flattening.ProcessJsonData | json_to_excel.py:36-94 | The program's nested loops give exactly `Flatten(doc)`: the same rows, and the same error at the first element that fails. |
| Flattening.EmitHighOrderRows | json_to_excel.py:61-93 | The loop over one item's high-order entries gives each entry's row followed by its low-order rows, in order, or the first entry's failure. |
| Flattening.EmitLowOrderRows | json_to_excel.py:74-93 | The loop over one high-order entry's low-order entries, with a shown-set that starts empty, gives exactly the first-occurrence rows `LowRows`, or the first element's failure. |
| Flattening.Flatten | json_to_excel.py:36-94 | The specification of the whole transform: decode, then `ItemsRows`. It has no contract of its own. `ProcessJsonData` is proved equal to it, and `FlatteningProperties` states its properties. |
| Decoder.ResolveRoot | json_to_excel.py:45-53 | The root's items. A dict `payload` with `results` gives those results. A list root gives itself. A dict with no `payload`, or a dict `payload` without `results`, gives a one-item list. A list or string `payload` that contains 'results' raises, and so does a number, boolean or null `payload`. Any other root is refused. It has no contract of its own; it is described by `PayloadResultsActAsRoot`, `ListRootIsItems`, `SingleObjectActsAsOneItem`, `NonDictPayload`, `ScalarRootRefused` and `NumberRootRefused`. |
| Decoder.DecodeReasoning | json_to_excel.py:59 | One reasoning: a dict whose `publication_ID` (default '') is put through `str()` and whose `reasoning` (default '') is kept as is. It has no contract of its own; it is described by `DecodeReasoningsPointwise` and `LookupMapLastWins`. |
| Decoder.DecodeLow | json_to_excel.py:76-92 | One low-order element: a dict, the `str()` of its publication ID, then the parent's paragraph ID formatted into the Tag. It has no contract of its own; it is described by `LowOrderRowsOfEntry`, `LowOrderTagIgnored`, `LowFails` and `DecodeLowsPointwise`. |
| Decoder.DecodeHot | json_to_excel.py:61-76 | One high-order element: a dict whose `tags` are joined before its `low_order_texts` are iterated. It has no contract of its own; it is described by `HighOrderRowOfEntry`, `HotFails` and `DecodeHotsPointwise`. |
| Decoder.DecodeItem | json_to_excel.py:55-61 | One item: a dict whose `reasonings` are read before its `high_order_text` is iterated. It has no contract of its own; it is described by `ItemFails` and `DecodeItemsPointwise`. |
| Decoder.DecodeReasonings | json_to_excel.py:57-59 | An item's `reasonings`, read one after the other by the comprehension; the first one that fails decides the error. It has no contract of its own; it is described by `DecodeReasoningsPointwise`. |
| Decoder.DecodeLows | json_to_excel.py:76-92 | A high-order entry's `low_order_texts`, read in order by the inner loop; the first one that fails decides the error. It has no contract of its own; it is described by `DecodeLowsPointwise` and `LowFails`. |
| Decoder.DecodeHots | json_to_excel.py:61-76 | An item's `high_order_text`, read in order by the middle loop; the first one that fails decides the error. It has no contract of its own; it is described by `DecodeHotsPointwise` and `HotFails`. |
| Decoder.DecodeItems | json_to_excel.py:55-61 | The resolved items, read in order by the outer loop; the first one that fails decides the error. It has no contract of its own; it is described by `DecodeItemsPointwise` and `ItemFails`. |
| Decoder.Decode | json_to_excel.py:45-55 | Root resolution followed by `for item in items` over the result and the reading of every item. It has no contract of its own; it is described by `PayloadResultsActAsRoot`, `ListRootIsItems`, `SingleObjectActsAsOneItem`, `NonDictPayload`, `ScalarRootRefused`, `ItemFailsDocument` and `DocumentRowCount`. |
| Flattening.ItemFailsDocument | json_to_excel.py:55-57 | When the root resolves, its items are iterable and the items before item i read, an item i that fails makes the whole document fail with that item's error. |
| Entries.Lookup | json_to_excel.py:82 | `pub_reasoning_map.get(publication_id, '')`: the mapped reasoning, or "" for an ID with no reasoning. It has no contract of its own; it is described by `ReasoningOnFirstOccurrence` and `LowOrderReasonings`. |
| Entries.HighRow | json_to_excel.py:63-71 | The high-order row: Text Type "High-Order Text", the entry's paragraph ID, publication ID, text and joined tags, Similarity Score "N/A" and Reasonings "". It has no contract of its own; it is described by `EntryRowsShape` and `HighOrderRowOfEntry`. |
| Entries.LowRow | json_to_excel.py:84-92 | The low-order row: Text Type "Low-Order Text", the entry's paragraph ID, stringified publication ID, text, "INCON-" tag and similarity score, and the given reasoning. It has no contract of its own; it is described by `LowOrderRowsOfEntry` and `LowRowsAt`. |
| JsonValues.Get | json_to_excel.py:56-90 | `dict.get(key, default)`: the key's value when present, the default otherwise. It has no contract of its own; it is described by `HighOrderRowOfEntry` and `LowOrderRowsOfEntry`, which state the "" and [] defaults on the rows. |
| JsonValues.Contains | json_to_excel.py:45 | `'results' in payload` when `payload` is a string: a substring test. It has no contract of its own; it is described by `NonDictPayload`. |
| Entries.LookupMap | json_to_excel.py:59 | The reasoning dict, built in order, so a later entry overwrites an earlier one. It has no contract of its own; it is described by `LookupMapKeys` and `LookupMapLastWins`. |
| Entries.ReasoningFor | json_to_excel.py:80-83 | The reasoning on a low-order row: the looked-up text when the ID is non-empty and not seen on an earlier sibling, otherwise "". It has no contract of its own; it is described by `NoReasoningForEmptyId`, `ReasoningAtMostOnce`, `ReasoningOnFirstOccurrence` and `LowOrderReasonings`. |
| Entries.LowRows | json_to_excel.py:76-93 | The low-order rows of one high-order entry. It has no contract of its own; it is described by `LowRowsAt`, and `EmitLowOrderRows` is proved to compute it. |
| Entries.EntryRows | json_to_excel.py:63-93 | One high-order entry's row followed by its low-order rows. It has no contract of its own; it is described by `EntryRowsShape`. |
| Entries.EntriesRows | json_to_excel.py:61-93 | The rows of an item's high-order entries, in order. It has no contract of its own; it is described by `EntriesRowsAppend` and `EntriesRowsCount`, and `EmitHighOrderRows` is proved to compute it. |
| Entries.ItemsRows | json_to_excel.py:55-93 | The rows of all items, each with its own lookup. It has no contract of its own; it is described by `ItemsRowsAppend` and `RowCount`. |
| FlatteningProperties.PayloadResultsActAsRoot | json_to_excel.py:45-46 | A dict whose `payload` dict holds `results` gives the rows of that `results` list as the root. |
| FlatteningProperties.ListRootIsItems | json_to_excel.py:47-48 | A list root is the list of items itself. |
| FlatteningProperties.SingleObjectActsAsOneItem | json_to_excel.py:49-50 | A dict root with no `payload` key, or whose `payload` is a dict without `results`, gives the rows of the one-item list holding it. (Other kinds of `payload` are covered by `NonDictPayload`.) |
| FlatteningProperties.NonDictPayload | json_to_excel.py:45-50 | A list or string `payload` that contains 'results' raises, and one that does not makes the root one item. A number, boolean or null `payload` raises. |
| FlatteningProperties.ScalarRootRefused | json_to_excel.py:51-53 | A root that is neither a dict nor a list yields no rows and the unsupported-structure error. |
| FlatteningProperties.DocumentRowCount | json_to_excel.py:55-93 | The number of rows equals the number of high-order entries plus the number of low-order entries, counted on the document, summed over all items. |
| FlatteningProperties.HighOrderRowOfEntry | json_to_excel.py:63-72 | A high-order entry's row comes first. It holds Text Type "High-Order Text", the entry's own paragraph ID, publication ID and text (default ""), the `tags` (default []) joined with ", ", Similarity Score "N/A" and empty Reasonings. It is followed by one row per low-order element. |
| FlatteningProperties.LowOrderRowsOfEntry | json_to_excel.py:76-92 | The rows after it are, in order, one per element of `low_order_texts`. Each satisfies `IsLowOrderRowOf`: it has Text Type "Low-Order Text", the element's paragraph ID, text and similarity score, the `str()` of its publication ID, and the Tag "INCON-" plus the parent's paragraph ID. |
| FlatteningProperties.LowOrderReasonings | json_to_excel.py:74-83 | A low-order row shows the looked-up reasoning exactly when its publication ID is non-empty and no earlier row under the same high-order entry has it. Every other row shows "". |
| Entries.LookupMapKeys | json_to_excel.py:59 | The lookup holds exactly the publication IDs of the item's reasonings. |
| Entries.LookupMapLastWins | json_to_excel.py:59 | Each publication ID maps to the reasoning of the last entry with that ID. |
| Entries.LowRowsAt | json_to_excel.py:76-93 | Low-order row k is the row of low-order entry k. Its reasoning is decided by the siblings before it alone. |
| Entries.NoReasoningForEmptyId | json_to_excel.py:81 | A low-order row with an empty publication ID always shows "". |
| Entries.ReasoningAtMostOnce | json_to_excel.py:79-83 | A row whose publication ID already appeared on an earlier sibling shows "". This holds even when that earlier sibling found no reasoning, so at most one row per ID carries reasoning. |
| Entries.ReasoningOnFirstOccurrence | json_to_excel.py:79-83 | The first row with a given non-empty publication ID shows the reasoning of the item's last entry for that ID, or "" when the item has none. |
| Entries.EntryRowsShape | json_to_excel.py:63-92 | A high-order entry gives its own row with its fixed fields, then exactly one row per low-order entry, in order, each with the parent's INCON- tag. |
| Entries.EntriesRowsAppend | json_to_excel.py:61-74 | The rows of consecutive high-order entries are the concatenation of their own rows: nothing carries over from one to the next, and in particular not the shown publication IDs. |
| Entries.ItemsRowsAppend | json_to_excel.py:55-59 | The rows of consecutive items are the concatenation of their own rows, each item using only its own reasoning lookup. |
| Entries.RowCount | json_to_excel.py:55-93 | There is one row per high-order entry and one per low-order entry. |
| Decoder.LowOrderTagIgnored | json_to_excel.py:84-92 | A low-order entry's own `tag` field does not affect what is read from it. |
| Decoder.DecodeLowsPointwise | json_to_excel.py:76-78 | The low-order entries are read one per element, in order, and the list reads when every element does. |
| Decoder.DecodeHotsPointwise | json_to_excel.py:61-68 | The high-order entries are read one per element, in order, and the list reads when every element does. |
| Decoder.DecodeItemsPointwise | json_to_excel.py:55-57 | The items are read one per element, in order, and the list reads when every element does. |
| Decoder.DecodeReasoningsPointwise | json_to_excel.py:59 | The reasonings are read one per element, in order, and the list reads when every element does. |
| Decoder.LowFails | json_to_excel.py:76-77 | The first low-order element that cannot be read decides the failure of the whole list. |
| Decoder.HotFails | json_to_excel.py:61-68 | The first high-order element that cannot be read decides the failure of the whole list. |
| Decoder.ItemFails | json_to_excel.py:55-57 | The first item that cannot be read decides the failure of the whole document's items. |
| JsonValues.Str | json_to_excel.py:77 | `str()` succeeds exactly on null, booleans, ints and strings. A string is itself, and an int is its `IntToDecimal` numeral. |
| JsonValues.IntToDecimal | json_to_excel.py:77 | An int's text parses back to it and starts with '-' exactly when the int is negative. The rest is digits with no leading zero, except for "0" itself, so it is the shortest numeral. |
| JsonValues.NatToDecimal | json_to_excel.py:77 | A natural number's text is non-empty digits that parse back to it, with no leading zero unless it is "0". |
| JsonValues.StrIntInjective | json_to_excel.py:59 | Two different int publication IDs never share a lookup key. |
| JsonValues.Members | json_to_excel.py:55 | A loop whose body calls `.get` gets through exactly a list (its elements), an empty string or an empty dict (no elements). |
| JsonValues.JoinTags | json_to_excel.py:68 | The join of a list of strings is those strings with ", " between them. A list holding anything else raises. A string is joined character by character. |
| JsonValues.CommaJoin | json_to_excel.py:68 | The joined text is empty for no parts, and otherwise as long as the parts plus two characters per separator. |
| JsonValues.CommaJoinSnoc | json_to_excel.py:68 | One part joins to itself, and appending a part to a non-empty list appends ", " and that part to the joined text. |
| Scenarios.SingleItemWithRepeatedPublication | json_to_excel.py:55-93 | One item with a high-order entry P1 and two low-order entries of PubA gives three rows. Only the first low-order row shows "because", and both carry INCON-P1. |
| Scenarios.ReasoningShownAgainUnderNextEntry | json_to_excel.py:74 | The same publication's reasoning is shown again under the next high-order entry. |
| Scenarios.IntAndStringIdsMatchAndLastReasoningWins | json_to_excel.py:59 | Reasonings keyed by the int 5 and by the string "5" share a key, and the later one is shown. An int parent ID makes the Tag "INCON-7". |
| Scenarios.TwoTagsJoined | json_to_excel.py:68 | The tags ["x", "y"] join to "x, y". |
| Scenarios.NonObjectItemRaises | json_to_excel.py:56 | An item that is not a dict makes the program raise. |
| Scenarios.NumberRootRefused | json_to_excel.py:51-53 | A number as the root is refused. |

## Left out

- Command-line parsing, `main`, reading the file and decoding the JSON text (`parse_arguments`, `load_json_data`) are not modelled. The document is taken as an already-parsed value.
- Writing and styling the workbook (`create_excel_file`, `format_excel_file`) is not modelled. This covers fonts, borders, alignment and the column-width cap of 50 characters. These are calls into pandas and openpyxl.
- The message printed for an unsupported root and `exit(1)` are modelled as the error result `UnsupportedShape`, not as process termination.
- An exception is one result, `Malformed`. The model does not tell AttributeError from TypeError.
- JsonValues.Str: the text of a float, a list or a dict is not modelled (`Err(Unmodelled)`). At such a publication ID or parent paragraph ID the model stops with `Err(Unmodelled)`: it makes no claim about the rest of the run, which may still produce rows or may still raise later. A float is kept only as its source text and is passed through unchanged; there is no floating-point arithmetic.
- `Err(Unmodelled)` is not a prediction of the program's outcome. The run meets a value whose text the model does not represent; the model makes no claim about the rest of the run, which may still raise later (for instance on a later reasoning that is not a dict).
- JsonValues.JoinTags: the join over a non-empty dict's keys is not modelled (`Err(Unmodelled)`). A `map` does not keep the insertion order those keys follow.
- The order of a dict's keys, and so of the spreadsheet's columns, is not modelled. A row is a record with seven named fields.
- Python's limit on the digits of an int converted to text is not modelled. The JSON decoder enforces it before the transform sees the value.
- JsonValues.CommaJoin: its own contract states only the length of the result. The contents are stated by `CommaJoinSnoc`, which gives the join part by part, and by the two-tag scenario `TwoTagsJoined`.
- A second reasoning policy is not modelled, because `json_to_excel.py` does not contain it. That policy has a reasoning scope covering the whole item, a low-order row's own tag used as its Tag, suppression of rows whose Tag starts with "CONF-", and null for absent fields. `process_json_data` implements none of this: it uses the per-high-order-entry scope with the "INCON-" tag and "" defaults, and only that is modelled.
