# Document routing: outbox, reference tables and pagination, in Dafny

This project models the core of a document-tracking system for a regional
office. Its outbox lists outgoing documents, and each document has a routing
slip of destination rows. Its reference tables (action officers, regions,
offices, document types, actions required, actions taken, required days,
user levels) feed those documents. The model covers both sides:

- The Django views under `backend/api/views` become functions over request
  bodies (`map<string, Value>` of JSON values) and a `Store.Table` class that
  stands for one Supabase table. The views covered are create with its guard
  chain, update with its patch, delete, bulk delete and list, and the
  camelCase/snake_case serialisers of the outbox views.
- The React modals and pages become classes. Their fields are the components'
  `useState` variables and their methods are the handlers. An answer a
  handler waits for (a request's reply, `window.confirm`, `Date.now()`) is a
  parameter.
- The pagination hook `usePagination` and the `Pagination` footer become
  `Paging.Pager` and `PageControls`.
- The CSV export of the document-by-subject report is a loop method checked
  against a specification function.

Lemmas connect the layers: what each form accepts, sends and reopens, and
how the view it targets answers. The code computes no deadlines, overdue
flags or aggregate status, and the model follows the code.

## Model

| member | source | states |
|---|---|---|
| `Views.FirstFailure` | backend/api/views/action_officer.py:54-88 | the guard chain stops at the first rule the body fails: no position exactly when every rule passes, and every rule before the reported one passes |
| `Views.Guard` | backend/api/views/action_officer.py:54-88 | a create answers 400 exactly when some rule of its chain fails |
| `Views.Guarded` | backend/api/views/action_officer.py:54-100 | the record is inserted exactly when every rule passes; otherwise the error is the guard chain's message |
| `Views.GuardReports` | backend/api/views/action_officer.py:54-88 | rule k's message is the one reported when the rules before it pass and it fails |
| `Views.Convert` | backend/api/views/document_action_required_days.py:115-122 | an update field is copied as given, as `v if v else None`, or through `int()`, which may fail |
| `Views.PatchFrom` | backend/api/views/document_action_required_days.py:109-122 | update_data holds exactly the columns of the keys present, each converted; it is abandoned exactly when a present `int()` field fails |
| `Views.PresentAt` | backend/api/views/document_action_required_days.py:111-117 | a field's column is in update_data exactly when its key is in the request |
| `Views.PatchErrorMessage` | backend/api/views/document_action_required_days.py:115-122 | an abandoned update names the `int()` failure of a present field |
| `Views.PatchOrEmpty` | backend/api/views/document_action_required_days.py:109-128 | the update body: the patch when it is non-empty, the conversion error when one failed, "No data provided for update" when it is empty |
| `Views.NothingRecognisedIsRefused` | backend/api/views/document_action_required_days.py:124-128 | a request with none of the recognised keys is refused with "No data provided for update" |
| `Views.PlainPatch` | backend/api/views/action_taken.py:93-104 | without `int()` fields the update is refused exactly when no recognised key is present, and otherwise sets exactly the present keys' columns |
| `Views.PatchValueAt` | backend/api/views/action_taken.py:93-98 | a present key of an accepted update sets its column to its converted value |
| `Views.Shaped` | backend/api/views/document_destination.py:77-81 | the list response shapes every row, one for one, in order |
| `Views.PresentHasNoId` | backend/api/views/action_officer.py:130-149 | no update mapping writes the id column |
| `Views.Create` | backend/api/views/action_officer.py:91-111 | a refused request changes nothing and answers 400 with its message; an accepted one stores one new row under the next id and answers 201 with it, or 500 when the store returns nothing |
| `Views.Update` | backend/api/views/action_officer.py:151-169 | a refused patch changes nothing; an accepted one overwrites its columns of the row with this id, and answers 200 with the row, or 404 when no row has the id |
| `Views.PatchRow` | backend/api/views/action_officer.py:120-175 | the update view: the patch built from the request's recognised keys is applied to the row with this id, or refused with 400, or answered with 404 |
| `Views.DeleteOne` | backend/api/views/action_officer.py:178-199 | the row with this id, if any, is removed, and the answer is 200 either way |
| `Views.BulkIds` | backend/api/views/action_officer.py:212-218 | the ids are used exactly when `ids` is a non-empty list |
| `Views.BulkDelete` | backend/api/views/action_officer.py:202-232 | 400 and no change without a non-empty list; otherwise every row whose id is listed, as a number or as its text, is removed and the message counts the listed ids |
| `Views.ListRows` | backend/api/views/document_destination.py:66-81 | the list view returns every row the filter selects, each once, in the requested order, each shaped |
| `Views.ListById` | backend/api/views/action_officer.py:11-31 | the reference list view returns every row once, by ascending id |
| `Store.Table.Select` | backend/api/views/document_destination.py:69-76 | `select('*')` with an `eq` filter and an `order`: every selected row once, sorted |
| `Store.Table.Insert` | backend/api/views/action_officer.py:91-100 | one new row under the next id, returned when the store returns written rows |
| `Store.Table.Update` | backend/api/views/action_officer.py:158 | `update(patch).eq('id', id)`: the patch's columns overwrite the row's, no other row changes |
| `Store.Table.Delete` | backend/api/views/action_officer.py:188 | `delete().eq('id', id)` removes that row and no other |
| `Store.Table.DeleteIn` | backend/api/views/action_officer.py:221 | `delete().in_('id', ids)` removes exactly the rows whose id is listed, as a number or as text that reads as that number, and keeps every other row |
| `Store.ListedForms` | backend/api/views/action_officer.py:221 | an id listed as the number 3 or as the text "3" names row 3, and an empty list names no row |
| `PyValue.Get` | backend/api/views/action_officer.py:44-51 | `dict.get(k)` is None exactly for an absent key |
| `PyValue.GetOr` | backend/api/views/document_destination.py:42-47 | `dict.get(k, default)` gives the default only for an absent key |
| `PyValue.Or` | backend/api/views/document_destination.py:18-24 | `a or b` is a when a is truthy, else b |
| `PyValue.PyInt` | backend/api/views/document_action_required_days.py:66-72 | `int(v)`: a bool gives 0 or 1, an int itself, a string its decimal literal after stripping white space; anything else raises |
| `PyValue.PyIntOfDecimal` | backend/api/views/document_action_required_days.py:67 | `int()` reads back the decimal text of any integer |
| `ActionOfficer.CreateRecord` | backend/api/views/action_officer.py:44-100 | accepted exactly when the six required fields are truthy, with a message of one of them otherwise; the inserted row has exactly the eight columns, the required ones as given and office / office representative as given when truthy and None otherwise |
| `ActionOfficer.MessageListed` | backend/api/views/action_officer.py:54-88 | the 400 message is one of the six guard messages |
| `ActionOfficer.OrNullKeeps` | backend/api/views/action_officer.py:49-51 | an optional field is stored as given when truthy and as None otherwise; it is truthy exactly when the body's value is |
| `ActionOfficer.RulesPass` | backend/api/views/action_officer.py:54-88 | the guard chain passes exactly when the six required fields are truthy |
| `ActionOfficer.GuardOrder` | backend/api/views/action_officer.py:54-88 | the reported message is that of the first falsy field in the order code, last, first, middle name, password, level |
| `ActionOfficer.UpdateRefused` | backend/api/views/action_officer.py:151-155 | the update is refused, with "No data provided for update", exactly when no recognised key is present |
| `ActionOfficer.UpdatePatchExact` | backend/api/views/action_officer.py:130-149 | an accepted patch sets each of the eight columns (employee code, last, first and middle name, office, password, user level, office representative) exactly when its key is present: as given, or `v if v else None` for office and office representative |
| `ActionOfficer.PatchAt` | backend/api/views/action_officer.py:130-149 | any one field of an accepted patch: its column is set exactly when its key is present, to the key's value converted as that field converts it |
| `ActionOfficer.FieldsDistinct` | backend/api/views/action_officer.py:130-149 | the update mapping writes eight distinct columns |
| `ActionOfficer.Create` | backend/api/views/action_officer.py:34-117 | the create view: 400 and no change when a guard fails, else one new row and 201, or 500 when the store returns nothing |
| `ActionOfficer.Update` | backend/api/views/action_officer.py:120-175 | the update view: 400 and no change on a refused patch, else the row with the id patched and 200, or 404 |
| `ActionOfficer.Delete` | backend/api/views/action_officer.py:178-199 | the row is removed and the answer is 200 with the delete message |
| `ActionRequired.Checked` | backend/api/views/action_required.py:46-53 | create and update accept exactly a truthy actionRequired, written to the one column |
| `ActionRequired.Create` | backend/api/views/action_required.py:36-74 | 400 and no change without a truthy actionRequired; otherwise one new row and 201, or 500 when nothing comes back |
| `ActionRequired.Update` | backend/api/views/action_required.py:79-115 | the one column of the row with this id is replaced, other columns are kept; a falsy value is refused; no row gives 404 |
| `ActionRequired.Delete` | backend/api/views/action_required.py:120-139 | the row is removed and the answer is 200 |
| `ActionTaken.CreateRecord` | backend/api/views/action_taken.py:43-63 | accepted exactly when code and name are truthy, the code checked first; the pair is inserted as given |
| `ActionTaken.GuardOrder` | backend/api/views/action_taken.py:47-58 | the code's message is reported before the name's |
| `ActionTaken.NoCodeNoItem` | backend/api/views/action_taken.py:47-51 | without a code no item is created, whatever else the request holds |
| `ActionTaken.UpdateRefused` | backend/api/views/action_taken.py:100-104 | the update is refused, with "No data provided for update", exactly when no recognised key is present |
| `ActionTaken.UpdatePatchExact` | backend/api/views/action_taken.py:93-98 | an accepted patch sets exactly the present keys' columns, each as given |
| `ActionTaken.Create` | backend/api/views/action_taken.py:36-80 | 400 and no change when a guard fails, else one new row and 201, or 500 |
| `ActionTaken.Update` | backend/api/views/action_taken.py:85-124 | 400 and no change on a refused patch, else the row patched and 200, or 404 |
| `ActionTaken.Delete` | backend/api/views/action_taken.py:129-148 | the row is removed and the answer is 200 |
| `DocumentType.CreateRecord` | backend/api/views/document_type.py:43-63 | accepted exactly when code and name are truthy, the code checked first; the pair is inserted as given |
| `DocumentType.GuardOrder` | backend/api/views/document_type.py:47-58 | the code's message is reported before the name's |
| `DocumentType.NoCodeNoItem` | backend/api/views/document_type.py:47-51 | without a code no document type is created |
| `DocumentType.UpdateRefused` | backend/api/views/document_type.py:100-104 | refused, with "No data provided for update", exactly when no recognised key is present |
| `DocumentType.UpdatePatchExact` | backend/api/views/document_type.py:93-98 | an accepted patch sets exactly the present keys' columns, each as given |
| `DocumentType.Create` | backend/api/views/document_type.py:36-80 | 400 and no change when a guard fails, else one new row and 201, or 500 |
| `DocumentType.Update` | backend/api/views/document_type.py:85-124 | 400 and no change on a refused patch, else the row patched and 200, or 404 |
| `DocumentType.Delete` | backend/api/views/document_type.py:129-148 | the row is removed and the answer is 200 |
| `Office.CreateRecord` | backend/api/views/office.py:44-63 | accepted exactly when the office name is truthy; region, short name and head office are inserted as given, None when absent |
| `Office.UpdateRefused` | backend/api/views/office.py:102-106 | refused, with "No data provided for update", exactly when no recognised key is present |
| `Office.UpdatePatchExact` | backend/api/views/office.py:92-100 | an accepted patch sets exactly the present keys' columns, each as given |
| `Office.PatchKeys` | backend/api/views/office.py:92-100 | the patch's keys are the columns of the present keys |
| `Office.SnakesListed` | backend/api/views/office.py:94-100 | the update writes the four columns office, region, short_name and head_office |
| `Office.FieldsShape` | backend/api/views/office.py:92-100 | the update copies four distinct columns, none through `int()` |
| `Office.PatchAt` | backend/api/views/office.py:92-100 | field i's column is set exactly when its key is present, to the value given |
| `Office.Create` | backend/api/views/office.py:36-78 | 400 and no change without an office name, else one new row and 201, or 500 |
| `Office.Update` | backend/api/views/office.py:83-126 | 400 and no change on a refused patch, else the row patched and 200, or 404 |
| `Office.Delete` | backend/api/views/office.py:131-150 | the row is removed and the answer is 200 |
| `UserLevels.CreateRecord` | backend/api/views/user_levels.py:44-55 | accepted exactly when the name is truthy; the name is inserted as given |
| `UserLevels.UpdateRefused` | backend/api/views/user_levels.py:87-94 | refused, with "No data provided for update", exactly when userLevelName is absent |
| `UserLevels.UpdatePatchExact` | backend/api/views/user_levels.py:87-88 | an accepted patch sets exactly user_level_name, as given |
| `UserLevels.Create` | backend/api/views/user_levels.py:36-72 | 400 and no change without a name, else one new row and 201, or 500 |
| `UserLevels.Update` | backend/api/views/user_levels.py:77-114 | 400 and no change on a refused patch, else the row patched and 200, or 404 |
| `UserLevels.Delete` | backend/api/views/user_levels.py:119-138 | the row is removed and the answer is 200 |
| `Region.RulesPass` | backend/api/views/region.py:52-81 | the guard chain passes exactly when the six required fields are truthy |
| `Region.CreateRecord` | backend/api/views/region.py:52-94 | accepted exactly when the six required fields are truthy; then insert_data, user_level_id only when given and not None |
| `Region.GuardOrder` | backend/api/views/region.py:52-81 | the reported message is that of the first falsy field in the order name, abbreviation, NSCB code, NSCB name, added by, status |
| `Region.NoAbbreviationNoRegion` | backend/api/views/region.py:57-61 | without an abbreviation no region is created, whatever else the request holds |
| `Region.UpdateRefused` | backend/api/views/region.py:147-151 | refused, with "No data provided for update", exactly when no recognised key is present |
| `Region.UpdateUserLevel` | backend/api/views/region.py:136-141 | a present userLevelId is written as given, None included; an absent one is not written |
| `Region.Create` | backend/api/views/region.py:36-113 | 400 and no change when a guard fails, else one new row and 201, or 500 |
| `Region.Update` | backend/api/views/region.py:118-171 | 400 and no change on a refused patch, else the row patched and 200, or 404 |
| `Region.Delete` | backend/api/views/region.py:176-195 | the row is removed and the answer is 200 |
| `RequiredDays.CreateRecord` | backend/api/views/document_action_required_days.py:44-79 | the three guards in order, then `int()` of requiredDays: each failure's own message, and on success exactly the three columns with the parsed number |
| `RequiredDays.GuardOrder` | backend/api/views/document_action_required_days.py:48-64 | the message reported is that of the first guard failed; the chain passes exactly when type and action are truthy and the days are not None |
| `RequiredDays.ZeroAndNegativeDaysAccepted` | backend/api/views/document_action_required_days.py:60-72 | 0 and negative day counts, as numbers or as text, are accepted and stored as that number |
| `RequiredDays.UpdatePatchExact` | backend/api/views/document_action_required_days.py:109-128 | an accepted patch sets exactly the present keys' columns, requiredDays through `int()`; a bad number or an empty patch is refused with its message, and nothing else is |
| `RequiredDays.Create` | backend/api/views/document_action_required_days.py:34-96 | 400 and no change when a guard fails, else one new row and 201, or 500 |
| `RequiredDays.Update` | backend/api/views/document_action_required_days.py:99-148 | 400 and no change on a refused patch, else the row patched and 200, or 404 |
| `RequiredDays.Delete` | backend/api/views/document_action_required_days.py:151-172 | the row is removed and the answer is 200 |
| `Columns.ReadValue` | backend/api/views/document_destination.py:16-34 | a column read as given, `or ''`, `or 0`, or as `str(v or '')` when not None and '' when None |
| `Columns.WriteValue` | backend/api/views/document_destination.py:41-58 | a payload key written as given, with its default when absent, or as `v or None` |
| `Columns.ToCamel` | backend/api/views/document_destination.py:15-35 | the record _row_to_camel builds: exactly one key per column, each read by its rule |
| `Columns.RowToCamel` | backend/api/views/document_destination.py:13-14 | an empty or missing row maps to None, any other row to its record |
| `Columns.ToSnake` | backend/api/views/document_destination.py:40-59 | the dictionary _payload_to_snake builds: exactly one key per column, each written by its rule |
| `Columns.ToCamelSize` | backend/api/views/document_destination.py:15-35 | the record has as many keys as there are columns |
| `Columns.ToSnakeSize` | backend/api/views/document_destination.py:40-59 | the payload has as many keys as there are columns |
| `Columns.CarriesRecovers` | backend/api/views/document_destination.py:40-59 | the pairs of read and write rules the serialisers use give back the values they carry |
| `Columns.RoundTripAt` | backend/api/views/document_destination.py:15-59 | one key of the round trip: reading back the written payload gives its value back |
| `Columns.RoundTrip` | backend/api/views/document_destination.py:15-59 | reading back a payload written from data gives data back on every key the write side carries |
| `Destination.RowKeysDistinct` | backend/api/views/document_destination.py:15-35 | the 19 record keys are distinct |
| `Destination.PayloadKeysDistinct` | backend/api/views/document_destination.py:40-59 | the 18 payload columns are distinct |
| `Destination.PayloadHasNoId` | backend/api/views/document_destination.py:40-59 | the payload never writes the id |
| `Destination.RowToCamel` | backend/api/views/document_destination.py:11-35 | None exactly for an empty row, otherwise a record of exactly 19 keys |
| `Destination.PayloadToSnake` | backend/api/views/document_destination.py:38-59 | exactly 18 columns, never the id |
| `Destination.RowDefaults` | backend/api/views/document_destination.py:16-34 | empty text reads as '', an empty sequence number as 0, a None time as '' and a present time as its `str()` |
| `Destination.PayloadDefaults` | backend/api/views/document_destination.py:41-58 | an absent key takes its default ('' or 0, None for the owner), and every empty date or time is written as None |
| `Destination.TablesAligned` | backend/api/views/document_destination.py:16-58 | each payload column is read back by the record key after id with the same names |
| `Destination.PairsCarry` | backend/api/views/document_destination.py:16-58 | strings, a number for sequenceNo and any owner id pass both rules of their key unchanged |
| `Destination.PairKind` | backend/api/views/document_destination.py:16-58 | which pair of rules each payload column has: the owner raw, the sequence number `or 0`, text `or ''`, dates and times `or None` |
| `Destination.PayloadAligned` | backend/api/views/document_destination.py:16-58 | the payload the front end sends lines up with the record on all 18 keys |
| `Destination.RoundTrip` | backend/api/views/document_destination.py:15-59 | `_row_to_camel(_payload_to_snake(p))` gives back p on all 18 mapped keys |
| `Destination.CreatePayload` | backend/api/views/document_destination.py:92-102 | 400 with "document_source_id is required" when the owner is None, else 400 when the control or route number is '' (absent included), else the mapped payload, whose owner is not None |
| `Destination.PayloadHead` | backend/api/views/document_destination.py:41-43 | the three columns the create guards read |
| `Destination.CreateIgnoresSequence` | backend/api/views/document_destination.py:92-102 | the guards never look at the sequence number: any value, or none, is let through alike |
| `Destination.SameGuardedKeys` | backend/api/views/document_destination.py:92-102 | two requests that differ only in the sequence number are accepted alike |
| `Destination.Create` | backend/api/views/document_destination.py:86-114 | 400 and no change on a refused payload; else one new row with a non-None owner and 201 with its record, or 500 |
| `Destination.UpdatePayload` | backend/api/views/document_destination.py:123-125 | the mapped payload with the owner popped: 17 columns, no owner and no id, the rest as mapped |
| `Destination.Update` | backend/api/views/document_destination.py:117-137 | the row with the id gets every mapped column but the owner; no row's owner ever changes; 200 with its record, or 404 |
| `Destination.PatchKeepsOwner` | backend/api/views/document_destination.py:124-126 | a patch without the owner column leaves every row's owner as it was |
| `Destination.SourceFilter` | backend/api/views/document_destination.py:68-75 | the list is filtered by owner exactly when the parameter is given, not '', and `int()` accepts it |
| `Destination.List` | backend/api/views/document_destination.py:62-83 | the selected destinations, each once, in ascending sequence number, each as its record |
| `Destination.ListedRowsBelong` | backend/api/views/document_destination.py:70-73 | with a numeric parameter every listed row belongs to that document |
| `Destination.Delete` | backend/api/views/document_destination.py:140-152 | the row is removed and the answer is 200 |
| `Destination.BulkDelete` | backend/api/views/document_destination.py:155-173 | 400 and no change without a non-empty id list; else the rows whose id is listed, as a number or as its text, are removed and the message counts the listed ids |
| `Source.RowKeysDistinct` | backend/api/views/document_source.py:15-37 | the 21 record keys are distinct |
| `Source.PayloadKeysDistinct` | backend/api/views/document_source.py:42-61 | the 18 payload columns are distinct |
| `Source.PayloadLeavesOutNumbers` | backend/api/views/document_source.py:42-61 | the payload has no column for the id, the control number or the route number |
| `Source.RowToCamel` | backend/api/views/document_source.py:11-37 | None exactly for an empty row, otherwise a record of exactly 21 keys |
| `Source.PayloadToSnake` | backend/api/views/document_source.py:40-61 | exactly 18 columns, never the id, the control number or the route number |
| `Source.RowDefaults` | backend/api/views/document_source.py:17-36 | every text column reads as '' when empty or null |
| `Source.PayloadDefaults` | backend/api/views/document_source.py:43-60 | an absent key is written as '', and an absent or empty sourceType as None |
| `Source.TablesAligned` | backend/api/views/document_source.py:17-60 | each payload column is read back by the record key three places later |
| `Source.PairsCarry` | backend/api/views/document_source.py:17-60 | every string passes both rules of its key unchanged |
| `Source.PayloadAligned` | backend/api/views/document_source.py:17-60 | the payload the front end sends lines up with the record on all 18 keys |
| `Source.RoundTrip` | backend/api/views/document_source.py:11-61 | `_row_to_camel(_payload_to_snake(p))` agrees with p on all 18 mapped keys |
| `Source.PayloadGuarded` | backend/api/views/document_source.py:43-55 | the two columns the create guard reads |
| `Source.CreatePayload` | backend/api/views/document_source.py:86-91 | refused, with "Subject and Remarks are required", exactly when subject or remarks is falsy; otherwise the mapped payload |
| `Source.BlankTextIsAccepted` | backend/api/views/document_source.py:87 | a subject and remarks of white space alone are accepted: nothing is trimmed |
| `Source.Create` | backend/api/views/document_source.py:80-103 | 400 and no change on a refused payload; else one new row and 201 with its record, or 500 |
| `Source.Update` | backend/api/views/document_source.py:106-124 | the row with the id gets all 18 mapped columns; control and route numbers never change; 200 with its record, or 404 |
| `Source.MergeKeeps` | backend/api/views/document_source.py:113 | a column the payload lacks keeps its value on update |
| `Source.UpdateBlanksAbsent` | backend/api/views/document_source.py:112-113 | an update that leaves out subject, remarks and sourceType blanks those columns: it replaces rather than patches |
| `Source.PayloadSourceType` | backend/api/views/document_source.py:45 | source_type is `sourceType or None` |
| `Source.List` | backend/api/views/document_source.py:64-77 | every document once, most recently created first, each as its record |
| `Source.Delete` | backend/api/views/document_source.py:127-139 | the row is removed and the answer is 200 |
| `Source.BulkDelete` | backend/api/views/document_source.py:142-160 | 400 and no change without a non-empty id list; else the rows whose id is listed, as a number or as its text, are removed and the message counts the listed ids |
| `Paging.Keep` | frontend/src/hooks/usePagination.ts:44-53 | `items.filter(p)`: only items satisfying p, and every item satisfying p |
| `Paging.KeepAppend` | frontend/src/hooks/usePagination.ts:44-53 | filtering keeps the items' order: filtering a concatenation filters each part |
| `Paging.KeepEvery` | frontend/src/hooks/usePagination.ts:44-53 | items that all pass are kept as they are |
| `Paging.KeepNone` | frontend/src/hooks/usePagination.ts:44-53 | items none of which pass leave nothing |
| `Paging.Filtered` | frontend/src/hooks/usePagination.ts:39-54 | every item for a blank query; otherwise exactly the items the search filter (or, without one, the lowercased stringified item) matches |
| `Paging.FilteredAppend` | frontend/src/hooks/usePagination.ts:39-54 | the search keeps the items' order |
| `Paging.TotalPages` | frontend/src/hooks/usePagination.ts:57 | `Math.ceil(n / per)`: the fewest pages of per items that hold n items, 0 exactly for no items |
| `Paging.Page` | frontend/src/hooks/usePagination.ts:58-60 | the slice from `(page - 1) * per`: at most per items, the right ones, as many as remain |
| `Paging.PageInRangeNotEmpty` | frontend/src/hooks/usePagination.ts:57-60 | a page within the page count is never empty |
| `Paging.PagesArePrefix` | frontend/src/hooks/usePagination.ts:58-60 | the first k pages, read in turn, are the first k * per items |
| `Paging.AllPages` | frontend/src/hooks/usePagination.ts:57-60 | reading every page in turn gives back exactly the filtered items |
| `Paging.Pager.PaginatedItems` | frontend/src/hooks/usePagination.ts:60 | the items shown never exceed the page size |
| `Paging.Pager.constructor` | frontend/src/hooks/usePagination.ts:25-31 | the hook starts on page 1 with the items, page size, query and filter it is given |
| `Paging.Pager.SetQuery` | frontend/src/hooks/usePagination.ts:33-36 | the query becomes the one passed; the page goes back to 1 only when it differs from the query before, and the items stay |
| `Paging.Pager.Clamp` | frontend/src/hooks/usePagination.ts:62-67 | a page past the last moves to the last page when there is one, after which the page shown is not empty; otherwise the page stays |
| `Paging.Pager.SetItems` | frontend/src/hooks/usePagination.ts:62-67 | new items, then the clamping effect |
| `Paging.Pager.HandlePageChange` | frontend/src/hooks/usePagination.ts:69-74 | only a page in [1, totalPages] is taken, and that page shows items; any other leaves the page as it was |
| `PageControls.ShownRange` | frontend/src/components/Pagination.tsx:24-25 | on a page within range, "showing start to end" is 1-based, in order, within the list, and counts exactly the items on the page |
| `PageControls.EmptyRange` | frontend/src/components/Pagination.tsx:24-25 | an empty list shows 0 to 0 |
| `PageControls.Previous` | frontend/src/components/Pagination.tsx:27-31 | Previous goes one page back exactly when not on the first page |
| `PageControls.Next` | frontend/src/components/Pagination.tsx:33-37 | Next goes one page on exactly when not on the last page |
| `PageControls.PageBox.constructor` | frontend/src/components/Pagination.tsx:18 | the box starts showing the current page |
| `PageControls.PageBox.Sync` | frontend/src/components/Pagination.tsx:20-22 | a page change shows the new page in the box |
| `PageControls.PageBox.Change` | frontend/src/components/Pagination.tsx:39-41 | typing replaces the box's text |
| `PageControls.PageBox.Submit` | frontend/src/components/Pagination.tsx:43-51 | a typed page in [1, totalPages] is emitted; anything else emits nothing and puts the current page back; the synced box emits the current page |
| `PageControls.PageBox.Blur` | frontend/src/components/Pagination.tsx:53-58 | leaving the box with text it does not accept puts the current page back |
| `PageControls.TextIsRefused` | frontend/src/components/Pagination.tsx:45-46 | non-numeric text is never accepted as a page |
| `JsNum.Number` | frontend/src/components/reference-tables/DocumentActionRequiredDaysModal.tsx:109 | `Number(s)`: a blank string is 0; a decimal literal with white space around it is read; anything else is NaN |
| `JsNum.ParseInt` | frontend/src/components/Pagination.tsx:45 | `parseInt(s)`: after leading white space and a sign, the longest run of digits; NaN without a digit |
| `JsNum.ParseIntOfDecimal` | frontend/src/components/Pagination.tsx:18-22 | parseInt reads back the decimal text of any page number |
| `JsNum.NumberOfDecimal` | frontend/src/components/reference-tables/DocumentActionRequiredDaysModal.tsx:70 | Number reads back the decimal text a stored day count opens as |
| `Text.StripCuts` | backend/api/views/document_action_required_days.py:67 | stripping leaves the longest infix that neither starts nor ends with white space, empty exactly for white space only |
| `Text.StripPadded` | backend/api/views/document_action_required_days.py:67 | stripping removes exactly the white space around a text |
| `Text.BlankIffTrimmedEmpty` | frontend/src/components/reference-tables/DocumentActionRequiredDaysModal.tsx:101-108 | `!s.trim()` holds exactly when trimming leaves nothing |
| `Text.Lower` | frontend/src/hooks/usePagination.ts:49-51 | `toLowerCase` keeps the length and lowercases each letter |
| `Text.LowerTwice` | frontend/src/hooks/usePagination.ts:49-52 | lowercasing twice is lowercasing once |
| `Text.Includes` | frontend/src/hooks/usePagination.ts:52 | `hay.includes(needle)` exactly when needle occurs at some position of hay |
| `Text.IncludesItself` | frontend/src/hooks/usePagination.ts:52 | a text includes itself |
| `Text.IntToString` | frontend/src/components/Pagination.tsx:18 | the decimal text of a number, with a minus sign when negative |
| `Forms.Pick` | frontend/src/components/reference-tables/DocumentActionRequiredDaysModal.tsx:121-125 | the object of the named fields, each `form.key` or '' when absent |
| `Forms.PickTwice` | frontend/src/components/reference-tables/DocumentActionRequiredDaysModal.tsx:66-71 | a saved payload, opened again, shows the same fields |
| `Forms.Blank` | frontend/src/components/reference-tables/DocumentActionRequiredDaysModal.tsx:126-130 | the reset form: every field '' |
| `Forms.Require` | frontend/src/components/reference-tables/DocumentActionRequiredDaysModal.tsx:101-106 | a blank field gets its message; a filled one leaves the errors as they were |
| `Forms.Cleared` | frontend/src/components/reference-tables/DocumentActionRequiredDaysModal.tsx:90-95 | after a change a field's non-empty message is emptied and nothing else changes |
| `Forms.Body` | frontend/src/services/api.ts:76-80 | the JSON body a payload of strings arrives as |
| `Forms.FilledIsTruthy` | frontend/src/components/reference-tables/DocumentActionRequiredDaysModal.tsx:101-106 | a field the form accepts is one the views find truthy: the server accepts at least what the form does |
| `RequiredDaysModal.DaysCheck` | frontend/src/components/reference-tables/DocumentActionRequiredDaysModal.tsx:107-111 | blank days are missing; NaN or negative days are invalid; otherwise the days pass |
| `RequiredDaysModal.AcceptedIff` | frontend/src/components/reference-tables/DocumentActionRequiredDaysModal.tsx:98-115 | validate accepts exactly when type and action are not blank and the days read as a number that is not negative |
| `RequiredDaysModal.Opened` | frontend/src/components/reference-tables/DocumentActionRequiredDaysModal.tsx:65-71 | an edit opens on the row's type, action and the days as text, '' for missing ones |
| `RequiredDaysModal.OpenedDaysChecked` | frontend/src/components/reference-tables/DocumentActionRequiredDaysModal.tsx:70-111 | a stored day count opens as text the check passes when it is 0 or more and refuses as invalid when negative |
| `RequiredDaysModal.DecimalNotBlank` | frontend/src/components/reference-tables/DocumentActionRequiredDaysModal.tsx:107 | the decimal text of a number is never blank |
| `RequiredDaysModal.AcceptedIsCreated` | frontend/src/components/reference-tables/DocumentActionRequiredDaysModal.tsx:117-125 | an accepted form with whole days n is created by the view with n days and the typed type and action |
| `RequiredDaysModal.CreatedWithDays` | frontend/src/components/reference-tables/DocumentActionRequiredDaysModal.tsx:120-125 | a form with non-blank type and action and whole days n is stored with those values |
| `RequiredDaysModal.FractionAccepted` | frontend/src/components/reference-tables/DocumentActionRequiredDaysModal.tsx:107-111 | the form accepts "1.5" days |
| `RequiredDaysModal.FractionRefusedByView` | backend/api/views/document_action_required_days.py:66-72 | the create view refuses those "1.5" days as not a number |
| `RequiredDaysModal.OneAndAHalf` | frontend/src/components/reference-tables/DocumentActionRequiredDaysModal.tsx:109 | Number reads "1.5" as one and a half while `int()` refuses it |
| `RequiredDaysModal.Modal.Open` | frontend/src/components/reference-tables/DocumentActionRequiredDaysModal.tsx:65-80 | opening shows the row's fields, or a blank form, and clears the errors |
| `RequiredDaysModal.Modal.Change` | frontend/src/components/reference-tables/DocumentActionRequiredDaysModal.tsx:84-96 | the field takes the typed value and its message is emptied |
| `RequiredDaysModal.Modal.Validate` | frontend/src/components/reference-tables/DocumentActionRequiredDaysModal.tsx:98-115 | the errors become those of the form, and it passes exactly when there are none |
| `RequiredDaysModal.Modal.Submit` | frontend/src/components/reference-tables/DocumentActionRequiredDaysModal.tsx:117-134 | an accepted form is saved as its three text fields and reset; a refused one saves nothing and shows its errors |
| `RequiredDaysModal.Modal.Close` | frontend/src/components/reference-tables/DocumentActionRequiredDaysModal.tsx:136-145 | closing resets the form and the errors |
| `ActionOfficerModal.AcceptedIff` | frontend/src/components/reference-tables/ActionOfficerModal.tsx:92-116 | validate accepts exactly when the six required fields hold more than white space; office and office representative may stay empty |
| `ActionOfficerModal.CodeReported` | frontend/src/components/reference-tables/ActionOfficerModal.tsx:95-97 | a blank employee code is reported under its own name with its message, and only then |
| `ActionOfficerModal.ReopenedValidatesAlike` | frontend/src/components/reference-tables/ActionOfficerModal.tsx:49-60 | a saved payload, opened again, validates as the form it came from |
| `ActionOfficerModal.SameRequiredFields` | frontend/src/components/reference-tables/ActionOfficerModal.tsx:95-112 | the form requires the same six fields as the create view, under the same messages |
| `ActionOfficerModal.AcceptedIsCreated` | frontend/src/components/reference-tables/ActionOfficerModal.tsx:118-131 | whatever the form accepts the create view accepts, storing the fields as typed |
| `ActionOfficerModal.ServerTakesSpaces` | frontend/src/components/reference-tables/ActionOfficerModal.tsx:95-97 | an employee code of spaces is refused by the form but accepted by the create view |
| `ActionOfficerModal.AllButCodeFilled` | frontend/src/components/reference-tables/ActionOfficerModal.tsx:98-112 | changing only the code keeps the other required fields filled for the form and for the view |
| `ActionOfficerModal.Modal.constructor` | frontend/src/components/reference-tables/ActionOfficerModal.tsx:37-47 | the modal starts blank with no errors |
| `ActionOfficerModal.Modal.Open` | frontend/src/components/reference-tables/ActionOfficerModal.tsx:49-74 | opening shows initialData's eight fields ('' for a missing one) or a blank form, and clears the errors |
| `ActionOfficerModal.Modal.Change` | frontend/src/components/reference-tables/ActionOfficerModal.tsx:78-90 | the field takes the typed value and its message is emptied |
| `ActionOfficerModal.Modal.Validate` | frontend/src/components/reference-tables/ActionOfficerModal.tsx:92-116 | the errors become those of the form, and it passes exactly when there are none |
| `ActionOfficerModal.Modal.Submit` | frontend/src/components/reference-tables/ActionOfficerModal.tsx:118-145 | an accepted form is saved as its eight fields and reset; a refused one saves nothing and shows its errors |
| `ActionOfficerModal.Modal.Close` | frontend/src/components/reference-tables/ActionOfficerModal.tsx:147-160 | closing resets the form and the errors |
| `RegionModal.AcceptedIff` | frontend/src/components/reference-tables/RegionModal.tsx:77-98 | validate accepts exactly when the five fields hold more than white space |
| `RegionModal.Opened` | frontend/src/components/reference-tables/RegionModal.tsx:40-48 | an edit opens on the row's snake_case columns under the form's names, '' for a missing one |
| `RegionModal.OpenedStoredRow` | frontend/src/components/reference-tables/RegionModal.tsx:40-48 | opening a stored row shows the payload that made it |
| `RegionModal.AcceptedIsRefused` | frontend/src/components/reference-tables/RegionModal.tsx:103-110 | whatever the form accepts the create view refuses with "Abbreviation is required": the form has no abbreviation |
| `RegionModal.EditIsPatched` | frontend/src/components/reference-tables/RegionModal.tsx:104-110 | an edit always sends recognised keys, so the update view never answers "No data provided for update" |
| `RegionModal.Modal.Open` | frontend/src/components/reference-tables/RegionModal.tsx:40-59 | opening shows the row's fields or a blank form, and clears the errors |
| `RegionModal.Modal.Change` | frontend/src/components/reference-tables/RegionModal.tsx:63-75 | the field takes the typed value and its message is emptied |
| `RegionModal.Modal.Validate` | frontend/src/components/reference-tables/RegionModal.tsx:77-98 | the errors become those of the form, and it passes exactly when there are none |
| `RegionModal.Modal.Submit` | frontend/src/components/reference-tables/RegionModal.tsx:100-121 | an accepted form is saved as its five fields and reset; a refused one saves nothing and shows its errors |
| `RegionModal.Modal.Close` | frontend/src/components/reference-tables/RegionModal.tsx:123-133 | closing resets the form and the errors |
| `OfficeModal.Errors` | frontend/src/components/reference-tables/OfficeModal.tsx:89-98 | validate refuses exactly a blank office name, with its one message |
| `OfficeModal.Opened` | frontend/src/components/reference-tables/OfficeModal.tsx:54-61 | an edit opens on the row's columns under the form's names, '' for a missing one |
| `OfficeModal.OpenedStoredRow` | frontend/src/components/reference-tables/OfficeModal.tsx:54-61 | opening a stored row shows the payload that made it |
| `OfficeModal.AcceptedIsCreated` | frontend/src/components/reference-tables/OfficeModal.tsx:103-109 | whatever the form accepts the create view accepts, storing the four fields as typed |
| `OfficeModal.EditIsPatched` | frontend/src/components/reference-tables/OfficeModal.tsx:104-109 | an edit always sends recognised keys, so the update view never answers "No data provided for update" |
| `OfficeModal.Modal.Open` | frontend/src/components/reference-tables/OfficeModal.tsx:54-71 | opening shows the row's fields or a blank form, and clears the errors |
| `OfficeModal.Modal.Change` | frontend/src/components/reference-tables/OfficeModal.tsx:75-87 | the field takes the typed value and its message is emptied |
| `OfficeModal.Modal.Validate` | frontend/src/components/reference-tables/OfficeModal.tsx:89-98 | the errors become those of the form, and it passes exactly when there are none |
| `OfficeModal.Modal.Submit` | frontend/src/components/reference-tables/OfficeModal.tsx:100-119 | an accepted form is saved as its four fields and reset; a refused one saves nothing and shows its errors |
| `OfficeModal.Modal.Close` | frontend/src/components/reference-tables/OfficeModal.tsx:121-130 | closing resets the form and the errors |
| `DocumentTypeModal.AcceptedIff` | frontend/src/components/reference-tables/DocumentTypeModal.tsx:55-67 | validate accepts exactly when code and name hold more than white space; a blank code gets its message |
| `DocumentTypeModal.Opened` | frontend/src/components/reference-tables/DocumentTypeModal.tsx:24-29 | an edit opens on the row's code and name, '' for a missing one |
| `DocumentTypeModal.TypingKeepsCode` | frontend/src/components/reference-tables/DocumentTypeModal.tsx:138-142 | typing in the one rendered input never changes the code |
| `DocumentTypeModal.AddNeverAccepted` | frontend/src/components/reference-tables/DocumentTypeModal.tsx:55-60 | opened blank, the code stays '' whatever is typed, so an add is always refused |
| `DocumentTypeModal.AcceptedIsCreated` | frontend/src/components/reference-tables/DocumentTypeModal.tsx:69-76 | whatever the form accepts the create view accepts, storing both fields as typed |
| `DocumentTypeModal.EditIsPatched` | frontend/src/components/reference-tables/DocumentTypeModal.tsx:73-76 | an edit always sends recognised keys, so the update view never answers "No data provided for update" |
| `DocumentTypeModal.Modal.Open` | frontend/src/components/reference-tables/DocumentTypeModal.tsx:24-37 | opening shows the row's fields or a blank form, and clears the errors |
| `DocumentTypeModal.Modal.ChangeDocumentType` | frontend/src/components/reference-tables/DocumentTypeModal.tsx:41-53 | the rendered input sets the name and empties its message |
| `DocumentTypeModal.Modal.Validate` | frontend/src/components/reference-tables/DocumentTypeModal.tsx:55-67 | the errors become those of the form, and it passes exactly when there are none |
| `DocumentTypeModal.Modal.Submit` | frontend/src/components/reference-tables/DocumentTypeModal.tsx:69-84 | an accepted form is saved as its two fields and reset; a refused one saves nothing and shows its errors |
| `DocumentTypeModal.Modal.Close` | frontend/src/components/reference-tables/DocumentTypeModal.tsx:86-93 | closing resets the form and the errors |
| `AddDestinationRowModal.TypedRouteKept` | frontend/src/components/outbox/AddDestinationRowModal.tsx:45 | a typed route number is kept, trimmed |
| `AddDestinationRowModal.GeneratedRoute` | frontend/src/components/outbox/AddDestinationRowModal.tsx:45 | a blank route number becomes "RN-" and the clock reading modulo one million, six digits once the clock has six |
| `AddDestinationRowModal.StampShape` | frontend/src/components/outbox/AddDestinationRowModal.tsx:45 | the generated stamp is "RN-" followed by the last six digits of the clock reading |
| `AddDestinationRowModal.LastSixDigits` | frontend/src/components/outbox/AddDestinationRowModal.tsx:45 | `slice(-6)` of the clock's decimal text is its value modulo one million |
| `AddDestinationRowModal.SuffixValue` | frontend/src/components/outbox/AddDestinationRowModal.tsx:45 | the last k digits of a decimal text denote its value modulo 10^k |
| `AddDestinationRowModal.RouteNeverBlank` | frontend/src/components/outbox/AddDestinationRowModal.tsx:45 | whatever is typed, the saved route number is neither blank nor padded with white space |
| `AddDestinationRowModal.RouteStable` | frontend/src/components/outbox/AddDestinationRowModal.tsx:45 | a saved route number, saved again, is kept whatever the clock then says |
| `AddDestinationRowModal.RowStamped` | frontend/src/components/outbox/AddDestinationRowModal.tsx:43-61 | the new row carries the document's control number, the next sequence number, and the six received and acted-upon columns empty |
| `AddDestinationRowModal.RowInputs` | frontend/src/components/outbox/AddDestinationRowModal.tsx:43-61 | the new row holds every input as typed, the route number aside |
| `AddDestinationRowModal.ResavedRow` | frontend/src/components/outbox/AddDestinationRowModal.tsx:43-61 | a saved row, read back into the inputs and saved again, is the same row |
| `AddDestinationRowModal.InputsRead` | frontend/src/components/outbox/AddDestinationRowModal.tsx:22-30 | the nine inputs read back from a row are the row's columns |
| `AddDestinationRowModal.RowBody` | frontend/src/components/outbox/AddDestinationRowModal.tsx:9 | the body the row arrives as: no owner id, the control and route numbers as given |
| `AddDestinationRowModal.RowNeedsOwner` | frontend/src/components/outbox/AddDestinationRowModal.tsx:9 | the row alone is refused by the destination create view for lack of document_source_id; with an owner and a control number it is accepted |
| `AddDestinationRowModal.Modal.constructor` | frontend/src/components/outbox/AddDestinationRowModal.tsx:22-30 | the nine inputs start empty |
| `AddDestinationRowModal.Modal.Change` | frontend/src/components/outbox/AddDestinationRowModal.tsx:103-110 | an input's setter replaces that input only |
| `AddDestinationRowModal.Modal.Submit` | frontend/src/components/outbox/AddDestinationRowModal.tsx:41-72 | the row built from the document, the sequence number, the inputs and the clock is saved, and every input is reset |
| `AddDestinationRowModal.Modal.Close` | frontend/src/components/outbox/AddDestinationRowModal.tsx:74-85 | every input is reset and nothing is saved |
| `DestinationsModal.RefFields` | frontend/src/components/outbox/DocumentDestinationsModal.tsx:79-84 | the five reference control numbers, in order |
| `DestinationsModal.Refs` | frontend/src/components/outbox/DocumentDestinationsModal.tsx:79-85 | `filter(Boolean)` keeps exactly the non-empty references, in order, at most five |
| `DestinationsModal.AllRefsKept` | frontend/src/components/outbox/DocumentDestinationsModal.tsx:79-85 | with all five filled, all five are listed in order |
| `DestinationsModal.NoRefs` | frontend/src/components/outbox/DocumentDestinationsModal.tsx:79-85 | with none filled, none is listed |
| `DestinationsModal.HeaderShifted` | frontend/src/components/outbox/DocumentDestinationsModal.tsx:215-268 | as written the header has one label fewer than the row has cells, and each label heads the cell before the field it names |
| `DestinationsModal.CorrectedHeaderAligned` | frontend/src/components/outbox/DocumentDestinationsModal.tsx:215-268 | with a "Document Control No." label put first, every label names the cell under it |
| `DestinationsModal.Modal.constructor` | frontend/src/components/outbox/DocumentDestinationsModal.tsx:69 | nothing is selected at first |
| `DestinationsModal.Modal.SelectAll` | frontend/src/components/outbox/DocumentDestinationsModal.tsx:96-102 | ticking selects every listed id, unticking none; distinct ids stay distinct |
| `DestinationsModal.Modal.SelectDestination` | frontend/src/components/outbox/DocumentDestinationsModal.tsx:104-108 | a row's box toggles its id, keeping the selection free of repeats |
| `DestinationsModal.Modal.DeleteSelected` | frontend/src/components/outbox/DocumentDestinationsModal.tsx:110-114 | nothing happens with nothing selected; otherwise the selected ids are handed on and the selection empties |
| `AddDocumentModal.AcceptedIff` | frontend/src/components/outbox/AddDocumentModal.tsx:53-83 | validate accepts exactly when the seven always-required fields hold more than white space, and the external employee too for an External source |
| `AddDocumentModal.ExternalReported` | frontend/src/components/outbox/AddDocumentModal.tsx:74-76 | the external employee is reported, with its message, exactly for an External source whose external employee is blank |
| `AddDocumentModal.LeadingSkipsExternal` | frontend/src/components/outbox/AddDocumentModal.tsx:56-73 | the six leading checks never report the external employee |
| `AddDocumentModal.InternalAlwaysRequired` | frontend/src/components/outbox/AddDocumentModal.tsx:68-70 | the internal originating office is required even for an External source |
| `AddDocumentModal.Modal.constructor` | frontend/src/components/outbox/AddDocumentModal.tsx:10-35 | the modal starts on the basic tab, blank, with no errors |
| `AddDocumentModal.Modal.SelectTab` | frontend/src/components/outbox/AddDocumentModal.tsx:157-163 | a tab button changes the tab shown and not the form |
| `AddDocumentModal.Modal.Change` | frontend/src/components/outbox/AddDocumentModal.tsx:39-51 | the field takes the typed value and its message is emptied; the tab stays |
| `AddDocumentModal.Modal.Validate` | frontend/src/components/outbox/AddDocumentModal.tsx:53-83 | the errors become those of the form, and it passes exactly when there are none |
| `AddDocumentModal.Modal.Submit` | frontend/src/components/outbox/AddDocumentModal.tsx:85-123 | an accepted form is added as a document with the clock as id and every field, and the form, errors and tab reset; a refused one adds nothing and shows its errors |
| `AddDocumentModal.Modal.Close` | frontend/src/components/outbox/AddDocumentModal.tsx:125-153 | closing resets the form, the errors and the tab |
| `InlineEditModal.AcceptedIff` | frontend/src/components/outbox/InlineEditModal.tsx:62-81 | validate accepts exactly when the four essential fields hold more than white space |
| `InlineEditModal.SameMessages` | frontend/src/components/outbox/InlineEditModal.tsx:66-77 | the inline edit and the add modal report the four essential fields under the same messages |
| `InlineEditModal.AddedPassesInline` | frontend/src/components/outbox/InlineEditModal.tsx:62-81 | a document the add modal accepted passes the inline edit's checks |
| `InlineEditModal.InlineAllowsBlankRemarks` | frontend/src/components/outbox/InlineEditModal.tsx:62-81 | the converse fails: the inline edit lets blank remarks through, which the add modal refuses |
| `InlineEditModal.Modal.constructor` | frontend/src/components/outbox/InlineEditModal.tsx:36-37 | the modal starts with no form and no errors |
| `InlineEditModal.Modal.DocumentChanged` | frontend/src/components/outbox/InlineEditModal.tsx:39-43 | a document passed in becomes the form; none leaves the form as it was |
| `InlineEditModal.Modal.Change` | frontend/src/components/outbox/InlineEditModal.tsx:47-60 | without a form nothing happens; otherwise the field takes the value, the id stays, and the field's message is emptied |
| `InlineEditModal.Modal.Validate` | frontend/src/components/outbox/InlineEditModal.tsx:62-81 | false without a form, errors untouched; otherwise the errors become those of the form and it passes exactly when there are none |
| `InlineEditModal.Modal.Submit` | frontend/src/components/outbox/InlineEditModal.tsx:83-91 | the whole edited document, id included, is saved exactly when there is a form and it validates |
| `InlineEditModal.Modal.Close` | frontend/src/components/outbox/InlineEditModal.tsx:93-99 | the form goes back to the document passed in, if any, and the errors are cleared |
| `Documents.Filled` | frontend/src/pages/Outbox.tsx:80-104 | the object built carries every declared field and the given id, and each field is the given text or '' when it is missing |
| `Documents.FilledComplete` | frontend/src/pages/Outbox.tsx:80-104 | filling a document that already carries every field, under its own id, gives it back unchanged |
| `Outbox.NewDocument` | frontend/src/pages/Outbox.tsx:80-104 | the appended document carries every field and its id is the clock reading |
| `Outbox.AddKeepsModalFields` | frontend/src/pages/Outbox.tsx:80-104 | a document that already carries every field keeps all of them; only the id is replaced |
| `Outbox.AddThenDelete` | frontend/src/pages/Outbox.tsx:80-105 | a document added at a fresh clock reading keeps the ids distinct, and deleting that id gives back the list as it was |
| `Outbox.SameInstantCollides` | frontend/src/pages/Outbox.tsx:82 | two documents added at the same millisecond share an id, and deleting it removes both |
| `Outbox.BulkDeleteSpec` | frontend/src/pages/Outbox.tsx:71-78 | with nothing selected, or no confirmation, the list is unchanged; a confirmed delete keeps exactly the unselected documents and nothing new |
| `Outbox.UpdateSpec` | frontend/src/pages/Outbox.tsx:113-118 | the length stays, the document with the saved id is replaced and every other one stays; an unknown id changes nothing |
| `Outbox.FooterUndercounts` | frontend/src/pages/Outbox.tsx:44 | with more than ten documents and one page, the footer shows items 1 to 10 and offers no next page |
| `Outbox.AddThenInlineEdit` | frontend/src/pages/Outbox.tsx:80-118 | a document the add modal accepts also passes the inline edit's checks, and saving an edit of it replaces exactly the new document |
| `Outbox.Page.constructor` | frontend/src/pages/Outbox.tsx:35-44 | no documents, no selection, every modal closed, view mode, page 1 of 1 |
| `Outbox.Page.HandlePageChange` | frontend/src/pages/Outbox.tsx:49-53 | the page changes only to a page in [1, totalPages]; every other field of the page stays as it was |
| `Outbox.Page.SelectAll` | frontend/src/pages/Outbox.tsx:55-61 | ticked selects every document's id in list order; unticked selects none; every other field of the page stays as it was |
| `Outbox.Page.SelectItem` | frontend/src/pages/Outbox.tsx:63-69 | the id is toggled in the selection, and a selection without repeats keeps none; every other field of the page stays as it was |
| `Outbox.Page.DeleteSelected` | frontend/src/pages/Outbox.tsx:71-78 | the list becomes the bulk-delete result, and the selection empties only when something went; every other field of the page stays as it was |
| `Outbox.Page.OpenAdd` | frontend/src/pages/Outbox.tsx:176 | the add modal opens; every other field of the page stays as it was |
| `Outbox.Page.CloseAdd` | frontend/src/pages/Outbox.tsx:305 | the add modal closes; every other field of the page stays as it was |
| `Outbox.Page.AddDocument` | frontend/src/pages/Outbox.tsx:80-106 | exactly the new document is appended; every other field of the page stays as it was |
| `Outbox.Page.OpenDetail` | frontend/src/pages/Outbox.tsx:108-145 | the document becomes the selected one and the detail modal opens, in the mode given or the mode it had; every other field of the page stays as it was |
| `Outbox.Page.OpenRoutingSlip` | frontend/src/pages/Outbox.tsx:136-139 | the document becomes the selected one and the routing slip opens; every other field of the page stays as it was |
| `Outbox.Page.OpenInlineEdit` | frontend/src/pages/Outbox.tsx:147-150 | the document becomes the selected one and the inline edit opens; every other field of the page stays as it was |
| `Outbox.Page.UpdateDocument` | frontend/src/pages/Outbox.tsx:113-118 | the document with the saved id is replaced and becomes the selected one; every other field of the page stays as it was |
| `Outbox.Page.DeleteDocument` | frontend/src/pages/Outbox.tsx:120-128 | a confirmed delete removes every document with that id and, when it was the selected one, closes the detail modal; a refusal changes nothing; every other field of the page stays as it was |
| `Outbox.Page.CloseDetail` | frontend/src/pages/Outbox.tsx:312-316 | the detail modal closes, nothing is selected, the mode is view; every other field of the page stays as it was |
| `Outbox.Page.CloseRoutingSlip` | frontend/src/pages/Outbox.tsx:325-328 | the routing slip closes and nothing is selected; every other field of the page stays as it was |
| `Outbox.Page.CloseInlineEdit` | frontend/src/pages/Outbox.tsx:335-338 | the inline edit closes and nothing is selected; every other field of the page stays as it was |
| `Listing.Ids` | frontend/src/pages/Outbox.tsx:57 | one id per item, in order, each the item's own |
| `Listing.Toggle` | frontend/src/pages/Outbox.tsx:63-69 | the id is in the result exactly when it was not before, every other id stays as it was, and an absent id is appended |
| `Listing.ToggleTwice` | frontend/src/pages/Outbox.tsx:63-69 | ticking an unticked id and unticking it gives back the same list |
| `Listing.ToggleTwiceTicked` | frontend/src/pages/Outbox.tsx:63-69 | unticking a ticked id and ticking it again gives back the same set of ids |
| `Listing.ToggleKeepsDistinct` | frontend/src/pages/Outbox.tsx:63-69 | a selection without repeats keeps none after a toggle |
| `Listing.RemoveIds` | frontend/src/pages/Outbox.tsx:75 | exactly the items whose id is not among the given ids stay, and nothing new appears |
| `Listing.RemoveId` | frontend/src/pages/Outbox.tsx:122 | exactly the items without the id stay, and nothing new appears |
| `Listing.RemoveIdIsRemoveIds` | frontend/src/pages/Outbox.tsx:75-122 | the single delete is the bulk delete of a one-id selection |
| `Listing.RemoveIdSnoc` | frontend/src/pages/Outbox.tsx:105-122 | deleting the id of an appended item removes it with the others of that id |
| `Listing.RemoveMissingId` | frontend/src/pages/Outbox.tsx:122 | deleting an id no item carries changes nothing |
| `Listing.RemoveNothing` | frontend/src/pages/Outbox.tsx:75 | deleting ids no item carries changes nothing |
| `Listing.RemoveAllIds` | frontend/src/pages/Outbox.tsx:55-78 | selecting all and deleting empties the list |
| `Listing.IdsSnoc` | frontend/src/pages/Outbox.tsx:57-105 | appending an item appends its id to the id list |
| `Listing.ReplaceById` | frontend/src/pages/Outbox.tsx:114-116 | same length and order, and exactly the items carrying the id are replaced |
| `Listing.ReplaceMissing` | frontend/src/pages/Outbox.tsx:114-116 | replacing an id no item carries changes nothing |
| `Listing.KeepDistinct` | frontend/src/pages/Outbox.tsx:66 | filtering a list without repeats leaves one without repeats |
| `Listing.SelectAllTicksHeader` | frontend/src/pages/Outbox.tsx:55-61 | after select all the header box is ticked exactly when there is a document; after select none it never is |
| `Listing.HeaderMeansAll` | frontend/src/pages/Outbox.tsx:208 | for a selection without repeats drawn from distinct ids, the header box is ticked exactly when every item is selected |
| `Listing.HeaderCountsOnly` | frontend/src/pages/Outbox.tsx:208 | the header box counts ids only: a selection holding an unknown id ticks it while an item is unselected |
| `Listing.ErrorOr` | frontend/src/pages/reference-tables/ActionRequired.tsx:41 | the server's error when it sent a non-empty one, the fallback text otherwise |
| `ActionRequiredPage.SentIsChecked` | frontend/src/pages/reference-tables/ActionRequired.tsx:104-128 | the view accepts what the page sends exactly when the action required text is not empty, and then stores that text alone; otherwise it answers its required message |
| `ActionRequiredPage.CodeNeverSent` | frontend/src/pages/reference-tables/ActionRequired.tsx:110-128 | the body sent holds the action required text and nothing else: the code typed in the modal never reaches the server |
| `ActionRequiredPage.Page.constructor` | frontend/src/pages/reference-tables/ActionRequired.tsx:19-26 | no items, page 1 of 1, no selection, the modal closed with nothing being edited, no error |
| `ActionRequiredPage.Page.Fetched` | frontend/src/pages/reference-tables/ActionRequired.tsx:33-42 | a successful reply with data becomes the items and clears the error; otherwise the items stay and the server's error or the fallback shows; every other field of the page stays as it was |
| `ActionRequiredPage.Page.HandlePageChange` | frontend/src/pages/reference-tables/ActionRequired.tsx:50-54 | only a page in [1, totalPages] is taken; every other field of the page stays as it was |
| `ActionRequiredPage.Page.SelectAll` | frontend/src/pages/reference-tables/ActionRequired.tsx:56-62 | ticked selects every item's id and then ticks the header box exactly when there is an item; unticked selects none; every other field of the page stays as it was |
| `ActionRequiredPage.Page.SelectItem` | frontend/src/pages/reference-tables/ActionRequired.tsx:64-70 | the id is toggled, and a selection without repeats keeps none; every other field of the page stays as it was |
| `ActionRequiredPage.Page.DeleteSelected` | frontend/src/pages/reference-tables/ActionRequired.tsx:72-92 | with nothing selected or no confirmation nothing changes; a successful delete keeps exactly the unselected items and empties the selection; a failed one keeps both and shows the error; every other field of the page stays as it was |
| `ActionRequiredPage.Page.Add` | frontend/src/pages/reference-tables/ActionRequired.tsx:94-97 | the modal opens with nothing being edited; every other field of the page stays as it was |
| `ActionRequiredPage.Page.Edit` | frontend/src/pages/reference-tables/ActionRequired.tsx:99-102 | the modal opens on the row; every other field of the page stays as it was |
| `ActionRequiredPage.Page.Save` | frontend/src/pages/reference-tables/ActionRequired.tsx:104-142 | the text alone is sent; a successful reply replaces the edited row or is appended, and closes the modal; a failure leaves items and modal and shows the error or the update or create fallback; every other field of the page stays as it was |
| `ActionRequiredPage.Page.Delete` | frontend/src/pages/reference-tables/ActionRequired.tsx:144-161 | without confirmation nothing changes; a successful delete removes every row with the id; a failure keeps the items and shows the error; every other field of the page stays as it was |
| `ActionRequiredPage.Page.CloseModal` | frontend/src/pages/reference-tables/ActionRequired.tsx:403-406 | the modal closes with nothing being edited; every other field of the page stays as it was |
| `ReferencePage.TextColumn` | frontend/src/pages/reference-tables/Region.tsx:79-83 | a column holding text gives that text; a missing or null one gives '' |
| `ReferencePage.PaddedId` | frontend/src/pages/reference-tables/Region.tsx:54 | the id as the table shows it is at least five characters long |
| `ReferencePage.PaddedIdDigits` | frontend/src/pages/reference-tables/Region.tsx:54 | a non-negative id's padded form holds only digits |
| `ReferencePage.PaddedIdFound` | frontend/src/pages/reference-tables/Region.tsx:53-61 | typing the padded id finds it: it lowercases to itself and occurs in the padded id |
| `ReferencePage.IdZeroNeverDeleted` | frontend/src/pages/reference-tables/Region.tsx:233 | the single delete goes ahead for every id except 0 and a missing one |
| `ReferencePage.Page.constructor` | frontend/src/pages/reference-tables/Region.tsx:24-68 | no items, no selection, empty query, no error, both modals closed, single delete with no id or name; the hook is on page 1 with the page's filter |
| `ReferencePage.Page.Fetched` | frontend/src/pages/reference-tables/Region.tsx:70-95 | a successful reply with data becomes the items and clears the error; otherwise the items stay and the server's error or the fallback shows; when the items change the hook's page is clamped to the new last page, and otherwise it stays; every other field of the page stays as it was |
| `ReferencePage.Page.Search` | frontend/src/pages/reference-tables/Region.tsx:306 | the query becomes the typed text and the hook goes back to page 1 when that text differs from the query before; every other field of the page stays as it was |
| `ReferencePage.Page.HandlePageChange` | frontend/src/pages/reference-tables/Region.tsx:97-99 | the hook takes only a page in [1, totalPages] |
| `ReferencePage.Page.SelectAll` | frontend/src/pages/reference-tables/Region.tsx:101-107 | ticked selects the ids of the page shown, not of every item; unticked selects none; every other field of the page stays as it was |
| `ReferencePage.Page.SelectItem` | frontend/src/pages/reference-tables/Region.tsx:109-115 | the id is toggled in the selection; every other field of the page stays as it was |
| `ReferencePage.Page.DeleteSelected` | frontend/src/pages/reference-tables/Region.tsx:117-121 | with a selection the bulk confirmation opens; without one nothing changes; every other field of the page stays as it was |
| `ReferencePage.Page.ConfirmBulkDelete` | frontend/src/pages/reference-tables/Region.tsx:123-139 | a success keeps exactly the unselected items and empties the selection; a failure keeps both and shows the error or the fallback; when the items change the hook's page is clamped to the new last page, and otherwise it stays; every other field of the page stays as it was |
| `ReferencePage.Page.Add` | frontend/src/pages/reference-tables/Region.tsx:141-144 | the form modal opens with nothing being edited; every other field of the page stays as it was |
| `ReferencePage.Page.Edit` | frontend/src/pages/reference-tables/Region.tsx:146-149 | the form modal opens on the item; every other field of the page stays as it was |
| `ReferencePage.Page.Save` | frontend/src/pages/reference-tables/Region.tsx:151-223 | a successful reply replaces the edited item or is appended, and closes the modal; a failure leaves items and modal and shows the error or the update or create fallback; when the items change the hook's page is clamped to the new last page, and otherwise it stays; every other field of the page stays as it was |
| `ReferencePage.Page.Delete` | frontend/src/pages/reference-tables/Region.tsx:225-230 | the single confirmation opens on the item's id and name; every other field of the page stays as it was |
| `ReferencePage.Page.ConfirmSingleDelete` | frontend/src/pages/reference-tables/Region.tsx:232-250 | nothing happens for no id or id 0; otherwise a success removes every item with the id, a failure shows the error, and the stored id and name are reset; when the items change the hook's page is clamped to the new last page, and otherwise it stays; every other field of the page stays as it was |
| `ReferencePage.Page.CloseDelete` | frontend/src/pages/reference-tables/Region.tsx:541-545 | the confirmation closes and forgets its id and name; every other field of the page stays as it was |
| `ReferencePage.Page.CloseModal` | frontend/src/pages/reference-tables/Region.tsx:524-527 | the form modal closes with nothing being edited; every other field of the page stays as it was |
| `RegionPage.MapItem` | frontend/src/pages/reference-tables/Region.tsx:77-85 | the id is kept, each text column is its text or '', and the update time is updated_at when non-empty, else date_updated |
| `RegionPage.MapItems` | frontend/src/pages/reference-tables/Region.tsx:77-86 | one item per row, in order, each the row mapped |
| `RegionPage.EditShowsItem` | frontend/src/pages/reference-tables/Region.tsx:529-536 | the modal opened on an item shows its five fields |
| `RegionPage.MapStoredRow` | frontend/src/pages/reference-tables/Region.tsx:172-180 | a row holding an item's texts, with an update time, maps back to the same item under the row's id |
| `RegionPage.SearchIgnoresCase` | frontend/src/pages/reference-tables/Region.tsx:52-67 | the search gives the same answer for the query and its lowercase |
| `RegionPage.FoundByName` | frontend/src/pages/reference-tables/Region.tsx:52-67 | an item is found by its own region name |
| `RegionPage.FoundById` | frontend/src/pages/reference-tables/Region.tsx:52-67 | an item with a non-negative id is found by the id as the table shows it |
| `RegionPage.NewPage` | frontend/src/pages/reference-tables/Region.tsx:24-68 | an empty page searched with the region filter, keyed by id and named by region name |
| `ActionTakenPage.MapFetched` | frontend/src/pages/reference-tables/ActionTaken.tsx:62-65 | the id is kept and the text is the action_taken column, '' when it is missing or null |
| `ActionTakenPage.MapFetchedAll` | frontend/src/pages/reference-tables/ActionTaken.tsx:62-66 | one item per row, in order, each the row mapped |
| `ActionTakenPage.MapSaved` | frontend/src/pages/reference-tables/ActionTaken.tsx:140-143 | the id is the reply's; the text is the reply's action_taken, or the text sent when that is empty |
| `ActionTakenPage.SavedAgreesWithFetch` | frontend/src/pages/reference-tables/ActionTaken.tsx:62-65 | the saved item equals what the next fetch shows exactly when the reply had a text or the text sent was empty |
| `ActionTakenPage.CreateRefused` | frontend/src/pages/reference-tables/ActionTaken.tsx:130-154 | the create view refuses every body of the declared `{ actionTaken: string }` shape that handleSave forwards, for lack of a code |
| `ActionTakenPage.CodedCreateAccepted` | backend/api/views/action_taken.py:43-63 | a body that carries the code beside the text is accepted exactly when both are non-empty, and stores exactly that pair |
| `ActionTakenPage.UpdateSetsText` | frontend/src/pages/reference-tables/ActionTaken.tsx:137 | the update view accepts what the page sends and sets exactly the action_taken column to the text sent |
| `ActionTakenPage.SearchIgnoresCase` | frontend/src/pages/reference-tables/ActionTaken.tsx:47-52 | the search gives the same answer for the query and its lowercase |
| `ActionTakenPage.FoundByOwnFields` | frontend/src/pages/reference-tables/ActionTaken.tsx:47-52 | an item is found by its own text, and one with a non-negative id by the padded id |
| `ActionTakenPage.NewPage` | frontend/src/pages/reference-tables/ActionTaken.tsx:19-53 | an empty page searched with the action taken filter, keyed by id and named by its text |
| `Permissions.Permission.With` | frontend/src/components/reference-tables/UserLevelPermissionsModal.tsx:82 | the named kind takes the value and every other kind keeps its own |
| `Permissions.NamesDistinct` | frontend/src/components/reference-tables/UserLevelPermissionsModal.tsx:34-54 | no table name of the initial list occurs twice |
| `Permissions.InitialNamesDistinct` | frontend/src/components/reference-tables/UserLevelPermissionsModal.tsx:34-54 | there are nineteen initial tables and their names are distinct |
| `Permissions.Derived` | frontend/src/components/reference-tables/UserLevelPermissionsModal.tsx:64-77 | a kind's select-all box is ticked exactly when there is a table and every table has that kind |
| `Permissions.PermissionsMap` | frontend/src/components/reference-tables/UserLevelPermissionsModal.tsx:95-101 | the map's keys are exactly the table names, and with distinct names each maps to its table's permissions |
| `Permissions.PermissionsMapSize` | frontend/src/components/reference-tables/UserLevelPermissionsModal.tsx:95-101 | with distinct names the map has one entry per table |
| `Permissions.InitialSelectsNothing` | frontend/src/components/reference-tables/UserLevelPermissionsModal.tsx:34-77 | the initial tables tick no select-all box |
| `Permissions.PermissionsModal.constructor` | frontend/src/components/reference-tables/UserLevelPermissionsModal.tsx:56-62 | the initial tables with no select-all box ticked |
| `Permissions.PermissionsModal.Derive` | frontend/src/components/reference-tables/UserLevelPermissionsModal.tsx:64-77 | the tables stay and the select-all row becomes the derived one |
| `Permissions.PermissionsModal.PermissionChange` | frontend/src/components/reference-tables/UserLevelPermissionsModal.tsx:79-85 | only the named kind of the tables with the given name moves to the value; names and count stay, and the select-all row follows |
| `Permissions.PermissionsModal.SelectAll` | frontend/src/components/reference-tables/UserLevelPermissionsModal.tsx:87-93 | every table's named kind takes the value, every other kind stays, and the select-all box shows the value, which is also what the effect derives |
| `Permissions.PermissionsModal.Update` | frontend/src/components/reference-tables/UserLevelPermissionsModal.tsx:95-101 | the map sent has one entry per table, each table's name mapped to its permissions |
| `Permissions.PermissionsModal.Close` | frontend/src/components/reference-tables/UserLevelPermissionsModal.tsx:103-107 | the tables go back to the initial ones and the select-all row follows |
| `SubjectReport.Quote` | frontend/src/pages/reports/DocumentBySubject.tsx:198 | a quoted field opens and closes with a double quote |
| `SubjectReport.QuoteRoundTrip` | frontend/src/pages/reports/DocumentBySubject.tsx:198 | a quoted field, its outer quotes dropped and doubled quotes undone, reads back as the value it was made from |
| `SubjectReport.QuotedFieldIsClosed` | frontend/src/pages/reports/DocumentBySubject.tsx:198 | between its outer quotes a quoted field holds quotes only in pairs, so no comma inside it ends the field |
| `SubjectReport.EmptyIsQuotedBlank` | frontend/src/pages/reports/DocumentBySubject.tsx:202-207 | the literal empty column is the quoted empty text and reads back as '' |
| `SubjectReport.Fields` | frontend/src/pages/reports/DocumentBySubject.tsx:197-209 | a record has as many fields as the header has names |
| `SubjectReport.QuotedColumn` | frontend/src/pages/reports/DocumentBySubject.tsx:198-208 | the first four fields and the last are the document number, subject, recipient, date sent and status, quoted |
| `SubjectReport.FieldReadBack` | frontend/src/pages/reports/DocumentBySubject.tsx:197-209 | every field of a record reads back as the document value it carries, '' for the six empty columns |
| `SubjectReport.EmptyColumn` | frontend/src/pages/reports/DocumentBySubject.tsx:202-207 | the fifth to tenth fields are the quoted empty text |
| `SubjectReport.Records` | frontend/src/pages/reports/DocumentBySubject.tsx:194-211 | one line more than there are documents: the header names joined with commas, then each document's record in order |
| `SubjectReport.RecordsSnoc` | frontend/src/pages/reports/DocumentBySubject.tsx:196-211 | one more document adds exactly its record at the end |
| `SubjectReport.CsvStartsWithFirst` | frontend/src/pages/reports/DocumentBySubject.tsx:213-214 | the file text is the byte order mark followed by the first line |
| `SubjectReport.ExportCsv` | frontend/src/pages/reports/DocumentBySubject.tsx:191-214 | the exported text is the byte order mark and the header line, then each document's record, one per line |
| `SubjectReport.ExportStartsWithHeader` | frontend/src/pages/reports/DocumentBySubject.tsx:193-214 | every export starts with the byte order mark and then the header line |
| `SubjectReport.HeadersNeedNoQuotes` | frontend/src/pages/reports/DocumentBySubject.tsx:193 | no header name holds a quote or a comma |
| `SubjectReport.EmptyReportExport` | frontend/src/pages/reports/DocumentBySubject.tsx:20-214 | with the page's fixed empty document list, every export is the byte order mark and the header line alone |
| `SubjectReport.ReportPage.constructor` | frontend/src/pages/reports/DocumentBySubject.tsx:21-22 | page 1 of 1 |
| `SubjectReport.ReportPage.HandlePageChange` | frontend/src/pages/reports/DocumentBySubject.tsx:24-28 | only a page in [1, totalPages] is taken |
| `Text.NatToString` | frontend/src/pages/reference-tables/Region.tsx:54 | the decimal text of a natural number: non-empty, digits only, no leading zero, and its value is the number |
| `Text.PadStart` | frontend/src/pages/reference-tables/Region.tsx:54 | the text is kept at the end, the fill character put in front up to the target length, and a longer text is left as it is |
| `Text.TakeLast` | frontend/src/components/outbox/AddDestinationRowModal.tsx:45 | the last n characters, or the whole text when it is shorter |
| `Text.Join` | frontend/src/pages/reports/DocumentBySubject.tsx:194 | joining no parts gives '' and joining one part gives that part |
| `Text.JoinStartsWithFirst` | frontend/src/pages/reports/DocumentBySubject.tsx:194 | a join begins with its first part |
| `Text.DoubleQuotes` | frontend/src/pages/reports/DocumentBySubject.tsx:198 | doubling quotes never shortens a text |
| `Text.UndoubleDoubleQuotes` | frontend/src/pages/reports/DocumentBySubject.tsx:198 | reading each "" back as one quote undoes the doubling |

## Left out

- Exceptions: the views' `except Exception` answers (500) and the pages' `catch` branches are not modelled; each request either answers or fails with a reply the model is given.
- The `loading` flags and the theme-dependent styling of every page and modal are not modelled: they only drive rendering.
- Rendering: tables, tooltips, portals and the print and Word exports of the report are not modelled, and neither are the Blob download and the file name built from the date.
- Locale date and time formatting of the destination rows is not modelled.
- The fetch wrapper (`frontend/src/services/api.ts`) and the Supabase client are not modelled. Request and reply are parameters, and a table either returns the rows it wrote or returns none (row-level security), as `Store.Table.returnsRows` says.
- The option lists the modals fetch for their selects (offices, regions, document types, actions required) are not modelled: they only fill the drop-downs.
- `window.confirm` and `Date.now()` are not modelled as calls: their answers are parameters.
- The callers that render the destination modals, and compute the `nextSequenceNo` they pass, are not part of this model.
- DocumentDetailModal, ActionButtons and RoutingSlipModal are not modelled: they only display a document. The outbox page's handlers that open and close them are.
- ActionTakenModal and ActionRequiredModal are not part of this model: their sources are not among the files modelled. The pages' handlers receive what they save as a parameter.
- The search inputs of the outbox page (frontend/src/pages/Outbox.tsx:184-189) and of the action-required page (frontend/src/pages/reference-tables/ActionRequired.tsx:252-262) have no handler, so there is nothing to model.
- JSON.stringify, used by the pagination hook when a page gives no search filter, is a parameter.
- Documents.Filled: `x || ''` is modelled on text fields only. A non-text but truthy value passed by a caller is not modelled.
- JsNum.Number: decimal literals (sign, digits, optional fraction, optional `e`/`E` exponent) and a signed `Infinity` are read; the `0x`, `0o` and `0b` prefixed forms read as NaN. Because values are exact reals, a literal too large for a double is not rounded to Infinity.
- JsNum.ParseInt: the hexadecimal prefix and radix argument are not modelled.
- PyValue.PyInt: Python's `int()` is modelled for integers and decimal text. Underscores in digit strings and floats other than decimal literals are not modelled.
- Text.Lower: lowercasing covers ASCII letters only; Unicode case mapping is not modelled.
- Store.Table.DeleteIn: a listed value that is neither an integer nor text reading as one (such as `"abc"` or `true`) makes PostgreSQL's cast fail, so the view answers 500; the model names no row for it, deletes the others and answers 200. Leading zeros, a sign and surrounding spaces are read as PostgreSQL reads them.
- Floating point: Python floats in request bodies are not modelled, since `PyValue.Value` has no float case, so a body such as `requiredDays: 1.5`, which `int()` would truncate to 1, cannot be written. Only the JavaScript side uses numbers with fractions, as exact reals with no rounding.
- Deleting a document source does not cascade to its destinations in the model; the cascade is a property of the database schema, which is not part of this model.
- Concurrency: the pages' requests are modelled as completing one at a time, in the order the handlers run.
- Authentication, navigation and the placeholder and display-only pages are not part of this model.

## Findings

| source | as written | input that shows it | evidently intended | confidence | as-written member | corrected member |
|---|---|---|---|---|---|---|
| frontend/src/components/outbox/DocumentDestinationsModal.tsx:215-268 | the header row after the check box has 11 labels, starting at "Route No.", while each body row has 12 cells, starting at the document control number | any destination row: "Route No." heads the control number, every label sits one column left of its field, and "Action Taken" has no heading | a "Document Control No." label first, so each label heads its own field | not executed | `DestinationsModal.HeaderShifted` | `DestinationsModal.CorrectedHeaderAligned` |
| frontend/src/pages/reference-tables/ActionTaken.tsx:130-154 | handleSave is declared to take `{ actionTaken: string }` and forwards it to the create call, while the create view first requires `actionTakenCode` | adding any text, on the premise that the modal passes a body of the declared shape (the modal is not part of this model) | the page forwards the code beside the text, so a filled form is created | not executed | `ActionTakenPage.CreateRefused` | `ActionTakenPage.CodedCreateAccepted` |
