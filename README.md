# Kanban backlog board: a Dafny model

This project models the logic of a single-page kanban board with a Backlog
column that cards may leave only once triaged. Three parts are modelled:

- the board operations of `src/utils/board.ts`: create, edit, move, delete,
  clear Done, the visibility filter, the tag dropdown and the Backlog
  promotion check;
- the persistence layer of `src/utils/storage.ts`: the v1 and v2 payload
  validators, the v1-to-v2 migration, and loading and saving over the
  browser's key-value store;
- the decisions the application shell `src/App.tsx` takes: the message
  listing missing triage fields, saving the card dialog, and the end of a
  drag.

The files are:

- `wrappers.dfy`: `Option`.
- `seqs.dfy`: `filter`, `splice` and subsequences.
- `text.dfy`: `trim`, lower case, `includes`, `startsWith`, `join`, and the
  string order used for sorting.
- `types.dfy`: the card and board entities, and the constants.
- `board.dfy`: the board operations.
- `json.dfy`: JSON values, with `JSON.parse` and `JSON.stringify` as a
  parameter.
- `storage.dfy`: the persistence layer.
- `app.dfy`: the shell's decisions.

Pure code is modelled as functions with lemmas about them. Imperative code
is modelled as methods proved against those functions:

- `moveTask` is the method `Board.MoveTask`. It runs the push loop
  (`Board.BucketByColumn`), then the column search loop (`Board.LocateTask`
  with `Board.FindIndexById`), then the two splices and the flattening. Its
  result is proved equal to the function `Board.MovedCards`, and every
  property of a move is proved about that function.
- `getBacklogPromotionMissingFields` is the method
  `Board.GetBacklogPromotionMissingFields`, which pushes onto a local list.
  It is proved equal to `Board.PromotionMissingFields`.
- `localStorage` is the class `Storage.LocalStore`, with a `map` field that
  `SetItem` and `RemoveItem` update.
- `loadBoardState` and `saveBoardState` are methods over that store, each
  tied to a pure next-state function (`Storage.LoadStep`,
  `Storage.SaveItems`).
- `handleSaveTask` and `handleDragEnd` are pure next-state functions
  (`App.SaveTask`, `App.DragEnd`). Each takes the current cards and the event
  and returns an `Outcome`: nothing, a toast, a new card list, or the
  `TypeError` that `moveTask` throws for a column name that does not exist.

The clock (`nowIso()`), `crypto.randomUUID` and JSON's text syntax are left
to the caller:

- `now` and the new id are parameters.
- `JSON.parse` and `JSON.stringify` are the two functions of a `JsonCodec`
  parameter.
- The storage code relies on one round-trip: parsing the text it wrote
  gives back the value it stringified. The model states this for the one
  value written, as `Json.RoundTrips(codec, j)`. `Storage.SaveThenLoad`
  assumes it for the saved board. `Storage.LoadIdempotent` assumes it for
  the migrated payload (`Storage.MigrationRoundTrips`).
- `Json.RoundTripsSatisfiable` shows that some codec meets it for any
  value. `JSON.stringify` and `JSON.parse` meet it for every value built
  from null, booleans, strings, arrays, objects and finite doubles. That is
  all a board or a parsed payload holds.

## Model

| member | source | states |
|---|---|---|
| Types.Rank | KanbanBackLogTrackingApp/src/utils/board.ts:19 | every column has a position in the order backlog, todo, in_progress, done |
| Types.ColumnFromName | KanbanBackLogTrackingApp/src/types.ts:1 | a column name string maps to the column with that name, or to nothing when no column has it |
| Types.PriorityFromName | KanbanBackLogTrackingApp/src/types.ts:2 | a priority string maps to the priority with that name, or to nothing when no priority has it |
| Types.ColorFromName | KanbanBackLogTrackingApp/src/types.ts:3 | a colour string maps to the colour with that name, or to nothing when no colour has it |
| Types.NameListsAgree | KanbanBackLogTrackingApp/src/constants.ts:13-14 | a string is in PRIORITIES (COLORS) exactly when it names a priority (colour) |
| Types.PriorityNameListed | KanbanBackLogTrackingApp/src/utils/board.ts:20 | every priority's name is in the list the promotion check consults |
| Types.NamesRoundTrip | KanbanBackLogTrackingApp/src/types.ts:1-3 | name and parse are inverse for columns, priorities and colours |
| Seqs.Filter | KanbanBackLogTrackingApp/src/utils/board.ts:104 | `filter` keeps only elements that pass the test, and keeps each element of the input that passes it |
| Seqs.FilterIsSubsequence | KanbanBackLogTrackingApp/src/utils/board.ts:103-109 | `filter` keeps the relative order of what it keeps |
| Seqs.FilterAppend | KanbanBackLogTrackingApp/src/utils/board.ts:100 | filtering a concatenation concatenates the filtered parts |
| Seqs.FilterDistinctBy | KanbanBackLogTrackingApp/src/utils/board.ts:134 | filtering keeps keys distinct |
| Seqs.FilterKeepsAll | KanbanBackLogTrackingApp/src/utils/board.ts:104 | a filter that rejects nothing returns its input |
| Seqs.FilterMultiplicity | KanbanBackLogTrackingApp/src/utils/board.ts:104 | `filter` keeps every copy of an element that passes and no copy of one that fails |
| Seqs.RemoveAt | KanbanBackLogTrackingApp/src/utils/board.ts:81 | `splice(i, 1)` keeps the elements before `i` and shifts the later ones down by one |
| Seqs.InsertAt | KanbanBackLogTrackingApp/src/utils/board.ts:98 | `splice(k, 0, x)` puts `x` at `k`, keeps the elements before it and shifts the later ones up by one |
| Seqs.RemoveAtMultiset | KanbanBackLogTrackingApp/src/utils/board.ts:81 | the removal takes exactly one copy of the element out |
| Seqs.InsertAtMultiset | KanbanBackLogTrackingApp/src/utils/board.ts:98 | the insertion adds exactly one copy of the element |
| Seqs.RemoveInserted | KanbanBackLogTrackingApp/src/utils/board.ts:98 | removing what was just inserted gives the list back |
| Text.TrimStart | KanbanBackLogTrackingApp/src/utils/board.ts:31 | the result is a suffix of the input, what it drops is whitespace, and it starts with no whitespace |
| Text.TrimEnd | KanbanBackLogTrackingApp/src/utils/board.ts:31 | the result is a prefix of the input, what it drops is whitespace, and it ends with no whitespace |
| Text.Trim | KanbanBackLogTrackingApp/src/utils/board.ts:31 | `trim()` has no whitespace at either end and is empty exactly when the input is blank |
| Text.TrimIsSlice | KanbanBackLogTrackingApp/src/utils/board.ts:31 | `trim()` is the slice of the input between its leading and trailing whitespace |
| Text.TrimOfTrimmed | KanbanBackLogTrackingApp/src/utils/board.ts:46 | trimming a trimmed string changes nothing |
| Text.Includes | KanbanBackLogTrackingApp/src/utils/board.ts:129 | `text.includes(q)` holds exactly when `q` occurs in `text` at some position |
| Text.Lower | KanbanBackLogTrackingApp/src/utils/board.ts:112 | `toLowerCase()` keeps the length, leaves no upper-case ASCII letter and changes no other character |
| Text.LowerIdempotent | KanbanBackLogTrackingApp/src/utils/board.ts:112-120 | lower-casing twice is lower-casing once |
| Text.Join | KanbanBackLogTrackingApp/src/App.tsx:82 | `join` of a single part is that part; JoinSnoc gives where the separators go when parts are added, JoinContainsParts that every part occurs in the joined text |
| Text.JoinSnoc | KanbanBackLogTrackingApp/src/App.tsx:82 | joining one more part onto a non-empty list gives the old joined text, the separator, then the new part |
| Text.JoinContainsParts | KanbanBackLogTrackingApp/src/App.tsx:82 | every part occurs in `parts.join(sep)` |
| Text.LessIrreflexive | KanbanBackLogTrackingApp/src/utils/board.ts:144 | no string sorts strictly before itself |
| Text.LessTransitive | KanbanBackLogTrackingApp/src/utils/board.ts:144 | the sort order is transitive |
| Text.LessTotal | KanbanBackLogTrackingApp/src/utils/board.ts:144 | any two distinct strings are ordered one way or the other |
| Text.Insert | KanbanBackLogTrackingApp/src/utils/board.ts:144 | inserting into a strictly sorted list keeps it strictly sorted, adds exactly that element and grows it by one |
| Text.Sort | KanbanBackLogTrackingApp/src/utils/board.ts:144 | `sort` with the comparator returns a strictly sorted list of the same elements |
| Text.Dedup | KanbanBackLogTrackingApp/src/utils/board.ts:138-139 | `Array.from(new Set(s))` holds each value of `s` exactly once |
| Board.TrimToAbsent | KanbanBackLogTrackingApp/src/utils/board.ts:32-33 | `text?.trim() \|\| undefined` is absent exactly for absent or blank text, and otherwise is the non-empty trimmed text |
| Board.EmptyToAbsent | KanbanBackLogTrackingApp/src/utils/board.ts:35 | `text \|\| undefined` is absent exactly for absent or empty text, and otherwise is the text itself |
| Board.CreateTask | KanbanBackLogTrackingApp/src/utils/board.ts:28-41 | the new card has the given id, the trimmed title, `createdAt == updatedAt == now`, the input's priority, colour and column; blank description or tag and an empty due date become absent, the others are trimmed (due date as given) |
| Board.EditTask | KanbanBackLogTrackingApp/src/utils/board.ts:43-55 | an edit keeps `id` and `createdAt`, sets `updatedAt` to `now`, takes the trimmed title and each set priority, colour and column from the patch, and keeps the card's value for each field the patch leaves unset |
| Board.EditOptionals | KanbanBackLogTrackingApp/src/utils/board.ts:47-50 | an unset optional field of the patch keeps the card's value; a set description or tag is trimmed and cleared when blank; a set due date is cleared when empty |
| Board.EditKeepsOptionalsNormalized | KanbanBackLogTrackingApp/src/utils/board.ts:43-55 | editing a card whose optional fields hold no empty or untrimmed text keeps them so |
| Board.EditWithEmptyPatch | KanbanBackLogTrackingApp/src/utils/board.ts:43-55 | an empty patch only refreshes `updatedAt` |
| Board.EditAsCreate | KanbanBackLogTrackingApp/src/utils/board.ts:28-55 | a patch that sets every field gives the card `createTask` makes from it, with the edited card's id and creation time |
| Board.DeleteTask | KanbanBackLogTrackingApp/src/utils/board.ts:103-105 | the result holds exactly the cards whose id differs, every copy of each, in their order |
| Board.DeleteAbsentId | KanbanBackLogTrackingApp/src/utils/board.ts:103-105 | deleting an id no card has changes nothing |
| Board.ClearDone | KanbanBackLogTrackingApp/src/utils/board.ts:107-109 | the result holds exactly the cards not in Done, every copy of each, in their order |
| Board.GetColumnCards | KanbanBackLogTrackingApp/src/utils/board.ts:133-135 | the result holds exactly the cards of that column, in their order |
| Board.VisibleUnderMeans | KanbanBackLogTrackingApp/src/utils/board.ts:112-129 | the per-card test passes exactly when the priority filter matches, the tag filter is unset, empty or equal to the card's tag ignoring case, and the trimmed lower-cased query is empty or occurs in the lower-cased title and description |
| Board.GetVisibleCards | KanbanBackLogTrackingApp/src/utils/board.ts:111-131 | the visible cards are a subsequence of the cards; a card is visible exactly when all three filters match it, and then every copy of it is |
| Board.VisibleFilterMeans | KanbanBackLogTrackingApp/src/utils/board.ts:111-131 | filtering by the per-card test keeps exactly the cards all three filters match, with their multiplicity |
| Board.CardTags | KanbanBackLogTrackingApp/src/utils/board.ts:140-142 | the mapped and filtered tags are exactly the non-empty trimmed project tags of the cards |
| Board.TagInHeadOrTail | KanbanBackLogTrackingApp/src/utils/board.ts:140-142 | a tag of the cards is the first card's or one of the others' |
| Board.GetTagOptions | KanbanBackLogTrackingApp/src/utils/board.ts:137-145 | the options are strictly sorted, have no duplicates, are non-empty and trimmed, and are exactly the trimmed tags the cards have |
| Board.PromotionMissingFields | KanbanBackLogTrackingApp/src/utils/board.ts:147-163 | "title", "project tag" and "priority" are listed exactly when the title is blank, the tag is absent or blank, and the priority is not a valid one; the list is empty exactly when all three are present |
| Board.PromotionFieldsInOrder | KanbanBackLogTrackingApp/src/utils/board.ts:147-163 | the missing fields are a subsequence of title, project tag, priority |
| Board.FieldSelection | KanbanBackLogTrackingApp/src/utils/board.ts:150-160 | each of the three pushes puts its field in the list exactly when its test holds, in the fixed order |
| Board.GetBacklogPromotionMissingFields | KanbanBackLogTrackingApp/src/utils/board.ts:147-163 | the three conditional pushes compute the missing-fields list |
| Board.TypedPriorityNeverMissing | KanbanBackLogTrackingApp/src/utils/board.ts:158-160 | a card's own priority never counts as missing |
| Board.FirstIndexOf | KanbanBackLogTrackingApp/src/utils/board.ts:78 | `findIndex` gives the first index holding the id, and nothing exactly when no element has it |
| Board.FindIndexById | KanbanBackLogTrackingApp/src/utils/board.ts:78 | the search loop returns the first index holding the id, or -1 exactly when no element has it |
| Board.Partition | KanbanBackLogTrackingApp/src/utils/board.ts:64-73 | each per-column list is that column's cards in their order, and every card sits in its own column's list |
| Board.PartitionEmpty | KanbanBackLogTrackingApp/src/utils/board.ts:64-69 | the lists start empty |
| Board.PartitionPush | KanbanBackLogTrackingApp/src/utils/board.ts:71-73 | pushing the next card onto its column's list partitions the longer prefix |
| Board.BucketByColumn | KanbanBackLogTrackingApp/src/utils/board.ts:64-73 | the push loop builds the partition of the cards |
| Board.ColumnOfFlat | KanbanBackLogTrackingApp/src/utils/board.ts:100 | the cards of a column in the flattened lists are that column's list |
| Board.PartitionOfFlat | KanbanBackLogTrackingApp/src/utils/board.ts:100 | partitioning the flattened lists gives the lists back |
| Board.FlatSetMultiset | KanbanBackLogTrackingApp/src/utils/board.ts:100 | replacing one column's list replaces its cards among all the flattened cards |
| Board.FlatRemoveMultiset | KanbanBackLogTrackingApp/src/utils/board.ts:81 | splicing a card out of a list takes exactly that card out of the flattened cards |
| Board.FlatInsertMultiset | KanbanBackLogTrackingApp/src/utils/board.ts:98 | splicing a card into a list adds exactly that card to the flattened cards |
| Board.PartitionMultiset | KanbanBackLogTrackingApp/src/utils/board.ts:64-73 | the per-column lists together hold exactly the cards |
| Board.FlatIsGrouped | KanbanBackLogTrackingApp/src/utils/board.ts:100 | flattening in column order groups the cards as backlog, todo, in_progress, done |
| Board.SearchFrom | KanbanBackLogTrackingApp/src/utils/board.ts:77-84 | the search stops at the first column, in column order, whose list holds the id, at the first index there, and finds nothing exactly when no list holds it |
| Board.Locate | KanbanBackLogTrackingApp/src/utils/board.ts:77-84 | the card picked is the first with the id in the first column that has one; nothing is picked exactly when no card has the id |
| Board.SearchFindsNothing | KanbanBackLogTrackingApp/src/utils/board.ts:77-88 | the column search finds nothing exactly when no card has the id |
| Board.SearchSkipsEarlierColumns | KanbanBackLogTrackingApp/src/utils/board.ts:77-84 | the columns before the one the search stops at hold no card with the id |
| Board.LocateTask | KanbanBackLogTrackingApp/src/utils/board.ts:77-84 | the search loop over the column order computes that search |
| Board.Clamp | KanbanBackLogTrackingApp/src/utils/board.ts:97 | the bounded index lies between 0 and the length: it is `toIndex` when that is in range, 0 below it and the length above it |
| Board.MovedCards | KanbanBackLogTrackingApp/src/utils/board.ts:57-101 | a move keeps the number of cards; the lemmas below it state the rest |
| Board.MovedLength | KanbanBackLogTrackingApp/src/utils/board.ts:81-100 | one splice out and one splice in keep the flattened length equal to the card count |
| Board.MoveTask | KanbanBackLogTrackingApp/src/utils/board.ts:57-101 | the step-by-step move (push loop, search loop, two splices, flatten) returns the move's result |
| Board.MoveUnknownId | KanbanBackLogTrackingApp/src/utils/board.ts:86-88 | with an id no card has, the input list comes back unchanged |
| Board.MoveKeepsCards | KanbanBackLogTrackingApp/src/utils/board.ts:71-100 | a move keeps the length and every card; only the moved card is replaced, by a copy with the target column and `updatedAt = now` |
| Board.MoveGroupsByColumn | KanbanBackLogTrackingApp/src/utils/board.ts:100 | the result of moving a card that exists is grouped in column order |
| Board.MoveColumns | KanbanBackLogTrackingApp/src/utils/board.ts:96-100 | the target column is its remaining cards with the moved card inserted at the clamped index; the source column loses only that card; every other column is unchanged |
| Board.ColumnUniqueIds | KanbanBackLogTrackingApp/src/utils/board.ts:133-135 | a column of a board with unique ids has unique ids |
| Board.SameIdSameCard | KanbanBackLogTrackingApp/src/types.ts:7 | on a board with unique ids, two cards with the same id are the same card |
| Board.RemovedHasNoId | KanbanBackLogTrackingApp/src/utils/board.ts:79-81 | with unique ids, once the found card is spliced out no list holds its id |
| Board.RemoveAtUniqueId | KanbanBackLogTrackingApp/src/utils/board.ts:81 | removing the one card with an id from a list with unique ids leaves none with it |
| Board.SearchFindsInserted | KanbanBackLogTrackingApp/src/utils/board.ts:77-98 | when only the inserted card has the id, the search finds it at the clamped index of the target column |
| Board.MoveIdempotent | KanbanBackLogTrackingApp/src/utils/board.ts:57-101 | with unique ids, repeating a move with the same arguments and `now` gives the same list |
| Board.ColumnAndRestMultiset | KanbanBackLogTrackingApp/src/App.tsx:248-264 | one column's cards plus the cards of the other columns are exactly the board's cards |
| Board.ColumnAndRestLength | KanbanBackLogTrackingApp/src/App.tsx:248-264 | and their lengths add up to the board's |
| Board.MoveToEnd | KanbanBackLogTrackingApp/src/utils/board.ts:96-98 | moving to an index at or past the end of the target column appends the card to what the column keeps |
| Json.Member | KanbanBackLogTrackingApp/src/utils/storage.ts:41 | reading a key of an object gives its member, and `undefined` for a missing key or a value that is not an object |
| Storage.CardColumnSetMonotone | KanbanBackLogTrackingApp/src/utils/storage.ts:36-54 | a card valid against one column set is valid against any larger one |
| Storage.V1ColumnsAreV2Columns | KanbanBackLogTrackingApp/src/utils/storage.ts:23-24 | the v1 columns are v2 columns, and backlog is only a v2 column |
| Storage.BoardColumnSetMonotone | KanbanBackLogTrackingApp/src/utils/storage.ts:56-86 | a board valid against one column set is valid against any larger one |
| Storage.IsTaskCardWithColumnSet | KanbanBackLogTrackingApp/src/utils/storage.ts:36-54 | the card check: an object with string id, title, createdAt and updatedAt, absent-or-string description, tag and due date, a listed priority and colour, and a column in the set; CardEncodingValid proves it accepts a card's encoding exactly when the card's column is in the set, CardColumnSetMonotone that it grows with the set, CardValidatorReadsCardKeys that it reads only those ten members |
| Storage.IsBoardStateWith | KanbanBackLogTrackingApp/src/utils/storage.ts:56-86 | what the two board checks share: an object with a cards array whose every element passes the card check, a string query, a null-or-string tag filter and a null-or-listed priority filter; BoardColumnSetMonotone proves it grows with the column set |
| Storage.IsBoardStateV2 | KanbanBackLogTrackingApp/src/utils/storage.ts:56-70 | `version` is 2 and the shared check passes with the four columns; BoardJsonIsV2 and BoardRoundTrip prove every board's encoding passes it, MigrationIsValidV2 that every migrated v1 payload does |
| Storage.IsBoardStateV1 | KanbanBackLogTrackingApp/src/utils/storage.ts:72-86 | `version` is 1 and the shared check passes without Backlog; V1RejectsBacklog proves it refuses any Backlog card, BoardRoundTrip that it refuses every v2 encoding |
| Storage.V1RejectsBacklog | KanbanBackLogTrackingApp/src/utils/storage.ts:72-86 | the v1 validator rejects every payload holding a Backlog card |
| Storage.CardJsonMembers | KanbanBackLogTrackingApp/src/utils/storage.ts:150 | the stringified card has exactly the card's fields as members, and no member for an absent optional field |
| Storage.CardOf | KanbanBackLogTrackingApp/src/utils/storage.ts:112 | a validated card value is typed as the card with that column |
| Storage.BoardOf | KanbanBackLogTrackingApp/src/utils/storage.ts:112 | a validated board value is typed as the board whose cards are its cards' values, one by one, and whose search query, tag filter and priority filter are the value's own members (a string, or null for an absent filter) |
| Storage.CardEncodingValid | KanbanBackLogTrackingApp/src/utils/storage.ts:36-54 | a card's encoding passes the validator exactly for the column sets holding its column |
| Storage.CardDecodesBack | KanbanBackLogTrackingApp/src/utils/storage.ts:36-54 | a card's encoding decodes back to the card |
| Storage.CardRoundTrip | KanbanBackLogTrackingApp/src/utils/storage.ts:36-54 | a card's encoding is valid (exactly for the column sets holding its column) and decodes back to the card |
| Storage.CardValidatorReadsCardKeys | KanbanBackLogTrackingApp/src/utils/storage.ts:41-53 | the card validator depends only on the card's own ten members |
| Storage.CardOfMembers | KanbanBackLogTrackingApp/src/utils/storage.ts:41-53 | each member a valid card value is read through equals that member of the decoded card's encoding |
| Storage.ValidCardIsEncoding | KanbanBackLogTrackingApp/src/utils/storage.ts:36-54 | a valid card value is the encoding of the card it decodes to, up to members the card type does not have |
| Storage.BoardJsonIsV2 | KanbanBackLogTrackingApp/src/utils/storage.ts:56-70 | every board's encoding passes the v2 validator, Backlog cards included |
| Storage.BoardRoundTrip | KanbanBackLogTrackingApp/src/utils/storage.ts:56-86 | every board's encoding passes as v2, decodes back to the board, and never passes as v1 |
| Storage.MigrateV1ToV2 | KanbanBackLogTrackingApp/src/utils/storage.ts:88-96 | the migration has version 2 and exactly the v1 payload's cards, query and filters |
| Storage.MigrationIsValidV2 | KanbanBackLogTrackingApp/src/utils/storage.ts:88-96 | a migrated v1 payload passes the v2 validator, decodes to the board the v1 payload describes, and holds no Backlog card |
| Storage.EmptyBoardState | KanbanBackLogTrackingApp/src/utils/storage.ts:32-34 | the empty board is the default board: no cards and no filters |
| Storage.SaveItems | KanbanBackLogTrackingApp/src/utils/storage.ts:149-151 | saving stores the stringified encoding of the board under the v2 key and leaves every other key as it was |
| Storage.LoadStep | KanbanBackLogTrackingApp/src/utils/storage.ts:98-147 | a load with a warning gives the empty board and writes nothing; the store changes only by the migration, which needs a legacy key, removes it and sets the v2 key; no other key is ever touched |
| Storage.WarningsMentionReset | KanbanBackLogTrackingApp/src/utils/storage.ts:108-116 | both warnings say the board has been reset |
| Storage.LoadValidV2 | KanbanBackLogTrackingApp/src/utils/storage.ts:99-112 | a v2 key holding a valid payload loads that board with no warning and leaves the store untouched |
| Storage.LoadBadV2 | KanbanBackLogTrackingApp/src/utils/storage.ts:101-118 | a v2 key holding text that does not parse or validate loads the empty board with a reset warning, leaves the store untouched and never consults the legacy key |
| Storage.LoadNeither | KanbanBackLogTrackingApp/src/utils/storage.ts:121-124 | with neither key set (or both empty), load gives the empty board, no warning and an untouched store |
| Storage.LoadValidLegacy | KanbanBackLogTrackingApp/src/utils/storage.ts:126-140 | a valid legacy payload without v2 data loads the migrated board (no Backlog cards) with no warning; afterwards the v2 key holds the migrated payload, the legacy key is gone and every other key is as it was |
| Storage.LoadBadLegacy | KanbanBackLogTrackingApp/src/utils/storage.ts:126-146 | a legacy payload that does not parse or validate loads the empty board with a reset warning and leaves the legacy key in place |
| Storage.SaveThenLoad | KanbanBackLogTrackingApp/src/utils/storage.ts:98-151 | when the board's JSON round-trips through the codec, saving the board and then loading gives it back with no warning |
| Storage.LoadIdempotent | KanbanBackLogTrackingApp/src/utils/storage.ts:98-147 | when the migrated payload (if any) round-trips through the codec, a second load gives what the first gave and leaves the store as the first left it |
| Storage.LocalStore.constructor | KanbanBackLogTrackingApp/src/utils/storage.ts:99 | the store starts with the given items |
| Storage.LocalStore.GetItem | KanbanBackLogTrackingApp/src/utils/storage.ts:99 | `getItem` gives the value under the key, and `null` exactly when the key is absent |
| Storage.LocalStore.SetItem | KanbanBackLogTrackingApp/src/utils/storage.ts:150 | `setItem` maps the key to the value and changes nothing else |
| Storage.LocalStore.RemoveItem | KanbanBackLogTrackingApp/src/utils/storage.ts:138 | `removeItem` deletes the key and changes nothing else |
| Storage.SaveBoardState | KanbanBackLogTrackingApp/src/utils/storage.ts:149-151 | the store afterwards is the save of the board |
| Storage.SaveMigrated | KanbanBackLogTrackingApp/src/utils/storage.ts:137 | saving the migrated payload sets the v2 key to its text |
| Storage.LoadBoardState | KanbanBackLogTrackingApp/src/utils/storage.ts:98-147 | the branch-by-branch load over the store gives the load's result and leaves the store as the load describes |
| App.FormatMissingFields | KanbanBackLogTrackingApp/src/App.tsx:77-83 | a single field is the message itself; with two or more, all but the last joined by ", ", then " and ", then the last |
| App.FormatShape | KanbanBackLogTrackingApp/src/App.tsx:77-83 | read from the front: two fields give "a and b"; three or more give the first, ", ", then the message for the rest |
| App.FormatAppend | KanbanBackLogTrackingApp/src/App.tsx:77-83 | adding a field after two or more turns the old " and " into ", " and puts " and " before the new field |
| App.FormatEndsWithLast | KanbanBackLogTrackingApp/src/App.tsx:82 | with two fields or more the message ends with " and " and the last field |
| App.FormatNamesEveryField | KanbanBackLogTrackingApp/src/App.tsx:77-83 | the message names every missing field |
| App.FormatExamples | KanbanBackLogTrackingApp/src/App.tsx:77-83 | the messages for one, two and three fields read "project tag", "title and priority", "title, project tag and priority" |
| App.ApplyEdit | KanbanBackLogTrackingApp/src/App.tsx:171-187 | the edit over the card list keeps its length |
| App.SaveTask | KanbanBackLogTrackingApp/src/App.tsx:149-211 | a save never throws; it does nothing exactly when the title is blank, can be refused only outside Backlog, and adds a card only when creating; the lemmas below give each branch |
| App.DraftMissingOnlyTag | KanbanBackLogTrackingApp/src/App.tsx:155-166 | once the title is present, the dialog's draft can lack only its project tag |
| App.DraftMissingIsSelected | KanbanBackLogTrackingApp/src/App.tsx:156-160 | the draft's missing fields are the tag check alone when the title is present |
| App.SaveBlankTitle | KanbanBackLogTrackingApp/src/App.tsx:150-153 | a title that is blank after trimming: nothing happens |
| App.SaveGate | KanbanBackLogTrackingApp/src/App.tsx:155-166 | a save raises the toast exactly when the title is present, the target is not Backlog and the tag is blank, and the toast names the project tag |
| App.SavePastGate | KanbanBackLogTrackingApp/src/App.tsx:168-208 | past both checks a save writes the edit or appends the new card |
| App.SaveEdit | KanbanBackLogTrackingApp/src/App.tsx:168-188 | an edit replaces only the cards with the edited id, each keeping its id and creation time and taking the draft's trimmed title, column and `now` |
| App.EditKeepsIdentity | KanbanBackLogTrackingApp/src/App.tsx:173-185 | the edit of one card from the draft keeps its id and creation time and takes the draft's trimmed title, column and `now` |
| App.SaveCreate | KanbanBackLogTrackingApp/src/App.tsx:189-208 | a create appends one card at the end, made from the draft with the new id, keeping every card before it |
| App.TriagedCard | KanbanBackLogTrackingApp/src/utils/board.ts:147-163 | a card with a title and a project tag passes the promotion check |
| App.EditedCardTriaged | KanbanBackLogTrackingApp/src/App.tsx:168-188 | a card edited from a draft with a title and a tag passes the promotion check |
| App.CreatedCardTriaged | KanbanBackLogTrackingApp/src/App.tsx:189-202 | a card created from a draft with a title and a tag passes the promotion check |
| App.SaveKeepsTriage | KanbanBackLogTrackingApp/src/App.tsx:155-208 | every card a save writes outside Backlog passes the promotion check |
| App.FindCard | KanbanBackLogTrackingApp/src/App.tsx:240 | `find` gives the first card of the list with the id (no earlier card has it), and nothing exactly when no card has it |
| App.ArrayMove | KanbanBackLogTrackingApp/src/App.tsx:255 | `arrayMove` puts the element at `from` onto `to`, and removing it from both ends gives the same list |
| App.ArrayMoveMultiset | KanbanBackLogTrackingApp/src/App.tsx:255 | `arrayMove` keeps every element |
| App.BumpAt | KanbanBackLogTrackingApp/src/App.tsx:255-258 | only the card at the new index is stamped with `now` |
| App.Reorder | KanbanBackLogTrackingApp/src/App.tsx:245-268 | a reorder gives nothing or a new list, and never changes the number of cards |
| App.GateThenMove | KanbanBackLogTrackingApp/src/App.tsx:286-297 | the gate refuses only a Backlog card leaving Backlog; otherwise a move that keeps the number of cards |
| App.DragEnd | KanbanBackLogTrackingApp/src/App.tsx:231-298 | a drag throws only for a "column-" id naming no column, toasts only for a Backlog card, and never changes the number of cards |
| App.DropOn | KanbanBackLogTrackingApp/src/App.tsx:245-297 | after the early returns: throws only for a "column-" id naming no column, toasts only for a Backlog card, keeps the number of cards |
| App.ColumnDrop | KanbanBackLogTrackingApp/src/App.tsx:274-276 | a drop on a column always has an effect, throws only for a name that is no column, toasts only for a Backlog card, keeps the number of cards |
| App.CardDrop | KanbanBackLogTrackingApp/src/App.tsx:277-284 | a drop on a card never throws, does nothing exactly when no card has the id, toasts only for a Backlog card, keeps the number of cards |
| App.DragNoEffect | KanbanBackLogTrackingApp/src/App.tsx:233-243 | no drop target, a card dropped on itself, or a dragged id no card has: nothing happens |
| App.FoundInOwnColumn | KanbanBackLogTrackingApp/src/App.tsx:249-250 | a card's own column always finds its id |
| App.DragRoutesReorder | KanbanBackLogTrackingApp/src/App.tsx:245-268 | a drop on a card of the dragged card's own column is the reorder |
| App.DragRoutesColumn | KanbanBackLogTrackingApp/src/App.tsx:274-276 | a drop on a column is the gate and then a move to the end of that column |
| App.DragRoutesOtherColumn | KanbanBackLogTrackingApp/src/App.tsx:277-284 | a drop on a card of another column is the gate and then a move to an index found in that card's column, never -1 |
| App.ReorderMovesWithinColumn | KanbanBackLogTrackingApp/src/App.tsx:245-267 | the reorder finds both indices and gives the other columns' cards, then the column with the card moved to the new index; only that card is stamped, and the board keeps every other card |
| App.ReorderedMultiset | KanbanBackLogTrackingApp/src/App.tsx:255-264 | the reordered list has the column's and the other cards, with the moved card restamped |
| App.BumpMultiset | KanbanBackLogTrackingApp/src/App.tsx:255-258 | stamping replaces one card by its stamped copy |
| App.ColumnDropAppends | KanbanBackLogTrackingApp/src/App.tsx:274-297 | past the gate, a drop on a column appends the card after every card the column keeps |
| App.CardDropMoves | KanbanBackLogTrackingApp/src/App.tsx:277-297 | past the gate, a drop on a card of another column is `moveTask` to that card's index |
| App.DragBacklogGate | KanbanBackLogTrackingApp/src/App.tsx:286-292 | an untriaged Backlog card dropped anywhere outside Backlog leaves the cards unchanged and raises the toast naming the missing fields |
| App.ColumnDropGate | KanbanBackLogTrackingApp/src/App.tsx:274-292 | a card the gate holds, dropped on a header of any column but Backlog (or of no column), gives the gate's toast |
| App.CardDropGate | KanbanBackLogTrackingApp/src/App.tsx:277-292 | a card the gate holds, dropped on a card outside Backlog, gives the gate's toast |
| App.SwappedCardsWithId | KanbanBackLogTrackingApp/src/App.tsx:255-296 | with unique ids, when one card is swapped for another, a card of the result with the dragged id is the dragged card or its replacement |
| App.MoveIntoBacklogKeepsIt | KanbanBackLogTrackingApp/src/App.tsx:294-297 | with unique ids, a move into Backlog leaves every card with the moved id in Backlog |
| App.SwappedIntoBacklog | KanbanBackLogTrackingApp/src/App.tsx:294-297 | with unique ids, a swap for a Backlog copy keeps the dragged id in Backlog |
| App.ReorderKeepsColumn | KanbanBackLogTrackingApp/src/App.tsx:245-267 | with unique ids, a reorder keeps every card with the dragged id in its column |
| App.ColumnDropKeepsBacklog | KanbanBackLogTrackingApp/src/App.tsx:274-276 | with unique ids, a card lacking triage fields dropped on a column header gets a new board only when that column is Backlog, and it stays in Backlog there |
| App.DragKeepsUntriagedInBacklog | KanbanBackLogTrackingApp/src/App.tsx:231-298 | with unique ids, no drag takes an untriaged Backlog card out of Backlog |

## Left out

- Rendering, React hooks and state plumbing, the drag-and-drop sensors and
  collision detection, and the components `TaskModal.tsx` and
  `BoardColumn.tsx` are not modelled. They only display state.
- The debounced save, the toast timeout and the `window.confirm` before
  clearing Done are timing and browser dialogs. They are not modelled.
  `ClearDone` is the filter the confirmed click applies.
- `nowIso()`, `uuid()` and `Math.random` are parameters: `now` and the new
  id.
- JSON's text syntax is not modelled. `JSON.parse` and `JSON.stringify` are
  the functions of a `JsonCodec` parameter, and a parse that throws is
  `None`.
- Storage.SaveThenLoad, Storage.LoadIdempotent: the round-trip of
  `JSON.stringify` and `JSON.parse` is a hypothesis about the one value
  written (`RoundTrips`, `MigrationRoundTrips`), not an axiom. JSON number
  text is not modelled, so the model cannot derive that round-trip
  itself.
- `localStorage` exceptions (a full quota, storage disabled) are not
  modelled. A `setItem` that throws during the migration would land in the
  "corrupted" branch.
- The "is an object" test of the validators is `JObject?`. A JSON array
  also passes `typeof value === 'object'` in the source, but then has no
  `id` or `version` member and fails the next test, so the verdict is the
  same.
- Storage.LoadBoardState: a valid v2 payload is returned as the typed board
  it describes (`BoardOf`). The source returns the parsed object itself, so
  members outside the card and board types are not carried.
- Storage.LoadBoardState: a migrated load is typed the same way
  (`BoardOf(migrated)`).
- Board.TagMatches, Board.PassesFilters: lower case is ASCII only. Full
  Unicode case mapping is not modelled.
- Text.Trim: the whitespace set is the ECMAScript WhiteSpace and
  LineTerminator code points, listed explicitly.
- Text.Less: `localeCompare` is modelled as code-point order, a strict
  total order. Locale collation, which may rank distinct strings equal, is
  not modelled.
- The length limits of 120, 500 and 40 characters are enforced only by the
  dialog's input fields. No modelled operation checks them.
- App.DragEnd, App.Reorder: the drag handler finds cards and indices in
  the rendered `state.cards`, but filters the other columns and calls
  `moveTask` on the `prev.cards` the state setter receives. The model uses
  one card list for both, so updates landing between render and drop are
  not captured.
- App.ColumnDrop: a "column-" id whose name is no column passes the
  `!== 'backlog'` test of the gate. The model then returns `Throws`: the
  `TypeError` `moveTask` raises because `lists[toColumnId]` is not an
  array. It is either undefined, whose `length` cannot be read, or an
  `Object.prototype` member such as `constructor` or `__proto__`, which
  has no `splice`. The board's droppable ids are always real column names.
- Board.MoveIdempotent, App.DragKeepsUntriagedInBacklog,
  App.ReorderKeepsColumn, App.MoveIntoBacklogKeepsIt,
  App.ColumnDropKeepsBacklog: these assume unique
  card ids (`UniqueIds`). With a repeated id the search of `moveTask` may
  pick a different card the second time.
- Types.BoardState: the `version: 2` tag is written by the encoder and is
  not a field of the model's board.
- App.SaveTask: the dialog closing (`setIsModalOpen(false)`) is UI state and
  is not part of the outcome.
