/** Persistence of the board (src/utils/storage.ts): the structural
    validators of the v1 and v2 payloads, the v1-to-v2 migration, and the
    load and save operations over the browser's key-value store. */
module Storage {
  import opened Wrappers
  import opened Text
  import opened Types
  import opened Json

  const V2_COLUMN_IDS: seq<string> := ["backlog", "todo", "in_progress", "done"]
  const V1_COLUMN_IDS: seq<string> := ["todo", "in_progress", "done"]

  const INVALID_WARNING: string := "Stored board data was invalid and has been reset."
  const CORRUPTED_WARNING: string := "Stored board data was corrupted and has been reset."

  /** The keys a stored card is read through. */
  const CARD_KEYS: set<string> := {"id", "title", "description", "projectTag", "priority", "dueDate", "color", "columnId", "createdAt", "updatedAt"}

  // ---------------------------------------------------------------------
  // Validators

  predicate IsString(v: Option<Json>) {
    v.Some? && v.value.JString?
  }

  /** `v === undefined || isString(v)`. */
  predicate AbsentOrString(v: Option<Json>) {
    v.None? || v.value.JString?
  }

  /** `v === null || isString(v)`: a missing member is neither. */
  predicate NullOrString(v: Option<Json>) {
    v.Some? && (v.value.JNull? || v.value.JString?)
  }

  /** `names.includes(v)`: a string member from the list. */
  predicate NameIn(v: Option<Json>, names: seq<string>) {
    v.Some? && v.value.JString? && v.value.s in names
  }

  predicate NullOrNameIn(v: Option<Json>, names: seq<string>) {
    v.Some? && (v.value.JNull? || (v.value.JString? && v.value.s in names))
  }

  /** `isTaskCardWithColumnSet(value, columnIds)`. */
  predicate IsTaskCardWithColumnSet(value: Json, columnIds: seq<string>) {
    && value.JObject?
    && IsString(Member(value, "id"))
    && IsString(Member(value, "title"))
    && AbsentOrString(Member(value, "description"))
    && AbsentOrString(Member(value, "projectTag"))
    && NameIn(Member(value, "priority"), PRIORITY_NAMES)
    && AbsentOrString(Member(value, "dueDate"))
    && NameIn(Member(value, "color"), COLOR_NAMES)
    && NameIn(Member(value, "columnId"), columnIds)
    && IsString(Member(value, "createdAt"))
    && IsString(Member(value, "updatedAt"))
  }

  /** The part both board validators share: every check but the version. */
  predicate IsBoardStateWith(value: Json, columnIds: seq<string>) {
    && value.JObject?
    && Member(value, "cards").Some? && Member(value, "cards").value.JArray?
    && (forall card :: card in Member(value, "cards").value.items ==> IsTaskCardWithColumnSet(card, columnIds))
    && IsString(Member(value, "searchQuery"))
    && NullOrString(Member(value, "filterTag"))
    && NullOrNameIn(Member(value, "filterPriority"), PRIORITY_NAMES)
  }

  /** `isBoardStateV2`. */
  predicate IsBoardStateV2(value: Json) {
    Member(value, "version") == Some(JNumber(2.0)) && IsBoardStateWith(value, V2_COLUMN_IDS)
  }

  /** `isBoardStateV1`. */
  predicate IsBoardStateV1(value: Json) {
    Member(value, "version") == Some(JNumber(1.0)) && IsBoardStateWith(value, V1_COLUMN_IDS)
  }

  /** A card valid against one column set is valid against a larger one;
      in particular every v1 card is a valid v2 card. */
  lemma CardColumnSetMonotone(value: Json, smaller: seq<string>, larger: seq<string>)
    requires forall name :: name in smaller ==> name in larger
    requires IsTaskCardWithColumnSet(value, smaller)
    ensures IsTaskCardWithColumnSet(value, larger)
  {
  }

  lemma V1ColumnsAreV2Columns()
    ensures forall name :: name in V1_COLUMN_IDS ==> name in V2_COLUMN_IDS
    ensures "backlog" in V2_COLUMN_IDS && "backlog" !in V1_COLUMN_IDS
  {
  }

  lemma BoardColumnSetMonotone(value: Json, smaller: seq<string>, larger: seq<string>)
    requires forall name :: name in smaller ==> name in larger
    requires IsBoardStateWith(value, smaller)
    ensures IsBoardStateWith(value, larger)
  {
    forall card | card in Member(value, "cards").value.items
      ensures IsTaskCardWithColumnSet(card, larger)
    {
      CardColumnSetMonotone(card, smaller, larger);
    }
  }

  /** The v1 validator rejects every payload holding a Backlog card. */
  lemma V1RejectsBacklog(value: Json, card: Json)
    requires Member(value, "cards").Some? && Member(value, "cards").value.JArray?
    requires card in Member(value, "cards").value.items
    requires Member(card, "columnId") == Some(JString("backlog"))
    ensures !IsBoardStateV1(value)
    ensures IsBoardStateWith(value, V1_COLUMN_IDS) ==> false
  {
  }

  // ---------------------------------------------------------------------
  // Encoding and decoding

  /** The member a card's JSON object has under `key`, if any: absent
      optional fields have none. */
  function CardMember(card: TaskCard, key: string): Option<Json> {
    if key == "id" then Some(JString(card.id))
    else if key == "title" then Some(JString(card.title))
    else if key == "description" then OptionalJson(card.description)
    else if key == "projectTag" then OptionalJson(card.projectTag)
    else if key == "priority" then Some(JString(PriorityName(card.priority)))
    else if key == "dueDate" then OptionalJson(card.dueDate)
    else if key == "color" then Some(JString(ColorName(card.color)))
    else if key == "columnId" then Some(JString(ColumnName(card.columnId)))
    else if key == "createdAt" then Some(JString(card.createdAt))
    else if key == "updatedAt" then Some(JString(card.updatedAt))
    else None
  }

  function OptionalJson(v: Option<string>): Option<Json> {
    if v.Some? then Some(JString(v.value)) else None
  }

  /** The JSON object `JSON.stringify` receives for a card. */
  function CardJson(card: TaskCard): Json {
    JObject(map k | k in CARD_KEYS && CardMember(card, k).Some? :: CardMember(card, k).value)
  }

  function NullOr(v: Option<string>): Json {
    if v.Some? then JString(v.value) else JNull
  }

  /** The JSON object `saveBoardState` stringifies: version 2, null for
      unset filters. */
  function BoardJson(state: BoardState): Json {
    JObject(map[
      "version" := JNumber(2.0),
      "cards" := JArray(seq(|state.cards|, i requires 0 <= i < |state.cards| => CardJson(state.cards[i]))),
      "searchQuery" := JString(state.searchQuery),
      "filterTag" := NullOr(state.filterTag),
      "filterPriority" := NullOr(if state.filterPriority.Some? then Some(PriorityName(state.filterPriority.value)) else None)])
  }

  function StringOf(v: Option<Json>): string
    requires IsString(v)
  {
    v.value.s
  }

  function OptionalStringOf(v: Option<Json>): Option<string>
    requires AbsentOrString(v)
  {
    if v.None? then None else Some(v.value.s)
  }

  /** The card a validated value is typed as after the cast. */
  function CardOf(value: Json): (card: TaskCard)
    requires IsTaskCardWithColumnSet(value, V2_COLUMN_IDS)
    ensures ColumnName(card.columnId) == Member(value, "columnId").value.s
  {
    TaskCard(
      StringOf(Member(value, "id")),
      StringOf(Member(value, "title")),
      OptionalStringOf(Member(value, "description")),
      OptionalStringOf(Member(value, "projectTag")),
      PriorityFromName(Member(value, "priority").value.s).value,
      OptionalStringOf(Member(value, "dueDate")),
      ColorFromName(Member(value, "color").value.s).value,
      ColumnFromName(Member(value, "columnId").value.s).value,
      StringOf(Member(value, "createdAt")),
      StringOf(Member(value, "updatedAt")))
  }

  /** The board a value that passes the v2 checks (but perhaps not the
      version check) is typed as. */
  function BoardOf(value: Json): (state: BoardState)
    requires IsBoardStateWith(value, V2_COLUMN_IDS)
    ensures |state.cards| == |Member(value, "cards").value.items|
    ensures forall i :: 0 <= i < |state.cards| ==> state.cards[i] == CardOf(Member(value, "cards").value.items[i])
    ensures Member(value, "searchQuery") == Some(JString(state.searchQuery))
    ensures Member(value, "filterTag") == Some(if state.filterTag.Some? then JString(state.filterTag.value) else JNull)
    ensures Member(value, "filterPriority")
      == Some(if state.filterPriority.Some? then JString(PriorityName(state.filterPriority.value)) else JNull)
  {
    var items := Member(value, "cards").value.items;
    var filterTag := Member(value, "filterTag").value;
    var filterPriority := Member(value, "filterPriority").value;
    NameListsAgree(if filterPriority.JString? then filterPriority.s else "");
    BoardState(
      seq(|items|, i requires 0 <= i < |items| => CardOf(items[i])),
      StringOf(Member(value, "searchQuery")),
      if filterTag.JString? then Some(filterTag.s) else None,
      if filterPriority.JString? then PriorityFromName(filterPriority.s) else None)
  }

  /** The members of a card's encoding. */
  lemma CardJsonMembers(card: TaskCard)
    ensures forall k :: Member(CardJson(card), k) == CardMember(card, k)
  {
    forall k ensures Member(CardJson(card), k) == CardMember(card, k) {
      if k !in CARD_KEYS {
        assert CardMember(card, k).None?;
      }
    }
  }

  /** A card's encoding passes the validator exactly for the column sets
      that hold its column, and decodes to the card. */
  lemma CardRoundTrip(card: TaskCard, columnIds: seq<string>)
    ensures IsTaskCardWithColumnSet(CardJson(card), columnIds) <==> ColumnName(card.columnId) in columnIds
    ensures IsTaskCardWithColumnSet(CardJson(card), V2_COLUMN_IDS) && CardOf(CardJson(card)) == card
  {
    CardEncodingValid(card, columnIds);
    CardEncodingValid(card, V2_COLUMN_IDS);
    assert ColumnName(card.columnId) in V2_COLUMN_IDS;
    CardDecodesBack(card);
  }

  lemma CardEncodingValid(card: TaskCard, columnIds: seq<string>)
    ensures IsTaskCardWithColumnSet(CardJson(card), columnIds) <==> ColumnName(card.columnId) in columnIds
  {
    CardJsonMembers(card);
    NameListsAgree(PriorityName(card.priority));
    NameListsAgree(ColorName(card.color));
    NamesRoundTrip(card.columnId, card.priority, card.color);
  }

  lemma CardDecodesBack(card: TaskCard)
    requires IsTaskCardWithColumnSet(CardJson(card), V2_COLUMN_IDS)
    ensures CardOf(CardJson(card)) == card
  {
    CardJsonMembers(card);
    NamesRoundTrip(card.columnId, card.priority, card.color);
  }

  /** The members of `value` a card is read through. */
  function CardPart(value: Json): Json
    requires value.JObject?
  {
    JObject(map k | k in value.fields && k in CARD_KEYS :: value.fields[k])
  }

  /** The card validator looks only at the card's own members. */
  lemma CardValidatorReadsCardKeys(value: Json, columnIds: seq<string>)
    requires value.JObject?
    ensures IsTaskCardWithColumnSet(value, columnIds) <==> IsTaskCardWithColumnSet(CardPart(value), columnIds)
  {
    assert forall k :: k in CARD_KEYS ==> Member(value, k) == Member(CardPart(value), k);
  }

  /** Each member a valid card value is read through is the member the
      decoded card encodes to. */
  lemma CardOfMembers(value: Json)
    requires IsTaskCardWithColumnSet(value, V2_COLUMN_IDS)
    ensures forall k :: k in CARD_KEYS ==> CardMember(CardOf(value), k) == Member(value, k)
  {
    var card := CardOf(value);
    assert PriorityName(card.priority) == Member(value, "priority").value.s;
    assert ColorName(card.color) == Member(value, "color").value.s;
  }

  /** A valid card value is the encoding of the card it decodes to, up to
      members the card type does not have. */
  lemma ValidCardIsEncoding(value: Json)
    requires IsTaskCardWithColumnSet(value, V2_COLUMN_IDS)
    ensures CardJson(CardOf(value)) == CardPart(value)
  {
    var card := CardOf(value);
    CardJsonMembers(card);
    CardOfMembers(value);
    var a := CardJson(card).fields;
    var b := CardPart(value).fields;
    forall k ensures k in a <==> k in b {
      assert Member(CardJson(card), k).Some? <==> k in a;
    }
    assert a.Keys == b.Keys;
    forall k | k in a.Keys ensures a[k] == b[k] {
      assert Member(CardJson(card), k) == Some(a[k]);
    }
  }

  /** Every typed board encodes to a valid v2 payload (Backlog cards
      included) that decodes back to it; it never passes as v1. */
  lemma BoardRoundTrip(state: BoardState)
    ensures IsBoardStateV2(BoardJson(state))
    ensures BoardOf(BoardJson(state)) == state
    ensures !IsBoardStateV1(BoardJson(state))
  {
    var j := BoardJson(state);
    BoardJsonIsV2(state);
    var back := BoardOf(j);
    forall i | 0 <= i < |state.cards| ensures back.cards[i] == state.cards[i] {
      CardRoundTrip(state.cards[i], V2_COLUMN_IDS);
    }
    assert back.cards == state.cards;
    if state.filterPriority.Some? {
      NamesRoundTrip(Backlog, state.filterPriority.value, Yellow);
    }
    assert Member(j, "version") == Some(JNumber(2.0));
  }

  lemma BoardJsonIsV2(state: BoardState)
    ensures IsBoardStateV2(BoardJson(state))
  {
    var j := BoardJson(state);
    var items := Member(j, "cards").value.items;
    forall card | card in items ensures IsTaskCardWithColumnSet(card, V2_COLUMN_IDS) {
      var i :| 0 <= i < |items| && items[i] == card;
      CardRoundTrip(state.cards[i], V2_COLUMN_IDS);
    }
  }

  // ---------------------------------------------------------------------
  // Migration

  /** `migrateV1ToV2`: version 2, and the v1 payload's cards, query and
      filters as they are. */
  function MigrateV1ToV2(state: Json): (r: Json)
    requires IsBoardStateV1(state)
    ensures r.JObject? && r.fields.Keys == {"version", "cards", "searchQuery", "filterTag", "filterPriority"}
    ensures Member(r, "version") == Some(JNumber(2.0))
    ensures forall k :: k in {"cards", "searchQuery", "filterTag", "filterPriority"} ==> Member(r, k) == Member(state, k)
  {
    JObject(map[
      "version" := JNumber(2.0),
      "cards" := state.fields["cards"],
      "searchQuery" := state.fields["searchQuery"],
      "filterTag" := state.fields["filterTag"],
      "filterPriority" := state.fields["filterPriority"]])
  }

  /** A migrated v1 payload passes the v2 validator, decodes to the board
      the v1 payload describes, and holds no Backlog card. */
  lemma MigrationIsValidV2(state: Json)
    requires IsBoardStateV1(state)
    ensures IsBoardStateV2(MigrateV1ToV2(state))
    ensures IsBoardStateWith(state, V2_COLUMN_IDS) && BoardOf(MigrateV1ToV2(state)) == BoardOf(state)
    ensures forall card :: card in BoardOf(state).cards ==> card.columnId != Backlog
  {
    V1ColumnsAreV2Columns();
    BoardColumnSetMonotone(state, V1_COLUMN_IDS, V2_COLUMN_IDS);
    var m := MigrateV1ToV2(state);
    assert Member(m, "cards") == Member(state, "cards");
    assert Member(m, "searchQuery") == Member(state, "searchQuery");
    assert Member(m, "filterTag") == Member(state, "filterTag");
    assert Member(m, "filterPriority") == Member(state, "filterPriority");
    var items := Member(state, "cards").value.items;
    forall card | card in BoardOf(state).cards ensures card.columnId != Backlog {
      var i :| 0 <= i < |items| && BoardOf(state).cards[i] == card;
      assert items[i] in items;
    }
  }

  // ---------------------------------------------------------------------
  // Load and save

  /** `emptyBoardState()`: the default board with a fresh empty card list. */
  function EmptyBoardState(): (r: BoardState)
    ensures r == DEFAULT_BOARD_STATE && r.cards == [] && r.filterTag.None? && r.filterPriority.None?
  {
    DEFAULT_BOARD_STATE.(cards := [])
  }

  datatype LoadResult = LoadResult(state: BoardState, warning: Option<string>)

  /** `localStorage.getItem(key)`: `None` is `null`. */
  function Lookup(items: map<string, string>, key: string): Option<string> {
    if key in items then Some(items[key]) else None
  }

  /** `if (raw)`: present and not the empty string. */
  predicate Truthy(raw: Option<string>) {
    raw.Some? && raw.value != ""
  }

  /** The store after `saveBoardState(state)`. */
  function SaveItems(items: map<string, string>, state: BoardState, codec: JsonCodec): (r: map<string, string>)
    ensures r.Keys == items.Keys + {STORAGE_KEY}
    ensures r[STORAGE_KEY] == codec.stringify(BoardJson(state))
    ensures forall k :: k in items && k != STORAGE_KEY ==> r[k] == items[k]
  {
    items[STORAGE_KEY := codec.stringify(BoardJson(state))]
  }

  function Reset(items: map<string, string>, warning: Option<string>): (LoadResult, map<string, string>) {
    (LoadResult(EmptyBoardState(), warning), items)
  }

  /** `loadBoardState()`: the result and the store afterwards. */
  function LoadStep(items: map<string, string>, codec: JsonCodec): (r: (LoadResult, map<string, string>))
    ensures r.0.warning.Some? ==> r.0.state == EmptyBoardState() && r.1 == items
    ensures r.1 != items ==>
      && r.0.warning.None? && LEGACY_STORAGE_KEY in items
      && LEGACY_STORAGE_KEY !in r.1 && STORAGE_KEY in r.1
    ensures forall k :: k in items && k != STORAGE_KEY && k != LEGACY_STORAGE_KEY ==> k in r.1 && r.1[k] == items[k]
  {
    var rawV2 := Lookup(items, STORAGE_KEY);
    if Truthy(rawV2) then
      match codec.parse(rawV2.value)
      case None => Reset(items, Some(CORRUPTED_WARNING))
      case Some(parsed) =>
        if !IsBoardStateV2(parsed) then Reset(items, Some(INVALID_WARNING))
        else (LoadResult(BoardOf(parsed), None), items)
    else
      var rawV1 := Lookup(items, LEGACY_STORAGE_KEY);
      if !Truthy(rawV1) then Reset(items, None)
      else match codec.parse(rawV1.value)
        case None => Reset(items, Some(CORRUPTED_WARNING))
        case Some(parsed) =>
          if !IsBoardStateV1(parsed) then Reset(items, Some(INVALID_WARNING))
          else
            MigrationIsValidV2(parsed);
            var migrated := MigrateV1ToV2(parsed);
            (LoadResult(BoardOf(migrated), None), items[STORAGE_KEY := codec.stringify(migrated)] - {LEGACY_STORAGE_KEY})
  }

  /** Both reset warnings say the board has been reset. */
  lemma WarningsMentionReset()
    ensures Contains(INVALID_WARNING, "reset") && Contains(CORRUPTED_WARNING, "reset")
  {
    assert OccursAt(INVALID_WARNING, "reset", 43);
    assert OccursAt(CORRUPTED_WARNING, "reset", 45);
  }

  /** A v2 key holding a valid payload: that board, no warning, the store
      untouched. */
  lemma LoadValidV2(items: map<string, string>, codec: JsonCodec, parsed: Json)
    requires Truthy(Lookup(items, STORAGE_KEY))
    requires codec.parse(items[STORAGE_KEY]) == Some(parsed) && IsBoardStateV2(parsed)
    ensures LoadStep(items, codec) == (LoadResult(BoardOf(parsed), None), items)
  {
  }

  /** A v2 key holding text that does not parse or does not validate: the
      empty board with a reset warning, the store untouched, whatever the
      legacy key holds. */
  lemma LoadBadV2(items: map<string, string>, codec: JsonCodec, legacy: Option<string>)
    requires Truthy(Lookup(items, STORAGE_KEY))
    requires codec.parse(items[STORAGE_KEY]).None? || !IsBoardStateV2(codec.parse(items[STORAGE_KEY]).value)
    ensures var (result, after) := LoadStep(items, codec);
      && result.state == EmptyBoardState() && after == items
      && result.warning.Some? && Contains(result.warning.value, "reset")
    ensures var other := if legacy.Some? then items[LEGACY_STORAGE_KEY := legacy.value] else items - {LEGACY_STORAGE_KEY};
      LoadStep(other, codec).0 == LoadStep(items, codec).0
  {
    WarningsMentionReset();
    var other := if legacy.Some? then items[LEGACY_STORAGE_KEY := legacy.value] else items - {LEGACY_STORAGE_KEY};
    assert Lookup(other, STORAGE_KEY) == Lookup(items, STORAGE_KEY);
  }

  /** Neither key set (or both empty): the empty board, no warning, the
      store untouched. */
  lemma LoadNeither(items: map<string, string>, codec: JsonCodec)
    requires !Truthy(Lookup(items, STORAGE_KEY)) && !Truthy(Lookup(items, LEGACY_STORAGE_KEY))
    ensures LoadStep(items, codec) == (LoadResult(EmptyBoardState(), None), items)
  {
  }

  /** A valid legacy payload and no v2 data: the migrated board, no
      warning; afterwards the v2 key holds the migrated payload, the legacy
      key is gone and every other key is as it was. */
  lemma LoadValidLegacy(items: map<string, string>, codec: JsonCodec, parsed: Json)
    requires !Truthy(Lookup(items, STORAGE_KEY)) && Truthy(Lookup(items, LEGACY_STORAGE_KEY))
    requires codec.parse(items[LEGACY_STORAGE_KEY]) == Some(parsed) && IsBoardStateV1(parsed)
    ensures IsBoardStateWith(parsed, V2_COLUMN_IDS)
    ensures var (result, after) := LoadStep(items, codec);
      && result == LoadResult(BoardOf(parsed), None)
      && (forall card :: card in result.state.cards ==> card.columnId != Backlog)
      && after.Keys == items.Keys - {LEGACY_STORAGE_KEY} + {STORAGE_KEY}
      && after[STORAGE_KEY] == codec.stringify(MigrateV1ToV2(parsed))
      && forall k :: k in items && k != STORAGE_KEY && k != LEGACY_STORAGE_KEY ==> after[k] == items[k]
  {
    MigrationIsValidV2(parsed);
  }

  /** A legacy payload that does not parse or does not validate: the empty
      board with a reset warning, and the legacy key stays in place. */
  lemma LoadBadLegacy(items: map<string, string>, codec: JsonCodec)
    requires !Truthy(Lookup(items, STORAGE_KEY)) && Truthy(Lookup(items, LEGACY_STORAGE_KEY))
    requires codec.parse(items[LEGACY_STORAGE_KEY]).None? || !IsBoardStateV1(codec.parse(items[LEGACY_STORAGE_KEY]).value)
    ensures var (result, after) := LoadStep(items, codec);
      && result.state == EmptyBoardState() && after == items && LEGACY_STORAGE_KEY in after
      && result.warning.Some? && Contains(result.warning.value, "reset")
  {
    WarningsMentionReset();
  }

  /** Saving a board and loading gives that board back, without warning. */
  lemma SaveThenLoad(items: map<string, string>, state: BoardState, codec: JsonCodec)
    requires RoundTrips(codec, BoardJson(state))
    ensures var saved := SaveItems(items, state, codec);
      LoadStep(saved, codec) == (LoadResult(state, None), saved)
  {
    BoardRoundTrip(state);
    var saved := SaveItems(items, state, codec);
    assert codec.parse(codec.stringify(BoardJson(state))) == Some(BoardJson(state));
    assert Lookup(saved, STORAGE_KEY) == Some(codec.stringify(BoardJson(state)));
  }

  /** The migrated payload a load would write round-trips through the
      codec; it holds only what was parsed from the legacy key. */
  predicate MigrationRoundTrips(items: map<string, string>, codec: JsonCodec) {
    var raw := Lookup(items, LEGACY_STORAGE_KEY);
    (raw.Some? && codec.parse(raw.value).Some? && IsBoardStateV1(codec.parse(raw.value).value)) ==>
      RoundTrips(codec, MigrateV1ToV2(codec.parse(raw.value).value))
  }

  /** Loading twice gives what loading once gave and leaves the store as
      the first load left it (the migration happens once). */
  lemma LoadIdempotent(items: map<string, string>, codec: JsonCodec)
    requires MigrationRoundTrips(items, codec)
    ensures var (first, after) := LoadStep(items, codec);
      LoadStep(after, codec) == (first, after)
  {
    var rawV2 := Lookup(items, STORAGE_KEY);
    if !Truthy(rawV2) && Truthy(Lookup(items, LEGACY_STORAGE_KEY)) {
      var parsed := codec.parse(items[LEGACY_STORAGE_KEY]);
      if parsed.Some? && IsBoardStateV1(parsed.value) {
        MigrationIsValidV2(parsed.value);
        var migrated := MigrateV1ToV2(parsed.value);
        var after := LoadStep(items, codec).1;
        assert codec.parse(codec.stringify(migrated)) == Some(migrated);
        assert Lookup(after, STORAGE_KEY) == Some(codec.stringify(migrated));
      }
    }
  }

  // ---------------------------------------------------------------------
  // The store

  /** `window.localStorage`: string values under string keys. */
  class LocalStore {
    var items: map<string, string>

    constructor (initial: map<string, string>)
      ensures items == initial
    {
      items := initial;
    }

    function GetItem(key: string): (r: Option<string>)
      reads this
      ensures r.Some? <==> key in items
      ensures r.Some? ==> r.value == items[key]
    {
      Lookup(items, key)
    }

    method SetItem(key: string, value: string)
      modifies this
      ensures items == old(items)[key := value]
    {
      items := items[key := value];
    }

    method RemoveItem(key: string)
      modifies this
      ensures items == old(items) - {key}
    {
      items := items - {key};
    }
  }

  /** `saveBoardState(state)`. */
  method SaveBoardState(store: LocalStore, state: BoardState, codec: JsonCodec)
    modifies store
    ensures store.items == SaveItems(old(store.items), state, codec)
  {
    store.SetItem(STORAGE_KEY, codec.stringify(BoardJson(state)));
  }

  /** `saveBoardState(migrated)` on the migrated payload itself. */
  method SaveMigrated(store: LocalStore, migrated: Json, codec: JsonCodec)
    modifies store
    ensures store.items == old(store.items)[STORAGE_KEY := codec.stringify(migrated)]
  {
    store.SetItem(STORAGE_KEY, codec.stringify(migrated));
  }

  /** `loadBoardState()`, branch by branch over the store. */
  method LoadBoardState(store: LocalStore, codec: JsonCodec) returns (result: LoadResult)
    modifies store
    ensures (result, store.items) == LoadStep(old(store.items), codec)
  {
    var rawV2 := store.GetItem(STORAGE_KEY);
    if rawV2.Some? && rawV2.value != "" {
      var parsed := codec.parse(rawV2.value);
      if parsed.None? {
        return LoadResult(EmptyBoardState(), Some(CORRUPTED_WARNING));
      }
      if !IsBoardStateV2(parsed.value) {
        return LoadResult(EmptyBoardState(), Some(INVALID_WARNING));
      }
      return LoadResult(BoardOf(parsed.value), None);
    }

    var rawV1 := store.GetItem(LEGACY_STORAGE_KEY);
    if rawV1.None? || rawV1.value == "" {
      return LoadResult(EmptyBoardState(), None);
    }

    var parsed := codec.parse(rawV1.value);
    if parsed.None? {
      return LoadResult(EmptyBoardState(), Some(CORRUPTED_WARNING));
    }
    if !IsBoardStateV1(parsed.value) {
      return LoadResult(EmptyBoardState(), Some(INVALID_WARNING));
    }
    MigrationIsValidV2(parsed.value);
    var migrated := MigrateV1ToV2(parsed.value);
    SaveMigrated(store, migrated, codec);
    store.RemoveItem(LEGACY_STORAGE_KEY);
    result := LoadResult(BoardOf(migrated), None);
  }
}
