/** The entities of the board (src/types.ts) and its constants
    (src/constants.ts). */
module Types {
  import opened Wrappers

  datatype ColumnId = Backlog | Todo | InProgress | Done
  datatype Priority = Low | Medium | High
  datatype CardColor = Yellow | Blue | Green | Pink | Orange

  /** A task card. The optional fields are `None` when absent. Timestamps
      are the ISO strings the application stores. */
  datatype TaskCard = TaskCard(
    id: string,
    title: string,
    description: Option<string>,
    projectTag: Option<string>,
    priority: Priority,
    dueDate: Option<string>,
    color: CardColor,
    columnId: ColumnId,
    createdAt: string,
    updatedAt: string)

  /** The persisted board. Its `version` tag is always 2 and is written by
      the encoder, so it is not a field here. */
  datatype BoardState = BoardState(
    cards: seq<TaskCard>,
    searchQuery: string,
    filterTag: Option<string>,
    filterPriority: Option<Priority>)

  const STORAGE_KEY: string := "kanban.backlog.v2"
  const LEGACY_STORAGE_KEY: string := "kanban.backlog.v1"

  /** The fixed column order: backlog, todo, in_progress, done. */
  const COLUMN_ORDER: seq<ColumnId> := [Backlog, Todo, InProgress, Done]
  const PRIORITIES: seq<Priority> := [Low, Medium, High]
  const COLORS: seq<CardColor> := [Yellow, Blue, Green, Pink, Orange]

  /** The same lists as the strings stored and compared at run time. */
  const PRIORITY_NAMES: seq<string> := ["low", "medium", "high"]
  const COLOR_NAMES: seq<string> := ["yellow", "blue", "green", "pink", "orange"]

  const DEFAULT_BOARD_STATE: BoardState := BoardState([], "", None, None)

  /** Position of a column in COLUMN_ORDER. */
  function Rank(c: ColumnId): (r: nat)
    ensures r < |COLUMN_ORDER| && COLUMN_ORDER[r] == c
  {
    match c
    case Backlog => 0
    case Todo => 1
    case InProgress => 2
    case Done => 3
  }

  /** The string each column id is in TypeScript and in stored JSON. */
  function ColumnName(c: ColumnId): string {
    match c
    case Backlog => "backlog"
    case Todo => "todo"
    case InProgress => "in_progress"
    case Done => "done"
  }

  function PriorityName(p: Priority): string {
    match p
    case Low => "low"
    case Medium => "medium"
    case High => "high"
  }

  function ColorName(c: CardColor): string {
    match c
    case Yellow => "yellow"
    case Blue => "blue"
    case Green => "green"
    case Pink => "pink"
    case Orange => "orange"
  }

  /** The column a string names, if any. */
  function ColumnFromName(name: string): (r: Option<ColumnId>)
    ensures r.Some? ==> ColumnName(r.value) == name
    ensures r.None? ==> forall c :: ColumnName(c) != name
  {
    if name == "backlog" then Some(Backlog)
    else if name == "todo" then Some(Todo)
    else if name == "in_progress" then Some(InProgress)
    else if name == "done" then Some(Done)
    else None
  }

  function PriorityFromName(name: string): (r: Option<Priority>)
    ensures r.Some? ==> PriorityName(r.value) == name
    ensures r.None? ==> forall p :: PriorityName(p) != name
  {
    if name == "low" then Some(Low)
    else if name == "medium" then Some(Medium)
    else if name == "high" then Some(High)
    else None
  }

  function ColorFromName(name: string): (r: Option<CardColor>)
    ensures r.Some? ==> ColorName(r.value) == name
    ensures r.None? ==> forall c :: ColorName(c) != name
  {
    if name == "yellow" then Some(Yellow)
    else if name == "blue" then Some(Blue)
    else if name == "green" then Some(Green)
    else if name == "pink" then Some(Pink)
    else if name == "orange" then Some(Orange)
    else None
  }

  /** The name lists hold exactly the names of the enumerated values. */
  lemma NameListsAgree(name: string)
    ensures name in PRIORITY_NAMES <==> PriorityFromName(name).Some?
    ensures name in COLOR_NAMES <==> ColorFromName(name).Some?
  {
  }

  lemma PriorityNameListed(p: Priority)
    ensures PriorityName(p) in PRIORITY_NAMES
  {
    match p
    case Low => assert PRIORITY_NAMES[0] == "low";
    case Medium => assert PRIORITY_NAMES[1] == "medium";
    case High => assert PRIORITY_NAMES[2] == "high";
  }

  /** The names round-trip, so each name denotes exactly one value. */
  lemma NamesRoundTrip(c: ColumnId, p: Priority, k: CardColor)
    ensures ColumnFromName(ColumnName(c)) == Some(c)
    ensures PriorityFromName(PriorityName(p)) == Some(p)
    ensures ColorFromName(ColorName(k)) == Some(k)
  {
  }

  /** No two cards share an id. Ids come from `crypto.randomUUID`, so the
      application relies on this but no operation checks it. */
  predicate UniqueIds(cards: seq<TaskCard>) {
    forall i, j :: 0 <= i < j < |cards| ==> cards[i].id != cards[j].id
  }
}
