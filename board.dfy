/** The board operations of src/utils/board.ts: pure transformations of
    the card list, except `moveTask`, which builds per-column lists and
    splices them in place. */
module Board {
  import opened Wrappers
  import opened Seqs
  import opened Text
  import opened Types

  datatype CreateTaskInput = CreateTaskInput(
    title: string,
    description: Option<string>,
    projectTag: Option<string>,
    priority: Priority,
    dueDate: Option<string>,
    color: CardColor,
    columnId: ColumnId)

  /** `Partial<CreateTaskInput>`: `None` is a field left out of the patch. */
  datatype TaskPatch = TaskPatch(
    title: Option<string>,
    description: Option<string>,
    projectTag: Option<string>,
    priority: Option<Priority>,
    dueDate: Option<string>,
    color: Option<CardColor>,
    columnId: Option<ColumnId>)

  const EMPTY_PATCH: TaskPatch := TaskPatch(None, None, None, None, None, None, None)

  datatype FilterInput = FilterInput(
    searchQuery: string,
    filterTag: Option<string>,
    filterPriority: Option<Priority>)

  /** What the Backlog-promotion gate inspects. `priority` is the runtime
      value the gate checks against the list of priorities, so it is kept as
      a string here. */
  datatype PromotionCandidate = PromotionCandidate(
    title: string,
    projectTag: Option<string>,
    priority: string)

  function CandidateOf(card: TaskCard): PromotionCandidate {
    PromotionCandidate(card.title, card.projectTag, PriorityName(card.priority))
  }

  // ---------------------------------------------------------------------
  // Create and edit

  /** `text?.trim() || undefined`. */
  function TrimToAbsent(text: Option<string>): (r: Option<string>)
    ensures r.None? <==> text.None? || IsBlank(text.value)
    ensures r.Some? ==> r.value == Trim(text.value) && r.value != "" && IsTrimmed(r.value)
  {
    match text
    case None => None
    case Some(t) => if Trim(t) == "" then None else Some(Trim(t))
  }

  /** `text || undefined`. */
  function EmptyToAbsent(text: Option<string>): (r: Option<string>)
    ensures r.None? <==> text.None? || text.value == ""
    ensures r.Some? ==> r == text
  {
    if text == Some("") then None else text
  }

  /** The optional text fields of a card hold no empty text, and the
      description and project tag are trimmed. */
  predicate OptionalsNormalized(card: TaskCard) {
    && (card.description.Some? ==> card.description.value != "" && IsTrimmed(card.description.value))
    && (card.projectTag.Some? ==> card.projectTag.value != "" && IsTrimmed(card.projectTag.value))
    && (card.dueDate.Some? ==> card.dueDate.value != "")
  }

  function CreateTask(input: CreateTaskInput, now: string, id: string): (card: TaskCard)
    ensures card.id == id
    ensures card.title == Trim(input.title) && IsTrimmed(card.title)
    ensures card.createdAt == now && card.updatedAt == now
    ensures OptionalsNormalized(card)
    ensures card.description.None? <==> input.description.None? || IsBlank(input.description.value)
    ensures card.description.Some? ==> card.description.value == Trim(input.description.value)
    ensures card.projectTag.None? <==> input.projectTag.None? || IsBlank(input.projectTag.value)
    ensures card.projectTag.Some? ==> card.projectTag.value == Trim(input.projectTag.value)
    ensures card.dueDate.None? <==> input.dueDate.None? || input.dueDate.value == ""
    ensures card.dueDate.Some? ==> card.dueDate == input.dueDate
    ensures card.priority == input.priority && card.color == input.color
    ensures card.columnId == input.columnId
  {
    TaskCard(
      id,
      Trim(input.title),
      TrimToAbsent(input.description),
      TrimToAbsent(input.projectTag),
      input.priority,
      EmptyToAbsent(input.dueDate),
      input.color,
      input.columnId,
      now,
      now)
  }

  function EditTask(card: TaskCard, patch: TaskPatch, now: string): (r: TaskCard)
    ensures r.id == card.id && r.createdAt == card.createdAt
    ensures r.updatedAt == now
    ensures r.title == if patch.title.Some? then Trim(patch.title.value) else card.title
    ensures r.priority == if patch.priority.Some? then patch.priority.value else card.priority
    ensures r.color == if patch.color.Some? then patch.color.value else card.color
    ensures r.columnId == if patch.columnId.Some? then patch.columnId.value else card.columnId
  {
    card.(
      title := if patch.title.Some? then Trim(patch.title.value) else card.title,
      description := if patch.description.Some? then TrimToAbsent(patch.description) else card.description,
      projectTag := if patch.projectTag.Some? then TrimToAbsent(patch.projectTag) else card.projectTag,
      priority := if patch.priority.Some? then patch.priority.value else card.priority,
      dueDate := if patch.dueDate.Some? then EmptyToAbsent(patch.dueDate) else card.dueDate,
      color := if patch.color.Some? then patch.color.value else card.color,
      columnId := if patch.columnId.Some? then patch.columnId.value else card.columnId,
      updatedAt := now)
  }

  /** Editing never breaks the normal form of the optional fields. */
  lemma EditKeepsOptionalsNormalized(card: TaskCard, patch: TaskPatch, now: string)
    requires OptionalsNormalized(card)
    ensures OptionalsNormalized(EditTask(card, patch, now))
  {
    EditOptionals(card, patch, now);
  }

  /** The optional text fields of an edit: an unset patch field keeps the
      card's, a set one is trimmed (description, project tag) or taken as
      it is (due date), and blank or empty text clears the field. */
  lemma EditOptionals(card: TaskCard, patch: TaskPatch, now: string)
    ensures var r := EditTask(card, patch, now);
      && (patch.description.None? ==> r.description == card.description)
      && (patch.description.Some? ==>
           (r.description.None? <==> IsBlank(patch.description.value))
           && (r.description.Some? ==> r.description.value == Trim(patch.description.value)))
      && (patch.projectTag.None? ==> r.projectTag == card.projectTag)
      && (patch.projectTag.Some? ==>
           (r.projectTag.None? <==> IsBlank(patch.projectTag.value))
           && (r.projectTag.Some? ==> r.projectTag.value == Trim(patch.projectTag.value)))
      && (patch.dueDate.None? ==> r.dueDate == card.dueDate)
      && (patch.dueDate.Some? ==> r.dueDate == (if patch.dueDate.value == "" then None else patch.dueDate))
  {
    var r := EditTask(card, patch, now);
    assert r.description == if patch.description.Some? then TrimToAbsent(patch.description) else card.description;
    assert r.projectTag == if patch.projectTag.Some? then TrimToAbsent(patch.projectTag) else card.projectTag;
    assert r.dueDate == if patch.dueDate.Some? then EmptyToAbsent(patch.dueDate) else card.dueDate;
  }

  /** An empty patch only refreshes the timestamp. */
  lemma EditWithEmptyPatch(card: TaskCard, now: string)
    ensures EditTask(card, EMPTY_PATCH, now) == card.(updatedAt := now)
  {
  }

  /** The patch that sets every field from a create input. */
  function PatchFrom(input: CreateTaskInput): TaskPatch {
    TaskPatch(Some(input.title), input.description, input.projectTag, Some(input.priority),
              input.dueDate, Some(input.color), Some(input.columnId))
  }

  /** A patch that sets every field yields the card `createTask` would have
      made, keeping only the id and the creation time of the edited card. */
  lemma EditAsCreate(card: TaskCard, input: CreateTaskInput, now: string)
    requires input.description.Some? && input.projectTag.Some? && input.dueDate.Some?
    ensures EditTask(card, PatchFrom(input), now) == CreateTask(input, now, card.id).(createdAt := card.createdAt)
  {
  }

  // ---------------------------------------------------------------------
  // Filters: delete, clear Done, columns, visibility

  function HasOtherId(taskId: string): TaskCard -> bool {
    (card: TaskCard) => card.id != taskId
  }

  function InColumn(c: ColumnId): TaskCard -> bool {
    (card: TaskCard) => card.columnId == c
  }

  function NotInColumn(c: ColumnId): TaskCard -> bool {
    (card: TaskCard) => card.columnId != c
  }

  function DeleteTask(cards: seq<TaskCard>, taskId: string): (r: seq<TaskCard>)
    ensures forall x :: x in r <==> x in cards && x.id != taskId
    ensures forall x :: multiset(r)[x] == if x.id != taskId then multiset(cards)[x] else 0
    ensures IsSubsequence(r, cards)
  {
    FilterIsSubsequence(cards, HasOtherId(taskId));
    FilterMultiplicity(cards, HasOtherId(taskId));
    Filter(cards, HasOtherId(taskId))
  }

  /** Deleting an id no card has is a no-op. */
  lemma DeleteAbsentId(cards: seq<TaskCard>, taskId: string)
    requires forall i :: 0 <= i < |cards| ==> cards[i].id != taskId
    ensures DeleteTask(cards, taskId) == cards
  {
    FilterKeepsAll(cards, HasOtherId(taskId));
  }

  function ClearDone(cards: seq<TaskCard>): (r: seq<TaskCard>)
    ensures forall x :: x in r <==> x in cards && x.columnId != Done
    ensures forall x :: multiset(r)[x] == if x.columnId != Done then multiset(cards)[x] else 0
    ensures IsSubsequence(r, cards)
  {
    FilterIsSubsequence(cards, NotInColumn(Done));
    FilterMultiplicity(cards, NotInColumn(Done));
    Filter(cards, NotInColumn(Done))
  }

  function GetColumnCards(cards: seq<TaskCard>, columnId: ColumnId): (r: seq<TaskCard>)
    ensures forall x :: x in r <==> x in cards && x.columnId == columnId
    ensures IsSubsequence(r, cards)
  {
    FilterIsSubsequence(cards, InColumn(columnId));
    Filter(cards, InColumn(columnId))
  }

  function SearchText(card: TaskCard): string {
    card.title + " " + (if card.description.Some? then card.description.value else "")
  }

  predicate PriorityMatches(card: TaskCard, filters: FilterInput) {
    filters.filterPriority.None? || filters.filterPriority.value == card.priority
  }

  /** An unset or empty tag filter lets every card through; otherwise the
      card's tag must equal it ignoring case. */
  predicate TagMatches(card: TaskCard, filters: FilterInput) {
    || filters.filterTag.None?
    || filters.filterTag.value == ""
    || (card.projectTag.Some? && Lower(card.projectTag.value) == Lower(filters.filterTag.value))
  }

  /** The trimmed, lower-cased query is empty or occurs in the lower-cased
      title and description. */
  ghost predicate QueryMatches(card: TaskCard, filters: FilterInput) {
    var query := Lower(Trim(filters.searchQuery));
    query == "" || Contains(Lower(SearchText(card)), query)
  }

  /** All three filters let the card through. */
  ghost predicate MatchesFilters(card: TaskCard, filters: FilterInput) {
    PriorityMatches(card, filters) && TagMatches(card, filters) && QueryMatches(card, filters)
  }

  /** The per-card test of `getVisibleCards`, as the source writes it:
      `query` already trimmed and lower-cased, `tag` already lower-cased. */
  function PassesFilters(card: TaskCard, query: string, tag: Option<string>, filterPriority: Option<Priority>): bool {
    if filterPriority.Some? && card.priority != filterPriority.value then false
    else if tag.Some? && tag.value != "" && (card.projectTag.None? || Lower(card.projectTag.value) != tag.value) then false
    else if query == "" then true
    else Includes(Lower(SearchText(card)), query)
  }

  function VisibleUnder(filters: FilterInput): TaskCard -> bool {
    var query := Lower(Trim(filters.searchQuery));
    var tag := if filters.filterTag.Some? then Some(Lower(filters.filterTag.value)) else None;
    (card: TaskCard) => PassesFilters(card, query, tag, filters.filterPriority)
  }

  lemma VisibleUnderMeans(card: TaskCard, filters: FilterInput)
    ensures VisibleUnder(filters)(card)
        <==> PriorityMatches(card, filters) && TagMatches(card, filters) && QueryMatches(card, filters)
  {
    var query := Lower(Trim(filters.searchQuery));
    var tag := if filters.filterTag.Some? then Some(Lower(filters.filterTag.value)) else None;
    assert VisibleUnder(filters)(card) == PassesFilters(card, query, tag, filters.filterPriority);
    var fp := filters.filterPriority;
    assert (fp.Some? && card.priority != fp.value) <==> !PriorityMatches(card, filters);
    assert tag.Some? && tag.value != "" <==> filters.filterTag.Some? && filters.filterTag.value != "";
    assert (tag.Some? && tag.value != "" && (card.projectTag.None? || Lower(card.projectTag.value) != tag.value))
      <==> !TagMatches(card, filters);
    assert (query == "" || Includes(Lower(SearchText(card)), query)) <==> QueryMatches(card, filters);
  }

  function GetVisibleCards(cards: seq<TaskCard>, filters: FilterInput): (r: seq<TaskCard>)
    ensures IsSubsequence(r, cards)
    ensures forall x :: x in r <==> x in cards && MatchesFilters(x, filters)
    ensures forall x :: multiset(r)[x] == if MatchesFilters(x, filters) then multiset(cards)[x] else 0
  {
    FilterIsSubsequence(cards, VisibleUnder(filters));
    VisibleFilterMeans(cards, filters, Filter(cards, VisibleUnder(filters)));
    Filter(cards, VisibleUnder(filters))
  }

  lemma VisibleFilterMeans(cards: seq<TaskCard>, filters: FilterInput, r: seq<TaskCard>)
    requires r == Filter(cards, VisibleUnder(filters))
    ensures forall x :: x in r <==> x in cards && MatchesFilters(x, filters)
    ensures forall x :: multiset(r)[x] == if MatchesFilters(x, filters) then multiset(cards)[x] else 0
  {
    FilterMultiplicity(cards, VisibleUnder(filters));
    forall x ensures VisibleUnder(filters)(x) <==> MatchesFilters(x, filters) {
      VisibleUnderMeans(x, filters);
    }
  }

  // ---------------------------------------------------------------------
  // Tag options

  /** `card.projectTag?.trim()`, with empty results dropped as
      `filter(Boolean)` drops them. */
  function CardTags(cards: seq<TaskCard>): (r: seq<string>)
    ensures forall t :: t in r <==> HasTag(cards, t)
  {
    if cards == [] then []
    else
      var rest := CardTags(cards[1..]);
      var head := TrimToAbsent(cards[0].projectTag);
      assert forall t :: HasTag(cards, t) <==> (head == Some(t) || HasTag(cards[1..], t)) by {
        forall t ensures HasTag(cards, t) <==> (head == Some(t) || HasTag(cards[1..], t)) {
          TagInHeadOrTail(cards, t);
        }
      }
      (if head.Some? then [head.value] else []) + rest
  }

  /** Some card's trimmed project tag is `t`. */
  predicate HasTag(cards: seq<TaskCard>, t: string) {
    exists i :: 0 <= i < |cards| && TrimToAbsent(cards[i].projectTag) == Some(t)
  }

  /** A tag comes from the first card or from one of the others. */
  lemma TagInHeadOrTail(cards: seq<TaskCard>, t: string)
    requires cards != []
    ensures HasTag(cards, t) <==> (TrimToAbsent(cards[0].projectTag) == Some(t) || HasTag(cards[1..], t))
  {
    if HasTag(cards, t) {
      var i :| 0 <= i < |cards| && TrimToAbsent(cards[i].projectTag) == Some(t);
      if i > 0 {
        assert cards[1..][i - 1] == cards[i];
      }
    }
    if HasTag(cards[1..], t) {
      var i :| 0 <= i < |cards| - 1 && TrimToAbsent(cards[1..][i].projectTag) == Some(t);
      assert cards[i + 1] == cards[1..][i];
    }
  }

  /** The tag dropdown: the distinct, non-empty, trimmed project tags of the
      board, sorted. */
  function GetTagOptions(state: BoardState): (r: seq<string>)
    ensures StrictlySorted(r)
    ensures NoDuplicates(r)
    ensures forall t :: t in r <==> HasTag(state.cards, t)
    ensures forall i :: 0 <= i < |r| ==> r[i] != "" && IsTrimmed(r[i])
  {
    var r := Sort(Dedup(CardTags(state.cards)));
    assert NoDuplicates(r) by {
      forall i, j | 0 <= i < j < |r| ensures r[i] != r[j] {
        LessIrreflexive(r[i]);
      }
    }
    assert forall i :: 0 <= i < |r| ==> r[i] != "" && IsTrimmed(r[i]) by {
      forall i | 0 <= i < |r| ensures r[i] != "" && IsTrimmed(r[i]) {
        assert r[i] in r;
      }
    }
    r
  }

  // ---------------------------------------------------------------------
  // Backlog-promotion gate

  const PROMOTION_FIELDS: seq<string> := ["title", "project tag", "priority"]

  /** The missing triage fields, in the order title, project tag,
      priority. */
  function PromotionMissingFields(card: PromotionCandidate): (missing: seq<string>)
    ensures "title" in missing <==> IsBlank(card.title)
    ensures "project tag" in missing <==> card.projectTag.None? || IsBlank(card.projectTag.value)
    ensures "priority" in missing <==> card.priority !in PRIORITY_NAMES
    ensures missing == [] <==>
      !IsBlank(card.title) && card.projectTag.Some? && !IsBlank(card.projectTag.value) && card.priority in PRIORITY_NAMES
  {
    var noTitle := Trim(card.title) == "";
    var noTag := card.projectTag.None? || Trim(card.projectTag.value) == "";
    var noPriority := card.priority !in PRIORITY_NAMES;
    FieldSelection(noTitle, noTag, noPriority);
    Selected(noTitle, noTag, noPriority)
  }

  /** The missing fields come in the order title, project tag, priority. */
  lemma PromotionFieldsInOrder(card: PromotionCandidate)
    ensures IsSubsequence(PromotionMissingFields(card), PROMOTION_FIELDS)
  {
    var noTitle := Trim(card.title) == "";
    var noTag := card.projectTag.None? || Trim(card.projectTag.value) == "";
    FieldSelection(noTitle, noTag, card.priority !in PRIORITY_NAMES);
  }

  function Selected(title: bool, tag: bool, priority: bool): seq<string> {
    (if title then ["title"] else [])
    + (if tag then ["project tag"] else [])
    + (if priority then ["priority"] else [])
  }

  lemma FieldSelection(title: bool, tag: bool, priority: bool)
    ensures IsSubsequence(Selected(title, tag, priority), PROMOTION_FIELDS)
    ensures "title" in Selected(title, tag, priority) <==> title
    ensures "project tag" in Selected(title, tag, priority) <==> tag
    ensures "priority" in Selected(title, tag, priority) <==> priority
  {
    var m := Selected(title, tag, priority);
    var f := PROMOTION_FIELDS;
    assert f[1..] == ["project tag", "priority"] && f[2..] == ["priority"] && f[3..] == [];
    assert "title" != "project tag" && "title" != "priority" && "project tag" != "priority";
    if title {
      assert m[0] == f[0] && m[1..] == Selected(false, tag, priority);
    }
    if tag {
      assert Selected(false, tag, priority)[0] == f[1];
    }
  }

  /** `getBacklogPromotionMissingFields`, pushing onto a local list. */
  method GetBacklogPromotionMissingFields(card: PromotionCandidate) returns (missing: seq<string>)
    ensures missing == PromotionMissingFields(card)
  {
    ghost var noTitle := Trim(card.title) == "";
    ghost var noTag := card.projectTag.None? || Trim(card.projectTag.value) == "";
    ghost var noPriority := card.priority !in PRIORITY_NAMES;
    PromotionIsSelected(card);
    SelectedSteps(noTitle, noTag, noPriority);
    missing := [];
    if Trim(card.title) == "" {
      missing := missing + ["title"];
    }
    assert missing == Selected(noTitle, false, false);
    if card.projectTag.None? || Trim(card.projectTag.value) == "" {
      missing := missing + ["project tag"];
    }
    assert missing == Selected(noTitle, noTag, false);
    if card.priority !in PRIORITY_NAMES {
      missing := missing + ["priority"];
    }
  }

  lemma PromotionIsSelected(card: PromotionCandidate)
    ensures PromotionMissingFields(card)
      == Selected(Trim(card.title) == "", card.projectTag.None? || Trim(card.projectTag.value) == "",
                  card.priority !in PRIORITY_NAMES)
  {
  }

  /** The three pushes, one at a time. */
  lemma SelectedSteps(title: bool, tag: bool, priority: bool)
    ensures Selected(title, false, false) == [] + if title then ["title"] else []
    ensures Selected(title, tag, false) == Selected(title, false, false) + if tag then ["project tag"] else []
    ensures Selected(title, tag, priority) == Selected(title, tag, false) + if priority then ["priority"] else []
  {
  }

  /** A card's own priority always passes the gate. */
  lemma TypedPriorityNeverMissing(card: TaskCard)
    ensures "priority" !in PromotionMissingFields(CandidateOf(card))
  {
    match card.priority
    case Low =>
    case Medium =>
    case High =>
  }

  // ---------------------------------------------------------------------
  // Move and reorder

  /** `cards.findIndex((card) => card.id === id)`, as an optional index. */
  function FirstIndexOf(cards: seq<TaskCard>, id: string): (r: Option<nat>)
    ensures r.Some? ==> r.value < |cards| && cards[r.value].id == id
    ensures r.Some? ==> forall j :: 0 <= j < r.value ==> cards[j].id != id
    ensures r.None? <==> forall j :: 0 <= j < |cards| ==> cards[j].id != id
  {
    if cards == [] then None
    else if cards[0].id == id then Some(0)
    else match FirstIndexOf(cards[1..], id)
      case None => None
      case Some(i) => Some(i + 1)
  }

  /** `findIndex` as the loop it is: -1 when no card has the id. */
  method FindIndexById(cards: seq<TaskCard>, id: string) returns (idx: int)
    ensures -1 <= idx < |cards|
    ensures idx == -1 <==> forall j :: 0 <= j < |cards| ==> cards[j].id != id
    ensures idx != -1 ==> cards[idx].id == id && forall j :: 0 <= j < idx ==> cards[j].id != id
    ensures FirstIndexOf(cards, id) == if idx == -1 then None else Some(idx)
  {
    idx := 0;
    while idx < |cards|
      invariant 0 <= idx <= |cards|
      invariant forall j :: 0 <= j < idx ==> cards[j].id != id
    {
      if cards[idx].id == id {
        return;
      }
      idx := idx + 1;
    }
    idx := -1;
  }

  /** The `Record<ColumnId, TaskCard[]>` that `moveTask` builds. */
  datatype Lanes = Lanes(backlog: seq<TaskCard>, todo: seq<TaskCard>, inProgress: seq<TaskCard>, done: seq<TaskCard>) {

    function Get(c: ColumnId): seq<TaskCard> {
      match c
      case Backlog => backlog
      case Todo => todo
      case InProgress => inProgress
      case Done => done
    }

    function Set(c: ColumnId, s: seq<TaskCard>): (r: Lanes)
      ensures r.Get(c) == s
      ensures forall d :: d != c ==> r.Get(d) == Get(d)
    {
      match c
      case Backlog => this.(backlog := s)
      case Todo => this.(todo := s)
      case InProgress => this.(inProgress := s)
      case Done => this.(done := s)
    }

    /** `COLUMN_ORDER.flatMap((column) => lists[column])`. */
    function Flat(): seq<TaskCard> {
      backlog + todo + inProgress + done
    }

    /** Every card sits in the list of its own column. */
    predicate Homogeneous() {
      forall c, x :: x in Get(c) ==> x.columnId == c
    }
  }

  lemma LanesEqual(a: Lanes, b: Lanes)
    requires forall c :: a.Get(c) == b.Get(c)
    ensures a == b
  {
    assert a.Get(Backlog) == b.Get(Backlog) && a.Get(Todo) == b.Get(Todo);
    assert a.Get(InProgress) == b.Get(InProgress) && a.Get(Done) == b.Get(Done);
  }

  /** The lists the first loop of `moveTask` builds. */
  function Partition(cards: seq<TaskCard>): (r: Lanes)
    ensures forall c :: r.Get(c) == GetColumnCards(cards, c)
    ensures r.Homogeneous()
  {
    Lanes(GetColumnCards(cards, Backlog), GetColumnCards(cards, Todo),
          GetColumnCards(cards, InProgress), GetColumnCards(cards, Done))
  }

  lemma PartitionEmpty()
    ensures Partition([]) == Lanes([], [], [], [])
  {
    forall c ensures Partition([]).Get(c) == [] {
      assert GetColumnCards([], c) == Filter([], InColumn(c));
    }
    LanesEqual(Partition([]), Lanes([], [], [], []));
  }

  /** Pushing a card onto its column's list partitions the longer prefix. */
  lemma PartitionPush(s: seq<TaskCard>, x: TaskCard)
    ensures Partition(s + [x]) == Partition(s).Set(x.columnId, Partition(s).Get(x.columnId) + [x])
  {
    var p := Partition(s);
    var q := p.Set(x.columnId, p.Get(x.columnId) + [x]);
    var r := Partition(s + [x]);
    ColumnOfPush(s, x, Backlog);
    ColumnOfPush(s, x, Todo);
    ColumnOfPush(s, x, InProgress);
    ColumnOfPush(s, x, Done);
    assert r.Get(Backlog) == q.Get(Backlog) && r.Get(Todo) == q.Get(Todo);
    assert r.Get(InProgress) == q.Get(InProgress) && r.Get(Done) == q.Get(Done);
    LanesEqual(r, q);
  }

  lemma ColumnOfPush(s: seq<TaskCard>, x: TaskCard, c: ColumnId)
    ensures GetColumnCards(s + [x], c) == GetColumnCards(s, c) + if x.columnId == c then [x] else []
  {
    FilterAppend(s, [x], InColumn(c));
    assert Filter([x], InColumn(c)) == if x.columnId == c then [x] else [];
  }

  lemma ColumnOfUniform(s: seq<TaskCard>, d: ColumnId, c: ColumnId)
    requires forall x :: x in s ==> x.columnId == d
    ensures Filter(s, InColumn(c)) == if c == d then s else []
  {
    if c == d {
      FilterKeepsAll(s, InColumn(c));
    } else {
      FilterKeepsNone(s, InColumn(c));
    }
  }

  /** Four lists of uniform column, concatenated: filtering by a column
      gives that column's list. */
  lemma ColumnOfConcat(b: seq<TaskCard>, t: seq<TaskCard>, i: seq<TaskCard>, d: seq<TaskCard>, c: ColumnId)
    requires forall x :: x in b ==> x.columnId == Backlog
    requires forall x :: x in t ==> x.columnId == Todo
    requires forall x :: x in i ==> x.columnId == InProgress
    requires forall x :: x in d ==> x.columnId == Done
    ensures Filter(b + t + i + d, InColumn(c)) == Lanes(b, t, i, d).Get(c)
  {
    var p := InColumn(c);
    FilterAppend4(b, t, i, d, p);
    ColumnOfUniform(b, Backlog, c);
    ColumnOfUniform(t, Todo, c);
    ColumnOfUniform(i, InProgress, c);
    ColumnOfUniform(d, Done, c);
    OneLaneOfFour(Lanes(b, t, i, d), c, Filter(b, p), Filter(t, p), Filter(i, p), Filter(d, p));
  }

  /** When each part is its lane if that lane is `c` and empty otherwise,
      the parts concatenate to lane `c`. */
  lemma OneLaneOfFour(lanes: Lanes, c: ColumnId, fb: seq<TaskCard>, ft: seq<TaskCard>, fi: seq<TaskCard>, fd: seq<TaskCard>)
    requires fb == if c == Backlog then lanes.backlog else []
    requires ft == if c == Todo then lanes.todo else []
    requires fi == if c == InProgress then lanes.inProgress else []
    requires fd == if c == Done then lanes.done else []
    ensures fb + ft + fi + fd == lanes.Get(c)
  {
    match c
    case Backlog => assert fb + ft + fi + fd == fb + [] + [] + [];
    case Todo => assert fb + ft + fi + fd == [] + ft + [] + [];
    case InProgress => assert fb + ft + fi + fd == [] + [] + fi + [];
    case Done => assert fb + ft + fi + fd == [] + [] + [] + fd;
  }

  /** The cards of column `c` in the flattened lists are that column's list. */
  lemma ColumnOfFlat(lanes: Lanes, c: ColumnId)
    requires lanes.Homogeneous()
    ensures GetColumnCards(lanes.Flat(), c) == lanes.Get(c)
  {
    assert lanes.backlog == lanes.Get(Backlog) && lanes.todo == lanes.Get(Todo);
    assert lanes.inProgress == lanes.Get(InProgress) && lanes.done == lanes.Get(Done);
    ColumnOfConcat(lanes.backlog, lanes.todo, lanes.inProgress, lanes.done, c);
  }

  /** Partitioning the flattened lists gives the lists back. */
  lemma PartitionOfFlat(lanes: Lanes)
    requires lanes.Homogeneous()
    ensures Partition(lanes.Flat()) == lanes
  {
    forall c ensures Partition(lanes.Flat()).Get(c) == lanes.Get(c) {
      ColumnOfFlat(lanes, c);
    }
    LanesEqual(Partition(lanes.Flat()), lanes);
  }

  lemma SetHomogeneous(lanes: Lanes, c: ColumnId, s: seq<TaskCard>)
    requires lanes.Homogeneous()
    requires forall x :: x in s ==> x.columnId == c
    ensures lanes.Set(c, s).Homogeneous()
  {
  }

  lemma FlatMultiset(lanes: Lanes)
    ensures multiset(lanes.Flat())
        == multiset(lanes.backlog) + multiset(lanes.todo) + multiset(lanes.inProgress) + multiset(lanes.done)
  {
  }

  /** Replacing one column's list replaces its cards among all the cards. */
  lemma FlatSetMultiset(lanes: Lanes, c: ColumnId, s: seq<TaskCard>)
    ensures multiset(lanes.Set(c, s).Flat()) + multiset(lanes.Get(c)) == multiset(lanes.Flat()) + multiset(s)
  {
    var l := lanes.Set(c, s);
    FlatMultiset(lanes);
    FlatMultiset(l);
    match c
    case Backlog =>
      assert l == lanes.(backlog := s);
    case Todo =>
      assert l == lanes.(todo := s);
    case InProgress =>
      assert l == lanes.(inProgress := s);
    case Done =>
      assert l == lanes.(done := s);
  }

  lemma FlatPushMultiset(lanes: Lanes, c: ColumnId, x: TaskCard)
    ensures multiset(lanes.Set(c, lanes.Get(c) + [x]).Flat()) == multiset(lanes.Flat()) + multiset{x}
  {
    FlatSetMultiset(lanes, c, lanes.Get(c) + [x]);
    assert multiset(lanes.Get(c) + [x]) == multiset(lanes.Get(c)) + multiset{x};
  }

  lemma FlatRemoveMultiset(lanes: Lanes, c: ColumnId, i: nat)
    requires i < |lanes.Get(c)|
    ensures multiset(lanes.Set(c, RemoveAt(lanes.Get(c), i)).Flat()) + multiset{lanes.Get(c)[i]} == multiset(lanes.Flat())
  {
    var s := lanes.Get(c);
    RemoveAtMultisetPlus(s, i);
    FlatSetMultiset(lanes, c, RemoveAt(s, i));
    MultisetCancel(multiset(lanes.Set(c, RemoveAt(s, i)).Flat()), multiset(lanes.Flat()), multiset(RemoveAt(s, i)), s[i]);
  }

  lemma FlatInsertMultiset(lanes: Lanes, c: ColumnId, k: nat, x: TaskCard)
    requires k <= |lanes.Get(c)|
    ensures multiset(lanes.Set(c, InsertAt(lanes.Get(c), k, x)).Flat()) == multiset(lanes.Flat()) + multiset{x}
  {
    InsertAtMultiset(lanes.Get(c), k, x);
    FlatSetMultiset(lanes, c, InsertAt(lanes.Get(c), k, x));
  }

  /** The cards of a board are the cards of its columns. */
  lemma {:induction false} PartitionMultiset(cards: seq<TaskCard>)
    ensures multiset(Partition(cards).Flat()) == multiset(cards)
  {
    if cards != [] {
      PartitionMultiset(cards[..|cards| - 1]);
      PartitionLastMultiset(cards);
    }
  }

  /** The last card adds itself to the board and to its columns alike. */
  lemma PartitionLastMultiset(cards: seq<TaskCard>)
    requires cards != []
    ensures var s, x := cards[..|cards| - 1], cards[|cards| - 1];
      && multiset(cards) == multiset(s) + multiset{x}
      && multiset(Partition(cards).Flat()) == multiset(Partition(s).Flat()) + multiset{x}
  {
    var s, x := cards[..|cards| - 1], cards[|cards| - 1];
    assert cards == s + [x];
    PartitionPush(s, x);
    FlatPushMultiset(Partition(s), x.columnId, x);
  }

  /** The cards appear in column order: backlog, todo, in_progress, done. */
  predicate GroupedByColumn(cards: seq<TaskCard>) {
    forall i, j :: 0 <= i < j < |cards| ==> Rank(cards[i].columnId) <= Rank(cards[j].columnId)
  }

  lemma GroupedAppend(a: seq<TaskCard>, b: seq<TaskCard>, k: nat)
    requires GroupedByColumn(a) && GroupedByColumn(b)
    requires forall i :: 0 <= i < |a| ==> Rank(a[i].columnId) <= k
    requires forall j :: 0 <= j < |b| ==> k <= Rank(b[j].columnId)
    ensures GroupedByColumn(a + b)
  {
    forall i, j | 0 <= i < j < |a + b|
      ensures Rank((a + b)[i].columnId) <= Rank((a + b)[j].columnId)
    {
      if j < |a| {
        assert (a + b)[i] == a[i] && (a + b)[j] == a[j];
      } else if i >= |a| {
        assert (a + b)[i] == b[i - |a|] && (a + b)[j] == b[j - |a|];
      } else {
        assert (a + b)[i] == a[i] && (a + b)[j] == b[j - |a|];
      }
    }
  }

  lemma FlatIsGrouped(lanes: Lanes)
    requires lanes.Homogeneous()
    ensures GroupedByColumn(lanes.Flat())
  {
    var b, t, i, d := lanes.backlog, lanes.todo, lanes.inProgress, lanes.done;
    assert b == lanes.Get(Backlog) && t == lanes.Get(Todo) && i == lanes.Get(InProgress) && d == lanes.Get(Done);
    assert forall n :: 0 <= n < |b| ==> b[n] in b;
    assert forall n :: 0 <= n < |t| ==> t[n] in t;
    assert forall n :: 0 <= n < |i| ==> i[n] in i;
    assert forall n :: 0 <= n < |d| ==> d[n] in d;
    GroupedAppend(b, t, 1);
    GroupedAppend(b + t, i, 2);
    GroupedAppend(b + t + i, d, 3);
  }

  /** Where `moveTask` found the card: its column and its index there. */
  datatype Location = Location(column: ColumnId, index: nat)

  /** The second loop of `moveTask`: the first column, from position `k` of
      COLUMN_ORDER on, whose list holds a card with the id. */
  function SearchFrom(lanes: Lanes, taskId: string, k: nat): (r: Option<Location>)
    requires k <= |COLUMN_ORDER|
    ensures r.Some? ==> k <= Rank(r.value.column) && FirstIndexOf(lanes.Get(r.value.column), taskId) == Some(r.value.index)
    ensures r.Some? ==> forall c :: k <= Rank(c) < Rank(r.value.column) ==> FirstIndexOf(lanes.Get(c), taskId).None?
    ensures r.None? ==> forall c :: k <= Rank(c) ==> FirstIndexOf(lanes.Get(c), taskId).None?
    decreases |COLUMN_ORDER| - k
  {
    if k == |COLUMN_ORDER| then None
    else match FirstIndexOf(lanes.Get(COLUMN_ORDER[k]), taskId)
      case Some(i) => Some(Location(COLUMN_ORDER[k], i))
      case None => SearchFrom(lanes, taskId, k + 1)
  }

  /** The card `moveTask` picks: the first match in the first column (in
      column order) that has one; none exactly when no card has the id. */
  function Locate(cards: seq<TaskCard>, taskId: string): (r: Option<Location>)
    ensures r.None? <==> forall i :: 0 <= i < |cards| ==> cards[i].id != taskId
    ensures r.Some? ==>
      var col := GetColumnCards(cards, r.value.column);
      && r.value.index < |col| && col[r.value.index].id == taskId
      && (forall j :: 0 <= j < r.value.index ==> col[j].id != taskId)
      && forall c, x :: Rank(c) < Rank(r.value.column) && x in GetColumnCards(cards, c) ==> x.id != taskId
  {
    SearchFindsNothing(cards, taskId);
    SearchSkipsEarlierColumns(cards, taskId);
    SearchFrom(Partition(cards), taskId, 0)
  }

  /** The search finds nothing exactly when no card has the id. */
  lemma SearchFindsNothing(cards: seq<TaskCard>, taskId: string)
    ensures SearchFrom(Partition(cards), taskId, 0).None? <==> forall i :: 0 <= i < |cards| ==> cards[i].id != taskId
  {
    var lanes := Partition(cards);
    if SearchFrom(lanes, taskId, 0).None? {
      forall i | 0 <= i < |cards| ensures cards[i].id != taskId {
        var col := lanes.Get(cards[i].columnId);
        assert cards[i] in col;
        assert FirstIndexOf(col, taskId).None?;
      }
    }
  }

  /** The columns before the one the search stops at hold no card with
      the id. */
  lemma SearchSkipsEarlierColumns(cards: seq<TaskCard>, taskId: string)
    ensures var r := SearchFrom(Partition(cards), taskId, 0);
      r.Some? ==> forall c, x :: Rank(c) < Rank(r.value.column) && x in GetColumnCards(cards, c) ==> x.id != taskId
  {
    var lanes := Partition(cards);
    var r := SearchFrom(lanes, taskId, 0);
    if r.Some? {
      forall c, x | Rank(c) < Rank(r.value.column) && x in GetColumnCards(cards, c) ensures x.id != taskId {
        assert FirstIndexOf(lanes.Get(c), taskId).None?;
      }
    }
  }

  /** `Math.max(0, Math.min(toIndex, length))`. */
  function Clamp(toIndex: int, length: nat): (r: nat)
    ensures r <= length
    ensures 0 <= toIndex <= length ==> r == toIndex
    ensures toIndex < 0 ==> r == 0
    ensures toIndex > length ==> r == length
  {
    if toIndex < 0 then 0 else if toIndex > length then length else toIndex
  }

  /** The lists with the found card spliced out of its column. */
  function Removed(lanes: Lanes, loc: Location): Lanes
    requires loc.index < |lanes.Get(loc.column)|
  {
    lanes.Set(loc.column, RemoveAt(lanes.Get(loc.column), loc.index))
  }

  /** The lists with the moved card, stamped with its new column and time,
      spliced into the target column at the clamped index. */
  function Reinserted(rest: Lanes, moving: TaskCard, toColumnId: ColumnId, toIndex: int, now: string): Lanes {
    var target := rest.Get(toColumnId);
    rest.Set(toColumnId, InsertAt(target, Clamp(toIndex, |target|), moving.(columnId := toColumnId, updatedAt := now)))
  }

  /** What `moveTask(cards, taskId, toColumnId, toIndex, now)` returns. */
  function MovedCards(cards: seq<TaskCard>, taskId: string, toColumnId: ColumnId, toIndex: int, now: string): (r: seq<TaskCard>)
    ensures |r| == |cards|
  {
    var lanes := Partition(cards);
    match SearchFrom(lanes, taskId, 0)
    case None => cards
    case Some(loc) =>
      MovedLength(cards, loc, lanes.Get(loc.column)[loc.index], toColumnId, toIndex, now);
      Reinserted(Removed(lanes, loc), lanes.Get(loc.column)[loc.index], toColumnId, toIndex, now).Flat()
  }

  /** Replacing one list changes the flattened length by the difference. */
  lemma FlatSetLength(lanes: Lanes, c: ColumnId, s: seq<TaskCard>)
    ensures |lanes.Set(c, s).Flat()| + |lanes.Get(c)| == |lanes.Flat()| + |s|
  {
  }

  /** Splicing a card out of one list and into another keeps the length. */
  lemma MovedLength(cards: seq<TaskCard>, loc: Location, moving: TaskCard, toColumnId: ColumnId, toIndex: int, now: string)
    requires loc.index < |Partition(cards).Get(loc.column)|
    ensures |Reinserted(Removed(Partition(cards), loc), moving, toColumnId, toIndex, now).Flat()| == |cards|
  {
    var lanes := Partition(cards);
    PartitionMultiset(cards);
    assert |lanes.Flat()| == |cards| by {
      assert |multiset(lanes.Flat())| == |multiset(cards)|;
    }
    FlatSetLength(lanes, loc.column, RemoveAt(lanes.Get(loc.column), loc.index));
    var rest := Removed(lanes, loc);
    var target := rest.Get(toColumnId);
    FlatSetLength(rest, toColumnId, InsertAt(target, Clamp(toIndex, |target|), moving.(columnId := toColumnId, updatedAt := now)));
  }

  /** The column search of `moveTask`, a loop over COLUMN_ORDER that stops
      at the first column holding the id. */
  method LocateTask(lists: Lanes, taskId: string) returns (found: Option<Location>)
    ensures found == SearchFrom(lists, taskId, 0)
  {
    for k := 0 to |COLUMN_ORDER|
      invariant SearchFrom(lists, taskId, 0) == SearchFrom(lists, taskId, k)
    {
      var column := COLUMN_ORDER[k];
      var idx := FindIndexById(lists.Get(column), taskId);
      if idx != -1 {
        return Some(Location(column, idx));
      }
    }
    found := None;
  }

  /** The first loop of `moveTask`: push each card onto its column's list. */
  method BucketByColumn(cards: seq<TaskCard>) returns (lists: Lanes)
    ensures lists == Partition(cards)
  {
    lists := Lanes([], [], [], []);
    assert cards[..0] == [];
    PartitionEmpty();
    for i := 0 to |cards|
      invariant lists == Partition(cards[..i])
    {
      var card := cards[i];
      PrefixSnoc(cards, i);
      PartitionPush(cards[..i], card);
      lists := lists.Set(card.columnId, lists.Get(card.columnId) + [card]);
    }
    assert cards[..|cards|] == cards;
  }

  /** `moveTask`, step by step as the source does it: bucket the cards by
      column, find and splice out the card, splice it into the target list
      at the clamped index, flatten in column order. */
  method MoveTask(cards: seq<TaskCard>, taskId: string, toColumnId: ColumnId, toIndex: int, now: string)
    returns (r: seq<TaskCard>)
    ensures r == MovedCards(cards, taskId, toColumnId, toIndex, now)
  {
    var lists := BucketByColumn(cards);
    var found := LocateTask(lists, taskId);
    if found.None? {
      return cards;
    }
    var loc := found.value;
    ghost var lanes := lists;
    var moving := lists.Get(loc.column)[loc.index];
    lists := lists.Set(loc.column, RemoveAt(lists.Get(loc.column), loc.index));
    assert lists == Removed(lanes, loc);
    var updatedMoving := moving.(columnId := toColumnId, updatedAt := now);
    var target := lists.Get(toColumnId);
    var boundedIndex := if toIndex < 0 then 0 else if toIndex > |target| then |target| else toIndex;
    assert boundedIndex == Clamp(toIndex, |target|);
    lists := lists.Set(toColumnId, InsertAt(target, boundedIndex, updatedMoving));
    assert lists == Reinserted(Removed(lanes, loc), moving, toColumnId, toIndex, now);
    r := lists.Flat();
  }

  /** With an id no card has, the input list comes back as it was. */
  lemma MoveUnknownId(cards: seq<TaskCard>, taskId: string, toColumnId: ColumnId, toIndex: int, now: string)
    requires forall i :: 0 <= i < |cards| ==> cards[i].id != taskId
    ensures MovedCards(cards, taskId, toColumnId, toIndex, now) == cards
  {
    assert Locate(cards, taskId).None?;
  }

  lemma RemovedHomogeneous(lanes: Lanes, loc: Location)
    requires lanes.Homogeneous()
    requires loc.index < |lanes.Get(loc.column)|
    ensures Removed(lanes, loc).Homogeneous()
  {
    RemoveAtElements(lanes.Get(loc.column), loc.index);
    SetHomogeneous(lanes, loc.column, RemoveAt(lanes.Get(loc.column), loc.index));
  }

  lemma ReinsertedHomogeneous(rest: Lanes, moving: TaskCard, toColumnId: ColumnId, toIndex: int, now: string)
    requires rest.Homogeneous()
    ensures Reinserted(rest, moving, toColumnId, toIndex, now).Homogeneous()
  {
    var target := rest.Get(toColumnId);
    var k := Clamp(toIndex, |target|);
    InsertAtElements(target, k, moving.(columnId := toColumnId, updatedAt := now));
    SetHomogeneous(rest, toColumnId, InsertAt(target, k, moving.(columnId := toColumnId, updatedAt := now)));
  }

  /** The lists after the move hold every card in its own column. */
  lemma MoveLanesHomogeneous(cards: seq<TaskCard>, taskId: string, toColumnId: ColumnId, toIndex: int, now: string, loc: Location)
    requires Locate(cards, taskId) == Some(loc)
    ensures var lanes := Partition(cards);
      Reinserted(Removed(lanes, loc), lanes.Get(loc.column)[loc.index], toColumnId, toIndex, now).Homogeneous()
  {
    var lanes := Partition(cards);
    RemovedHomogeneous(lanes, loc);
    ReinsertedHomogeneous(Removed(lanes, loc), lanes.Get(loc.column)[loc.index], toColumnId, toIndex, now);
  }

  lemma SwapOne<T>(r: multiset<T>, rest: multiset<T>, all: multiset<T>, out: T, into: T)
    requires rest + multiset{out} == all
    requires r == rest + multiset{into}
    ensures r + multiset{out} == all + multiset{into}
    ensures |r| == |all|
  {
  }

  /** `moveTask` keeps every card and its length; only the moved card is
      replaced, by a copy in the target column stamped with `now`. */
  lemma MoveKeepsCards(cards: seq<TaskCard>, taskId: string, toColumnId: ColumnId, toIndex: int, now: string, loc: Location)
    requires Locate(cards, taskId) == Some(loc)
    ensures var moving := GetColumnCards(cards, loc.column)[loc.index];
      var r := MovedCards(cards, taskId, toColumnId, toIndex, now);
      && moving in cards && moving.id == taskId
      && |r| == |cards|
      && multiset(r) + multiset{moving} == multiset(cards) + multiset{moving.(columnId := toColumnId, updatedAt := now)}
  {
    var lanes := Partition(cards);
    var moving := lanes.Get(loc.column)[loc.index];
    var rest := Removed(lanes, loc);
    var target := rest.Get(toColumnId);
    var updated := moving.(columnId := toColumnId, updatedAt := now);
    var r := Reinserted(rest, moving, toColumnId, toIndex, now).Flat();
    assert SearchFrom(lanes, taskId, 0) == Some(loc);
    assert MovedCards(cards, taskId, toColumnId, toIndex, now) == r;
    assert moving in lanes.Get(loc.column);
    PartitionMultiset(cards);
    FlatRemoveMultiset(lanes, loc.column, loc.index);
    FlatInsertMultiset(rest, toColumnId, Clamp(toIndex, |target|), updated);
    SwapOne(multiset(r), multiset(rest.Flat()), multiset(cards), moving, updated);
    assert |multiset(r)| == |multiset(cards)|;
  }

  /** The result of a move is grouped in column order. */
  lemma MoveGroupsByColumn(cards: seq<TaskCard>, taskId: string, toColumnId: ColumnId, toIndex: int, now: string)
    requires exists i :: 0 <= i < |cards| && cards[i].id == taskId
    ensures GroupedByColumn(MovedCards(cards, taskId, toColumnId, toIndex, now))
  {
    var loc := Locate(cards, taskId).value;
    MoveLanesHomogeneous(cards, taskId, toColumnId, toIndex, now, loc);
    var lanes := Partition(cards);
    FlatIsGrouped(Reinserted(Removed(lanes, loc), lanes.Get(loc.column)[loc.index], toColumnId, toIndex, now));
  }

  /** Column by column: the moved card sits at the clamped index of the
      target column; every other card keeps its column and its order. */
  lemma MoveColumns(cards: seq<TaskCard>, taskId: string, toColumnId: ColumnId, toIndex: int, now: string, loc: Location)
    requires Locate(cards, taskId) == Some(loc)
    ensures var src := GetColumnCards(cards, loc.column);
      var moving := src[loc.index];
      var target := if toColumnId == loc.column then RemoveAt(src, loc.index) else GetColumnCards(cards, toColumnId);
      var r := MovedCards(cards, taskId, toColumnId, toIndex, now);
      && GetColumnCards(r, toColumnId) == InsertAt(target, Clamp(toIndex, |target|), moving.(columnId := toColumnId, updatedAt := now))
      && (loc.column != toColumnId ==> GetColumnCards(r, loc.column) == RemoveAt(src, loc.index))
      && forall c :: c != toColumnId && c != loc.column ==> GetColumnCards(r, c) == GetColumnCards(cards, c)
  {
    MoveLanesHomogeneous(cards, taskId, toColumnId, toIndex, now, loc);
    var lanes := Partition(cards);
    PartitionOfFlat(Reinserted(Removed(lanes, loc), lanes.Get(loc.column)[loc.index], toColumnId, toIndex, now));
  }

  /** A column of a board with unique ids has unique ids. */
  lemma ColumnUniqueIds(cards: seq<TaskCard>, c: ColumnId)
    requires UniqueIds(cards)
    ensures UniqueIds(GetColumnCards(cards, c))
  {
    var id := (x: TaskCard) => x.id;
    assert DistinctBy(cards, id);
    FilterDistinctBy(cards, InColumn(c), id);
    assert DistinctBy(GetColumnCards(cards, c), id);
  }

  /** Two positions of a board with unique ids that hold cards with the same
      id are the same position. */
  lemma SameIdSameCard(cards: seq<TaskCard>, x: TaskCard, y: TaskCard)
    requires UniqueIds(cards)
    requires x in cards && y in cards && x.id == y.id
    ensures x == y
  {
    var i :| 0 <= i < |cards| && cards[i] == x;
    var j :| 0 <= j < |cards| && cards[j] == y;
    assert i == j;
  }

  /** With unique ids, once the found card is spliced out no list holds a
      card with its id. */
  lemma RemovedHasNoId(cards: seq<TaskCard>, taskId: string, loc: Location)
    requires UniqueIds(cards)
    requires Locate(cards, taskId) == Some(loc)
    ensures forall c, x :: x in Removed(Partition(cards), loc).Get(c) ==> x.id != taskId
  {
    var lanes := Partition(cards);
    var col := lanes.Get(loc.column);
    var rest := Removed(lanes, loc);
    var moving := col[loc.index];
    assert moving in cards;
    ColumnUniqueIds(cards, loc.column);
    RemoveAtUniqueId(col, loc.index, taskId);
    forall c, x | x in rest.Get(c) ensures x.id != taskId {
      if c != loc.column {
        assert x in cards;
        if x.id == taskId {
          SameIdSameCard(cards, x, moving);
        }
      }
    }
  }

  /** With unique ids, removing the card with an id leaves none with it. */
  lemma RemoveAtUniqueId(col: seq<TaskCard>, k: nat, taskId: string)
    requires UniqueIds(col) && k < |col| && col[k].id == taskId
    ensures forall x :: x in RemoveAt(col, k) ==> x.id != taskId
  {
    var r := RemoveAt(col, k);
    forall x | x in r ensures x.id != taskId {
      var j :| 0 <= j < |r| && r[j] == x;
      if j < k {
        assert x == col[j];
      } else {
        assert x == col[j + 1];
      }
    }
  }

  /** Searching lists where only the inserted card has the id finds it where
      it was inserted. */
  lemma SearchFindsInserted(rest: Lanes, moving: TaskCard, taskId: string, toColumnId: ColumnId, toIndex: int, now: string)
    requires moving.id == taskId
    requires forall c, x :: x in rest.Get(c) ==> x.id != taskId
    ensures var target := rest.Get(toColumnId);
      SearchFrom(Reinserted(rest, moving, toColumnId, toIndex, now), taskId, 0)
        == Some(Location(toColumnId, Clamp(toIndex, |target|)))
  {
    var fin := Reinserted(rest, moving, toColumnId, toIndex, now);
    var target := rest.Get(toColumnId);
    var k := Clamp(toIndex, |target|);
    var ins := InsertAt(target, k, moving.(columnId := toColumnId, updatedAt := now));
    assert fin.Get(toColumnId) == ins;
    assert forall j :: 0 <= j < |target| ==> target[j] in rest.Get(toColumnId);
    var found := FirstIndexOf(ins, taskId);
    assert found == Some(k) by {
      assert ins[k].id == taskId;
    }
    var r := SearchFrom(fin, taskId, 0);
    forall c | c != toColumnId ensures FirstIndexOf(fin.Get(c), taskId).None? {
      assert fin.Get(c) == rest.Get(c);
      assert forall j :: 0 <= j < |rest.Get(c)| ==> rest.Get(c)[j] in rest.Get(c);
    }
    assert r.Some?;
  }

  /** With unique ids, repeating a move with the same arguments and the same
      `now` yields the same list. */
  lemma MoveIdempotent(cards: seq<TaskCard>, taskId: string, toColumnId: ColumnId, toIndex: int, now: string)
    requires UniqueIds(cards)
    ensures var once := MovedCards(cards, taskId, toColumnId, toIndex, now);
      MovedCards(once, taskId, toColumnId, toIndex, now) == once
  {
    var lanes := Partition(cards);
    match Locate(cards, taskId)
    case None =>
      MoveUnknownId(cards, taskId, toColumnId, toIndex, now);
      assert forall i :: 0 <= i < |cards| ==> cards[i].id != taskId;
      MoveUnknownId(cards, taskId, toColumnId, toIndex, now);
    case Some(loc) =>
      var rest := Removed(lanes, loc);
      var moving := lanes.Get(loc.column)[loc.index];
      var fin := Reinserted(rest, moving, toColumnId, toIndex, now);
      var target := rest.Get(toColumnId);
      var k := Clamp(toIndex, |target|);
      var updated := moving.(columnId := toColumnId, updatedAt := now);
      assert MovedCards(cards, taskId, toColumnId, toIndex, now) == fin.Flat();
      MoveLanesHomogeneous(cards, taskId, toColumnId, toIndex, now, loc);
      PartitionOfFlat(fin);
      RemovedHasNoId(cards, taskId, loc);
      SearchFindsInserted(rest, moving, taskId, toColumnId, toIndex, now);
      var loc2 := Location(toColumnId, k);
      RemoveInserted(target, k, updated);
      LanesEqual(Removed(fin, loc2), rest);
      assert fin.Get(toColumnId)[k] == updated;
      assert updated.(columnId := toColumnId, updatedAt := now) == updated;
  }

  /** A board is one column's cards plus the cards of the other columns. */
  lemma {:induction false} ColumnAndRestMultiset(cards: seq<TaskCard>, c: ColumnId)
    ensures multiset(GetColumnCards(cards, c)) + multiset(Filter(cards, NotInColumn(c))) == multiset(cards)
  {
    if cards != [] {
      var tail := cards[1..];
      assert cards == [cards[0]] + tail;
      FilterAppend([cards[0]], tail, InColumn(c));
      FilterAppend([cards[0]], tail, NotInColumn(c));
      ColumnAndRestMultiset(tail, c);
    }
  }

  lemma ColumnAndRestLength(cards: seq<TaskCard>, c: ColumnId)
    ensures |GetColumnCards(cards, c)| + |Filter(cards, NotInColumn(c))| == |cards|
  {
    ColumnAndRestMultiset(cards, c);
    assert |multiset(cards)| == |multiset(GetColumnCards(cards, c))| + |multiset(Filter(cards, NotInColumn(c)))|;
  }

  /** Moving to an index at or past the end of the target column appends
      the card to what that column keeps. */
  lemma MoveToEnd(cards: seq<TaskCard>, taskId: string, toColumnId: ColumnId, now: string, loc: Location)
    requires Locate(cards, taskId) == Some(loc)
    ensures var src := GetColumnCards(cards, loc.column);
      var kept := if toColumnId == loc.column then RemoveAt(src, loc.index) else GetColumnCards(cards, toColumnId);
      GetColumnCards(MovedCards(cards, taskId, toColumnId, |GetColumnCards(cards, toColumnId)|, now), toColumnId)
        == kept + [src[loc.index].(columnId := toColumnId, updatedAt := now)]
  {
    var src := GetColumnCards(cards, loc.column);
    var kept := if toColumnId == loc.column then RemoveAt(src, loc.index) else GetColumnCards(cards, toColumnId);
    var moving := src[loc.index].(columnId := toColumnId, updatedAt := now);
    var n := |GetColumnCards(cards, toColumnId)|;
    MoveColumns(cards, taskId, toColumnId, n, now, loc);
    if toColumnId == loc.column {
      assert n == |src| && |kept| == |src| - 1;
    } else {
      assert n == |kept|;
    }
    assert Clamp(n, |kept|) == |kept|;
    InsertAtEnd(kept, moving);
  }
}
