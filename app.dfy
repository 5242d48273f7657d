/** The decisions the application shell (src/App.tsx) takes: the message
    listing missing triage fields, saving the card dialog, and the end of a
    drag. Each is a function of the board's cards and the event that
    returns what the shell does next. */
module App {
  import opened Wrappers
  import opened Seqs
  import opened Text
  import opened Types
  import opened Board

  /** `formatMissingFields(fields)`: commas between fields, " and " before
      the last. Only ever called with at least one field. */
  function FormatMissingFields(fields: seq<string>): (r: string)
    requires |fields| > 0
    ensures |fields| == 1 ==> r == fields[0]
    ensures |fields| >= 2 ==> r == Join(fields[..|fields| - 1], ", ") + " and " + fields[|fields| - 1]
  {
    if |fields| == 1 then fields[0]
    else Join(fields[..|fields| - 1], ", ") + " and " + fields[|fields| - 1]
  }

  /** The message read from the front: two fields are joined by " and ",
      and with three or more the first is followed by ", " and the
      message for the rest. */
  lemma FormatShape(fields: seq<string>)
    requires |fields| >= 2
    ensures |fields| == 2 ==> FormatMissingFields(fields) == fields[0] + " and " + fields[1]
    ensures |fields| >= 3 ==> FormatMissingFields(fields) == fields[0] + ", " + FormatMissingFields(fields[1..])
  {
    var n := |fields|;
    var init := fields[..n - 1];
    if n == 2 {
      assert init == [fields[0]];
    } else {
      var rest := fields[1..];
      assert init[1..] == rest[..|rest| - 1];
      assert Join(init, ", ") == fields[0] + ", " + Join(init[1..], ", ");
      assert FormatMissingFields(rest) == Join(init[1..], ", ") + " and " + fields[n - 1];
      assert FormatMissingFields(fields) == Join(init, ", ") + " and " + fields[n - 1];
    }
  }

  /** Adding a field to the end of a list of at least one puts the old
      message's fields before a comma list and the new field after " and ". */
  lemma FormatAppend(fields: seq<string>, x: string)
    requires |fields| >= 2
    ensures FormatMissingFields(fields + [x])
      == Join(fields[..|fields| - 1], ", ") + ", " + fields[|fields| - 1] + " and " + x
  {
    var n := |fields|;
    assert (fields + [x])[..n] == fields[..n - 1] + [fields[n - 1]];
    JoinSnoc(fields[..n - 1], ", ", fields[n - 1]);
  }

  /** With two fields or more the message ends with " and " and the last. */
  lemma FormatEndsWithLast(fields: seq<string>)
    requires |fields| >= 2
    ensures var r := FormatMissingFields(fields);
      var tail := " and " + fields[|fields| - 1];
      |r| >= |tail| && r[|r| - |tail|..] == tail
  {
    var head := Join(fields[..|fields| - 1], ", ");
    assert FormatMissingFields(fields) == head + (" and " + fields[|fields| - 1]);
  }

  /** The message names every missing field. */
  lemma FormatNamesEveryField(fields: seq<string>, i: nat)
    requires i < |fields|
    ensures Contains(FormatMissingFields(fields), fields[i])
  {
    var last := |fields| - 1;
    if |fields| == 1 {
      ContainsItself(fields[0]);
    } else if i == last {
      ContainsItself(fields[last]);
      ContainsInRight(Join(fields[..last], ", ") + " and ", fields[last], fields[last]);
    } else {
      JoinContainsParts(fields[..last], ", ", i);
      assert fields[..last][i] == fields[i];
      ContainsInLeft(Join(fields[..last], ", "), " and " + fields[last], fields[i]);
      assert Join(fields[..last], ", ") + " and " + fields[last] == Join(fields[..last], ", ") + (" and " + fields[last]);
    }
  }

  /** The three messages the triage gates can build. */
  lemma FormatExamples()
    ensures FormatMissingFields(["project tag"]) == "project tag"
    ensures FormatMissingFields(["title", "priority"]) == "title and priority"
    ensures FormatMissingFields(["title", "project tag", "priority"]) == "title, project tag and priority"
  {
    var two := ["title", "priority"];
    assert two[..1] == ["title"];
    assert FormatMissingFields(two) == Join(["title"], ", ") + " and " + "priority";
    var three := ["title", "project tag", "priority"];
    var head := ["title", "project tag"];
    assert three[..2] == head;
    assert head[1..] == ["project tag"];
    assert Join(head, ", ") == "title" + ", " + "project tag";
    assert FormatMissingFields(three) == Join(head, ", ") + " and " + "priority";
  }

  /** What the shell does after an event. */
  datatype Outcome =
    | NoChange
    | Toast(message: string)
    | NewCards(cards: seq<TaskCard>)
      /** `moveTask` given a column that is not one throws a TypeError. */
    | Throws

  const SAVE_GATE_PREFIX: string := "Complete triage before saving outside Backlog: "
  const MOVE_GATE_PREFIX: string := "Complete triage before moving out of Backlog: "
  const COLUMN_PREFIX: string := "column-"

  // ---------------------------------------------------------------------
  // Saving the card dialog

  /** The dialog's fields; the text fields are strings, empty when unset. */
  datatype TaskDraft = TaskDraft(
    title: string,
    description: string,
    projectTag: string,
    priority: Priority,
    dueDate: string,
    color: CardColor,
    columnId: ColumnId)

  function DraftInput(draft: TaskDraft): CreateTaskInput {
    CreateTaskInput(draft.title, Some(draft.description), Some(draft.projectTag), draft.priority,
                    Some(draft.dueDate), draft.color, draft.columnId)
  }

  function DraftPatch(draft: TaskDraft): TaskPatch {
    TaskPatch(Some(draft.title), Some(draft.description), Some(draft.projectTag), Some(draft.priority),
              Some(draft.dueDate), Some(draft.color), Some(draft.columnId))
  }

  function DraftMissingFields(draft: TaskDraft): seq<string> {
    PromotionMissingFields(PromotionCandidate(draft.title, Some(draft.projectTag), PriorityName(draft.priority)))
  }

  /** `if (editingId)`: set and not the empty string. */
  predicate Editing(editingId: Option<string>) {
    editingId.Some? && editingId.value != ""
  }

  /** `prev.cards.map(...)`: the edit applied to every card with the id. */
  function ApplyEdit(cards: seq<TaskCard>, editingId: string, draft: TaskDraft, now: string): (r: seq<TaskCard>)
    ensures |r| == |cards|
  {
    seq(|cards|, i requires 0 <= i < |cards| =>
      if cards[i].id == editingId then EditTask(cards[i], DraftPatch(draft), now) else cards[i])
  }

  /** `handleSaveTask`, with `nowIso()` and `uuid()` as `now` and `newId`. */
  function SaveTask(cards: seq<TaskCard>, draft: TaskDraft, editingId: Option<string>, now: string, newId: string): (r: Outcome)
    ensures !r.Throws?
    ensures r.NoChange? <==> IsBlank(draft.title)
    ensures r.Toast? ==> draft.columnId != Backlog
    ensures r.NewCards? ==> |r.cards| == |cards| + if Editing(editingId) then 0 else 1
  {
    if Trim(draft.title) == "" then NoChange
    else if draft.columnId != Backlog && DraftMissingFields(draft) != [] then
      Toast(SAVE_GATE_PREFIX + FormatMissingFields(DraftMissingFields(draft)) + ".")
    else if Editing(editingId) then NewCards(ApplyEdit(cards, editingId.value, draft, now))
    else NewCards(cards + [CreateTask(DraftInput(draft), now, newId)])
  }

  /** A draft with a title can only lack its project tag. */
  lemma DraftMissingOnlyTag(draft: TaskDraft)
    requires !IsBlank(draft.title)
    ensures DraftMissingFields(draft) == if IsBlank(draft.projectTag) then ["project tag"] else []
  {
    DraftMissingIsSelected(draft);
    SelectedOnlyTag(Trim(draft.projectTag) == "");
  }

  lemma DraftMissingIsSelected(draft: TaskDraft)
    requires !IsBlank(draft.title)
    ensures DraftMissingFields(draft) == Selected(false, Trim(draft.projectTag) == "", false)
  {
    PriorityNameListed(draft.priority);
    assert Trim(draft.title) != "";
  }

  lemma SelectedOnlyTag(tag: bool)
    ensures Selected(false, tag, false) == if tag then ["project tag"] else []
  {
  }

  /** A title that is blank after trimming: nothing happens. */
  lemma SaveBlankTitle(cards: seq<TaskCard>, draft: TaskDraft, editingId: Option<string>, now: string, newId: string)
    requires IsBlank(draft.title)
    ensures SaveTask(cards, draft, editingId, now, newId) == NoChange
  {
  }

  /** The gate outside Backlog: a toast exactly when the title is given,
      the target is not Backlog and the project tag is blank; the cards are
      then unchanged and the message names the project tag. */
  lemma SaveGate(cards: seq<TaskCard>, draft: TaskDraft, editingId: Option<string>, now: string, newId: string)
    ensures SaveTask(cards, draft, editingId, now, newId).Toast? <==>
      !IsBlank(draft.title) && draft.columnId != Backlog && IsBlank(draft.projectTag)
    ensures SaveTask(cards, draft, editingId, now, newId).Toast? ==>
      SaveTask(cards, draft, editingId, now, newId).message == SAVE_GATE_PREFIX + FormatMissingFields(["project tag"]) + "."
  {
    if IsBlank(draft.title) {
      SaveBlankTitle(cards, draft, editingId, now, newId);
    } else if draft.columnId != Backlog && IsBlank(draft.projectTag) {
      DraftMissingOnlyTag(draft);
      assert Trim(draft.title) != "";
      assert DraftMissingFields(draft) == ["project tag"];
    } else {
      SavePastGate(cards, draft, editingId, now, newId);
    }
  }

  /** Saving an edit past the gate replaces only the cards with the edited
      id, each by the edit of the card: same id and creation time, the
      draft's title (trimmed) and column, stamped with `now`. */
  lemma SaveEdit(cards: seq<TaskCard>, draft: TaskDraft, editingId: Option<string>, now: string, newId: string)
    requires !IsBlank(draft.title)
    requires draft.columnId == Backlog || !IsBlank(draft.projectTag)
    requires Editing(editingId)
    ensures var out := SaveTask(cards, draft, editingId, now, newId);
      && out.NewCards? && |out.cards| == |cards|
      && (forall i :: 0 <= i < |cards| && cards[i].id != editingId.value ==> out.cards[i] == cards[i])
      && forall i :: 0 <= i < |cards| && cards[i].id == editingId.value ==>
        && out.cards[i].id == cards[i].id && out.cards[i].createdAt == cards[i].createdAt
        && out.cards[i].title == Trim(draft.title) && out.cards[i].columnId == draft.columnId
        && out.cards[i].updatedAt == now
  {
    SavePastGate(cards, draft, editingId, now, newId);
    var r := ApplyEdit(cards, editingId.value, draft, now);
    forall i | 0 <= i < |cards| && cards[i].id == editingId.value
      ensures r[i].id == cards[i].id && r[i].createdAt == cards[i].createdAt
      ensures r[i].title == Trim(draft.title) && r[i].columnId == draft.columnId && r[i].updatedAt == now
    {
      EditKeepsIdentity(cards[i], draft, now);
    }
  }

  /** The edit of a card keeps its id and creation time and takes the
      draft's title (trimmed) and column. */
  lemma EditKeepsIdentity(card: TaskCard, draft: TaskDraft, now: string)
    ensures var e := EditTask(card, DraftPatch(draft), now);
      && e.id == card.id && e.createdAt == card.createdAt
      && e.title == Trim(draft.title) && e.columnId == draft.columnId && e.updatedAt == now
  {
  }

  /** Past both checks a save writes the edit or the new card. */
  lemma SavePastGate(cards: seq<TaskCard>, draft: TaskDraft, editingId: Option<string>, now: string, newId: string)
    requires !IsBlank(draft.title)
    requires draft.columnId == Backlog || !IsBlank(draft.projectTag)
    ensures SaveTask(cards, draft, editingId, now, newId)
      == if Editing(editingId) then NewCards(ApplyEdit(cards, editingId.value, draft, now))
         else NewCards(cards + [CreateTask(DraftInput(draft), now, newId)])
  {
    DraftMissingOnlyTag(draft);
    assert Trim(draft.title) != "";
  }

  /** Saving a new task past the gate appends one card, made from the draft
      with the given id and time, at the end. */
  lemma SaveCreate(cards: seq<TaskCard>, draft: TaskDraft, editingId: Option<string>, now: string, newId: string)
    requires !IsBlank(draft.title)
    requires draft.columnId == Backlog || !IsBlank(draft.projectTag)
    requires !Editing(editingId)
    ensures var out := SaveTask(cards, draft, editingId, now, newId);
      && out.NewCards? && |out.cards| == |cards| + 1 && out.cards[..|cards|] == cards
      && out.cards[|cards|] == CreateTask(DraftInput(draft), now, newId)
      && out.cards[|cards|].id == newId && out.cards[|cards|].columnId == draft.columnId
  {
    SavePastGate(cards, draft, editingId, now, newId);
    assert (cards + [CreateTask(DraftInput(draft), now, newId)])[..|cards|] == cards;
  }

  lemma TrimOfNonBlank(s: string)
    requires !IsBlank(s)
    ensures !IsBlank(Trim(s))
  {
    assert Trim(s) != [];
  }

  /** A card with a non-blank title and project tag passes the triage check. */
  lemma TriagedCard(card: TaskCard)
    requires !IsBlank(card.title) && card.projectTag.Some? && !IsBlank(card.projectTag.value)
    ensures PromotionMissingFields(CandidateOf(card)) == []
  {
    TypedPriorityNeverMissing(card);
    NameListsAgree(PriorityName(card.priority));
  }

  /** A card edited from a draft with a title and a project tag passes
      the triage check. */
  lemma EditedCardTriaged(card: TaskCard, draft: TaskDraft, now: string)
    requires !IsBlank(draft.title) && !IsBlank(draft.projectTag)
    ensures PromotionMissingFields(CandidateOf(EditTask(card, DraftPatch(draft), now))) == []
  {
    TrimOfNonBlank(draft.title);
    TrimOfNonBlank(draft.projectTag);
    EditOptionals(card, DraftPatch(draft), now);
    TriagedCard(EditTask(card, DraftPatch(draft), now));
  }

  /** A card created from a draft with a title and a project tag passes
      the triage check. */
  lemma CreatedCardTriaged(draft: TaskDraft, now: string, newId: string)
    requires !IsBlank(draft.title) && !IsBlank(draft.projectTag)
    ensures PromotionMissingFields(CandidateOf(CreateTask(DraftInput(draft), now, newId))) == []
  {
    TrimOfNonBlank(draft.title);
    TrimOfNonBlank(draft.projectTag);
    TriagedCard(CreateTask(DraftInput(draft), now, newId));
  }

  /** Every card a save writes outside Backlog passes the triage check:
      the edited cards, or the created one. */
  lemma SaveKeepsTriage(cards: seq<TaskCard>, draft: TaskDraft, editingId: Option<string>, now: string, newId: string)
    requires SaveTask(cards, draft, editingId, now, newId).NewCards?
    requires draft.columnId != Backlog
    ensures var r := SaveTask(cards, draft, editingId, now, newId).cards;
      Editing(editingId) ==>
        |r| == |cards| && forall i :: 0 <= i < |cards| && cards[i].id == editingId.value ==> PromotionMissingFields(CandidateOf(r[i])) == []
    ensures var r := SaveTask(cards, draft, editingId, now, newId).cards;
      !Editing(editingId) ==> |r| == |cards| + 1 && PromotionMissingFields(CandidateOf(r[|cards|])) == []
  {
    assert !IsBlank(draft.title);
    DraftMissingOnlyTag(draft);
    if Editing(editingId) {
      var r := ApplyEdit(cards, editingId.value, draft, now);
      forall i | 0 <= i < |cards| && cards[i].id == editingId.value
        ensures PromotionMissingFields(CandidateOf(r[i])) == []
      {
        EditedCardTriaged(cards[i], draft, now);
      }
    } else {
      CreatedCardTriaged(draft, now, newId);
    }
  }

  // ---------------------------------------------------------------------
  // The end of a drag

  /** `cards.find((card) => card.id === id)`. */
  function FindCard(cards: seq<TaskCard>, id: string): (r: Option<TaskCard>)
    ensures r.None? <==> forall i :: 0 <= i < |cards| ==> cards[i].id != id
    ensures r.Some? ==> r.value in cards && r.value.id == id
    ensures r.Some? ==> exists i :: 0 <= i < |cards| && cards[i] == r.value && forall j :: 0 <= j < i ==> cards[j].id != id
  {
    match FirstIndexOf(cards, id)
    case None => None
    case Some(i) => Some(cards[i])
  }

  /** `arrayMove(array, from, to)` from the drag-and-drop library: the
      element moves from `from` to `to`, the others keep their order. */
  function ArrayMove(s: seq<TaskCard>, from: nat, to: nat): (r: seq<TaskCard>)
    requires from < |s| && to < |s|
    ensures |r| == |s| && r[to] == s[from]
    ensures RemoveAt(r, to) == RemoveAt(s, from)
  {
    RemoveInserted(RemoveAt(s, from), to, s[from]);
    InsertAt(RemoveAt(s, from), to, s[from])
  }

  lemma ArrayMoveMultiset(s: seq<TaskCard>, from: nat, to: nat)
    requires from < |s| && to < |s|
    ensures multiset(ArrayMove(s, from, to)) == multiset(s)
  {
    RemoveAtMultiset(s, from);
    InsertAtMultiset(RemoveAt(s, from), to, s[from]);
  }

  /** The `.map` after `arrayMove`: only the card at `k` is stamped. */
  function BumpAt(s: seq<TaskCard>, k: nat, now: string): (r: seq<TaskCard>)
    requires k < |s|
    ensures |r| == |s| && r[k] == s[k].(updatedAt := now)
    ensures forall j :: 0 <= j < |s| && j != k ==> r[j] == s[j]
  {
    s[k := s[k].(updatedAt := now)]
  }

  /** The same-column branch: the other columns' cards, then the column
      with the card moved onto the index of the card it was dropped on. */
  function Reorder(cards: seq<TaskCard>, active: TaskCard, overCard: TaskCard, now: string): (r: Outcome)
    ensures r.NoChange? || r.NewCards?
    ensures r.NewCards? ==> |r.cards| == |cards|
  {
    ColumnAndRestLength(cards, active.columnId);
    var column := GetColumnCards(cards, active.columnId);
    var oldIndex := FirstIndexOf(column, active.id);
    var newIndex := FirstIndexOf(column, overCard.id);
    if oldIndex.None? || newIndex.None? then NoChange
    else NewCards(Filter(cards, NotInColumn(active.columnId)) + BumpAt(ArrayMove(column, oldIndex.value, newIndex.value), newIndex.value, now))
  }

  /** A card still in Backlog that lacks triage fields may not leave it. */
  predicate Gated(active: TaskCard, leavesBacklog: bool) {
    active.columnId == Backlog && leavesBacklog && PromotionMissingFields(CandidateOf(active)) != []
  }

  function GateToast(active: TaskCard): Outcome
    requires PromotionMissingFields(CandidateOf(active)) != []
  {
    Toast(MOVE_GATE_PREFIX + FormatMissingFields(PromotionMissingFields(CandidateOf(active))) + ".")
  }

  /** The gate, then `moveTask`. */
  function GateThenMove(cards: seq<TaskCard>, active: TaskCard, target: ColumnId, index: int, now: string): (r: Outcome)
    ensures r.Toast? || r.NewCards?
    ensures r.Toast? ==> active.columnId == Backlog && target != Backlog
    ensures r.NewCards? ==> |r.cards| == |cards|
  {
    if Gated(active, target != Backlog) then GateToast(active)
    else NewCards(MovedCards(cards, active.id, target, index, now))
  }

  /** `findIndex` as JavaScript returns it. */
  function IndexOrMinusOne(i: Option<nat>): int {
    if i.Some? then i.value else -1
  }

  /** `handleDragEnd`: the dragged card's id, and the id of what it was
      dropped on (a card's id, or "column-" and a column's name). */
  function DragEnd(cards: seq<TaskCard>, activeId: string, overId: Option<string>, now: string): (r: Outcome)
    ensures r.Throws? ==>
      overId.Some? && StartsWith(overId.value, COLUMN_PREFIX) && ColumnFromName(overId.value[|COLUMN_PREFIX|..]).None?
    ensures r.Toast? ==> FindCard(cards, activeId).Some? && FindCard(cards, activeId).value.columnId == Backlog
    ensures r.NewCards? ==> |r.cards| == |cards|
  {
    if overId.None? || overId.value == activeId then NoChange
    else match FindCard(cards, activeId)
      case None => NoChange
      case Some(active) => DropOn(cards, active, overId.value, now)
  }

  /** The dragged card `active` dropped on `over`. */
  function DropOn(cards: seq<TaskCard>, active: TaskCard, over: string, now: string): (r: Outcome)
    ensures r.Throws? ==> StartsWith(over, COLUMN_PREFIX) && ColumnFromName(over[|COLUMN_PREFIX|..]).None?
    ensures r.Toast? ==> active.columnId == Backlog
    ensures r.NewCards? ==> |r.cards| == |cards|
  {
    var overCard := FindCard(cards, over);
    if !StartsWith(over, COLUMN_PREFIX) && overCard.Some? && overCard.value.columnId == active.columnId then
      Reorder(cards, active, overCard.value, now)
    else if StartsWith(over, COLUMN_PREFIX) then ColumnDrop(cards, active, over[|COLUMN_PREFIX|..], now)
    else CardDrop(cards, active, overCard, now)
  }

  /** Dropped on the column `name` names: the end of that column. A name
      that is no column passes the `!== 'backlog'` test of the gate and
      then makes `moveTask` throw. */
  function ColumnDrop(cards: seq<TaskCard>, active: TaskCard, name: string, now: string): (r: Outcome)
    ensures !r.NoChange?
    ensures r.Throws? ==> ColumnFromName(name).None?
    ensures r.Toast? ==> active.columnId == Backlog
    ensures r.NewCards? ==> |r.cards| == |cards|
  {
    match ColumnFromName(name)
    case None => if Gated(active, true) then GateToast(active) else Throws
    case Some(target) => GateThenMove(cards, active, target, |GetColumnCards(cards, target)|, now)
  }

  /** Dropped on a card of another column (if one has the id): the index
      of that card in its column. */
  function CardDrop(cards: seq<TaskCard>, active: TaskCard, overCard: Option<TaskCard>, now: string): (r: Outcome)
    ensures !r.Throws?
    ensures r.NoChange? <==> overCard.None?
    ensures r.Toast? ==> active.columnId == Backlog
    ensures r.NewCards? ==> |r.cards| == |cards|
  {
    match overCard
    case None => NoChange
    case Some(card) =>
      GateThenMove(cards, active, card.columnId,
                   IndexOrMinusOne(FirstIndexOf(GetColumnCards(cards, card.columnId), card.id)), now)
  }

  /** No drop target, a card dropped on itself, or a dragged id no card
      has: nothing happens. */
  lemma DragNoEffect(cards: seq<TaskCard>, activeId: string, overId: Option<string>, now: string)
    requires overId.None? || overId == Some(activeId) || forall i :: 0 <= i < |cards| ==> cards[i].id != activeId
    ensures DragEnd(cards, activeId, overId, now) == NoChange
  {
  }

  /** A card's own column finds it. */
  lemma FoundInOwnColumn(cards: seq<TaskCard>, card: TaskCard)
    requires card in cards
    ensures FirstIndexOf(GetColumnCards(cards, card.columnId), card.id).Some?
  {
    var column := GetColumnCards(cards, card.columnId);
    assert card in column;
    var k :| 0 <= k < |column| && column[k] == card;
  }

  /** Dropped on a card (not a column) of the dragged card's own column:
      the reorder branch. */
  lemma DragRoutesReorder(cards: seq<TaskCard>, activeId: string, over: string, now: string)
    requires over != activeId && !StartsWith(over, COLUMN_PREFIX)
    requires FindCard(cards, activeId).Some? && FindCard(cards, over).Some?
    requires FindCard(cards, over).value.columnId == FindCard(cards, activeId).value.columnId
    ensures DragEnd(cards, activeId, Some(over), now) == Reorder(cards, FindCard(cards, activeId).value, FindCard(cards, over).value, now)
  {
  }

  /** Dropped on "column-" and a column's name: the gate, then a move to
      the end of that column. */
  lemma DragRoutesColumn(cards: seq<TaskCard>, activeId: string, target: ColumnId, now: string)
    requires activeId != COLUMN_PREFIX + ColumnName(target)
    requires FindCard(cards, activeId).Some?
    ensures DragEnd(cards, activeId, Some(COLUMN_PREFIX + ColumnName(target)), now)
      == GateThenMove(cards, FindCard(cards, activeId).value, target, |GetColumnCards(cards, target)|, now)
  {
    var over := COLUMN_PREFIX + ColumnName(target);
    assert StartsWith(over, COLUMN_PREFIX);
    assert over[|COLUMN_PREFIX|..] == ColumnName(target);
    NamesRoundTrip(target, Low, Yellow);
  }

  /** Dropped on a card of another column: the gate, then a move to the
      index that card has in its column (always found, never -1). */
  lemma DragRoutesOtherColumn(cards: seq<TaskCard>, activeId: string, over: string, now: string)
    requires over != activeId && !StartsWith(over, COLUMN_PREFIX)
    requires FindCard(cards, activeId).Some? && FindCard(cards, over).Some?
    requires FindCard(cards, over).value.columnId != FindCard(cards, activeId).value.columnId
    ensures var overCard := FindCard(cards, over).value;
      var column := GetColumnCards(cards, overCard.columnId);
      && FirstIndexOf(column, over).Some?
      && DragEnd(cards, activeId, Some(over), now)
        == GateThenMove(cards, FindCard(cards, activeId).value, overCard.columnId, FirstIndexOf(column, over).value, now)
  {
    FoundInOwnColumn(cards, FindCard(cards, over).value);
  }

  /** The reorder branch: both indices are found, the result is the other
      columns' cards followed by the column with the card moved to the index
      of the card it was dropped on, only the moved card is stamped with
      `now`, and the board holds the same cards otherwise. */
  lemma ReorderMovesWithinColumn(cards: seq<TaskCard>, active: TaskCard, overCard: TaskCard, now: string)
    requires active in cards && overCard in cards && overCard.columnId == active.columnId
    ensures var column := GetColumnCards(cards, active.columnId);
      var others := Filter(cards, NotInColumn(active.columnId));
      var out := Reorder(cards, active, overCard, now);
      && FirstIndexOf(column, active.id).Some? && FirstIndexOf(column, overCard.id).Some?
      && var oldIndex := FirstIndexOf(column, active.id).value;
      var newIndex := FirstIndexOf(column, overCard.id).value;
      && out.NewCards? && |out.cards| == |cards|
      && out.cards == others + BumpAt(ArrayMove(column, oldIndex, newIndex), newIndex, now)
      && out.cards[|others| + newIndex] == column[oldIndex].(updatedAt := now)
      && multiset(out.cards) + multiset{column[oldIndex]} == multiset(cards) + multiset{column[oldIndex].(updatedAt := now)}
  {
    var column := GetColumnCards(cards, active.columnId);
    var others := Filter(cards, NotInColumn(active.columnId));
    FoundInOwnColumn(cards, active);
    FoundInOwnColumn(cards, overCard);
    var oldIndex := FirstIndexOf(column, active.id).value;
    var newIndex := FirstIndexOf(column, overCard.id).value;
    assert Reorder(cards, active, overCard, now) == NewCards(others + BumpAt(ArrayMove(column, oldIndex, newIndex), newIndex, now));
    ColumnAndRestMultiset(cards, active.columnId);
    ColumnAndRestLength(cards, active.columnId);
    ReorderedMultiset(others, column, oldIndex, newIndex, now);
  }

  /** The card lists of the reorder branch, as sequences. */
  lemma ReorderedMultiset(others: seq<TaskCard>, column: seq<TaskCard>, oldIndex: nat, newIndex: nat, now: string)
    requires oldIndex < |column| && newIndex < |column|
    ensures var r := others + BumpAt(ArrayMove(column, oldIndex, newIndex), newIndex, now);
      && |r| == |others| + |column|
      && r[|others| + newIndex] == column[oldIndex].(updatedAt := now)
      && multiset(r) + multiset{column[oldIndex]} == multiset(column) + multiset(others) + multiset{column[oldIndex].(updatedAt := now)}
  {
    var moved := ArrayMove(column, oldIndex, newIndex);
    ArrayMoveMultiset(column, oldIndex, newIndex);
    BumpMultiset(moved, newIndex, now);
    assert multiset(others + BumpAt(moved, newIndex, now)) == multiset(others) + multiset(BumpAt(moved, newIndex, now));
  }

  lemma BumpMultiset(s: seq<TaskCard>, k: nat, now: string)
    requires k < |s|
    ensures multiset(BumpAt(s, k, now)) + multiset{s[k]} == multiset(s) + multiset{s[k].(updatedAt := now)}
  {
    assert s == s[..k] + [s[k]] + s[k + 1..];
    assert BumpAt(s, k, now) == s[..k] + [s[k].(updatedAt := now)] + s[k + 1..];
  }

  /** Past the gate, a drop on a column appends the card to it: it lands
      after every card the column keeps. */
  lemma ColumnDropAppends(cards: seq<TaskCard>, active: TaskCard, target: ColumnId, now: string)
    requires Locate(cards, active.id).Some?
    requires !Gated(active, target != Backlog)
    ensures var loc := Locate(cards, active.id).value;
      var src := GetColumnCards(cards, loc.column);
      var kept := if target == loc.column then RemoveAt(src, loc.index) else GetColumnCards(cards, target);
      var out := GateThenMove(cards, active, target, |GetColumnCards(cards, target)|, now);
      && out == NewCards(MovedCards(cards, active.id, target, |GetColumnCards(cards, target)|, now))
      && GetColumnCards(out.cards, target) == kept + [src[loc.index].(columnId := target, updatedAt := now)]
  {
    MoveToEnd(cards, active.id, target, now, Locate(cards, active.id).value);
  }

  /** Past the gate, a drop on a card of another column moves the card to
      that card's index in its column. */
  lemma CardDropMoves(cards: seq<TaskCard>, active: TaskCard, target: ColumnId, index: int, now: string)
    requires !Gated(active, target != Backlog)
    ensures GateThenMove(cards, active, target, index, now) == NewCards(MovedCards(cards, active.id, target, index, now))
  {
  }

  /** A drop that would take the dragged card out of Backlog. */
  predicate LeavesBacklog(cards: seq<TaskCard>, over: string) {
    if StartsWith(over, COLUMN_PREFIX) then ColumnFromName(over[|COLUMN_PREFIX|..]) != Some(Backlog)
    else FindCard(cards, over).Some? && FindCard(cards, over).value.columnId != Backlog
  }

  /** The Backlog gate: a Backlog card that lacks triage fields, dropped
      anywhere outside Backlog, leaves the cards unchanged and raises the
      toast naming the missing fields. */
  lemma DragBacklogGate(cards: seq<TaskCard>, activeId: string, over: string, now: string)
    requires over != activeId
    requires FindCard(cards, activeId).Some?
    requires FindCard(cards, activeId).value.columnId == Backlog
    requires PromotionMissingFields(CandidateOf(FindCard(cards, activeId).value)) != []
    requires LeavesBacklog(cards, over)
    ensures DragEnd(cards, activeId, Some(over), now)
      == Toast(MOVE_GATE_PREFIX + FormatMissingFields(PromotionMissingFields(CandidateOf(FindCard(cards, activeId).value))) + ".")
  {
    var active := FindCard(cards, activeId).value;
    assert DragEnd(cards, activeId, Some(over), now) == DropOn(cards, active, over, now);
    if StartsWith(over, COLUMN_PREFIX) {
      assert DropOn(cards, active, over, now) == ColumnDrop(cards, active, over[|COLUMN_PREFIX|..], now);
      ColumnDropGate(cards, active, over[|COLUMN_PREFIX|..], now);
    } else {
      assert DropOn(cards, active, over, now) == CardDrop(cards, active, FindCard(cards, over), now);
      CardDropGate(cards, active, FindCard(cards, over), now);
    }
  }

  /** The gate on a column header: any column but Backlog, or a name that
      is no column, gives the toast. */
  lemma ColumnDropGate(cards: seq<TaskCard>, active: TaskCard, name: string, now: string)
    requires Gated(active, ColumnFromName(name) != Some(Backlog))
    ensures ColumnDrop(cards, active, name, now) == GateToast(active)
  {
  }

  /** The gate on a card of another column than Backlog. */
  lemma CardDropGate(cards: seq<TaskCard>, active: TaskCard, overCard: Option<TaskCard>, now: string)
    requires overCard.Some? && Gated(active, overCard.value.columnId != Backlog)
    ensures CardDrop(cards, active, overCard, now) == GateToast(active)
  {
  }

  /** With unique ids, when one card `out` of the board is swapped for
      `into`, a card of the result with `active`'s id is `into` or `active`. */
  lemma SwappedCardsWithId(cards: seq<TaskCard>, r: seq<TaskCard>, out: TaskCard, into: TaskCard, active: TaskCard)
    requires UniqueIds(cards) && active in cards
    requires multiset(r) + multiset{out} == multiset(cards) + multiset{into}
    ensures forall x :: x in r && x.id == active.id ==> x == into || x == active
  {
    forall x | x in r && x.id == active.id ensures x == into || x == active {
      assert x in multiset(r);
      assert x in multiset(cards) + multiset{into};
      if x != into {
        assert x in multiset(cards);
        SameIdSameCard(cards, x, active);
      }
    }
  }

  /** With unique ids, a move into Backlog leaves every card with the moved
      id in Backlog. */
  lemma MoveIntoBacklogKeepsIt(cards: seq<TaskCard>, active: TaskCard, index: int, now: string)
    requires UniqueIds(cards) && active in cards && active.columnId == Backlog
    ensures forall x :: x in MovedCards(cards, active.id, Backlog, index, now) && x.id == active.id ==> x.columnId == Backlog
  {
    var i :| 0 <= i < |cards| && cards[i] == active;
    var loc := Locate(cards, active.id).value;
    MoveKeepsCards(cards, active.id, Backlog, index, now, loc);
    var moving := GetColumnCards(cards, loc.column)[loc.index];
    SwappedIntoBacklog(cards, MovedCards(cards, active.id, Backlog, index, now), moving, active, now);
  }

  lemma SwappedIntoBacklog(cards: seq<TaskCard>, r: seq<TaskCard>, moving: TaskCard, active: TaskCard, now: string)
    requires UniqueIds(cards) && active in cards && active.columnId == Backlog
    requires multiset(r) + multiset{moving} == multiset(cards) + multiset{moving.(columnId := Backlog, updatedAt := now)}
    ensures forall x :: x in r && x.id == active.id ==> x.columnId == Backlog
  {
    SwappedCardsWithId(cards, r, moving, moving.(columnId := Backlog, updatedAt := now), active);
  }

  /** With unique ids, a reorder keeps every card with the dragged id in
      the dragged card's column. */
  lemma ReorderKeepsColumn(cards: seq<TaskCard>, active: TaskCard, overCard: TaskCard, now: string)
    requires UniqueIds(cards) && active in cards && overCard in cards && overCard.columnId == active.columnId
    ensures Reorder(cards, active, overCard, now).NewCards?
    ensures forall x :: x in Reorder(cards, active, overCard, now).cards && x.id == active.id ==> x.columnId == active.columnId
  {
    ReorderMovesWithinColumn(cards, active, overCard, now);
    var column := GetColumnCards(cards, active.columnId);
    var moving := column[FirstIndexOf(column, active.id).value];
    assert moving in column;
    SwappedCardsWithId(cards, Reorder(cards, active, overCard, now).cards, moving, moving.(updatedAt := now), active);
  }

  /** A gated card dropped on a column header moves only when that
      column is Backlog, and so stays there. */
  lemma ColumnDropKeepsBacklog(cards: seq<TaskCard>, active: TaskCard, name: string, now: string)
    requires UniqueIds(cards) && active in cards && active.columnId == Backlog
    requires PromotionMissingFields(CandidateOf(active)) != []
    requires ColumnDrop(cards, active, name, now).NewCards?
    ensures forall x :: x in ColumnDrop(cards, active, name, now).cards && x.id == active.id ==> x.columnId == Backlog
  {
    // a name that is no column, or a column other than Backlog, gives no new board
    assert ColumnFromName(name) == Some(Backlog);
    assert ColumnDrop(cards, active, name, now)
      == NewCards(MovedCards(cards, active.id, Backlog, |GetColumnCards(cards, Backlog)|, now));
    MoveIntoBacklogKeepsIt(cards, active, |GetColumnCards(cards, Backlog)|, now);
  }

  /** With unique ids, a drag never takes a Backlog card that lacks triage
      fields out of Backlog: in every new board the card stays there. */
  lemma DragKeepsUntriagedInBacklog(cards: seq<TaskCard>, activeId: string, overId: Option<string>, now: string)
    requires UniqueIds(cards)
    requires FindCard(cards, activeId).Some?
    requires FindCard(cards, activeId).value.columnId == Backlog
    requires PromotionMissingFields(CandidateOf(FindCard(cards, activeId).value)) != []
    requires DragEnd(cards, activeId, overId, now).NewCards?
    ensures forall x :: x in DragEnd(cards, activeId, overId, now).cards && x.id == activeId ==> x.columnId == Backlog
  {
    var active := FindCard(cards, activeId).value;
    var over := overId.value;
    var overCard := FindCard(cards, over);
    assert DragEnd(cards, activeId, overId, now) == DropOn(cards, active, over, now);
    // a card of another column is outside Backlog, so the gate stops it
    assert !StartsWith(over, COLUMN_PREFIX) && overCard.Some? && overCard.value.columnId != active.columnId ==>
      Gated(active, overCard.value.columnId != Backlog) && DropOn(cards, active, over, now).Toast?;
    if !StartsWith(over, COLUMN_PREFIX) && overCard.Some? && overCard.value.columnId == active.columnId {
      ReorderKeepsColumn(cards, active, overCard.value, now);
    } else if StartsWith(over, COLUMN_PREFIX) {
      ColumnDropKeepsBacklog(cards, active, over[|COLUMN_PREFIX|..], now);
    } else {
      // the toast above: no new board
      assert false;
    }
  }
}
