/** Change detection and the card mapper: which listed cards are re-mapped, and the
    persisted row each of them becomes. */
module ChangeDetection {
  import opened Common
  import opened Responses
  import opened Api
  import opened Database
  import opened AdapterRules
  import opened AdapterFetch
  import opened Baseline

  /** Why a board's reconciliation stops: a route failure, or the `IndexError` of
      looking up a stored row by card id when there is none. */
  datatype SyncError = Route(status: int) | MissingRow(cardId: string)

  datatype Result<+T> = Success(value: T) | Failure(error: SyncError)

  function PrependSuccess<T>(prefix: seq<T>, r: Result<seq<T>>): Result<seq<T>>
  {
    match r
    case Success(rest) => Success(prefix + rest)
    case Failure(e) => Failure(e)
  }

  lemma PrependSuccessNothing<T>(r: Result<seq<T>>)
    ensures PrependSuccess([], r) == r
  {
    if r.Success? {
      assert [] + r.value == r.value;
    }
  }

  lemma PrependSuccessTwice<T>(a: seq<T>, b: seq<T>, r: Result<seq<T>>)
    ensures PrependSuccess(a, PrependSuccess(b, r)) == PrependSuccess(a + b, r)
  {
    if r.Success? {
      assert a + (b + r.value) == (a + b) + r.value;
    }
  }

  // ---------------------------------------------------------------------
  // map_card_to_database
  // ---------------------------------------------------------------------

  /** `map_card_to_database` as a value: the first stored row for (board, card) or a
      new one, with status, completed flag, last activity and a brand-new info block
      taken from the remote card; only `users` survives from the stored row. */
  function MappedCard(remote: Remote, rows: seq<CardRow>, board: InlineBoard, list: InlineList,
                      card: Card, completeFieldId: Option<string>): (r: Fetch<CardRow>)
    ensures r.Ok? <==> CardTimestamp(remote, board.id, card.id).Ok?
    ensures r.Ok? ==> KeyOf(r.value) == (board.id, card.id)
  {
    var dbCard := match FindByKey(rows, (board.id, card.id))
                  case Some(row) => row
                  case None => NewRow(board.id, card.id);
    match CardTimestamp(remote, board.id, card.id)
    case RouteError(s) => RouteError(s)
    case Ok(timestamp) =>
      Ok(dbCard.(
        status := StatusOf(list.title),
        completed := CardCompleteStatus(completeFieldId, card.customFields),
        lastActivity := card.dateLastActivity,
        info := CardInfo(card.title, Hours(card.spentTime), timestamp, card.assignees,
                         card.startAt, card.dueAt, card.endAt, card.receivedAt)))
  }

  /** The mapping fails exactly when the completion timestamp does, with its status;
      the row carries the (board, card) key, the status of its list, the completion
      flag, the remote title, dates and activity, the clamped hours, the completion
      timestamp, and the users of the first stored row with that key. */
  lemma MappedCardShape(remote: Remote, rows: seq<CardRow>, board: InlineBoard, list: InlineList,
                        card: Card, completeFieldId: Option<string>)
    ensures var r := MappedCard(remote, rows, board, list, card, completeFieldId);
      && (r.Ok? <==> CardTimestamp(remote, board.id, card.id).Ok?)
      && (r.RouteError? ==> r.status == CardTimestamp(remote, board.id, card.id).status)
      && (r.Ok? ==> KeyOf(r.value) == (board.id, card.id))
      && (r.Ok? ==> r.value.users == match FindByKey(rows, (board.id, card.id))
                                     case Some(row) => row.users
                                     case None => [])
      && (r.Ok? ==> r.value.info.title == card.title && r.value.lastActivity == card.dateLastActivity)
      && (r.Ok? ==> r.value.status == StatusOf(list.title))
      && (r.Ok? ==> r.value.completed == CardCompleteStatus(completeFieldId, card.customFields))
      && (r.Ok? ==> r.value.info.hours == Hours(card.spentTime))
      && (r.Ok? ==> r.value.info.timestamp == CardTimestamp(remote, board.id, card.id).value)
      && (r.Ok? ==> r.value.info.assignees == card.assignees)
      && (r.Ok? ==> r.value.info.startAt == card.startAt && r.value.info.dueAt == card.dueAt
                    && r.value.info.endAt == card.endAt && r.value.info.receivedAt == card.receivedAt)
  {
  }

  /** The stored row only contributes its user relation: two stores give the same
      mapped row up to `users`. */
  lemma MappingReplacesAllButUsers(remote: Remote, rows1: seq<CardRow>, rows2: seq<CardRow>, board: InlineBoard,
                                   list: InlineList, card: Card, completeFieldId: Option<string>)
    requires MappedCard(remote, rows1, board, list, card, completeFieldId).Ok?
    ensures MappedCard(remote, rows2, board, list, card, completeFieldId).Ok?
    ensures MappedCard(remote, rows1, board, list, card, completeFieldId).value.(users := [])
         == MappedCard(remote, rows2, board, list, card, completeFieldId).value.(users := [])
  {
  }

  /** Saving a mapped row raises `OverflowError` exactly when the spent time lies below
      the signed 64-bit range (the clamp already keeps it below `sys.maxsize`). */
  lemma MappedRowOverflowsIff(remote: Remote, rows: seq<CardRow>, board: InlineBoard, list: InlineList,
                              card: Card, completeFieldId: Option<string>, users: seq<DbUser>)
    requires MappedCard(remote, rows, board, list, card, completeFieldId).Ok?
    ensures !Encodable(MappedCard(remote, rows, board, list, card, completeFieldId).value.(users := users))
        <==> card.spentTime.Some? && card.spentTime.value < Int64Min
  {
  }

  /** `map_card_to_database`. */
  method MapCardToDatabase(remote: Remote, store: Store, board: InlineBoard, list: InlineList,
                           card: Card, completeFieldId: Option<string>) returns (r: Fetch<CardRow>)
    ensures r == MappedCard(remote, store.cards, board, list, card, completeFieldId)
  {
    var searchCard := FindByKey(store.cards, (board.id, card.id));
    var dbCard := if searchCard.Some? then searchCard.value else NewRow(board.id, card.id);
    dbCard := dbCard.(status := StatusOf(list.title));
    dbCard := dbCard.(completed := CardCompleteStatus(completeFieldId, card.customFields));
    dbCard := dbCard.(lastActivity := card.dateLastActivity);
    var timestamp := GetCardTimestamp(remote, board, card);
    if timestamp.RouteError? {
      return RouteError(timestamp.status);
    }
    dbCard := dbCard.(info := CardInfo(card.title, Hours(card.spentTime), timestamp.value, card.assignees,
                                       card.startAt, card.dueAt, card.endAt, card.receivedAt));
    return Ok(dbCard);
  }

  // ---------------------------------------------------------------------
  // The change-detection predicate (get_updated_cards, lines 161-163)
  // ---------------------------------------------------------------------

  /** Python's `not title` for an optional string. */
  predicate Blank(title: Option<string>)
  {
    title.None? || title.value == []
  }

  /** Equal `utctimetuple()`s: the same whole UTC second. */
  predicate SameSecond(a: Micros, b: Micros)
  {
    a / 1_000_000 == b / 1_000_000
  }

  /** The baseline key of a remote card: the card's own board id and its id. */
  function CardKey(card: Card): Key
  {
    (card.boardId, card.id)
  }

  /** Whether `card` is re-mapped, with the short-circuit order of the source: the key
      is missing, else the second differs, else the first stored row with this card
      id (any board) has a blank title; no such row is an `IndexError`. */
  function NeedsUpdate(baseline: map<Key, Micros>, rows: seq<CardRow>, card: Card): (r: Result<bool>)
    ensures r.Failure? <==> CardKey(card) in baseline && SameSecond(baseline[CardKey(card)], card.dateLastActivity)
                            && FindByCardId(rows, card.id).None?
    ensures r.Failure? ==> r.error == MissingRow(card.id)
  {
    var key := CardKey(card);
    if key !in baseline then Success(true)
    else if !SameSecond(baseline[key], card.dateLastActivity) then Success(true)
    else
      match FindByCardId(rows, card.id)
      case None => Failure(MissingRow(card.id))
      case Some(row) => Success(Blank(row.info.title))
  }

  /** A card absent from the baseline, or whose activity moved to another second, is re-mapped. */
  lemma ChangedCardIsSelected(baseline: map<Key, Micros>, rows: seq<CardRow>, card: Card)
    requires CardKey(card) !in baseline || !SameSecond(baseline[CardKey(card)], card.dateLastActivity)
    ensures NeedsUpdate(baseline, rows, card) == Success(true)
  {
  }

  /** A stored row with a blank title forces a re-map even when the second matches. */
  lemma BlankTitleIsSelected(baseline: map<Key, Micros>, rows: seq<CardRow>, card: Card)
    requires FindByCardId(rows, card.id).Some? && Blank(FindByCardId(rows, card.id).value.info.title)
    ensures NeedsUpdate(baseline, rows, card) == Success(true)
  {
  }

  /** A cached card in the same second whose first stored row is titled is skipped. */
  lemma UnchangedCardIsSkipped(baseline: map<Key, Micros>, rows: seq<CardRow>, card: Card)
    requires CardKey(card) in baseline && SameSecond(baseline[CardKey(card)], card.dateLastActivity)
    requires FindByCardId(rows, card.id).Some? && !Blank(FindByCardId(rows, card.id).value.info.title)
    ensures NeedsUpdate(baseline, rows, card) == Success(false)
  {
  }

  /** With a baseline read from the same rows, globally or for the card's board,
      the `IndexError` cannot occur. */
  lemma StoreBaselineNeverMisses(rows: seq<CardRow>, card: Card)
    ensures NeedsUpdate(AllActivity(rows), rows, card).Success?
    ensures NeedsUpdate(BoardActivity(rows, card.boardId), rows, card).Success?
  {
  }

  /** Idempotence for one card: once its mapped row is saved (with any user relation),
      a run that sees the same remote card does not select it again, provided its title
      is not blank, it is listed on its own board, and no other board stores its id. */
  lemma SavedCardIsNotReselected(remote: Remote, rows: seq<CardRow>, board: InlineBoard, list: InlineList,
                                 card: Card, completeFieldId: Option<string>, users: seq<DbUser>)
    requires MappedCard(remote, rows, board, list, card, completeFieldId).Ok?
    requires card.boardId == board.id && !Blank(card.title)
    requires UniqueKeys(rows)
    requires forall i :: 0 <= i < |rows| && rows[i].cardId == card.id ==> rows[i].boardId == board.id
    ensures var saved := Upsert(rows, MappedCard(remote, rows, board, list, card, completeFieldId).value.(users := users));
            NeedsUpdate(BoardActivity(saved, board.id), saved, card) == Success(false)
  {
    MappedCardShape(remote, rows, board, list, card, completeFieldId);
    var row := MappedCard(remote, rows, board, list, card, completeFieldId).value.(users := users);
    SavedRowIsItsOwnBaseline(rows, row);
  }

  // ---------------------------------------------------------------------
  // get_updated_cards
  // ---------------------------------------------------------------------

  /** The rows mapped from the selected cards of one list, in card order; the first
      failure (selection or mapping) aborts. */
  function ChangedRows(remote: Remote, rows: seq<CardRow>, board: InlineBoard, baseline: map<Key, Micros>,
                       completeFieldId: Option<string>, list: InlineList, cards: seq<Card>): Result<seq<CardRow>>
  {
    if cards == [] then Success([])
    else WithCard(remote, rows, board, baseline, completeFieldId, list, cards[0],
                  ChangedRows(remote, rows, board, baseline, completeFieldId, list, cards[1..]))
  }

  /** One card's step in front of the result `rest` for the cards after it. */
  function WithCard(remote: Remote, rows: seq<CardRow>, board: InlineBoard, baseline: map<Key, Micros>,
                    completeFieldId: Option<string>, list: InlineList, card: Card,
                    rest: Result<seq<CardRow>>): Result<seq<CardRow>>
  {
    match NeedsUpdate(baseline, rows, card)
    case Failure(e) => Failure(e)
    case Success(selected) =>
      if !selected then rest
      else
        match MappedCard(remote, rows, board, list, card, completeFieldId)
        case RouteError(s) => Failure(Route(s))
        case Ok(row) => PrependSuccess([row], rest)
  }

  /** The rows of every list in turn, each list's full cards fetched first. */
  function ChangedRowsOfLists(remote: Remote, rows: seq<CardRow>, board: InlineBoard, baseline: map<Key, Micros>,
                              completeFieldId: Option<string>, lists: seq<InlineList>): Result<seq<CardRow>>
  {
    if lists == [] then Success([])
    else
      match ListCards(remote, board.id, lists[0].id)
      case RouteError(s) => Failure(Route(s))
      case Ok(cards) =>
        match ChangedRows(remote, rows, board, baseline, completeFieldId, lists[0], cards)
        case Failure(e) => Failure(e)
        case Success(head) =>
          PrependSuccess(head, ChangedRowsOfLists(remote, rows, board, baseline, completeFieldId, lists[1..]))
  }

  /** `get_updated_cards` as a value: the complete-field id is resolved first, then the
      board's lists are fetched and walked. */
  function UpdatedCards(remote: Remote, rows: seq<CardRow>, board: InlineBoard, baseline: map<Key, Micros>): Result<seq<CardRow>>
  {
    match GetCompleteFieldId(remote, board.id)
    case RouteError(s) => Failure(Route(s))
    case Ok(completeFieldId) =>
      match remote.lists(board.id)
      case RouteError(s) => Failure(Route(s))
      case Ok(lists) => ChangedRowsOfLists(remote, rows, board, baseline, completeFieldId, lists)
  }

  /** The cards the predicate selects, in order. */
  function Selected(baseline: map<Key, Micros>, rows: seq<CardRow>, cards: seq<Card>): seq<Card>
  {
    if cards == [] then []
    else (if NeedsUpdate(baseline, rows, cards[0]) == Success(true) then [cards[0]] else [])
         + Selected(baseline, rows, cards[1..])
  }

  /** `ys` is `f` applied to `xs`, one for one and in order, every application succeeding. */
  ghost predicate MapsAll<A, B>(f: A -> Fetch<B>, xs: seq<A>, ys: seq<B>)
  {
    && |ys| == |xs|
    && forall k :: 0 <= k < |ys| ==> f(xs[k]) == Ok(ys[k])
  }

  lemma MapsAllCons<A, B>(f: A -> Fetch<B>, x: A, y: B, xs: seq<A>, ys: seq<B>)
    requires MapsAll(f, xs, ys) && f(x) == Ok(y)
    ensures MapsAll(f, [x] + xs, [y] + ys)
  {
  }

  /** A list's result is exactly the mapping of its selected cards, in card order. */
  lemma {:induction false} ChangedRowsAreSelectedCards(remote: Remote, rows: seq<CardRow>, board: InlineBoard,
                                                       baseline: map<Key, Micros>, completeFieldId: Option<string>,
                                                       list: InlineList, cards: seq<Card>)
    requires ChangedRows(remote, rows, board, baseline, completeFieldId, list, cards).Success?
    ensures MapsAll((c: Card) => MappedCard(remote, rows, board, list, c, completeFieldId),
                    Selected(baseline, rows, cards),
                    ChangedRows(remote, rows, board, baseline, completeFieldId, list, cards).value)
  {
    if cards != [] {
      var tail := ChangedRows(remote, rows, board, baseline, completeFieldId, list, cards[1..]);
      assert ChangedRows(remote, rows, board, baseline, completeFieldId, list, cards)
          == WithCard(remote, rows, board, baseline, completeFieldId, list, cards[0], tail);
      var selTail := Selected(baseline, rows, cards[1..]);
      if NeedsUpdate(baseline, rows, cards[0]) == Success(true) {
        var mapped := MappedCard(remote, rows, board, list, cards[0], completeFieldId);
        assert mapped.Ok? && tail.Success?;
        ChangedRowsAreSelectedCards(remote, rows, board, baseline, completeFieldId, list, cards[1..]);
        MapsAllCons((c: Card) => MappedCard(remote, rows, board, list, c, completeFieldId),
                    cards[0], mapped.value, selTail, tail.value);
        assert Selected(baseline, rows, cards) == [cards[0]] + selTail;
      } else {
        assert NeedsUpdate(baseline, rows, cards[0]) == Success(false);
        ChangedRowsAreSelectedCards(remote, rows, board, baseline, completeFieldId, list, cards[1..]);
        assert Selected(baseline, rows, cards) == selTail;
      }
    }
  }

  /** A list none of whose cards is selected yields no rows. */
  lemma {:induction false} UnchangedListYieldsNothing(remote: Remote, rows: seq<CardRow>, board: InlineBoard,
                                                      baseline: map<Key, Micros>, completeFieldId: Option<string>,
                                                      list: InlineList, cards: seq<Card>)
    requires forall c :: c in cards ==> NeedsUpdate(baseline, rows, c) == Success(false)
    ensures ChangedRows(remote, rows, board, baseline, completeFieldId, list, cards) == Success([])
  {
    if cards != [] {
      assert cards[0] in cards;
      assert forall c :: c in cards[1..] ==> c in cards;
      UnchangedListYieldsNothing(remote, rows, board, baseline, completeFieldId, list, cards[1..]);
    }
  }

  /** Every card of every list is fetched, cached, in the same second and titled. */
  predicate BoardUnchanged(remote: Remote, rows: seq<CardRow>, board: InlineBoard,
                           baseline: map<Key, Micros>, lists: seq<InlineList>)
  {
    forall list :: list in lists ==>
      && ListCards(remote, board.id, list.id).Ok?
      && forall c :: c in ListCards(remote, board.id, list.id).value ==> NeedsUpdate(baseline, rows, c) == Success(false)
  }

  /** If nothing changed on the board, `get_updated_cards` returns nothing. */
  lemma UnchangedBoardYieldsNothing(remote: Remote, rows: seq<CardRow>, board: InlineBoard, baseline: map<Key, Micros>)
    requires GetCompleteFieldId(remote, board.id).Ok? && remote.lists(board.id).Ok?
    requires BoardUnchanged(remote, rows, board, baseline, remote.lists(board.id).value)
    ensures UpdatedCards(remote, rows, board, baseline) == Success([])
  {
    UnchangedListsYieldNothing(remote, rows, board, baseline, GetCompleteFieldId(remote, board.id).value,
                               remote.lists(board.id).value);
  }

  lemma {:induction false} UnchangedListsYieldNothing(remote: Remote, rows: seq<CardRow>, board: InlineBoard,
                                                      baseline: map<Key, Micros>, completeFieldId: Option<string>,
                                                      lists: seq<InlineList>)
    requires BoardUnchanged(remote, rows, board, baseline, lists)
    ensures ChangedRowsOfLists(remote, rows, board, baseline, completeFieldId, lists) == Success([])
  {
    if lists != [] {
      assert lists[0] in lists;
      var cards := ListCards(remote, board.id, lists[0].id).value;
      UnchangedListYieldsNothing(remote, rows, board, baseline, completeFieldId, lists[0], cards);
      assert forall l :: l in lists[1..] ==> l in lists;
      UnchangedListsYieldNothing(remote, rows, board, baseline, completeFieldId, lists[1..]);
      var none: seq<CardRow> := [];
      assert none + none == none;
    }
  }

  /** A card's own contribution: its row when it is selected and mapped, nothing when
      it is skipped, or the failure that aborts the list. */
  function CardOutcome(remote: Remote, rows: seq<CardRow>, board: InlineBoard, baseline: map<Key, Micros>,
                       completeFieldId: Option<string>, list: InlineList, card: Card): Result<seq<CardRow>>
  {
    WithCard(remote, rows, board, baseline, completeFieldId, list, card, Success([]))
  }

  /** A card's step is its own contribution put in front of the rest. */
  lemma WithCardIsOutcomeFirst(remote: Remote, rows: seq<CardRow>, board: InlineBoard, baseline: map<Key, Micros>,
                               completeFieldId: Option<string>, list: InlineList, card: Card, rest: Result<seq<CardRow>>)
    ensures WithCard(remote, rows, board, baseline, completeFieldId, list, card, rest)
         == match CardOutcome(remote, rows, board, baseline, completeFieldId, list, card)
            case Failure(e) => Failure(e)
            case Success(head) => PrependSuccess(head, rest)
  {
    var none: seq<CardRow> := [];
    if rest.Success? {
      assert none + rest.value == rest.value;
    }
    var mapped := MappedCard(remote, rows, board, list, card, completeFieldId);
    if mapped.Ok? {
      assert [mapped.value] + none == [mapped.value];
    }
  }

  /** The selection and mapping of one card of a list. */
  method MapIfChanged(remote: Remote, store: Store, board: InlineBoard, baseline: map<Key, Micros>,
                      completeFieldId: Option<string>, list: InlineList, card: Card)
    returns (r: Result<seq<CardRow>>)
    ensures r == CardOutcome(remote, store.cards, board, baseline, completeFieldId, list, card)
  {
    var selected := NeedsUpdate(baseline, store.cards, card);
    if selected.Failure? {
      return Failure(selected.error);
    }
    if !selected.value {
      return Success([]);
    }
    var mapped := MapCardToDatabase(remote, store, board, list, card, completeFieldId);
    if mapped.RouteError? {
      return Failure(Route(mapped.status));
    }
    assert [mapped.value] + [] == [mapped.value];
    return Success([mapped.value]);
  }

  /** One step of the inner loop: a failing card's outcome is the list's result; otherwise
      its rows join the ones collected so far. */
  lemma ChangedRowsStep(remote: Remote, rows: seq<CardRow>, board: InlineBoard, baseline: map<Key, Micros>,
                        completeFieldId: Option<string>, list: InlineList, rest: seq<Card>,
                        updated: seq<CardRow>, outcome: Result<seq<CardRow>>, all: Result<seq<CardRow>>)
    requires rest != []
    requires all == PrependSuccess(updated, ChangedRows(remote, rows, board, baseline, completeFieldId, list, rest))
    requires outcome == CardOutcome(remote, rows, board, baseline, completeFieldId, list, rest[0])
    ensures outcome.Failure? ==> all == outcome
    ensures outcome.Success? ==>
      all == PrependSuccess(updated + outcome.value, ChangedRows(remote, rows, board, baseline, completeFieldId, list, rest[1..]))
  {
    var tail := ChangedRows(remote, rows, board, baseline, completeFieldId, list, rest[1..]);
    WithCardIsOutcomeFirst(remote, rows, board, baseline, completeFieldId, list, rest[0], tail);
    if outcome.Success? {
      PrependSuccessTwice(updated, outcome.value, tail);
    }
  }

  /** The inner loop of `get_updated_cards` over one list's full cards. */
  method MapChangedCards(remote: Remote, store: Store, board: InlineBoard, baseline: map<Key, Micros>,
                         completeFieldId: Option<string>, list: InlineList, cards: seq<Card>)
    returns (r: Result<seq<CardRow>>)
    ensures r == ChangedRows(remote, store.cards, board, baseline, completeFieldId, list, cards)
  {
    ghost var all := ChangedRows(remote, store.cards, board, baseline, completeFieldId, list, cards);
    var updated: seq<CardRow> := [];
    var rest := cards;
    PrependSuccessNothing(all);
    while rest != []
      invariant all == PrependSuccess(updated, ChangedRows(remote, store.cards, board, baseline, completeFieldId, list, rest))
    {
      var outcome := MapIfChanged(remote, store, board, baseline, completeFieldId, list, rest[0]);
      ChangedRowsStep(remote, store.cards, board, baseline, completeFieldId, list, rest, updated, outcome, all);
      if outcome.Failure? {
        return outcome;
      }
      updated := updated + outcome.value;
      rest := rest[1..];
    }
    assert updated + [] == updated;
    return Success(updated);
  }

  /** One step of the outer loop: a list whose cards cannot be read, or whose inner loop
      fails, decides the board's result; otherwise its rows join the ones collected so far. */
  lemma ChangedRowsOfListsStep(remote: Remote, rows: seq<CardRow>, board: InlineBoard, baseline: map<Key, Micros>,
                               completeFieldId: Option<string>, rest: seq<InlineList>, updated: seq<CardRow>,
                               all: Result<seq<CardRow>>)
    requires rest != []
    requires all == PrependSuccess(updated, ChangedRowsOfLists(remote, rows, board, baseline, completeFieldId, rest))
    ensures ListCards(remote, board.id, rest[0].id).RouteError? ==>
      all == Failure(Route(ListCards(remote, board.id, rest[0].id).status))
    ensures ListCards(remote, board.id, rest[0].id).Ok? ==>
      var mapped := ChangedRows(remote, rows, board, baseline, completeFieldId, rest[0], ListCards(remote, board.id, rest[0].id).value);
      && (mapped.Failure? ==> all == Failure(mapped.error))
      && (mapped.Success? ==>
            all == PrependSuccess(updated + mapped.value, ChangedRowsOfLists(remote, rows, board, baseline, completeFieldId, rest[1..])))
  {
    var listed := ListCards(remote, board.id, rest[0].id);
    if listed.Ok? {
      var mapped := ChangedRows(remote, rows, board, baseline, completeFieldId, rest[0], listed.value);
      if mapped.Success? {
        PrependSuccessTwice(updated, mapped.value, ChangedRowsOfLists(remote, rows, board, baseline, completeFieldId, rest[1..]));
      }
    }
  }

  /** `get_updated_cards`. */
  method GetUpdatedCards(remote: Remote, store: Store, board: InlineBoard, cardsLastActivity: map<Key, Micros>)
    returns (r: Result<seq<CardRow>>)
    ensures r == UpdatedCards(remote, store.cards, board, cardsLastActivity)
  {
    var completeFieldId := GetCompleteFieldId(remote, board.id);
    if completeFieldId.RouteError? {
      return Failure(Route(completeFieldId.status));
    }
    var listed := remote.lists(board.id);
    if listed.RouteError? {
      return Failure(Route(listed.status));
    }
    ghost var all := ChangedRowsOfLists(remote, store.cards, board, cardsLastActivity, completeFieldId.value, listed.value);
    var updated: seq<CardRow> := [];
    var rest := listed.value;
    PrependSuccessNothing(all);
    while rest != []
      invariant all == PrependSuccess(updated, ChangedRowsOfLists(remote, store.cards, board, cardsLastActivity,
                                                                  completeFieldId.value, rest))
    {
      ChangedRowsOfListsStep(remote, store.cards, board, cardsLastActivity, completeFieldId.value, rest, updated, all);
      var cards := GetListCards(remote, board, rest[0]);
      if cards.RouteError? {
        return Failure(Route(cards.status));
      }
      var mapped := MapChangedCards(remote, store, board, cardsLastActivity, completeFieldId.value, rest[0], cards.value);
      if mapped.Failure? {
        return Failure(mapped.error);
      }
      updated := updated + mapped.value;
      rest := rest[1..];
    }
    assert updated + [] == updated;
    return Success(updated);
  }

}
