/** The adapter's fetch loops: full cards of a list, a card's completion
    timestamp mined from its comments, and the user directory. */
module AdapterFetch {
  import opened Common
  import opened Responses
  import opened Api

  // ---------------------------------------------------------------------
  // get_list_cards
  // ---------------------------------------------------------------------

  /** A detail fetch that aborts the listing: any failure other than 204. */
  predicate HardFailure<T>(f: Fetch<T>)
  {
    f.RouteError? && f.status != NoContent
  }

  /** The full cards of `summaries`, in order, skipping those whose fetch gave 204;
      the first other failure aborts. */
  function FullCards(remote: Remote, boardId: string, listId: string, summaries: seq<InlineCard>): Fetch<seq<Card>>
  {
    if summaries == [] then Ok([])
    else
      var rest := FullCards(remote, boardId, listId, summaries[1..]);
      match remote.card(boardId, listId, summaries[0].id)
      case Ok(c) => PrependOk([c], rest)
      case RouteError(s) => if s == NoContent then rest else RouteError(s)
  }

  /** `get_list_cards` as a value: a failed card listing propagates whatever its status. */
  function ListCards(remote: Remote, boardId: string, listId: string): Fetch<seq<Card>>
  {
    match remote.cards(boardId, listId)
    case RouteError(s) => RouteError(s)
    case Ok(summaries) => FullCards(remote, boardId, listId, summaries)
  }

  /** The cards whose detail fetch succeeded, in summary order (reference definition,
      without any failure handling). */
  function Delivered(remote: Remote, boardId: string, listId: string, summaries: seq<InlineCard>): seq<Card>
  {
    if summaries == [] then []
    else
      var head := remote.card(boardId, listId, summaries[0].id);
      (if head.Ok? then [head.value] else []) + Delivered(remote, boardId, listId, summaries[1..])
  }

  /** The detail fetch of `summaries[k]` is the first one that aborts the listing. */
  predicate FirstHardFailureAt(remote: Remote, boardId: string, listId: string, summaries: seq<InlineCard>, k: int)
  {
    && 0 <= k < |summaries|
    && HardFailure(remote.card(boardId, listId, summaries[k].id))
    && forall j :: 0 <= j < k ==> !HardFailure(remote.card(boardId, listId, summaries[j].id))
  }

  /** The listing fails exactly when some detail fetch fails with a status other than
      204, and then with the first such status; otherwise it yields exactly the
      successfully fetched cards in summary order. */
  lemma {:induction false} FullCardsCharacterized(remote: Remote, boardId: string, listId: string, summaries: seq<InlineCard>)
    ensures var r := FullCards(remote, boardId, listId, summaries);
      && (r.Ok? <==> forall k :: 0 <= k < |summaries| ==> !HardFailure(remote.card(boardId, listId, summaries[k].id)))
      && (r.Ok? ==> r.value == Delivered(remote, boardId, listId, summaries))
      && (r.RouteError? ==>
            exists k :: FirstHardFailureAt(remote, boardId, listId, summaries, k)
                        && remote.card(boardId, listId, summaries[k].id) == RouteError(r.status))
  {
    if summaries != [] {
      var tail := summaries[1..];
      FullCardsCharacterized(remote, boardId, listId, tail);
      var r := FullCards(remote, boardId, listId, summaries);
      var rest := FullCards(remote, boardId, listId, tail);
      var head := remote.card(boardId, listId, summaries[0].id);
      assert forall k :: 1 <= k < |summaries| ==> summaries[k] == tail[k - 1];
      if r.RouteError? {
        if HardFailure(head) {
          assert FirstHardFailureAt(remote, boardId, listId, summaries, 0);
        } else {
          var k :| FirstHardFailureAt(remote, boardId, listId, tail, k)
                   && remote.card(boardId, listId, tail[k].id) == RouteError(rest.status);
          assert summaries[k + 1] == tail[k];
          assert FirstHardFailureAt(remote, boardId, listId, summaries, k + 1);
        }
      }
    }
  }

  /** `get_list_cards`. */
  method GetListCards(remote: Remote, board: InlineBoard, list: InlineList) returns (r: Fetch<seq<Card>>)
    ensures r == ListCards(remote, board.id, list.id)
  {
    var listed := remote.cards(board.id, list.id);
    if listed.RouteError? {
      return RouteError(listed.status);
    }
    var summaries := listed.value;
    var allCards: seq<Card> := [];
    var i := 0;
    assert summaries[i..] == summaries;
    PrependOkNothing(FullCards(remote, board.id, list.id, summaries));
    while i < |summaries|
      invariant 0 <= i <= |summaries|
      invariant FullCards(remote, board.id, list.id, summaries)
             == PrependOk(allCards, FullCards(remote, board.id, list.id, summaries[i..]))
    {
      assert summaries[i..][1..] == summaries[i + 1..];
      var fetched := remote.card(board.id, list.id, summaries[i].id);
      match fetched {
        case Ok(c) =>
          PrependOkTwice(allCards, [c], FullCards(remote, board.id, list.id, summaries[i + 1..]));
          allCards := allCards + [c];
        case RouteError(s) =>
          if s != NoContent {
            return RouteError(s);
          }
      }
      i := i + 1;
    }
    assert summaries[i..] == [];
    assert allCards + [] == allCards;
    return Ok(allCards);
  }

  // ---------------------------------------------------------------------
  // get_card_timestamp
  // ---------------------------------------------------------------------

  /** The phrase a comment carries once the card's hours were submitted. */
  const Marker: string := "Часы успешно отправлены в кабинет."

  predicate IsMarked(c: InlineComment)
  {
    Contains(c.comment, Marker)
  }

  /** The detail fetch of comment `c` of card `cardId`. */
  function Detail(remote: Remote, boardId: string, cardId: string, c: InlineComment): Fetch<Comment>
  {
    remote.comment(boardId, cardId, c.id)
  }

  /** The scan passes `c` without failing: it is unmarked, or its detail fetch succeeds. */
  predicate Passes(remote: Remote, boardId: string, cardId: string, c: InlineComment)
  {
    !IsMarked(c) || Detail(remote, boardId, cardId, c).Ok?
  }

  /** Position of the first comment whose detail fetch fails, or `|cs|`. */
  function FirstFailing(remote: Remote, boardId: string, cardId: string, cs: seq<InlineComment>): (k: nat)
    ensures k <= |cs|
    ensures forall j :: 0 <= j < k ==> Passes(remote, boardId, cardId, cs[j])
    ensures k < |cs| ==> !Passes(remote, boardId, cardId, cs[k])
  {
    FirstIndex(cs, (c: InlineComment) => !Passes(remote, boardId, cardId, c))
  }

  /** Position of the last marked comment in list order. */
  function LastMarked(cs: seq<InlineComment>): (r: Option<nat>)
    ensures r.None? <==> forall j :: 0 <= j < |cs| ==> !IsMarked(cs[j])
    ensures r.Some? ==> r.value < |cs| && IsMarked(cs[r.value])
                        && forall j :: r.value < j < |cs| ==> !IsMarked(cs[j])
  {
    if cs == [] then None
    else if IsMarked(cs[|cs| - 1]) then Some(|cs| - 1)
    else
      var r := LastMarked(cs[..|cs| - 1]);
      assert forall j :: 0 <= j < |cs| - 1 ==> cs[..|cs| - 1][j] == cs[j];
      r
  }

  /** Creation time of the last marked comment among the first `k`, all of which pass. */
  function LastMarkTime(remote: Remote, boardId: string, cardId: string, cs: seq<InlineComment>, k: nat): Option<Micros>
    requires k <= |cs|
    requires forall j :: 0 <= j < k ==> Passes(remote, boardId, cardId, cs[j])
  {
    match LastMarked(cs[..k])
    case None => None
    case Some(j) =>
      assert cs[..k][j] == cs[j];
      assert Passes(remote, boardId, cardId, cs[j]);
      Some(Detail(remote, boardId, cardId, cs[j]).value.createdAt)
  }

  /** The completion timestamp mined from a non-empty comment list: the creation time of
      the last marked comment before the first failing detail fetch.  A 204 there ends
      the scan with what was found so far; any other status propagates. */
  function CommentsTimestamp(remote: Remote, boardId: string, cardId: string, cs: seq<InlineComment>): Fetch<Option<Micros>>
  {
    var k := FirstFailing(remote, boardId, cardId, cs);
    if k < |cs| && Detail(remote, boardId, cardId, cs[k]).status != NoContent
    then RouteError(Detail(remote, boardId, cardId, cs[k]).status)
    else Ok(LastMarkTime(remote, boardId, cardId, cs, k))
  }

  /** `get_card_timestamp` as a value: failing to list the comments always propagates. */
  function CardTimestamp(remote: Remote, boardId: string, cardId: string): Fetch<Option<Micros>>
  {
    match remote.comments(boardId, cardId)
    case RouteError(s) => RouteError(s)
    case Ok(cs) => if cs == [] then Ok(None) else CommentsTimestamp(remote, boardId, cardId, cs)
  }

  /** Last match in list order wins, whatever the creation times. */
  lemma LastMarkedWins(remote: Remote, boardId: string, cardId: string, cs: seq<InlineComment>, i: nat)
    requires i < |cs| && IsMarked(cs[i])
    requires forall j :: i < j < |cs| ==> !IsMarked(cs[j])
    requires forall j :: 0 <= j < |cs| ==> Passes(remote, boardId, cardId, cs[j])
    ensures Detail(remote, boardId, cardId, cs[i]).Ok?
    ensures CommentsTimestamp(remote, boardId, cardId, cs) == Ok(Some(Detail(remote, boardId, cardId, cs[i]).value.createdAt))
  {
  }

  /** Without a marked comment there is no timestamp, and nothing is fetched that could fail. */
  lemma NoMarkNoTimestamp(remote: Remote, boardId: string, cardId: string, cs: seq<InlineComment>)
    requires forall j :: 0 <= j < |cs| ==> !IsMarked(cs[j])
    ensures CommentsTimestamp(remote, boardId, cardId, cs) == Ok(None)
  {
  }

  /** `get_card_timestamp`. */
  method GetCardTimestamp(remote: Remote, board: InlineBoard, card: Card) returns (r: Fetch<Option<Micros>>)
    ensures r == CardTimestamp(remote, board.id, card.id)
  {
    var listed := remote.comments(board.id, card.id);
    if listed.RouteError? {
      return RouteError(listed.status);
    }
    var allComments := listed.value;
    var timestamp: Option<Micros> := None;
    if allComments != [] {
      var i := 0;
      while i < |allComments|
        invariant 0 <= i <= |allComments|
        invariant forall j :: 0 <= j < i ==> Passes(remote, board.id, card.id, allComments[j])
        invariant timestamp == LastMarkTime(remote, board.id, card.id, allComments, i)
      {
        var c := allComments[i];
        assert allComments[..i + 1][..i] == allComments[..i];
        if IsMarked(c) {
          var current := remote.comment(board.id, card.id, c.id);
          if current.RouteError? {
            // The exception leaves the loop; only 204 is swallowed.
            if current.status != NoContent {
              return RouteError(current.status);
            }
            return Ok(timestamp);
          }
          timestamp := Some(current.value.createdAt);
        }
        i := i + 1;
      }
      assert allComments[..i] == allComments;
    }
    return Ok(timestamp);
  }

  // ---------------------------------------------------------------------
  // get_users
  // ---------------------------------------------------------------------

  /** Fills `acc` with the full user of every summary in turn; the first failure aborts. */
  function UsersInto(remote: Remote, summaries: seq<InlineUser>, acc: map<string, User>): Fetch<map<string, User>>
  {
    if summaries == [] then Ok(acc)
    else
      match remote.user(summaries[0].id)
      case RouteError(s) => RouteError(s)
      case Ok(u) => UsersInto(remote, summaries[1..], acc[summaries[0].id := u])
  }

  /** `get_users` as a value. */
  function Users(remote: Remote): Fetch<map<string, User>>
  {
    match remote.users
    case RouteError(s) => RouteError(s)
    case Ok(summaries) => UsersInto(remote, summaries, map[])
  }

  /** The ids of the listed users. */
  function UserIds(summaries: seq<InlineUser>): set<string>
  {
    set k | 0 <= k < |summaries| :: summaries[k].id
  }

  lemma UserIdsOfTail(summaries: seq<InlineUser>)
    requires summaries != []
    ensures UserIds(summaries) == {summaries[0].id} + UserIds(summaries[1..])
  {
  }

  /** The fetch of `summaries[k]` is the first user fetch that fails. */
  predicate FirstUserFailureAt(remote: Remote, summaries: seq<InlineUser>, k: int)
  {
    && 0 <= k < |summaries|
    && remote.user(summaries[k].id).RouteError?
    && forall j :: 0 <= j < k ==> remote.user(summaries[j].id).Ok?
  }

  /** When every user fetch succeeds, the directory gains exactly the listed ids, each
      mapped to its full user, and keeps the rest of `acc`; otherwise it fails with the
      status of the first failing fetch. */
  lemma {:induction false} UsersIntoCharacterized(remote: Remote, summaries: seq<InlineUser>, acc: map<string, User>)
    ensures var r := UsersInto(remote, summaries, acc);
      && (r.Ok? <==> forall k :: 0 <= k < |summaries| ==> remote.user(summaries[k].id).Ok?)
      && (r.Ok? ==> r.value.Keys == acc.Keys + UserIds(summaries))
      && (r.Ok? ==> forall k :: 0 <= k < |summaries| ==> r.value[summaries[k].id] == remote.user(summaries[k].id).value)
      && (r.Ok? ==> forall id :: id in acc && id !in UserIds(summaries) ==> r.value[id] == acc[id])
      && (r.RouteError? ==>
            exists k :: FirstUserFailureAt(remote, summaries, k) && remote.user(summaries[k].id).status == r.status)
  {
    if summaries != [] {
      var tail := summaries[1..];
      var head := remote.user(summaries[0].id);
      assert forall k :: 1 <= k < |summaries| ==> summaries[k] == tail[k - 1];
      UserIdsOfTail(summaries);
      if head.Ok? {
        var acc' := acc[summaries[0].id := head.value];
        UsersIntoCharacterized(remote, tail, acc');
        var r := UsersInto(remote, summaries, acc);
        if r.RouteError? {
          var k :| FirstUserFailureAt(remote, tail, k) && remote.user(tail[k].id).status == r.status;
          assert summaries[k + 1] == tail[k];
          assert FirstUserFailureAt(remote, summaries, k + 1);
        }
      } else {
        assert FirstUserFailureAt(remote, summaries, 0);
      }
    }
  }

  /** `get_users`. */
  method GetUsers(remote: Remote) returns (r: Fetch<map<string, User>>)
    ensures r == Users(remote)
  {
    if remote.users.RouteError? {
      return RouteError(remote.users.status);
    }
    var summaries := remote.users.value;
    var users: map<string, User> := map[];
    var i := 0;
    while i < |summaries|
      invariant 0 <= i <= |summaries|
      invariant UsersInto(remote, summaries, map[]) == UsersInto(remote, summaries[i..], users)
    {
      assert summaries[i..][1..] == summaries[i + 1..];
      var fetched := remote.user(summaries[i].id);
      if fetched.RouteError? {
        return RouteError(fetched.status);
      }
      users := users[summaries[i].id := fetched.value];
      i := i + 1;
    }
    assert summaries[i..] == [];
    return Ok(users);
  }
}
