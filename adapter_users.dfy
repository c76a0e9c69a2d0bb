/** `map_users_with_db`: every mapped card gets the local users its assignees resolve
    to (through the slug of their first e-mail address) and is then saved. */
module UserReconciler {
  import opened Common
  import opened Responses
  import opened Api
  import opened Database

  /** `address.split("@")[0]`: the text before the first '@', or all of it. */
  function SlugOf(address: string): (slug: string)
    ensures slug <= address
    ensures '@' !in slug
    ensures |slug| < |address| ==> address[|slug|] == '@'
  {
    var i := FirstIndex(address, (c: char) => c == '@');
    assert forall j :: 0 <= j < i ==> address[..i][j] == address[j];
    address[..i]
  }

  /** The slug of `local@domain` is `local`, whatever the domain holds. */
  lemma SlugOfAddress(local: string, domain: string)
    requires '@' !in local
    ensures SlugOf(local + "@" + domain) == local
  {
    var address := local + "@" + domain;
    var slug := SlugOf(address);
    assert address[|local|] == '@';
    assert |slug| == |local|;
    assert slug == address[..|local|] == local;
  }

  /** Python's truth value of `user.emails`. */
  predicate HasEmail(user: User)
  {
    user.emails.Some? && user.emails.value != []
  }

  /** The local user one assignee resolves to: the user is fetched (any route error,
      204 included, propagates); with an e-mail, the slug of the first address is
      looked up among the local users; without one, or with no match, nothing. */
  function AssigneeMatch(remote: Remote, users: map<string, DbUser>, assignee: string): (r: Fetch<Option<DbUser>>)
    ensures r.Ok? <==> remote.user(assignee).Ok?
    ensures r.RouteError? ==> r.status == remote.user(assignee).status
    ensures r.Ok? ==> (r.value.Some? <==> HasEmail(remote.user(assignee).value)
                                          && SlugOf(remote.user(assignee).value.emails.value[0].address) in users)
    ensures r.Ok? && r.value.Some? ==>
              r.value.value == users[SlugOf(remote.user(assignee).value.emails.value[0].address)]
  {
    match remote.user(assignee)
    case RouteError(s) => RouteError(s)
    case Ok(user) =>
      if HasEmail(user) then
        var slug := SlugOf(user.emails.value[0].address);
        Ok(if slug in users then Some(users[slug]) else None)
      else Ok(None)
  }

  /** The local users the assignees resolve to, in assignee order, skipping those
      without a match; the first route error aborts. */
  function ResolvedUsers(remote: Remote, users: map<string, DbUser>, assignees: seq<string>): (r: Fetch<seq<DbUser>>)
    ensures r.Ok? <==> forall a :: a in assignees ==> remote.user(a).Ok?
    ensures r.Ok? ==> |r.value| <= |assignees|
    ensures r.Ok? ==> forall u :: u in r.value ==> u in users.Values
  {
    if assignees == [] then Ok([])
    else
      var rest := ResolvedUsers(remote, users, assignees[1..]);
      assert forall a :: a in assignees <==> a == assignees[0] || a in assignees[1..];
      match AssigneeMatch(remote, users, assignees[0])
      case RouteError(s) => RouteError(s)
      case Ok(found) => PrependOk(if found.Some? then [found.value] else [], rest)
  }

  /** Resolution is per assignee and keeps assignee order: resolving `a + b` gives the
      users of `a` followed by those of `b`. */
  lemma {:induction false} ResolvedUsersAppend(remote: Remote, users: map<string, DbUser>, a: seq<string>, b: seq<string>)
    requires ResolvedUsers(remote, users, a).Ok? && ResolvedUsers(remote, users, b).Ok?
    ensures ResolvedUsers(remote, users, a + b)
         == Ok(ResolvedUsers(remote, users, a).value + ResolvedUsers(remote, users, b).value)
  {
    if a == [] {
      assert a + b == b;
      assert ResolvedUsers(remote, users, a).value == [];
      assert [] + ResolvedUsers(remote, users, b).value == ResolvedUsers(remote, users, b).value;
    } else {
      assert (a + b)[0] == a[0] && (a + b)[1..] == a[1..] + b;
      assert forall x :: x in a[1..] ==> x in a;
      ResolvedUsersAppend(remote, users, a[1..], b);
      assert a[0] in a;
      var found := AssigneeMatch(remote, users, a[0]).value;
      var head := if found.Some? then [found.value] else [];
      var restA := ResolvedUsers(remote, users, a[1..]).value;
      var restB := ResolvedUsers(remote, users, b).value;
      assert ResolvedUsers(remote, users, a) == Ok(head + restA);
      assert ResolvedUsers(remote, users, a + b) == Ok(head + (restA + restB));
      assert head + (restA + restB) == (head + restA) + restB;
    }
  }

  /** The inner loop of `map_users_with_db` over one card's assignees. */
  method ResolveAssignees(remote: Remote, store: Store, assignees: seq<string>) returns (r: Fetch<seq<DbUser>>)
    ensures r == ResolvedUsers(remote, store.users, assignees)
  {
    var users := store.users;
    var resolved: seq<DbUser> := [];
    var i := 0;
    assert assignees[i..] == assignees;
    PrependOkNothing(ResolvedUsers(remote, users, assignees));
    while i < |assignees|
      invariant 0 <= i <= |assignees|
      invariant ResolvedUsers(remote, users, assignees) == PrependOk(resolved, ResolvedUsers(remote, users, assignees[i..]))
    {
      assert assignees[i..][1..] == assignees[i + 1..];
      var user := remote.user(assignees[i]);
      if user.RouteError? {
        return RouteError(user.status);
      }
      var found: seq<DbUser> := [];
      if HasEmail(user.value) {
        var slug := SlugOf(user.value.emails.value[0].address);
        if slug in users {
          found := [users[slug]];
        }
      }
      PrependOkTwice(resolved, found, ResolvedUsers(remote, users, assignees[i + 1..]));
      resolved := resolved + found;
      i := i + 1;
    }
    assert assignees[i..] == [];
    assert resolved + [] == resolved;
    return Ok(resolved);
  }

  /** One card document: its assignees are resolved, and it is saved with them unless
      encoding overflows; a route error leaves the rows alone. */
  function SaveWithUsers(remote: Remote, users: map<string, DbUser>, rows: seq<CardRow>, doc: CardRow)
    : (r: Fetch<seq<CardRow>>)
    ensures r.Ok? <==> ResolvedUsers(remote, users, doc.info.assignees).Ok?
    ensures r.RouteError? ==> r.status == ResolvedUsers(remote, users, doc.info.assignees).status
    ensures r.Ok? && UniqueKeys(rows) ==> UniqueKeys(r.value)
  {
    match ResolvedUsers(remote, users, doc.info.assignees)
    case RouteError(s) => RouteError(s)
    case Ok(assignees) =>
      var saved := doc.(users := assignees);
      if Encodable(saved) then
        assert UniqueKeys(rows) ==> UniqueKeys(Upsert(rows, saved)) by {
          if UniqueKeys(rows) {
            UpsertKeepsUnique(rows, saved);
          }
        }
        Ok(Upsert(rows, saved))
      else
        Ok(rows)
  }

  /** The card documents with their user relations set, one after another, each saved
      unless encoding overflows (then it is skipped); the first route error aborts,
      leaving the saves made before it in place. */
  function Reconcile(remote: Remote, users: map<string, DbUser>, rows: seq<CardRow>, docs: seq<CardRow>)
    : (r: (Fetch<()>, seq<CardRow>))
    ensures r.0.Ok? <==> forall d :: d in docs ==> ResolvedUsers(remote, users, d.info.assignees).Ok?
    ensures UniqueKeys(rows) ==> UniqueKeys(r.1)
    decreases |docs|
  {
    if docs == [] then (Ok(()), rows)
    else
      assert forall d :: d in docs <==> d == docs[0] || d in docs[1..];
      match SaveWithUsers(remote, users, rows, docs[0])
      case RouteError(s) => (RouteError(s), rows)
      case Ok(next) => Reconcile(remote, users, next, docs[1..])
  }

  /** A key no document carries finds the same row after reconciliation. */
  lemma {:induction false} ReconcileKeepsOthers(remote: Remote, users: map<string, DbUser>, rows: seq<CardRow>,
                                                docs: seq<CardRow>, key: Key)
    requires forall i :: 0 <= i < |docs| ==> KeyOf(docs[i]) != key
    ensures FindByKey(Reconcile(remote, users, rows, docs).1, key) == FindByKey(rows, key)
    decreases |docs|
  {
    if docs != [] {
      var resolved := ResolvedUsers(remote, users, docs[0].info.assignees);
      if resolved.Ok? {
        var doc := docs[0].(users := resolved.value);
        assert KeyOf(doc) == KeyOf(docs[0]) != key;
        var next := SaveWithUsers(remote, users, rows, docs[0]).value;
        UpsertKeepsOthers(rows, doc, key);
        assert forall i :: 0 <= i < |docs[1..]| ==> docs[1..][i] == docs[i + 1];
        ReconcileKeepsOthers(remote, users, next, docs[1..], key);
      }
    }
  }

  /** After a successful run, each document (keys distinct) is found under its key
      with its resolved users when it could be encoded; otherwise the stored row is
      what it was. */
  lemma {:induction false} ReconcileSavesFittingCards(remote: Remote, users: map<string, DbUser>, rows: seq<CardRow>,
                                                      docs: seq<CardRow>, i: nat)
    requires Reconcile(remote, users, rows, docs).0.Ok?
    requires i < |docs|
    requires forall j :: 0 <= j < |docs| && j != i ==> KeyOf(docs[j]) != KeyOf(docs[i])
    ensures ResolvedUsers(remote, users, docs[i].info.assignees).Ok?
    ensures var doc := docs[i].(users := ResolvedUsers(remote, users, docs[i].info.assignees).value);
            FindByKey(Reconcile(remote, users, rows, docs).1, KeyOf(doc))
              == if Encodable(doc) then Some(doc) else FindByKey(rows, KeyOf(doc))
    decreases i
  {
    assert docs[i] in docs;
    var first := docs[0].(users := ResolvedUsers(remote, users, docs[0].info.assignees).value);
    var next := SaveWithUsers(remote, users, rows, docs[0]).value;
    assert Reconcile(remote, users, rows, docs) == Reconcile(remote, users, next, docs[1..]);
    assert forall j :: 0 <= j < |docs[1..]| ==> docs[1..][j] == docs[j + 1];
    if i == 0 {
      ReconcileKeepsOthers(remote, users, next, docs[1..], KeyOf(first));
      UpsertFinds(rows, first);
    } else {
      ReconcileSavesFittingCards(remote, users, next, docs[1..], i - 1);
      UpsertKeepsOthers(rows, first, KeyOf(docs[i]));
    }
  }

  /** An aborted run stops at the first document whose assignees cannot be resolved:
      every earlier document resolves, the reported status is that document's, and the
      store holds exactly the saves of the documents before it. */
  lemma ReconcileAbortKeepsEarlierSaves(remote: Remote, users: map<string, DbUser>,
                                        rows: seq<CardRow>, docs: seq<CardRow>)
    requires Reconcile(remote, users, rows, docs).0.RouteError?
    ensures exists k :: (0 <= k < |docs|
      && (forall j :: 0 <= j < k ==> ResolvedUsers(remote, users, docs[j].info.assignees).Ok?)
      && ResolvedUsers(remote, users, docs[k].info.assignees)
         == RouteError(Reconcile(remote, users, rows, docs).0.status)
      && Reconcile(remote, users, rows, docs).1 == Reconcile(remote, users, rows, docs[..k]).1)
  {
    var k := AbortPoint(remote, users, rows, docs);
  }

  /** The position of the document an aborted run stops at. */
  lemma {:induction false} AbortPoint(remote: Remote, users: map<string, DbUser>,
                                      rows: seq<CardRow>, docs: seq<CardRow>) returns (k: nat)
    requires Reconcile(remote, users, rows, docs).0.RouteError?
    ensures k < |docs|
    ensures forall j :: 0 <= j < k ==> ResolvedUsers(remote, users, docs[j].info.assignees).Ok?
    ensures ResolvedUsers(remote, users, docs[k].info.assignees)
         == RouteError(Reconcile(remote, users, rows, docs).0.status)
    ensures Reconcile(remote, users, rows, docs).1 == Reconcile(remote, users, rows, docs[..k]).1
    decreases |docs|
  {
    var step := SaveWithUsers(remote, users, rows, docs[0]);
    if step.RouteError? {
      k := 0;
      var none: seq<CardRow> := [];
      assert docs[..0] == none;
    } else {
      var next := step.value;
      assert Reconcile(remote, users, rows, docs) == Reconcile(remote, users, next, docs[1..]);
      var k' := AbortPoint(remote, users, next, docs[1..]);
      k := k' + 1;
      var prefix := docs[..k];
      PrefixOfTail(docs, k);
      assert Reconcile(remote, users, rows, prefix) == Reconcile(remote, users, next, docs[1..][..k']);
      forall j | 0 <= j < k
        ensures ResolvedUsers(remote, users, docs[j].info.assignees).Ok?
      {
        if j > 0 {
          assert docs[j] == docs[1..][j - 1];
        }
      }
    }
  }

  /** `map_users_with_db`. */
  method MapUsersWithDb(remote: Remote, store: Store, board: InlineBoard, dbCards: seq<CardRow>)
    returns (r: Fetch<()>)
    requires store.Valid()
    modifies store
    ensures store.Valid()
    ensures store.users == old(store.users)
    ensures (r, store.cards) == Reconcile(remote, store.users, old(store.cards), dbCards)
  {
    var i := 0;
    assert dbCards[i..] == dbCards;
    while i < |dbCards|
      invariant 0 <= i <= |dbCards|
      invariant store.Valid() && store.users == old(store.users)
      invariant Reconcile(remote, store.users, old(store.cards), dbCards)
             == Reconcile(remote, store.users, store.cards, dbCards[i..])
    {
      assert dbCards[i..][1..] == dbCards[i + 1..];
      var card := dbCards[i];
      var assignees := ResolveAssignees(remote, store, card.info.assignees);
      if assignees.RouteError? {
        return RouteError(assignees.status);
      }
      card := card.(users := assignees.value);
      var saved := store.Save(card);
      i := i + 1;
    }
    assert dbCards[i..] == [];
    return Ok(());
  }
}
