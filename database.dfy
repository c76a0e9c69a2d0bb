/** The document store: persisted card rows keyed by (board id, card id) and the
    local users, keyed by slug.  Queries return the first matching row. */
module Database {
  import opened Common
  import opened Responses

  datatype Status = New | InProgress | Review | Completed | Archive | Unknown

  /** The embedded info block of a persisted card. */
  datatype CardInfo = CardInfo(
    title: Option<string>,
    hours: int,
    timestamp: Option<Micros>,
    assignees: seq<string>,
    startAt: Option<Micros>,
    dueAt: Option<Micros>,
    endAt: Option<Micros>,
    receivedAt: Option<Micros>)

  /** A local user; this system only reads them. */
  datatype DbUser = DbUser(slug: string, id: string)

  datatype CardRow = CardRow(
    boardId: string,
    cardId: string,
    status: Status,
    completed: bool,
    lastActivity: Micros,
    info: CardInfo,
    users: seq<DbUser>)

  /** The natural key of a persisted card: (board id, card id). */
  type Key = (string, string)

  function KeyOf(row: CardRow): Key
  {
    (row.boardId, row.cardId)
  }

  /** The fields a freshly constructed document carries before the mapper fills it. */
  function NewRow(boardId: string, cardId: string): (row: CardRow)
    ensures KeyOf(row) == (boardId, cardId) && row.users == []
  {
    CardRow(boardId, cardId, Unknown, false, 0, CardInfo(None, 0, None, [], None, None, None, None), [])
  }

  /** Position of the first row with key `key`, or `|rows|`. */
  function KeyIndex(rows: seq<CardRow>, key: Key): (i: nat)
    ensures i <= |rows|
    ensures forall j :: 0 <= j < i ==> KeyOf(rows[j]) != key
    ensures i < |rows| ==> KeyOf(rows[i]) == key
  {
    FirstIndex(rows, (row: CardRow) => KeyOf(row) == key)
  }

  /** `Card.objects(board_id=b, card_id=c)[0]` when the query is not empty. */
  function FindByKey(rows: seq<CardRow>, key: Key): (r: Option<CardRow>)
    ensures r.None? <==> forall j :: 0 <= j < |rows| ==> KeyOf(rows[j]) != key
    ensures r.Some? ==> KeyOf(r.value) == key
    ensures r.Some? ==> r.value == rows[KeyIndex(rows, key)]
  {
    var i := KeyIndex(rows, key);
    if i < |rows| then Some(rows[i]) else None
  }

  /** Position of the first row with card id `cardId` on any board, or `|rows|`. */
  function CardIdIndex(rows: seq<CardRow>, cardId: string): (i: nat)
    ensures i <= |rows|
    ensures forall j :: 0 <= j < i ==> rows[j].cardId != cardId
    ensures i < |rows| ==> rows[i].cardId == cardId
  {
    FirstIndex(rows, (row: CardRow) => row.cardId == cardId)
  }

  /** `Card.objects(card_id=c)[0]` when the query is not empty. */
  function FindByCardId(rows: seq<CardRow>, cardId: string): (r: Option<CardRow>)
    ensures r.None? <==> forall j :: 0 <= j < |rows| ==> rows[j].cardId != cardId
    ensures r.Some? ==> r.value.cardId == cardId
    ensures r.Some? ==> r.value == rows[CardIdIndex(rows, cardId)]
  {
    var i := CardIdIndex(rows, cardId);
    if i < |rows| then Some(rows[i]) else None
  }

  /** No two rows share a key. */
  ghost predicate UniqueKeys(rows: seq<CardRow>)
  {
    forall i, j :: 0 <= i < j < |rows| ==> KeyOf(rows[i]) != KeyOf(rows[j])
  }

  /** `save()`: a document loaded by its key replaces that row; a new one is appended. */
  function Upsert(rows: seq<CardRow>, row: CardRow): (r: seq<CardRow>)
    ensures |r| == if FindByKey(rows, KeyOf(row)).Some? then |rows| else |rows| + 1
    ensures row in r
    ensures forall j :: 0 <= j < |rows| && KeyOf(rows[j]) != KeyOf(row) ==> r[j] == rows[j]
  {
    var i := KeyIndex(rows, KeyOf(row));
    if i < |rows| then
      assert rows[i := row][i] == row;
      rows[i := row]
    else
      assert (rows + [row])[|rows|] == row;
      rows + [row]
  }

  /** After saving, the row is found under its own key. */
  lemma UpsertFinds(rows: seq<CardRow>, row: CardRow)
    ensures FindByKey(Upsert(rows, row), KeyOf(row)) == Some(row)
  {
    var i := KeyIndex(rows, KeyOf(row));
    var after := Upsert(rows, row);
    assert forall j :: 0 <= j < i ==> after[j] == rows[j];
    assert after[i] == row;
  }

  /** Saving a row changes what no other key finds. */
  lemma UpsertKeepsOthers(rows: seq<CardRow>, row: CardRow, key: Key)
    requires key != KeyOf(row)
    ensures FindByKey(Upsert(rows, row), key) == FindByKey(rows, key)
  {
    var i := KeyIndex(rows, KeyOf(row));
    var after := Upsert(rows, row);
    var k := KeyIndex(rows, key);
    if k < |rows| {
      assert after[k] == rows[k];
      assert forall j :: 0 <= j < k ==> KeyOf(after[j]) != key;
    } else {
      assert forall j :: 0 <= j < |after| ==> KeyOf(after[j]) != key;
    }
  }

  /** Saving keeps the natural key unique. */
  lemma UpsertKeepsUnique(rows: seq<CardRow>, row: CardRow)
    requires UniqueKeys(rows)
    ensures UniqueKeys(Upsert(rows, row))
  {
  }

  const Int64Min: int := -0x8000_0000_0000_0000
  const Int64Max: int := 0x7FFF_FFFF_FFFF_FFFF

  /** Whether the store's BSON encoder accepts the row: its only integer field,
      `info.hours`, must fit in a signed 64-bit integer; otherwise `save()`
      raises `OverflowError`. */
  predicate Encodable(row: CardRow)
  {
    Int64Min <= row.info.hours <= Int64Max
  }

  /** The connected document store. */
  class Store {
    var cards: seq<CardRow>
    var users: map<string, DbUser>

    /** Keys are unique, and every local user is filed under its own slug. */
    ghost predicate Valid()
      reads this
    {
      && UniqueKeys(cards)
      && forall slug :: slug in users ==> users[slug].slug == slug
    }

    constructor (cards: seq<CardRow>, users: map<string, DbUser>)
      requires UniqueKeys(cards)
      requires forall slug :: slug in users ==> users[slug].slug == slug
      ensures Valid() && this.cards == cards && this.users == users
    {
      this.cards := cards;
      this.users := users;
    }

    /** `card.save()`: upserts the row, or leaves the store as it was when the
        encoder raises `OverflowError` (reported back as `saved == false`). */
    method Save(row: CardRow) returns (saved: bool)
      requires Valid()
      modifies this`cards
      ensures Valid()
      ensures saved == Encodable(row)
      ensures cards == if saved then Upsert(old(cards), row) else old(cards)
    {
      saved := Encodable(row);
      if saved {
        UpsertKeepsUnique(cards, row);
        cards := Upsert(cards, row);
      }
    }
  }
}
