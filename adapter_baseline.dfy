/** The change-detection baseline: (board id, card id) -> stored last-activity
    timestamp, read from the persisted rows; a later row overwrites an earlier one. */
module Baseline {
  import opened Common
  import opened Responses
  import opened Database

  /** The keys of the rows. */
  function RowKeys(rows: seq<CardRow>): set<Key>
  {
    set i | 0 <= i < |rows| :: KeyOf(rows[i])
  }

  /** `get_cards_last_activity` as a value, over every stored row. */
  function AllActivity(rows: seq<CardRow>): (m: map<Key, Micros>)
    ensures m.Keys == RowKeys(rows)
  {
    if rows == [] then map[]
    else
      var n := |rows| - 1;
      var m := AllActivity(rows[..n]);
      assert RowKeys(rows) == RowKeys(rows[..n]) + {KeyOf(rows[n])} by {
        forall key | key in RowKeys(rows) ensures key in RowKeys(rows[..n]) + {KeyOf(rows[n])} {
          var i :| 0 <= i < |rows| && KeyOf(rows[i]) == key;
          if i < n { assert rows[..n][i] == rows[i]; }
        }
        forall key | key in RowKeys(rows[..n]) ensures key in RowKeys(rows) {
          var i :| 0 <= i < n && KeyOf(rows[..n][i]) == key;
          assert rows[..n][i] == rows[i];
        }
      }
      m[KeyOf(rows[n]) := rows[n].lastActivity]
  }

  /** The keys of the rows stored for board `boardId`. */
  function BoardKeys(rows: seq<CardRow>, boardId: string): set<Key>
  {
    set i | 0 <= i < |rows| && rows[i].boardId == boardId :: KeyOf(rows[i])
  }

  /** `get_cards_activity_board` as a value: the rows of one board, keyed by
      (that board's id, card id). */
  function BoardActivity(rows: seq<CardRow>, boardId: string): (m: map<Key, Micros>)
    ensures m.Keys == BoardKeys(rows, boardId)
  {
    if rows == [] then map[]
    else
      var n := |rows| - 1;
      var m := BoardActivity(rows[..n], boardId);
      var last := rows[n];
      assert BoardKeys(rows, boardId)
          == BoardKeys(rows[..n], boardId) + (if last.boardId == boardId then {KeyOf(last)} else {}) by {
        forall key | key in BoardKeys(rows, boardId)
          ensures key in BoardKeys(rows[..n], boardId) + (if last.boardId == boardId then {KeyOf(last)} else {})
        {
          var i :| 0 <= i < |rows| && rows[i].boardId == boardId && KeyOf(rows[i]) == key;
          if i < n { assert rows[..n][i] == rows[i]; }
        }
        forall key | key in BoardKeys(rows[..n], boardId) ensures key in BoardKeys(rows, boardId) {
          var i :| 0 <= i < n && rows[..n][i].boardId == boardId && KeyOf(rows[..n][i]) == key;
          assert rows[..n][i] == rows[i];
        }
      }
      if last.boardId == boardId then m[(boardId, last.cardId) := last.lastActivity] else m
  }

  /** Later rows overwrite earlier ones: a key maps to the activity of the last row with it. */
  lemma {:induction false} LastRowWins(rows: seq<CardRow>, i: nat)
    requires i < |rows|
    requires forall j :: i < j < |rows| ==> KeyOf(rows[j]) != KeyOf(rows[i])
    ensures AllActivity(rows)[KeyOf(rows[i])] == rows[i].lastActivity
    ensures BoardActivity(rows, rows[i].boardId)[KeyOf(rows[i])] == rows[i].lastActivity
  {
    var n := |rows| - 1;
    if i < n {
      assert rows[..n][i] == rows[i];
      assert forall j :: i < j < n ==> rows[..n][j] == rows[j];
      LastRowWins(rows[..n], i);
    }
  }

  /** After a save, the board's baseline holds the saved row's activity under its key,
      and a lookup by its card id finds it, provided keys were unique and no other
      board stores that card id. */
  lemma SavedRowIsItsOwnBaseline(rows: seq<CardRow>, row: CardRow)
    requires UniqueKeys(rows)
    requires forall i :: 0 <= i < |rows| && rows[i].cardId == row.cardId ==> rows[i].boardId == row.boardId
    ensures KeyOf(row) in BoardActivity(Upsert(rows, row), row.boardId)
    ensures BoardActivity(Upsert(rows, row), row.boardId)[KeyOf(row)] == row.lastActivity
    ensures FindByCardId(Upsert(rows, row), row.cardId) == Some(row)
  {
    var saved := Upsert(rows, row);
    var p := UpsertPlacesRow(rows, row);
    assert KeyOf(row) in BoardKeys(saved, row.boardId);
    LastRowWins(saved, p);
    assert CardIdIndex(saved, row.cardId) == p;
  }

  /** Where the saved row lands: every row before it is an unchanged row with another
      card id, and no row after it has its key. */
  lemma UpsertPlacesRow(rows: seq<CardRow>, row: CardRow) returns (p: nat)
    requires UniqueKeys(rows)
    requires forall i :: 0 <= i < |rows| && rows[i].cardId == row.cardId ==> rows[i].boardId == row.boardId
    ensures p < |Upsert(rows, row)| && Upsert(rows, row)[p] == row
    ensures forall j :: 0 <= j < p ==> Upsert(rows, row)[j].cardId != row.cardId
    ensures forall j :: p < j < |Upsert(rows, row)| ==> KeyOf(Upsert(rows, row)[j]) != KeyOf(row)
  {
    var saved := Upsert(rows, row);
    var i := KeyIndex(rows, KeyOf(row));
    p := if i < |rows| then i else |rows|;
    assert forall j :: 0 <= j < |saved| && j != p ==> saved[j] == rows[j];
  }


  /** The per-board baseline is the global one restricted to that board's keys. */
  lemma {:induction false} BoardActivityIsRestriction(rows: seq<CardRow>, boardId: string)
    ensures BoardActivity(rows, boardId)
         == map key | key in AllActivity(rows) && key.0 == boardId :: AllActivity(rows)[key]
  {
    if rows != [] {
      var n := |rows| - 1;
      BoardActivityIsRestriction(rows[..n], boardId);
    }
  }

  /** `get_cards_last_activity`. */
  method GetCardsLastActivity(store: Store) returns (cardsLastActivity: map<Key, Micros>)
    ensures cardsLastActivity == AllActivity(store.cards)
  {
    var rows := store.cards;
    cardsLastActivity := map[];
    var i := 0;
    while i < |rows|
      invariant 0 <= i <= |rows|
      invariant cardsLastActivity == AllActivity(rows[..i])
    {
      assert rows[..i + 1][..i] == rows[..i];
      cardsLastActivity := cardsLastActivity[KeyOf(rows[i]) := rows[i].lastActivity];
      i := i + 1;
    }
    assert rows[..i] == rows;
  }

  /** `get_cards_activity_board`. */
  method GetCardsActivityBoard(store: Store, board: InlineBoard) returns (cardsActivity: map<Key, Micros>)
    ensures cardsActivity == BoardActivity(store.cards, board.id)
  {
    var rows := store.cards;
    cardsActivity := map[];
    var i := 0;
    while i < |rows|
      invariant 0 <= i <= |rows|
      invariant cardsActivity == BoardActivity(rows[..i], board.id)
    {
      assert rows[..i + 1][..i] == rows[..i];
      if rows[i].boardId == board.id {
        cardsActivity := cardsActivity[(board.id, rows[i].cardId) := rows[i].lastActivity];
      }
      i := i + 1;
    }
    assert rows[..i] == rows;
  }
}
