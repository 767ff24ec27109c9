/** Primary keys and their order, rows, and the version-guarded upsert. */
module Upserts {

  /** A primary key is a tuple of text columns, compared column by column. */
  type Key = seq<string>

  /** A hash that tells all texts apart. */
  ghost predicate Injective(hash: string -> string) {
    forall s: string, t: string | hash(s) == hash(t) :: s == t
  }

  predicate StringLess(a: string, b: string) {
    if b == [] then false
    else if a == [] then true
    else if a[0] != b[0] then a[0] < b[0]
    else StringLess(a[1..], b[1..])
  }

  predicate KeyLess(a: Key, b: Key) {
    if b == [] then false
    else if a == [] then true
    else if a[0] != b[0] then StringLess(a[0], b[0])
    else KeyLess(a[1..], b[1..])
  }

  lemma {:induction false} StringOrderTotal(a: string, b: string)
    ensures !StringLess(a, a)
    ensures a == b || StringLess(a, b) || StringLess(b, a)
    ensures !(StringLess(a, b) && StringLess(b, a))
    decreases |a|
  {
    if a != [] {
      StringOrderTotal(a[1..], if b == [] then [] else b[1..]);
      if b != [] && a[0] == b[0] {
        assert a == [a[0]] + a[1..] && b == [b[0]] + b[1..];
      }
    }
  }

  lemma {:induction false} StringOrderTransitive(a: string, b: string, c: string)
    requires StringLess(a, b) && StringLess(b, c)
    ensures StringLess(a, c)
    decreases |a|
  {
    if a != [] && a[0] == b[0] && b[0] == c[0] {
      StringOrderTransitive(a[1..], b[1..], c[1..]);
    }
  }

  /** The key order is total and irreflexive. */
  lemma {:induction false} KeyOrderTotal(a: Key, b: Key)
    ensures !KeyLess(a, a)
    ensures a == b || KeyLess(a, b) || KeyLess(b, a)
    ensures !(KeyLess(a, b) && KeyLess(b, a))
    decreases |a|
  {
    if a != [] {
      KeyOrderTotal(a[1..], if b == [] then [] else b[1..]);
      if b != [] {
        StringOrderTotal(a[0], b[0]);
        assert a == [a[0]] + a[1..] && b == [b[0]] + b[1..];
      }
    }
  }

  /** The key order is transitive. */
  lemma {:induction false} KeyOrderTransitive(a: Key, b: Key, c: Key)
    requires KeyLess(a, b) && KeyLess(b, c)
    ensures KeyLess(a, c)
    decreases |a|
  {
    if a != [] {
      if a[0] == b[0] && b[0] == c[0] {
        KeyOrderTransitive(a[1..], b[1..], c[1..]);
      } else if a[0] != b[0] && b[0] != c[0] {
        StringOrderTransitive(a[0], b[0], c[0]);
        StringOrderTotal(a[0], b[0]);
      }
    }
  }

  /** A row of a table that keeps one row per key, with the version of the transaction it is from. */
  datatype Row<D> = Row(key: Key, version: nat, data: D)

  type Table<D> = m: map<Key, Row<D>> | forall k <- m :: m[k].key == k

  /** Which version the guard lets win: `existing <= excluded` keeps the latest, and
      `existing >= excluded` keeps the earliest. */
  datatype Wins = Latest | Earliest

  predicate Beats(wins: Wins, a: nat, b: nat) {
    match wins
    case Latest => a >= b
    case Earliest => a <= b
  }

  /** One row of one executed statement; `guarded` says whether the statement kept its guard. */
  datatype RowWrite<D> = RowWrite(row: Row<D>, guarded: bool)

  /** Insert, or on conflict overwrite every column unless the guard says no. */
  function Upsert<D>(wins: Wins, t: Table<D>, w: RowWrite<D>): Table<D> {
    var r := w.row;
    if r.key in t && w.guarded && !Beats(wins, r.version, t[r.key].version) then t else t[r.key := r]
  }

  function UpsertAll<D>(wins: Wins, t: Table<D>, ws: seq<RowWrite<D>>): Table<D> {
    if ws == [] then t else Upsert(wins, UpsertAll(wins, t, ws[..|ws| - 1]), ws[|ws| - 1])
  }

  /** The row is as good as any write to the same key. */
  ghost predicate Top<D(!new)>(wins: Wins, ws: seq<RowWrite<D>>, r: Row<D>) {
    forall w <- ws :: w.row.key == r.key ==> Beats(wins, r.version, w.row.version)
  }

  /** The table holds, for exactly the keys written, one of the rows written to it that no other
      write beats. */
  ghost predicate BestOf<D(!new)>(wins: Wins, t: Table<D>, ws: seq<RowWrite<D>>) {
    && (forall w <- ws :: w.row.key in t)
    && (forall k <- t :: Top(wins, ws, t[k]) && exists w :: w in ws && w.row == t[k])
  }

  /** In any order, if every write keeps its guard or is the best for its key anyway, the table
      ends with the best row for each key. */
  lemma {:induction false} UpsertsKeepBest<D(!new)>(wins: Wins, ws: seq<RowWrite<D>>, all: seq<RowWrite<D>>)
    requires forall w <- ws :: w in all
    requires forall w <- ws :: w.guarded || Top(wins, all, w.row)
    ensures BestOf(wins, UpsertAll(wins, map[], ws), ws)
  {
    if ws != [] {
      var front, w := ws[..|ws| - 1], ws[|ws| - 1];
      assert ws == front + [w];
      UpsertsKeepBest(wins, front, all);
      var t, t' := UpsertAll<D>(wins, map[], front), UpsertAll<D>(wins, map[], ws);
      forall k <- t'
        ensures Top(wins, ws, t'[k]) && exists x :: x in ws && x.row == t'[k]
      {
        if k == w.row.key && t'[k] == w.row {
          assert w in ws;
          if k in t && w.guarded { assert Top(wins, front, t[k]); }
        } else {
          assert Top(wins, front, t[k]);
          var x :| x in front && x.row == t[k];
          assert x in ws;
        }
      }
    }
  }

  /** The table is changed in place, one statement at a time; a statement is a list of rows that all
      keep or all lose the guard. */
  datatype Statement<D> = Statement(rows: seq<Row<D>>, guarded: bool)

  function Writes<D>(s: Statement<D>): (ws: seq<RowWrite<D>>)
    ensures |ws| == |s.rows| && forall i | 0 <= i < |ws| :: ws[i] == RowWrite(s.rows[i], s.guarded)
  {
    seq(|s.rows|, i requires 0 <= i < |s.rows| => RowWrite(s.rows[i], s.guarded))
  }

  class UpsertTable<D> {
    const wins: Wins
    var rows: Table<D>

    constructor (wins: Wins)
      ensures this.wins == wins && rows == map[]
    {
      this.wins, rows := wins, map[];
    }

    method Execute(s: Statement<D>)
      modifies this
      ensures rows == UpsertAll(wins, old(rows), Writes(s))
    {
      for i := 0 to |s.rows|
        invariant rows == UpsertAll(wins, old(rows), Writes(s)[..i])
      {
        var r := s.rows[i];
        assert Writes(s)[..i + 1][..i] == Writes(s)[..i];
        if !(r.key in rows && s.guarded && !Beats(wins, r.version, rows[r.key].version)) {
          rows := rows[r.key := r];
        }
      }
      assert Writes(s)[..|s.rows|] == Writes(s);
    }
  }
}
