/** Any batching, chunking, interleaving and replay of guarded upserts ends in the table a
    sequential replay would give. */
module Convergence {
  import opened Upserts

  datatype Change<D> = Change(key: Key, data: D)

  /** A transaction as a table sees it: its version and its changes in order. */
  datatype Txn<D> = Txn(version: nat, changes: seq<Change<D>>)

  /** Apply the changes of one transaction one after another, later ones overwriting. */
  function Overwrite<D>(t: Table<D>, version: nat, cs: seq<Change<D>>): Table<D> {
    if cs == [] then t
    else
      var c := cs[|cs| - 1];
      Overwrite(t, version, cs[..|cs| - 1])[c.key := Row(c.key, version, c.data)]
  }

  /** The rows one transaction leaves. */
  function TxnRows<D>(x: Txn<D>): Table<D> {
    Overwrite(map[], x.version, x.changes)
  }

  /** Sequential replay where the latest transaction wins: every change overwrites. */
  function ReplayLatest<D>(txns: seq<Txn<D>>): Table<D> {
    if txns == [] then map[]
    else
      var x := txns[|txns| - 1];
      Overwrite(ReplayLatest(txns[..|txns| - 1]), x.version, x.changes)
  }

  /** Sequential replay where the first transaction to mention a key wins. */
  function ReplayEarliest<D>(txns: seq<Txn<D>>): Table<D> {
    if txns == [] then map[]
    else
      var seen := ReplayEarliest(txns[..|txns| - 1]);
      TxnRows(txns[|txns| - 1]) + seen
  }

  function Replay<D>(wins: Wins, txns: seq<Txn<D>>): Table<D> {
    match wins
    case Latest => ReplayLatest(txns)
    case Earliest => ReplayEarliest(txns)
  }

  predicate Increasing<D>(txns: seq<Txn<D>>) {
    forall i, j | 0 <= i < j < |txns| :: txns[i].version < txns[j].version
  }

  // ---------- What a replay contains ----------

  lemma OverwriteNext<D>(t: Table<D>, version: nat, cs: seq<Change<D>>, j: nat)
    requires j < |cs|
    ensures Overwrite(t, version, cs[..j + 1])
         == Overwrite(t, version, cs[..j])[cs[j].key := Row(cs[j].key, version, cs[j].data)]
  {
    assert cs[..j + 1][..j] == cs[..j];
  }

  lemma UpdateOverMerge<K, V>(a: map<K, V>, b: map<K, V>, k: K, v: V)
    ensures (a + b)[k := v] == a + b[k := v]
  {
  }

  lemma {:induction false} OverwriteIsMerge<D>(t: Table<D>, version: nat, cs: seq<Change<D>>)
    ensures Overwrite(t, version, cs) == t + Overwrite(map[], version, cs)
  {
    if cs != [] {
      var c, front := cs[|cs| - 1], cs[..|cs| - 1];
      OverwriteIsMerge(t, version, front);
      UpdateOverMerge(t, Overwrite(map[], version, front), c.key, Row(c.key, version, c.data));
    }
  }

  lemma {:induction false} OverwriteVersions<D>(version: nat, cs: seq<Change<D>>)
    ensures forall k <- Overwrite<D>(map[], version, cs) :: Overwrite<D>(map[], version, cs)[k].version == version
  {
    if cs != [] { OverwriteVersions(version, cs[..|cs| - 1]); }
  }

  /** Transaction `x` leaves row `r`. */
  predicate Leaves<D(==)>(x: Txn<D>, r: Row<D>) {
    r.key in TxnRows(x) && TxnRows(x)[r.key] == r
  }

  ghost predicate Sourced<D(!new)>(txns: seq<Txn<D>>, r: Row<D>) {
    exists i :: 0 <= i < |txns| && Leaves(txns[i], r)
  }

  predicate HeldAtLeast<D>(wins: Wins, t: Table<D>, k: Key, version: nat) {
    k in t && Beats(wins, t[k].version, version)
  }

  /** The table holds, for exactly the keys some transaction changes, the row of a transaction that
      no other beats. */
  ghost predicate BestFor<D(!new)>(wins: Wins, t: Table<D>, txns: seq<Txn<D>>) {
    && (forall k <- t :: Sourced(txns, t[k]))
    && (forall i, k | 0 <= i < |txns| && k in TxnRows(txns[i]) :: HeldAtLeast(wins, t, k, txns[i].version))
  }

  lemma RowVersion<D(!new)>(x: Txn<D>, r: Row<D>)
    requires Leaves(x, r)
    ensures r.version == x.version
  {
    OverwriteVersions(x.version, x.changes);
  }

  lemma SourcedBelow<D(!new)>(txns: seq<Txn<D>>, r: Row<D>)
    requires txns != [] && Increasing(txns) && Sourced(txns[..|txns| - 1], r)
    ensures Sourced(txns, r) && r.version < txns[|txns| - 1].version
  {
    var i :| 0 <= i < |txns| - 1 && Leaves(txns[..|txns| - 1][i], r);
    assert Leaves(txns[i], r);
    RowVersion(txns[i], r);
  }

  /** Newer rows laid over a table, or under it where the earliest wins. */
  function Merge<D>(wins: Wins, t: Table<D>, newer: Table<D>): Table<D> {
    if wins == Latest then t + newer else newer + t
  }

  lemma MergeHolds<D>(wins: Wins, t: Table<D>, newer: Table<D>, k: Key, v: nat, u: nat)
    requires k in t ==> t[k].version < v
    requires k in newer ==> newer[k].version == v
    ensures k in newer ==> HeldAtLeast(wins, Merge(wins, t, newer), k, v)
    ensures HeldAtLeast(wins, t, k, u) ==> HeldAtLeast(wins, Merge(wins, t, newer), k, u)
  {
  }

  lemma LastRowsSourced<D(!new)>(txns: seq<Txn<D>>, k: Key)
    requires txns != [] && k in TxnRows(txns[|txns| - 1])
    ensures Sourced(txns, TxnRows(txns[|txns| - 1])[k])
    ensures TxnRows(txns[|txns| - 1])[k].version == txns[|txns| - 1].version
  {
    assert Leaves(txns[|txns| - 1], TxnRows(txns[|txns| - 1])[k]);
    RowVersion(txns[|txns| - 1], TxnRows(txns[|txns| - 1])[k]);
  }

  lemma MergedRowSourced<D(!new)>(wins: Wins, txns: seq<Txn<D>>, t: Table<D>, k: Key)
    requires txns != [] && Increasing(txns) && BestFor(wins, t, txns[..|txns| - 1])
    requires k in Merge(wins, t, TxnRows(txns[|txns| - 1]))
    ensures Sourced(txns, Merge(wins, t, TxnRows(txns[|txns| - 1]))[k])
  {
    if k in TxnRows(txns[|txns| - 1]) { LastRowsSourced(txns, k); }
    if k in t { SourcedBelow(txns, t[k]); }
  }

  lemma RowsAround<D(!new)>(wins: Wins, txns: seq<Txn<D>>, t: Table<D>, k: Key)
    requires txns != [] && Increasing(txns) && BestFor(wins, t, txns[..|txns| - 1])
    ensures var last := txns[|txns| - 1];
            && (k in t ==> t[k].version < last.version)
            && (k in TxnRows(last) ==> TxnRows(last)[k].version == last.version)
  {
    if k in TxnRows(txns[|txns| - 1]) { LastRowsSourced(txns, k); }
    if k in t { SourcedBelow(txns, t[k]); }
  }

  lemma HeldBefore<D(!new)>(wins: Wins, txns: seq<Txn<D>>, t: Table<D>, i: nat, k: Key)
    requires txns != [] && BestFor(wins, t, txns[..|txns| - 1]) && i < |txns| - 1 && k in TxnRows(txns[i])
    ensures HeldAtLeast(wins, t, k, txns[i].version)
  {
    var front := txns[..|txns| - 1];
    assert front[i] == txns[i];
    assert HeldAtLeast(wins, t, k, front[i].version);
  }

  lemma MergedRowHeld<D(!new)>(wins: Wins, txns: seq<Txn<D>>, t: Table<D>, i: nat, k: Key)
    requires txns != [] && Increasing(txns) && BestFor(wins, t, txns[..|txns| - 1])
    requires i < |txns| && k in TxnRows(txns[i])
    ensures HeldAtLeast(wins, Merge(wins, t, TxnRows(txns[|txns| - 1])), k, txns[i].version)
  {
    var last := txns[|txns| - 1];
    RowsAround(wins, txns, t, k);
    MergeHolds(wins, t, TxnRows(last), k, last.version, txns[i].version);
    if i < |txns| - 1 { HeldBefore(wins, txns, t, i, k); }
  }

  lemma BestForSnoc<D(!new)>(wins: Wins, txns: seq<Txn<D>>, t: Table<D>, newer: Table<D>)
    requires txns != [] && Increasing(txns) && BestFor(wins, t, txns[..|txns| - 1])
    requires newer == TxnRows(txns[|txns| - 1])
    ensures BestFor(wins, Merge(wins, t, newer), txns)
  {
    var t' := Merge(wins, t, newer);
    forall k <- t' ensures Sourced(txns, t'[k]) { MergedRowSourced(wins, txns, t, k); }
    forall i, k | 0 <= i < |txns| && k in TxnRows(txns[i])
      ensures HeldAtLeast(wins, t', k, txns[i].version)
    {
      MergedRowHeld(wins, txns, t, i, k);
    }
  }

  /** A replay of transactions in version order keeps, per key, the row of the winning transaction. */
  lemma {:induction false} ReplayIsBest<D(!new)>(wins: Wins, txns: seq<Txn<D>>)
    requires Increasing(txns)
    ensures BestFor(wins, Replay(wins, txns), txns)
  {
    if txns != [] {
      var last := txns[|txns| - 1];
      ReplayIsBest(wins, txns[..|txns| - 1]);
      OverwriteIsMerge(ReplayLatest(txns[..|txns| - 1]), last.version, last.changes);
      BestForSnoc(wins, txns, Replay(wins, txns[..|txns| - 1]), TxnRows(last));
    }
  }

  lemma BestForAgree<D(!new)>(wins: Wins, t: Table<D>, t': Table<D>, txns: seq<Txn<D>>, k: Key)
    requires Increasing(txns) && BestFor(wins, t, txns) && BestFor(wins, t', txns) && k in t
    ensures k in t' && t[k] == t'[k]
  {
    var i :| 0 <= i < |txns| && Leaves(txns[i], t[k]);
    RowVersion(txns[i], t[k]);
    assert HeldAtLeast(wins, t', k, txns[i].version);
    var j :| 0 <= j < |txns| && Leaves(txns[j], t'[k]);
    RowVersion(txns[j], t'[k]);
    assert HeldAtLeast(wins, t, k, txns[j].version);
    assert i == j;
  }

  ghost predicate Within<K(!new), V(!new)>(m: map<K, V>, m': map<K, V>) {
    forall k <- m.Keys :: k in m' && m[k] == m'[k]
  }

  lemma BestForWithin<D(!new)>(wins: Wins, t: Table<D>, t': Table<D>, txns: seq<Txn<D>>)
    requires Increasing(txns) && BestFor(wins, t, txns) && BestFor(wins, t', txns)
    ensures Within(t, t')
  {
    forall k <- t.Keys
      ensures k in t' && t[k] == t'[k]
    {
      BestForAgree(wins, t, t', txns, k);
    }
  }

  lemma SameEntries<K(!new), V(!new)>(m: map<K, V>, m': map<K, V>)
    requires Within(m, m') && Within(m', m)
    ensures m == m'
  {
    assert m.Keys == m'.Keys;
  }

  /** Only one table can be best. */
  lemma BestForUnique<D(!new)>(wins: Wins, t: Table<D>, t': Table<D>, txns: seq<Txn<D>>)
    requires Increasing(txns) && BestFor(wins, t, txns) && BestFor(wins, t', txns)
    ensures t == t'
  {
    BestForWithin(wins, t, t', txns);
    BestForWithin(wins, t', t, txns);
    SameEntries(t, t');
  }

  // ---------- Which change a replayed row is from ----------

  predicate Touches<D>(x: Txn<D>, k: Key) {
    exists j | 0 <= j < |x.changes| :: x.changes[j].key == k
  }

  /** Change `j` is the last of the transaction to its key. */
  predicate LastInTxn<D>(x: Txn<D>, j: nat) {
    j < |x.changes| && forall m | j < m < |x.changes| :: x.changes[m].key != x.changes[j].key
  }

  lemma {:induction false} OverwriteHolds<D>(t: Table<D>, version: nat, cs: seq<Change<D>>, j: nat)
    requires j < |cs| && forall m | j < m < |cs| :: cs[m].key != cs[j].key
    ensures cs[j].key in Overwrite(t, version, cs)
    ensures Overwrite(t, version, cs)[cs[j].key] == Row(cs[j].key, version, cs[j].data)
  {
    if j < |cs| - 1 { OverwriteHolds(t, version, cs[..|cs| - 1], j); }
  }

  lemma {:induction false} OverwriteKeys<D>(t: Table<D>, version: nat, cs: seq<Change<D>>, k: Key)
    ensures k in Overwrite(t, version, cs) <==> k in t || exists j | 0 <= j < |cs| :: cs[j].key == k
    ensures (forall j | 0 <= j < |cs| :: cs[j].key != k) && k in t ==> Overwrite(t, version, cs)[k] == t[k]
  {
    if cs != [] {
      var front := cs[..|cs| - 1];
      OverwriteKeys(t, version, front, k);
      assert forall j | 0 <= j < |front| :: front[j] == cs[j];
      if j :| 0 <= j < |cs| && cs[j].key == k { assert j < |front| ==> front[j].key == k; }
    }
  }

  /** Latest wins: the row is that of the last change to its key in the whole log. */
  lemma {:induction false} ReplayLatestHolds<D(!new)>(txns: seq<Txn<D>>, i: nat, j: nat)
    requires i < |txns| && LastInTxn(txns[i], j)
    requires forall m | i < m < |txns| :: !Touches(txns[m], txns[i].changes[j].key)
    ensures var c := txns[i].changes[j];
            c.key in ReplayLatest(txns) && ReplayLatest(txns)[c.key] == Row(c.key, txns[i].version, c.data)
  {
    var n := |txns| - 1;
    var last, before, k := txns[n], ReplayLatest(txns[..n]), txns[i].changes[j].key;
    if i == n {
      OverwriteHolds(before, last.version, last.changes, j);
    } else {
      ReplayLatestHolds(txns[..n], i, j);
      assert !Touches(last, k);
      OverwriteKeys(before, last.version, last.changes, k);
    }
  }

  /** Earliest wins: the row is that of the last change to its key in the first transaction that has one. */
  lemma {:induction false} ReplayEarliestHolds<D(!new)>(txns: seq<Txn<D>>, i: nat, j: nat)
    requires i < |txns| && LastInTxn(txns[i], j)
    requires forall m | 0 <= m < i :: !Touches(txns[m], txns[i].changes[j].key)
    ensures var c := txns[i].changes[j];
            c.key in ReplayEarliest(txns) && ReplayEarliest(txns)[c.key] == Row(c.key, txns[i].version, c.data)
  {
    var n := |txns| - 1;
    var k := txns[i].changes[j].key;
    if i == n {
      OverwriteHolds<D>(map[], txns[n].version, txns[n].changes, j);
      ReplayKeys(Earliest, txns[..n], k);
    } else {
      ReplayEarliestHolds(txns[..n], i, j);
    }
  }

  ghost predicate SomeTouches<D(!new)>(txns: seq<Txn<D>>, k: Key) {
    exists i | 0 <= i < |txns| :: Touches(txns[i], k)
  }

  lemma SomeTouchesLast<D(!new)>(txns: seq<Txn<D>>, k: Key)
    requires txns != []
    ensures SomeTouches(txns, k) <==> SomeTouches(txns[..|txns| - 1], k) || Touches(txns[|txns| - 1], k)
  {
    var n := |txns| - 1;
    if SomeTouches(txns[..n], k) {
      var i :| 0 <= i < n && Touches(txns[..n][i], k);
      assert Touches(txns[i], k);
    }
    if SomeTouches(txns, k) {
      var i :| 0 <= i < |txns| && Touches(txns[i], k);
      assert i < n ==> Touches(txns[..n][i], k);
    }
  }

  /** A replay has a row for exactly the keys that some transaction changes. */
  lemma {:induction false} ReplayKeys<D(!new)>(wins: Wins, txns: seq<Txn<D>>, k: Key)
    ensures k in Replay(wins, txns) <==> SomeTouches(txns, k)
  {
    if txns != [] {
      var n := |txns| - 1;
      var front, last := txns[..n], txns[n];
      ReplayKeys(wins, front, k);
      if wins == Latest {
        OverwriteKeys(ReplayLatest(front), last.version, last.changes, k);
      } else {
        OverwriteKeys<D>(map[], last.version, last.changes, k);
      }
      SomeTouchesLast(txns, k);
    }
  }

  // ---------- Convergence ----------

  /** `rows` lists exactly the rows of the table. */
  ghost predicate Lists<D(!new)>(t: Table<D>, rows: seq<Row<D>>) {
    forall r :: r in rows <==> r.key in t && t[r.key] == r
  }

  /** The batch is made of whole transactions of the log, in order. */
  ghost predicate TakenFrom<D(!new)>(log: seq<Txn<D>>, batch: seq<Txn<D>>) {
    Increasing(batch) && forall x <- batch :: x in log
  }

  /** The batches together hold the whole log; nothing else is asked: they may overlap, repeat, and
      come from different runs. */
  ghost predicate CutFrom<D(!new)>(log: seq<Txn<D>>, batches: seq<seq<Txn<D>>>) {
    && Increasing(log)
    && (forall b <- batches :: TakenFrom(log, b))
    && (forall x <- log :: exists b :: b in batches && x in b)
  }

  /** Every row written comes from some batch that was started, and every row of every completed
      batch is written at least once. */
  ghost predicate WritesOf<D(!new)>(
    started: seq<seq<Row<D>>>, completed: seq<seq<Row<D>>>, ws: seq<RowWrite<D>>) {
    && (forall w <- ws :: exists rows :: rows in started && w.row in rows)
    && AllWritten(completed, ws)
  }

  ghost predicate AllWritten<D(!new)>(completed: seq<seq<Row<D>>>, ws: seq<RowWrite<D>>) {
    forall rows, r | rows in completed && r in rows :: exists w :: w in ws && w.row == r
  }

  lemma BatchRowIsSourced<D(!new)>(wins: Wins, log: seq<Txn<D>>, batch: seq<Txn<D>>, r: Row<D>)
    requires TakenFrom(log, batch)
    requires r.key in Replay(wins, batch) && Replay(wins, batch)[r.key] == r
    ensures Sourced(log, r)
  {
    ReplayIsBest(wins, batch);
    assert Sourced(batch, Replay(wins, batch)[r.key]);
    var i :| 0 <= i < |batch| && Leaves(batch[i], r);
    assert batch[i] in log;
    var j :| 0 <= j < |log| && log[j] == batch[i];
    assert Leaves(log[j], r);
  }

  /** Every row of every batch being written, no key is left behind what its batch says. */
  lemma WrittenAtLeast<D(!new)>(
    wins: Wins, batch: seq<Txn<D>>, rows: seq<Row<D>>, t: Table<D>, ws: seq<RowWrite<D>>, x: Txn<D>, k: Key)
    requires Increasing(batch) && x in batch && k in TxnRows(x)
    requires Lists(Replay(wins, batch), rows) && BestOf(wins, t, ws)
    requires forall r <- rows :: exists w :: w in ws && w.row == r
    ensures HeldAtLeast(wins, t, k, x.version)
  {
    ReplayIsBest(wins, batch);
    var i :| 0 <= i < |batch| && batch[i] == x;
    assert HeldAtLeast(wins, Replay(wins, batch), k, batch[i].version);
    var r := Replay(wins, batch)[k];
    assert r in rows;
    var w :| w in ws && w.row == r;
    assert Top(wins, ws, t[k]);
  }

  /** Guarded writes of rows that transactions of the log leave, among them every row of batches
      that together hold the log: in any order the table ends equal to the sequential replay. */
  lemma SourcedWritesConverge<D(!new)>(
    wins: Wins, log: seq<Txn<D>>, batches: seq<seq<Txn<D>>>, lists: seq<seq<Row<D>>>, ws: seq<RowWrite<D>>)
    requires CutFrom(log, batches) && |lists| == |batches|
    requires forall b | 0 <= b < |batches| :: Lists(Replay(wins, batches[b]), lists[b])
    requires AllWritten(lists, ws) && forall w <- ws :: w.guarded && Sourced(log, w.row)
    ensures UpsertAll(wins, map[], ws) == Replay(wins, log)
  {
    var t: Table<D> := UpsertAll(wins, map[], ws);
    UpsertsKeepBest(wins, ws, ws);
    forall k <- t
      ensures Sourced(log, t[k])
    {
      var w :| w in ws && w.row == t[k];
    }
    forall i, k | 0 <= i < |log| && k in TxnRows(log[i])
      ensures HeldAtLeast(wins, t, k, log[i].version)
    {
      assert log[i] in log;
      var batch :| batch in batches && log[i] in batch;
      var b :| 0 <= b < |batches| && batches[b] == batch;
      assert lists[b] in lists;
      WrittenAtLeast(wins, batch, lists[b], t, ws, log[i], k);
    }
    ReplayIsBest(wins, log);
    BestForUnique(wins, t, Replay(wins, log), log);
  }

  /** For any log, any cut into batches, and any order in which the rows of the batches reach the
      table, with any repetitions and with any number of further batches written only in part: if
      every statement keeps its guard, the table ends equal to the sequential replay of the log. */
  lemma GuardedWritesConverge<D(!new)>(
    wins: Wins, log: seq<Txn<D>>, batches: seq<seq<Txn<D>>>, lists: seq<seq<Row<D>>>,
    partial: seq<seq<Txn<D>>>, partialLists: seq<seq<Row<D>>>, ws: seq<RowWrite<D>>)
    requires CutFrom(log, batches) && |lists| == |batches|
    requires forall b | 0 <= b < |batches| :: Lists(Replay(wins, batches[b]), lists[b])
    requires (forall b <- partial :: TakenFrom(log, b)) && |partialLists| == |partial|
    requires forall b | 0 <= b < |partial| :: Lists(Replay(wins, partial[b]), partialLists[b])
    requires WritesOf(lists + partialLists, lists, ws) && forall w <- ws :: w.guarded
    ensures UpsertAll(wins, map[], ws) == Replay(wins, log)
  {
    forall w <- ws
      ensures Sourced(log, w.row)
    {
      var rows :| rows in lists + partialLists && w.row in rows;
      if rows in lists {
        var b :| 0 <= b < |lists| && lists[b] == rows;
        assert batches[b] in batches;
        BatchRowIsSourced(wins, log, batches[b], w.row);
      } else {
        var b :| 0 <= b < |partialLists| && partialLists[b] == rows;
        assert partial[b] in partial;
        BatchRowIsSourced(wins, log, partial[b], w.row);
      }
    }
    SourcedWritesConverge(wins, log, batches, lists, ws);
  }
}
