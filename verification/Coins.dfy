/** The coin tables: `coin_infos` keeps the earliest row of each coin type and
    `current_coin_balances` the latest row of each owner and coin type. A batch is folded by the
    truncated coin type, while the tables are keyed by the hash of the whole one. */
module Coins {
  import opened Upserts
  import opened Convergence
  import opened Execution

  const COIN_TYPE_HASH_LENGTH: nat := 5000

  function Trunc(coinType: string): string {
    if |coinType| <= COIN_TYPE_HASH_LENGTH then coinType else coinType[..COIN_TYPE_HASH_LENGTH]
  }

  /** A coin info (`owner` empty) or a balance (`owner` holding one address). */
  datatype CoinChange<D> = CoinChange(owner: seq<string>, coinType: string, data: D)

  datatype CoinTxn<D> = CoinTxn(version: nat, changes: seq<CoinChange<D>>)

  /** Where a change goes while a batch is folded. */
  function FoldKey<D>(c: CoinChange<D>): Key {
    c.owner + [Trunc(c.coinType)]
  }

  /** The primary key in the database. */
  function TableKey<D>(hash: string -> string, c: CoinChange<D>): Key {
    c.owner + [hash(c.coinType)]
  }

  function RowOf<D>(hash: string -> string, version: nat, c: CoinChange<D>): Row<D> {
    Row(TableKey(hash, c), version, c.data)
  }

  /** The map one transaction yields: by fold key, later changes overwriting. */
  function TxnFold<D>(hash: string -> string, version: nat, cs: seq<CoinChange<D>>): map<Key, Row<D>> {
    if cs == [] then map[]
    else
      var c := cs[|cs| - 1];
      TxnFold(hash, version, cs[..|cs| - 1])[FoldKey(c) := RowOf(hash, version, c)]
  }

  /** The fold of a batch: coin infos are only added when absent, balances overwrite. */
  function BatchFold<D>(wins: Wins, hash: string -> string, xs: seq<CoinTxn<D>>): map<Key, Row<D>> {
    if xs == [] then map[]
    else
      var x := xs[|xs| - 1];
      var before, now := BatchFold(wins, hash, xs[..|xs| - 1]), TxnFold(hash, x.version, x.changes);
      if wins == Latest then before + now else now + before
  }

  /** Add the rows whose key is not there yet. */
  method AddMissing<D>(all: map<Key, Row<D>>, now: map<Key, Row<D>>) returns (r: map<Key, Row<D>>)
    ensures r == now + all
  {
    r := all;
    var keys := now.Keys;
    while keys != {}
      invariant keys <= now.Keys
      invariant r.Keys == all.Keys + (now.Keys - keys)
      invariant forall k <- r :: r[k] == if k in all then all[k] else now[k]
      decreases |keys|
    {
      var k :| k in keys;
      if k !in r {
        r := r[k := now[k]];
      }
      keys := keys - {k};
    }
    assert r == now + all;
  }

  /** Both folds of the coin processor over one batch. */
  method FoldBatch<I, B>(hash: string -> string, infos: seq<CoinTxn<I>>, balances: seq<CoinTxn<B>>)
    returns (allInfos: map<Key, Row<I>>, allBalances: map<Key, Row<B>>)
    requires |infos| == |balances|
    ensures allInfos == BatchFold(Earliest, hash, infos)
    ensures allBalances == BatchFold(Latest, hash, balances)
  {
    allInfos, allBalances := map[], map[];
    for i := 0 to |infos|
      invariant allInfos == BatchFold(Earliest, hash, infos[..i])
      invariant allBalances == BatchFold(Latest, hash, balances[..i])
    {
      assert infos[..i + 1][..i] == infos[..i] && balances[..i + 1][..i] == balances[..i];
      allInfos := AddMissing(allInfos, TxnFold(hash, infos[i].version, infos[i].changes));
      allBalances := allBalances + TxnFold(hash, balances[i].version, balances[i].changes);
    }
    assert infos[..|infos|] == infos && balances[..|infos|] == balances;
  }

  // ---------- The same transactions, keyed as the table is ----------

  function AsTxn<D>(hash: string -> string, x: CoinTxn<D>): Txn<D> {
    Txn(x.version, seq(|x.changes|, i requires 0 <= i < |x.changes| =>
      Change(TableKey(hash, x.changes[i]), x.changes[i].data)))
  }

  function AsTxns<D>(hash: string -> string, xs: seq<CoinTxn<D>>): (r: seq<Txn<D>>)
    ensures |r| == |xs| && forall i | 0 <= i < |r| :: r[i] == AsTxn(hash, xs[i])
  {
    seq(|xs|, i requires 0 <= i < |xs| => AsTxn(hash, xs[i]))
  }

  /** Two changes fold together exactly when they share a primary key. */
  ghost predicate KeysAgree<D(!new)>(hash: string -> string, c: CoinChange<D>, d: CoinChange<D>) {
    FoldKey(c) == FoldKey(d) <==> TableKey(hash, c) == TableKey(hash, d)
  }

  ghost predicate AllKeysAgree<D(!new)>(hash: string -> string, xs: seq<CoinTxn<D>>) {
    forall x, y, c, d | x in xs && y in xs && c in x.changes && d in y.changes :: KeysAgree(hash, c, d)
  }

  lemma SnocEqual<T>(a: seq<T>, x: T, b: seq<T>, y: T)
    ensures a + [x] == b + [y] <==> a == b && x == y
  {
    if a + [x] == b + [y] {
      assert |a| == |b| && (a + [x])[|a|] == x && (b + [y])[|b|] == y;
      assert (a + [x])[..|a|] == a && (b + [y])[..|b|] == b;
    }
  }

  /** `fold` and `t` hold the same rows, under keys that correspond for the change `c`. */
  ghost predicate Matches<D(!new)>(hash: string -> string, fold: map<Key, Row<D>>, t: Table<D>, c: CoinChange<D>) {
    && (FoldKey(c) in fold <==> TableKey(hash, c) in t)
    && (FoldKey(c) in fold ==> fold[FoldKey(c)] == t[TableKey(hash, c)])
  }

  lemma {:induction false} TxnFoldMatches<D(!new)>(
    hash: string -> string, version: nat, cs: seq<CoinChange<D>>, d: CoinChange<D>)
    requires forall c <- cs :: KeysAgree(hash, c, d)
    ensures Matches(hash, TxnFold(hash, version, cs), TxnRows(AsTxn(hash, CoinTxn(version, cs))), d)
  {
    if cs != [] {
      var front, c := cs[..|cs| - 1], cs[|cs| - 1];
      TxnFoldMatches(hash, version, front, d);
      var changes := AsTxn(hash, CoinTxn(version, cs)).changes;
      assert changes[..|changes| - 1] == AsTxn(hash, CoinTxn(version, front)).changes;
      assert KeysAgree(hash, c, d);
    }
  }

  lemma {:induction false} BatchFoldMatches<D(!new)>(
    wins: Wins, hash: string -> string, xs: seq<CoinTxn<D>>, d: CoinChange<D>)
    requires forall x, c | x in xs && c in x.changes :: KeysAgree(hash, c, d)
    ensures Matches(hash, BatchFold(wins, hash, xs), Replay(wins, AsTxns(hash, xs)), d)
  {
    if xs != [] {
      var front, x := xs[..|xs| - 1], xs[|xs| - 1];
      BatchFoldMatches(wins, hash, front, d);
      TxnFoldMatches(hash, x.version, x.changes, d);
      assert AsTxns(hash, xs)[..|xs| - 1] == AsTxns(hash, front);
      assert CoinTxn(x.version, x.changes) == x;
      var ax := AsTxn(hash, x);
      OverwriteIsMerge(ReplayLatest(AsTxns(hash, front)), ax.version, ax.changes);
    }
  }

  lemma {:induction false} FoldKeySource<D(!new)>(
    hash: string -> string, version: nat, cs: seq<CoinChange<D>>, f: Key) returns (c: CoinChange<D>)
    requires f in TxnFold(hash, version, cs)
    ensures c in cs && f == FoldKey(c) && TxnFold(hash, version, cs)[f].key == TableKey(hash, c)
  {
    c := cs[|cs| - 1];
    if f != FoldKey(c) { c := FoldKeySource(hash, version, cs[..|cs| - 1], f); }
  }

  lemma {:induction false} TableKeySource<D(!new)>(
    hash: string -> string, version: nat, cs: seq<CoinChange<D>>, k: Key) returns (c: CoinChange<D>)
    requires k in TxnRows(AsTxn(hash, CoinTxn(version, cs)))
    ensures c in cs && k == TableKey(hash, c)
  {
    var changes := AsTxn(hash, CoinTxn(version, cs)).changes;
    c := cs[|cs| - 1];
    if k != TableKey(hash, c) {
      assert changes[..|changes| - 1] == AsTxn(hash, CoinTxn(version, cs[..|cs| - 1])).changes;
      c := TableKeySource(hash, version, cs[..|cs| - 1], k);
    }
  }

  lemma {:induction false} BatchFoldKeySource<D(!new)>(
    wins: Wins, hash: string -> string, xs: seq<CoinTxn<D>>, f: Key) returns (x: CoinTxn<D>, c: CoinChange<D>)
    requires f in BatchFold(wins, hash, xs)
    ensures x in xs && c in x.changes && f == FoldKey(c)
    ensures BatchFold(wins, hash, xs)[f].key == TableKey(hash, c)
  {
    x := xs[|xs| - 1];
    var now, before := TxnFold(hash, x.version, x.changes), BatchFold(wins, hash, xs[..|xs| - 1]);
    if f in now && (wins == Latest || f !in before) {
      c := FoldKeySource(hash, x.version, x.changes, f);
    } else {
      x, c := BatchFoldKeySource(wins, hash, xs[..|xs| - 1], f);
    }
  }

  lemma {:induction false} ReplayKeySource<D(!new)>(
    wins: Wins, hash: string -> string, xs: seq<CoinTxn<D>>, k: Key) returns (x: CoinTxn<D>, c: CoinChange<D>)
    requires k in Replay(wins, AsTxns(hash, xs))
    ensures x in xs && c in x.changes && k == TableKey(hash, c)
  {
    x := xs[|xs| - 1];
    var front := xs[..|xs| - 1];
    assert AsTxns(hash, xs)[..|xs| - 1] == AsTxns(hash, front);
    var ax := AsTxn(hash, x);
    OverwriteIsMerge(ReplayLatest(AsTxns(hash, front)), ax.version, ax.changes);
    if k in TxnRows(ax) {
      assert CoinTxn(x.version, x.changes) == x;
      c := TableKeySource(hash, x.version, x.changes, k);
    } else {
      x, c := ReplayKeySource(wins, hash, front, k);
    }
  }

  /** The rows of the fold are exactly the rows of the replay keyed by hash. */
  lemma FoldListsReplay<D(!new)>(wins: Wins, hash: string -> string, xs: seq<CoinTxn<D>>, rows: seq<Row<D>>)
    requires AllKeysAgree(hash, xs)
    requires forall r :: r in rows <==> r in BatchFold(wins, hash, xs).Values
    ensures Lists(Replay(wins, AsTxns(hash, xs)), rows)
  {
    var fold, t := BatchFold(wins, hash, xs), Replay(wins, AsTxns(hash, xs));
    forall r
      ensures r in fold.Values <==> r.key in t && t[r.key] == r
    {
      if r in fold.Values {
        var f :| f in fold && fold[f] == r;
        var x, c := BatchFoldKeySource(wins, hash, xs, f);
        BatchFoldMatches(wins, hash, xs, c);
      }
      if r.key in t && t[r.key] == r {
        var x, c := ReplayKeySource(wins, hash, xs, r.key);
        BatchFoldMatches(wins, hash, xs, c);
        assert fold[FoldKey(c)] == r;
      }
    }
  }

  // ---------- Which change a row is from ----------

  predicate SameCoin<D>(c: CoinChange<D>, d: CoinChange<D>) {
    c.owner == d.owner && c.coinType == d.coinType
  }

  /** The row has the owner and the hash of the whole coin type as its key columns, and holds the change. */
  predicate HoldsCoin<D(==)>(hash: string -> string, r: Row<D>, version: nat, c: CoinChange<D>) {
    r.key == c.owner + [hash(c.coinType)] && r.version == version && r.data == c.data
  }

  /** Change `j` of transaction `i` decides about its coin: nothing after it in its transaction is about the
      same coin, nor anything in a later transaction, or in an earlier one where the earliest wins. */
  ghost predicate Decides<D(!new)>(wins: Wins, xs: seq<CoinTxn<D>>, i: nat, j: nat) {
    && i < |xs| && j < |xs[i].changes|
    && (forall n | j < n < |xs[i].changes| :: !SameCoin(xs[i].changes[n], xs[i].changes[j]))
    && (forall m, n | 0 <= m < |xs| && 0 <= n < |xs[m].changes| && (if wins == Latest then i < m else m < i) ::
          !SameCoin(xs[m].changes[n], xs[i].changes[j]))
  }

  lemma CoinKeys<D>(hash: string -> string, c: CoinChange<D>, d: CoinChange<D>)
    requires Injective(hash)
    ensures TableKey(hash, c) == TableKey(hash, d) <==> SameCoin(c, d)
  {
    SnocEqual(c.owner, hash(c.coinType), d.owner, hash(d.coinType));
  }

  /** The row of every coin holds the change that decides about it. */
  lemma RowHoldsDecidingChange<D(!new)>(wins: Wins, hash: string -> string, xs: seq<CoinTxn<D>>, i: nat, j: nat)
    requires Injective(hash) && Decides(wins, xs, i, j)
    ensures var t, c := Replay(wins, AsTxns(hash, xs)), xs[i].changes[j];
            exists k :: k in t && HoldsCoin(hash, t[k], xs[i].version, c)
  {
    var txns, c := AsTxns(hash, xs), xs[i].changes[j];
    var k := TableKey(hash, c);
    assert txns[i].changes[j].key == k;
    forall n | j < n < |xs[i].changes|
      ensures txns[i].changes[n].key != k
    {
      CoinKeys(hash, xs[i].changes[n], c);
    }
    forall m | 0 <= m < |txns| && (if wins == Latest then i < m else m < i)
      ensures !Touches(txns[m], k)
    {
      forall n | 0 <= n < |txns[m].changes|
        ensures txns[m].changes[n].key != k
      {
        CoinKeys(hash, xs[m].changes[n], c);
      }
    }
    if wins == Latest { ReplayLatestHolds(txns, i, j); } else { ReplayEarliestHolds(txns, i, j); }
    assert k in Replay(wins, txns);
  }

  // ---------- Exactly when the fold loses nothing ----------

  /** The changes are of two coin types of one owner that the truncation cannot tell apart. */
  predicate Clash<D>(c: CoinChange<D>, d: CoinChange<D>) {
    c.owner == d.owner && Trunc(c.coinType) == Trunc(d.coinType) && c.coinType != d.coinType
  }

  ghost predicate NoClash<D(!new)>(xs: seq<CoinTxn<D>>) {
    forall x, y, c, d | x in xs && y in xs && c in x.changes && d in y.changes :: !Clash(c, d)
  }

  ghost predicate IsFold<D(!new)>(wins: Wins, hash: string -> string, xs: seq<CoinTxn<D>>, rows: seq<Row<D>>) {
    forall r :: r in rows <==> r in BatchFold(wins, hash, xs).Values
  }

  /** Coin types within the truncation length never clash. */
  lemma ShortTypesDoNotClash<D(!new)>(xs: seq<CoinTxn<D>>)
    requires forall x, c | x in xs && c in x.changes :: |c.coinType| <= COIN_TYPE_HASH_LENGTH
    ensures NoClash(xs)
  {
  }

  lemma NoClashAgrees<D(!new)>(hash: string -> string, xs: seq<CoinTxn<D>>)
    requires Injective(hash) && NoClash(xs)
    ensures AllKeysAgree(hash, xs)
  {
    forall x, y, c, d | x in xs && y in xs && c in x.changes && d in y.changes
      ensures KeysAgree(hash, c, d)
    {
      assert !Clash(c, d);
      SnocEqual(c.owner, Trunc(c.coinType), d.owner, Trunc(d.coinType));
      SnocEqual(c.owner, hash(c.coinType), d.owner, hash(d.coinType));
    }
  }

  lemma {:induction false} TxnRowsHaveKey<D(!new)>(hash: string -> string, version: nat, cs: seq<CoinChange<D>>, c: CoinChange<D>)
    requires c in cs
    ensures TableKey(hash, c) in TxnRows(AsTxn(hash, CoinTxn(version, cs)))
  {
    var front, changes := cs[..|cs| - 1], AsTxn(hash, CoinTxn(version, cs)).changes;
    assert changes[..|changes| - 1] == AsTxn(hash, CoinTxn(version, front)).changes;
    if c in front { TxnRowsHaveKey(hash, version, front, c); }
  }

  lemma {:induction false} ReplayHasKey<D(!new)>(
    wins: Wins, hash: string -> string, xs: seq<CoinTxn<D>>, x: CoinTxn<D>, c: CoinChange<D>)
    requires x in xs && c in x.changes
    ensures TableKey(hash, c) in Replay(wins, AsTxns(hash, xs))
  {
    var front, last := xs[..|xs| - 1], xs[|xs| - 1];
    assert AsTxns(hash, xs)[..|xs| - 1] == AsTxns(hash, front);
    var ax := AsTxn(hash, last);
    OverwriteIsMerge(ReplayLatest(AsTxns(hash, front)), ax.version, ax.changes);
    if x == last {
      assert CoinTxn(x.version, x.changes) == x;
      TxnRowsHaveKey(hash, x.version, x.changes, c);
    } else {
      ReplayHasKey(wins, hash, front, x, c);
    }
  }

  /** A row of the fold under the key of `c` sits where `c` folds. */
  lemma RowSitsAtFoldKey<D(!new)>(
    wins: Wins, hash: string -> string, xs: seq<CoinTxn<D>>, c: CoinChange<D>, r: Row<D>)
    requires Injective(hash) && r in BatchFold(wins, hash, xs).Values && r.key == TableKey(hash, c)
    ensures FoldKey(c) in BatchFold(wins, hash, xs) && BatchFold(wins, hash, xs)[FoldKey(c)] == r
  {
    var fold := BatchFold(wins, hash, xs);
    var f :| f in fold && fold[f] == r;
    var x, e := BatchFoldKeySource(wins, hash, xs, f);
    SnocEqual(e.owner, hash(e.coinType), c.owner, hash(c.coinType));
  }

  /** Of two clashing changes at most one key is left in the fold. */
  lemma ClashLosesARow<D(!new)>(
    wins: Wins, hash: string -> string, xs: seq<CoinTxn<D>>, c: CoinChange<D>, d: CoinChange<D>, r: Row<D>, q: Row<D>)
    requires Injective(hash) && Clash(c, d) && r.key == TableKey(hash, c) && q.key == TableKey(hash, d)
    ensures !(r in BatchFold(wins, hash, xs).Values && q in BatchFold(wins, hash, xs).Values)
  {
    if r in BatchFold(wins, hash, xs).Values && q in BatchFold(wins, hash, xs).Values {
      RowSitsAtFoldKey(wins, hash, xs, c, r);
      RowSitsAtFoldKey(wins, hash, xs, d, q);
      SnocEqual(c.owner, hash(c.coinType), d.owner, hash(d.coinType));
    }
  }

  /** For any batch and either guard direction, the rows of the fold are those of the replay exactly when
      no owner has two coin types in the batch that agree up to the truncation length. */
  lemma FoldLosesNothingIff<D(!new)>(wins: Wins, hash: string -> string, xs: seq<CoinTxn<D>>, rows: seq<Row<D>>)
    requires Injective(hash) && IsFold(wins, hash, xs, rows)
    ensures Lists(Replay(wins, AsTxns(hash, xs)), rows) <==> NoClash(xs)
  {
    var t := Replay(wins, AsTxns(hash, xs));
    if NoClash(xs) {
      NoClashAgrees(hash, xs);
      FoldListsReplay(wins, hash, xs, rows);
    } else {
      var x, y, c, d :| x in xs && y in xs && c in x.changes && d in y.changes && Clash(c, d);
      ReplayHasKey(wins, hash, xs, x, c);
      ReplayHasKey(wins, hash, xs, y, d);
      var r, q := t[TableKey(hash, c)], t[TableKey(hash, d)];
      ClashLosesARow(wins, hash, xs, c, d, r, q);
      assert r !in rows || q !in rows;
    }
  }

  function LongType(tail: string): string {
    seq(COIN_TYPE_HASH_LENGTH, _ => 'a') + tail
  }

  /** Two coin infos in one transaction whose types differ only after 5000 characters: the fold is left
      with one row where the replay has two. */
  lemma LongTypesLoseARow()
    ensures var xs := [CoinTxn(1, [CoinChange([], LongType("b"), 1), CoinChange([], LongType("c"), 2)])];
            var rows := [Row([LongType("c")], 1, 2)];
            IsFold(Earliest, s => s, xs, rows) && !Lists(Replay(Earliest, AsTxns(s => s, xs)), rows)
  {
    var c, d := CoinChange([], LongType("b"), 1), CoinChange([], LongType("c"), 2);
    var x, rows := CoinTxn(1, [c, d]), [Row([LongType("c")], 1, 2)];
    var hash := (s: string) => s;
    assert Trunc(c.coinType) == LongType("") == Trunc(d.coinType);
    assert c.coinType[COIN_TYPE_HASH_LENGTH] == 'b' && d.coinType[COIN_TYPE_HASH_LENGTH] == 'c';
    assert c in x.changes && d in x.changes && x in [x] && Clash(c, d);
    assert [c, d][..1] == [c] && [c][..0] == [] && [x][..0] == [];
    assert TxnFold(hash, 1, [c]) == map[FoldKey(c) := RowOf(hash, 1, c)];
    assert TxnFold(hash, 1, [c, d]) == map[FoldKey(d) := RowOf(hash, 1, d)];
    assert BatchFold(Earliest, hash, [x]) == map[FoldKey(d) := RowOf(hash, 1, d)];
    assert RowOf(hash, 1, d) == rows[0] && BatchFold(Earliest, hash, [x])[FoldKey(d)] == rows[0];
    assert BatchFold(Earliest, hash, [x]).Values == {rows[0]};
    FoldLosesNothingIff(Earliest, hash, [x], rows);
  }

  // ---------- Dual convergence ----------

  predicate InOrder<D>(xs: seq<CoinTxn<D>>) {
    forall i, j | 0 <= i < j < |xs| :: xs[i].version < xs[j].version
  }

  /** Batches of whole transactions of the log, in order, that together hold them all. */
  ghost predicate BatchesOf<D(!new)>(log: seq<CoinTxn<D>>, batches: seq<seq<CoinTxn<D>>>) {
    && (forall b <- batches :: forall x <- b :: x in log)
    && (forall b <- batches :: InOrder(b)) && InOrder(log)
    && (forall x <- log :: exists b :: b in batches && x in b)
  }

  function Keyed<D>(hash: string -> string, batches: seq<seq<CoinTxn<D>>>): (r: seq<seq<Txn<D>>>)
    ensures |r| == |batches| && forall b | 0 <= b < |r| :: r[b] == AsTxns(hash, batches[b])
  {
    seq(|batches|, b requires 0 <= b < |batches| => AsTxns(hash, batches[b]))
  }

  lemma BatchesCut<D(!new)>(hash: string -> string, log: seq<CoinTxn<D>>, batches: seq<seq<CoinTxn<D>>>)
    requires BatchesOf(log, batches)
    ensures CutFrom(AsTxns(hash, log), Keyed(hash, batches))
  {
    var l, bs := AsTxns(hash, log), Keyed(hash, batches);
    forall b <- bs
      ensures TakenFrom(l, b)
    {
      var n :| 0 <= n < |bs| && bs[n] == b;
      assert batches[n] in batches;
      BatchTaken(hash, log, batches[n]);
    }
    forall x <- l
      ensures exists b :: b in bs && x in b
    {
      var i :| 0 <= i < |l| && l[i] == x;
      assert log[i] in log;
      var b :| b in batches && log[i] in b;
      var n :| 0 <= n < |batches| && batches[n] == b;
      var j :| 0 <= j < |b| && b[j] == log[i];
      assert bs[n][j] == x && bs[n] in bs;
    }
  }

  /** The batch is made of whole transactions of the log, in order. */
  lemma BatchTaken<D(!new)>(hash: string -> string, log: seq<CoinTxn<D>>, batch: seq<CoinTxn<D>>)
    requires InOrder(batch) && forall x <- batch :: x in log
    ensures TakenFrom(AsTxns(hash, log), AsTxns(hash, batch))
  {
    var l, b := AsTxns(hash, log), AsTxns(hash, batch);
    forall i | 0 <= i < |b|
      ensures b[i] in l
    {
      assert batch[i] in log;
      var j :| 0 <= j < |log| && log[j] == batch[i];
      assert l[j] == b[i];
    }
  }

  /** Each list holds the fold of its batch, and no batch has clashing coin types. */
  ghost predicate FoldsOf<D(!new)>(
    wins: Wins, hash: string -> string, batches: seq<seq<CoinTxn<D>>>, lists: seq<seq<Row<D>>>) {
    |lists| == |batches|
    && forall b | 0 <= b < |batches| :: IsFold(wins, hash, batches[b], lists[b]) && NoClash(batches[b])
  }

  lemma FoldsListReplays<D(!new)>(
    wins: Wins, hash: string -> string, batches: seq<seq<CoinTxn<D>>>, lists: seq<seq<Row<D>>>)
    requires Injective(hash) && FoldsOf(wins, hash, batches, lists)
    ensures forall b | 0 <= b < |batches| :: Lists(Replay(wins, Keyed(hash, batches)[b]), lists[b])
  {
    forall b | 0 <= b < |batches|
      ensures Lists(Replay(wins, Keyed(hash, batches)[b]), lists[b])
    {
      FoldLosesNothingIff(wins, hash, batches[b], lists[b]);
    }
  }

  /** Under any batching, chunking, interleaving and retry, with any repeated batches and any left half
      written, the table holds for each key some transaction writes exactly the row of the winning one:
      the earliest for `coin_infos`, the latest for `current_coin_balances`. */
  lemma CoinTableConverges<D(!new)>(
    wins: Wins, hash: string -> string, wr: Writer<D>, log: seq<CoinTxn<D>>, batches: seq<seq<CoinTxn<D>>>,
    lists: seq<seq<Row<D>>>, partial: seq<seq<CoinTxn<D>>>, partialLists: seq<seq<Row<D>>>, ws: seq<RowWrite<D>>)
    requires Injective(hash) && BatchesOf(log, batches) && FoldsOf(wins, hash, batches, lists)
    requires forall b <- partial :: InOrder(b) && forall x <- b :: x in log
    requires FoldsOf(wins, hash, partial, partialLists)
    requires wr.size >= 1 && Executed(wr, lists + partialLists, lists, ws)
    requires GuardsKept(wr, lists + partialLists) && forall rows <- lists + partialLists :: CleanAlready(wr, rows)
    ensures UpsertAll(wins, map[], ws) == Replay(wins, AsTxns(hash, log))
    ensures BestFor(wins, UpsertAll(wins, map[], ws), AsTxns(hash, log))
  {
    BatchesCut(hash, log, batches);
    FoldsListReplays(wins, hash, batches, lists);
    FoldsListReplays(wins, hash, partial, partialLists);
    forall b <- Keyed(hash, partial)
      ensures TakenFrom(AsTxns(hash, log), b)
    {
      var n :| 0 <= n < |partial| && Keyed(hash, partial)[n] == b;
      BatchTaken(hash, log, partial[n]);
    }
    ExecutedWritesConverge(wins, wr, AsTxns(hash, log), Keyed(hash, batches), lists,
                           Keyed(hash, partial), partialLists, ws);
    ReplayIsBest(wins, AsTxns(hash, log));
  }

  /** Writing the fold of one batch leaves the table of its replay exactly when no coin types clash. */
  lemma OneBatchTableIff<D(!new)>(
    wins: Wins, hash: string -> string, xs: seq<CoinTxn<D>>, rows: seq<Row<D>>, ws: seq<RowWrite<D>>)
    requires Injective(hash) && InOrder(xs) && IsFold(wins, hash, xs, rows)
    requires WritesOf([rows], [rows], ws) && forall w <- ws :: w.guarded
    ensures UpsertAll(wins, map[], ws) == Replay(wins, AsTxns(hash, xs)) <==> NoClash(xs)
  {
    var log, t := AsTxns(hash, xs), UpsertAll<D>(wins, map[], ws);
    if NoClash(xs) {
      FoldLosesNothingIff(wins, hash, xs, rows);
      BatchTaken(hash, xs, xs);
      assert [rows] + [] == [rows];
      GuardedWritesConverge(wins, log, [log], [rows], [], [], ws);
    } else {
      var x, y, c, d :| x in xs && y in xs && c in x.changes && d in y.changes && Clash(c, d);
      ReplayHasKey(wins, hash, xs, x, c);
      ReplayHasKey(wins, hash, xs, y, d);
      UpsertsKeepBest(wins, ws, ws);
      if t == Replay(wins, log) {
        ClashLosesARow(wins, hash, xs, c, d, t[TableKey(hash, c)], t[TableKey(hash, d)]);
      }
    }
  }
}
