/** The `current_table_items` table: how a batch of transactions becomes a sorted list of rows, and
    what any set of concurrent, chunked, retried inserts of such lists leaves behind. */
module TableItems {
  import opened Options
  import opened Chunking
  import opened Addresses
  import opened JsonCleaning
  import opened Upserts
  import opened Convergence
  import opened Execution
  import LockOrder

  /** One table change of a transaction, with its key and value already decoded. */
  datatype TableChange =
    | WriteTableItem(handle: string, key: string, decodedKey: Json, decodedValue: Json)
    | DeleteTableItem(handle: string, key: string, decodedKey: Json)

  datatype TableTxn = TableTxn(version: nat, changes: seq<TableChange>)

  /** The non-key columns. */
  datatype CurrentItem = CurrentItem(
    key: string, decodedKey: Json, decodedValue: Option<Json>, isDeleted: bool)

  type ItemRow = Row<CurrentItem>

  /** The primary key: the standardized handle and the hash of the key. */
  function PrimaryKey(hash: string -> string, c: TableChange): Key {
    [StandardizeAddress(c.handle), hash(c.key)]
  }

  /** A written value of JSON null is stored as no value. */
  function ItemOf(c: TableChange): CurrentItem {
    match c
    case WriteTableItem(_, key, dk, dv) => CurrentItem(key, dk, if dv == Null then None else Some(dv), false)
    case DeleteTableItem(_, key, dk) => CurrentItem(key, dk, None, true)
  }

  function AsChange(hash: string -> string, c: TableChange): Change<CurrentItem> {
    Change(PrimaryKey(hash, c), ItemOf(c))
  }

  function AsTxn(hash: string -> string, x: TableTxn): Txn<CurrentItem> {
    Txn(x.version, seq(|x.changes|, i requires 0 <= i < |x.changes| => AsChange(hash, x.changes[i])))
  }

  function AsTxns(hash: string -> string, xs: seq<TableTxn>): (r: seq<Txn<CurrentItem>>)
    ensures |r| == |xs| && forall i | 0 <= i < |r| :: r[i] == AsTxn(hash, xs[i])
  {
    seq(|xs|, i requires 0 <= i < |xs| => AsTxn(hash, xs[i]))
  }

  // ---------- From a batch to a sorted list ----------

  predicate Sorted<D>(rows: seq<Row<D>>) {
    forall i, j | 0 <= i < j < |rows| :: KeyLess(rows[i].key, rows[j].key)
  }

  /** Put a row with a new key where it belongs in a sorted list. */
  function InsertRow<D>(rows: seq<Row<D>>, r: Row<D>): seq<Row<D>> {
    if rows == [] || KeyLess(r.key, rows[0].key) then [r] + rows
    else [rows[0]] + InsertRow(rows[1..], r)
  }

  lemma {:induction false} InsertRowContents<D(!new)>(rows: seq<Row<D>>, r: Row<D>)
    ensures forall x :: x in InsertRow(rows, r) <==> x in rows || x == r
  {
    if rows != [] && !KeyLess(r.key, rows[0].key) {
      InsertRowContents(rows[1..], r);
      assert rows == [rows[0]] + rows[1..];
    }
  }

  lemma SortedCons<D>(x: Row<D>, rest: seq<Row<D>>)
    requires Sorted(rest) && forall y <- rest :: KeyLess(x.key, y.key)
    ensures Sorted([x] + rest)
  {
    var all := [x] + rest;
    forall i, j | 0 <= i < j < |all|
      ensures KeyLess(all[i].key, all[j].key)
    {
      assert all[j] == rest[j - 1] && rest[j - 1] in rest;
      if i > 0 { assert all[i] == rest[i - 1]; }
    }
  }

  lemma {:induction false} InsertRowSorted<D(!new)>(rows: seq<Row<D>>, r: Row<D>)
    requires Sorted(rows) && forall x <- rows :: x.key != r.key
    ensures Sorted(InsertRow(rows, r))
  {
    if rows == [] {
    } else if KeyLess(r.key, rows[0].key) {
      forall y <- rows
        ensures KeyLess(r.key, y.key)
      {
        var j :| 0 <= j < |rows| && rows[j] == y;
        if j > 0 { KeyOrderTransitive(r.key, rows[0].key, rows[j].key); }
      }
      SortedCons(r, rows);
    } else {
      var rest := InsertRow(rows[1..], r);
      InsertRowSorted(rows[1..], r);
      InsertRowContents(rows[1..], r);
      KeyOrderTotal(r.key, rows[0].key);
      forall y <- rest
        ensures KeyLess(rows[0].key, y.key)
      {
        if y != r {
          var j :| 0 <= j < |rows[1..]| && rows[1..][j] == y;
          assert rows[j + 1] == y;
        }
      }
      SortedCons(rows[0], rest);
    }
  }

  /** The sorted list of a table's rows. */
  ghost function SortedList<D(!new)>(t: Table<D>): (rows: seq<Row<D>>)
    ensures Lists(t, rows) && Sorted(rows)
    decreases |t|
  {
    if t == map[] then []
    else
      var k :| k in t;
      var rest: Table<D> := t - {k};
      assert rest.Keys == t.Keys - {k};
      InsertRowContents(SortedList(rest), t[k]);
      InsertRowSorted(SortedList(rest), t[k]);
      InsertRow(SortedList(rest), t[k])
  }

  lemma FirstIsLeast<D(!new)>(a: seq<Row<D>>, b: seq<Row<D>>)
    requires Sorted(a) && Sorted(b) && a != [] && b != [] && forall r :: r in a <==> r in b
    ensures a[0] == b[0]
  {
    assert a[0] in a && b[0] in b;
    var i :| 0 <= i < |b| && b[i] == a[0];
    var j :| 0 <= j < |a| && a[j] == b[0];
    KeyOrderTotal(a[0].key, b[0].key);
  }

  lemma TailMembers<D(!new)>(a: seq<Row<D>>, r: Row<D>)
    requires Sorted(a) && a != []
    ensures r in a[1..] <==> r in a && r != a[0]
  {
    if r in a && r != a[0] {
      var i :| 0 <= i < |a| && a[i] == r;
      assert a[1..][i - 1] == r;
    }
    if r in a[1..] {
      var i :| 0 <= i < |a[1..]| && a[1..][i] == r;
      assert a[i + 1] == r;
      KeyOrderTotal(a[0].key, r.key);
    }
  }

  /** A set of rows has one listing in strict key order. */
  lemma {:induction false} SortedUnique<D(!new)>(a: seq<Row<D>>, b: seq<Row<D>>)
    requires Sorted(a) && Sorted(b) && forall r :: r in a <==> r in b
    ensures a == b
    decreases |a|
  {
    assert a != [] ==> a[0] in a;
    assert b != [] ==> b[0] in b;
    if a != [] {
      FirstIsLeast(a, b);
      forall r: Row<D> ensures r in a[1..] <==> r in b[1..] { TailMembers(a, r); TailMembers(b, r); }
      SortedUnique(a[1..], b[1..]);
      assert a == [a[0]] + a[1..] && b == [b[0]] + b[1..];
    }
  }

  /** Collect the values of a table into the list sorted by key. */
  method SortByKey<D(!new)>(t: Table<D>) returns (rows: seq<Row<D>>)
    ensures Lists(t, rows) && Sorted(rows) && rows == SortedList(t)
  {
    rows := [];
    var rest: set<Key> := t.Keys;
    while rest != {}
      invariant rest <= t.Keys && Sorted(rows)
      invariant forall r :: r in rows <==> r.key in t && r.key !in rest && t[r.key] == r
      decreases |rest|
    {
      var k :| k in rest;
      InsertRowContents(rows, t[k]);
      InsertRowSorted(rows, t[k]);
      rows := InsertRow(rows, t[k]);
      rest := rest - {k};
    }
    SortedUnique(rows, SortedList(t));
  }

  /** Fold the changes of one transaction into the rows so far, later changes overwriting. */
  method FoldTransaction(hash: string -> string, before: Table<CurrentItem>, x: TableTxn)
    returns (current: Table<CurrentItem>)
    ensures current == Overwrite(before, x.version, AsTxn(hash, x).changes)
  {
    current := before;
    ghost var changes := AsTxn(hash, x).changes;
    for j := 0 to |x.changes|
      invariant current == Overwrite(before, x.version, changes[..j])
    {
      var k := PrimaryKey(hash, x.changes[j]);
      OverwriteNext(before, x.version, changes, j);
      current := current[k := Row(k, x.version, ItemOf(x.changes[j]))];
    }
    assert changes[..|x.changes|] == changes;
  }

  /** Fold the changes of a batch into one row per key, and sort. */
  method ProcessTransactions(hash: string -> string, xs: seq<TableTxn>) returns (rows: seq<ItemRow>)
    ensures Lists(ReplayLatest(AsTxns(hash, xs)), rows) && Sorted(rows)
    ensures rows == SortedList(ReplayLatest(AsTxns(hash, xs)))
  {
    var current: Table<CurrentItem> := map[];
    ghost var txns := AsTxns(hash, xs);
    for i := 0 to |xs|
      invariant current == ReplayLatest(txns[..i])
    {
      assert txns[..i + 1][..i] == txns[..i];
      current := FoldTransaction(hash, current, xs[i]);
    }
    assert txns[..|xs|] == txns;
    rows := SortByKey(current);
  }

  // ---------- Which change a row is from, and what it holds ----------

  /** The changes are to one item: the same table, however its handle is written, and the same key. */
  predicate SameItem(c: TableChange, d: TableChange) {
    StandardizeAddress(c.handle) == StandardizeAddress(d.handle) && c.key == d.key
  }

  /** The row's key columns are those of the item. */
  predicate RowOfItem(hash: string -> string, r: ItemRow, c: TableChange) {
    r.key == [StandardizeAddress(c.handle), hash(c.key)]
  }

  /** The row holds what change `c` of version `version` says: a delete leaves no value and marks the row, a
      write of JSON null leaves no value either. */
  predicate HoldsChange(r: ItemRow, version: nat, c: TableChange) {
    && r.version == version && r.data.key == c.key && r.data.decodedKey == c.decodedKey
    && (r.data.isDeleted <==> c.DeleteTableItem?)
    && r.data.decodedValue == (if c.WriteTableItem? && c.decodedValue != Null then Some(c.decodedValue) else None)
  }

  /** No change after change `j` of transaction `i` is to the same item. */
  ghost predicate LastChange(xs: seq<TableTxn>, i: nat, j: nat) {
    && i < |xs| && j < |xs[i].changes|
    && (forall n | j < n < |xs[i].changes| :: !SameItem(xs[i].changes[n], xs[i].changes[j]))
    && (forall m, n | i < m < |xs| && 0 <= n < |xs[m].changes| :: !SameItem(xs[m].changes[n], xs[i].changes[j]))
  }

  lemma ItemKeys(hash: string -> string, c: TableChange, d: TableChange)
    requires Injective(hash)
    ensures AsChange(hash, c).key == AsChange(hash, d).key <==> SameItem(c, d)
    ensures AsChange(hash, c).key == [StandardizeAddress(c.handle), hash(c.key)]
  {
    assert AsChange(hash, c).key[0] == StandardizeAddress(c.handle) && AsChange(hash, c).key[1] == hash(c.key);
    assert AsChange(hash, d).key[0] == StandardizeAddress(d.handle) && AsChange(hash, d).key[1] == hash(d.key);
  }

  /** The row of every item holds its last change. */
  lemma RowHoldsLastChange(hash: string -> string, xs: seq<TableTxn>, i: nat, j: nat)
    requires Injective(hash) && LastChange(xs, i, j)
    ensures var t, c := ReplayLatest(AsTxns(hash, xs)), xs[i].changes[j];
            exists k :: k in t && RowOfItem(hash, t[k], c) && HoldsChange(t[k], xs[i].version, c)
  {
    var txns, c := AsTxns(hash, xs), xs[i].changes[j];
    forall n | j < n < |xs[i].changes|
      ensures txns[i].changes[n].key != txns[i].changes[j].key
    {
      ItemKeys(hash, xs[i].changes[n], c);
    }
    forall m | i < m < |txns|
      ensures !Touches(txns[m], txns[i].changes[j].key)
    {
      forall n | 0 <= n < |txns[m].changes|
        ensures txns[m].changes[n].key != txns[i].changes[j].key
      {
        ItemKeys(hash, xs[m].changes[n], c);
      }
    }
    ReplayLatestHolds(txns, i, j);
    ItemKeys(hash, c, c);
  }

  /** Every row is that of an item some transaction changes. */
  lemma RowsAreOfItems(hash: string -> string, xs: seq<TableTxn>, k: Key) returns (x: TableTxn, c: TableChange)
    requires Injective(hash) && k in ReplayLatest(AsTxns(hash, xs))
    ensures x in xs && c in x.changes && RowOfItem(hash, ReplayLatest(AsTxns(hash, xs))[k], c)
  {
    var txns := AsTxns(hash, xs);
    ReplayKeys(Latest, txns, k);
    var i :| 0 <= i < |txns| && Touches(txns[i], k);
    var j :| 0 <= j < |txns[i].changes| && txns[i].changes[j].key == k;
    x, c := xs[i], xs[i].changes[j];
    ItemKeys(hash, c, c);
  }

  lemma ItemHasRow(hash: string -> string, xs: seq<TableTxn>, x: TableTxn, c: TableChange) returns (k: Key)
    requires Injective(hash) && x in xs && c in x.changes
    ensures k in ReplayLatest(AsTxns(hash, xs)) && RowOfItem(hash, ReplayLatest(AsTxns(hash, xs))[k], c)
  {
    var txns := AsTxns(hash, xs);
    var i :| 0 <= i < |xs| && xs[i] == x;
    var j :| 0 <= j < |x.changes| && x.changes[j] == c;
    k := AsChange(hash, c).key;
    assert txns[i].changes[j].key == k && Touches(txns[i], k);
    ReplayKeys(Latest, txns, k);
    ItemKeys(hash, c, c);
  }

  /** Two changes end in one row exactly when they are to one item. */
  lemma OneRowPerItem(hash: string -> string, xs: seq<TableTxn>, x: TableTxn, y: TableTxn, c: TableChange, d: TableChange)
    requires Injective(hash) && x in xs && y in xs && c in x.changes && d in y.changes
    ensures var t := ReplayLatest(AsTxns(hash, xs));
            (exists k :: k in t && RowOfItem(hash, t[k], c) && RowOfItem(hash, t[k], d)) <==> SameItem(c, d)
  {
    ItemKeys(hash, c, d);
    ItemKeys(hash, d, c);
    var k := ItemHasRow(hash, xs, x, c);
  }

  // ---------- Cleaning ----------

  /** A row as the retry after a failed insert writes it: every text in it cleaned. */
  function CleanRow(r: ItemRow): ItemRow {
    var d := r.data;
    Row(seq(|r.key|, i requires 0 <= i < |r.key| => CleanText(r.key[i])), r.version,
        CurrentItem(CleanText(d.key), Clean(d.decodedKey),
                    if d.decodedValue.Some? then Some(Clean(d.decodedValue.value)) else None, d.isDeleted))
  }

  ghost predicate SpotlessRow(r: ItemRow) {
    && (forall i | 0 <= i < |r.key| :: Spotless(r.key[i]))
    && Spotless(r.data.key) && SpotlessTree(r.data.decodedKey)
    && (r.data.decodedValue.Some? ==> SpotlessTree(r.data.decodedValue.value))
  }

  /** Cleaning is the identity on a row exactly when no text in it holds a null byte or the escape. */
  lemma CleanRowIdentityIff(r: ItemRow)
    ensures CleanRow(r) == r <==> SpotlessRow(r)
  {
    forall s: string ensures CleanText(s) == s <==> Spotless(s) { CleanTextExact(s); }
    CleanIdentityIff(r.data.decodedKey);
    if r.data.decodedValue.Some? { CleanIdentityIff(r.data.decodedValue.value); }
    var cleaned := CleanRow(r).key;
    assert forall i | 0 <= i < |r.key| :: cleaned[i] == CleanText(r.key[i]);
    if SpotlessRow(r) { assert cleaned == r.key; }
  }

  /** A cleaned row has no null byte in any text; its version, its mark, the shape of its values and everything in
      them but text are as before. */
  lemma CleanRowRemovesNul(r: ItemRow)
    ensures var c := CleanRow(r);
            && |c.key| == |r.key| && (forall i | 0 <= i < |c.key| :: NUL !in c.key[i]) && NUL !in c.data.key
            && EveryText(c.data.decodedKey, s => NUL !in s) && Skeleton(c.data.decodedKey) == Skeleton(r.data.decodedKey)
            && (c.data.decodedValue.Some? <==> r.data.decodedValue.Some?)
            && (c.data.decodedValue.Some? ==>
                  EveryText(c.data.decodedValue.value, s => NUL !in s)
                  && Skeleton(c.data.decodedValue.value) == Skeleton(r.data.decodedValue.value))
            && c.version == r.version && c.data.isDeleted == r.data.isDeleted
  {
    forall s: string ensures NUL !in CleanText(s) { CleanTextExact(s); }
    CleanRemovesNul(r.data.decodedKey);
    CleanKeepsSkeleton(r.data.decodedKey);
    if r.data.decodedValue.Some? {
      CleanRemovesNul(r.data.decodedValue.value);
      CleanKeepsSkeleton(r.data.decodedValue.value);
    }
  }

  /** How this table's rows are written. */
  function ItemWriter(render: seq<ItemRow> -> string, size: nat): Writer<CurrentItem> {
    Writer(render, (r: ItemRow) => CleanRow(r), size)
  }

  // ---------- Convergence ----------

  /** Convergence: for any log of table writes and deletes, any cut into batches of whole
      transactions, any chunk size, any interleaving, any retries, any batches left half written by
      a crash and any replay with other batch boundaries, `current_table_items` ends equal to the
      sequential replay of the log, provided no statement loses its guard and no text in the rows
      holds a null byte or the escape. */
  lemma TableItemsConverge(
    hash: string -> string, render: seq<ItemRow> -> string, size: nat, log: seq<TableTxn>,
    batches: seq<seq<Txn<CurrentItem>>>, lists: seq<seq<ItemRow>>,
    partial: seq<seq<Txn<CurrentItem>>>, partialLists: seq<seq<ItemRow>>, ws: seq<RowWrite<CurrentItem>>)
    requires size >= 1 && CutFrom(AsTxns(hash, log), batches) && |lists| == |batches|
    requires forall b | 0 <= b < |batches| :: Lists(ReplayLatest(batches[b]), lists[b])
    requires (forall b <- partial :: TakenFrom(AsTxns(hash, log), b)) && |partialLists| == |partial|
    requires forall b | 0 <= b < |partial| :: Lists(ReplayLatest(partial[b]), partialLists[b])
    requires Executed(ItemWriter(render, size), lists + partialLists, lists, ws)
    requires GuardsKept(ItemWriter(render, size), lists + partialLists)
    requires forall rows <- lists + partialLists :: forall r <- rows :: SpotlessRow(r)
    ensures UpsertAll(Latest, map[], ws) == ReplayLatest(AsTxns(hash, log))
  {
    forall rows <- lists + partialLists
      ensures CleanAlready(ItemWriter(render, size), rows)
    {
      forall r <- rows ensures CleanRow(r) == r { CleanRowIdentityIff(r); }
    }
    ExecutedWritesConverge(Latest, ItemWriter(render, size), AsTxns(hash, log), batches, lists, partial, partialLists, ws);
  }

  // ---------- Locks ----------

  function KeysOf<D>(rows: seq<Row<D>>): (ks: seq<Key>)
    ensures |ks| == |rows| && forall i | 0 <= i < |ks| :: ks[i] == rows[i].key
  {
    seq(|rows|, i requires 0 <= i < |rows| => rows[i].key)
  }

  /** The chunks of sorted lists take their locks in strict key order, so no number of them running
      at once can deadlock, and every run that goes on as long as it can completes them all. */
  lemma ChunksOfSortedListsFinish(lists: seq<seq<ItemRow>>, size: nat, plan: seq<seq<Key>>, ms: seq<LockOrder.Move>)
    requires size >= 1 && forall rows <- lists :: Sorted(rows)
    requires forall keys <- plan :: exists rows, chunk ::
               rows in lists && chunk in Chunks(rows, size) && keys == KeysOf(chunk)
    requires LockOrder.Possible(plan, ms)
    ensures !LockOrder.Finished(LockOrder.After(plan, ms)) ==> !LockOrder.Stuck(plan, LockOrder.After(plan, ms))
    ensures |ms| <= LockOrder.WorkLeft(plan, LockOrder.AtStart(plan), |plan|)
  {
    forall keys <- plan
      ensures LockOrder.Ascending(keys)
    {
      var rows: seq<ItemRow>, chunk :| rows in lists && chunk in Chunks(rows, size) && keys == KeysOf(chunk);
      var i :| 0 <= i < |Chunks(rows, size)| && Chunks(rows, size)[i] == chunk;
      var lo, hi := ChunksAreSlices(rows, size, i);
      forall a, b | 0 <= a < b < |keys|
        ensures KeyLess(keys[a], keys[b])
      {
        assert keys[a] == rows[lo + a].key && keys[b] == rows[lo + b].key;
      }
    }
    LockOrder.MaximalRunsFinish(plan, ms);
  }
}
