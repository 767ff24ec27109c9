/** The pipeline and the table together: what `current_table_items` holds in every state a run can
    reach, and after a clean shutdown. Every statement is taken to keep its guard and to need no
    cleaning; GuardLoss and TableItems say when that is so. */
module EndToEnd {
  import opened Options
  import opened Chunking
  import opened Upserts
  import opened Fetching
  import opened Pipeline
  import C = Convergence
  import T = TableItems
  import Safety = PipelineSafety
  import Flow = PipelineConservation
  import Necessity = PipelineNecessity

  /** How transactions are decoded and how rows are keyed and chunked. */
  datatype Tables = Tables(hash: string -> string, decode: string -> seq<T.TableChange>, size: nat)

  function TableTxn(cfg: Tables, t: Transaction): C.Txn<T.CurrentItem> {
    T.AsTxn(cfg.hash, T.TableTxn(t.version, cfg.decode(t.content)))
  }

  function TableTxns(cfg: Tables, txns: seq<Transaction>): (r: seq<C.Txn<T.CurrentItem>>)
    ensures |r| == |txns| && forall i | 0 <= i < |r| :: r[i] == TableTxn(cfg, txns[i])
  {
    seq(|txns|, i requires 0 <= i < |txns| => TableTxn(cfg, txns[i]))
  }

  /** The rows a batch inserts. */
  ghost function BatchRows(cfg: Tables, txns: seq<Transaction>): seq<T.ItemRow> {
    T.SortedList(C.ReplayLatest(TableTxns(cfg, txns)))
  }

  /** The processor computes exactly these rows. */
  method InsertedRows(cfg: Tables, txns: seq<Transaction>) returns (rows: seq<T.ItemRow>)
    ensures rows == BatchRows(cfg, txns)
  {
    var decoded := seq(|txns|, i requires 0 <= i < |txns| => T.TableTxn(txns[i].version, cfg.decode(txns[i].content)));
    rows := T.ProcessTransactions(cfg.hash, decoded);
    assert T.AsTxns(cfg.hash, decoded) == TableTxns(cfg, txns);
  }

  /** The first statements of a batch are its `current_table_items` chunks; the others concern other
      tables. */
  ghost predicate StatementsMatch(cfg: Tables, p: Setting) {
    cfg.size >= 1 && forall txns :: p.statements(txns) >= |Chunks(BatchRows(cfg, txns), cfg.size)|
  }

  /** What one executed statement writes to the table. */
  ghost function RowWrites(cfg: Tables, w: Write): seq<RowWrite<T.CurrentItem>>
    requires cfg.size >= 1
  {
    var chunks := Chunks(BatchRows(cfg, w.txns), cfg.size);
    if w.index < |chunks| then Writes(Statement(chunks[w.index], true)) else []
  }

  function FlatMap<A, B>(f: A -> seq<B>, xs: seq<A>): seq<B> {
    if xs == [] then [] else FlatMap(f, xs[..|xs| - 1]) + f(xs[|xs| - 1])
  }

  lemma {:induction false} FlatMapMembers<A(!new), B>(f: A -> seq<B>, xs: seq<A>, y: B)
    ensures y in FlatMap(f, xs) <==> exists x :: x in xs && y in f(x)
  {
    if xs != [] {
      var front, last := xs[..|xs| - 1], xs[|xs| - 1];
      FlatMapMembers(f, front, y);
      assert xs == front + [last];
      assert forall x :: x in xs <==> x in front || x == last;
    }
  }

  /** The row writes of all statements executed so far, in order. */
  ghost function AllRowWrites(cfg: Tables, ws: seq<Write>): seq<RowWrite<T.CurrentItem>>
    requires cfg.size >= 1
  {
    FlatMap((w: Write) => RowWrites(cfg, w), ws)
  }

  /** The table after the statements executed so far. */
  ghost function TableOf(cfg: Tables, ws: seq<Write>): Table<T.CurrentItem>
    requires cfg.size >= 1
  {
    UpsertAll(Latest, map[], AllRowWrites(cfg, ws))
  }

  /** Some executed statement wrote `x`. */
  ghost predicate WrittenBy(cfg: Tables, ws: seq<Write>, x: RowWrite<T.CurrentItem>)
    requires cfg.size >= 1
  {
    exists w :: w in ws && x in RowWrites(cfg, w)
  }

  lemma AllRowWritesMembers(cfg: Tables, ws: seq<Write>, x: RowWrite<T.CurrentItem>)
    requires cfg.size >= 1
    ensures x in AllRowWrites(cfg, ws) <==> WrittenBy(cfg, ws, x)
  {
    var f: Write -> seq<RowWrite<T.CurrentItem>> := (w: Write) => RowWrites(cfg, w);
    FlatMapMembers(f, ws, x);
  }

  // ---------- What the statements executed so far amount to ----------

  /** Wanted transactions of the ledger, in order. */
  ghost predicate Genuine(p: Setting, txns: seq<Transaction>) {
    Necessity.Increasing(txns) && forall t <- txns :: t == Txn(p, t.version) && p.wanted(t)
  }

  /** Every statement of the batch has been executed. */
  ghost predicate Written(p: Setting, ws: seq<Write>, txns: seq<Transaction>) {
    forall j: nat | j < p.statements(txns) :: Write(txns, j) in ws
  }

  /** A fully written batch of ledger transactions that holds version `v`. */
  ghost predicate WrittenWith(p: Setting, ws: seq<Write>, txns: seq<Transaction>, v: nat) {
    Genuine(p, txns) && Written(p, ws, txns) && Txn(p, v) in txns
  }

  ghost predicate Backed(p: Setting, ws: seq<Write>, v: nat) {
    exists txns :: WrittenWith(p, ws, txns, v)
  }

  ghost predicate AllGenuine(p: Setting, ms: seq<Message>) {
    forall m <- ms :: Genuine(p, m.txns)
  }

  ghost predicate TaskTraced(p: Setting, ws: seq<Write>, t: Task) {
    t.Working? ==> Genuine(p, t.msg.txns) && forall j <- t.done :: Write(t.msg.txns, j) in ws
  }

  ghost predicate Traced(p: Setting, w: World) {
    && (forall x <- w.writes :: Genuine(p, x.txns))
    && (forall v <- w.committed :: Backed(p, w.writes, v))
    && (w.life.Some? ==>
          && AllGenuine(p, w.life.value.outbox) && AllGenuine(p, w.life.value.queue)
          && forall i | 0 <= i < |w.life.value.tasks| :: TaskTraced(p, w.writes, w.life.value.tasks[i]))
  }

  lemma SliceGenuine(p: Setting, txns: seq<Transaction>, lo: nat, hi: nat)
    requires Genuine(p, txns) && lo <= hi <= |txns|
    ensures Genuine(p, txns[lo..hi])
  {
  }

  lemma SplitGenuine(p: Setting, start: nat, a: nat, b: nat, chainId: Option<nat>, len: nat)
    requires a <= b && p.chunkSize >= 1 && chainId.Some?
    ensures var r := RangeResponse(p, a, b, chainId, len);
            AllGenuine(p, Split(FetchConfig(p, start), r, Filter(r.txns, p.wanted)))
  {
    var r := RangeResponse(p, a, b, chainId, len);
    var kept := Filter(r.txns, p.wanted);
    Safety.RangeResponseContents(p, a, b, chainId, len);
    Necessity.FilterIncreasing(r.txns, p.wanted);
    assert Genuine(p, kept);
    var ms := Split(FetchConfig(p, start), r, kept);
    if |kept| >= p.chunkSize {
      forall i | 0 <= i < |ms|
        ensures Genuine(p, ms[i].txns)
      {
        var lo, hi := ChunksAreSlices(kept, p.chunkSize, i);
        SliceGenuine(p, kept, lo, hi);
      }
    }
  }

  lemma FetchKeepsTraced(p: Setting, w: World, e: Event)
    requires e.Fetch? && Enabled(p, w, e) && Traced(p, w)
    ensures Traced(p, Step(p, w, e))
  {
    if p.chunkSize >= 1 && e.chainId.Some? {
      SplitGenuine(p, w.life.value.start, e.a, e.b, e.chainId, e.encodedLen);
    }
  }

  lemma BackedMonotone(p: Setting, ws: seq<Write>, x: Write, v: nat)
    requires Backed(p, ws, v)
    ensures Backed(p, ws + [x], v)
  {
    var txns :| WrittenWith(p, ws, txns, v);
    assert WrittenWith(p, ws + [x], txns, v);
  }

  lemma ExecKeepsTraced(p: Setting, w: World, e: Event)
    requires e.Exec? && Enabled(p, w, e) && Traced(p, w)
    ensures Traced(p, Step(p, w, e))
  {
    var l := w.life.value;
    assert TaskTraced(p, w.writes, l.tasks[e.i]);
    var x := Write(l.tasks[e.i].msg.txns, e.j);
    forall v <- w.committed ensures Backed(p, w.writes + [x], v) { BackedMonotone(p, w.writes, x, v); }
    var tasks := l.tasks[e.i := Working(l.tasks[e.i].msg, l.tasks[e.i].done + {e.j})];
    forall i | 0 <= i < |tasks|
      ensures TaskTraced(p, w.writes + [x], tasks[i])
    {
      assert TaskTraced(p, w.writes, l.tasks[i]);
    }
  }

  lemma CommitKeepsTraced(p: Setting, w: World, e: Event)
    requires e.Commit? && Enabled(p, w, e) && Traced(p, w)
    ensures Traced(p, Step(p, w, e))
  {
    var l := w.life.value;
    var t := l.tasks[e.i];
    assert TaskTraced(p, w.writes, t);
    forall v <- Versions(t.msg.txns)
      ensures Backed(p, w.writes, v)
    {
      var x :| x in t.msg.txns && x.version == v;
      assert WrittenWith(p, w.writes, t.msg.txns, v);
    }
  }

  lemma StepKeepsTraced(p: Setting, w: World, e: Event)
    requires Enabled(p, w, e) && Traced(p, w)
    ensures Traced(p, Step(p, w, e))
  {
    if e.Fetch? { FetchKeepsTraced(p, w, e); }
    else if e.Exec? { ExecKeepsTraced(p, w, e); }
    else if e.Commit? { CommitKeepsTraced(p, w, e); }
    else if e.Take? { assert w.life.value.queue[0] in w.life.value.queue; }
    else if e.Send? { assert w.life.value.outbox[0] in w.life.value.outbox; }
  }

  lemma {:induction false} RunKeepsTraced(p: Setting, es: seq<Event>)
    requires Possible(p, EMPTY_WORLD, es)
    ensures Traced(p, After(p, EMPTY_WORLD, es))
  {
    if es != [] {
      RunKeepsTraced(p, es[..|es| - 1]);
      StepKeepsTraced(p, After(p, EMPTY_WORLD, es[..|es| - 1]), es[|es| - 1]);
    }
  }

  // ---------- The table in every reachable state ----------

  lemma GenuineIncreasing(cfg: Tables, p: Setting, txns: seq<Transaction>)
    requires Genuine(p, txns)
    ensures C.Increasing(TableTxns(cfg, txns))
  {
  }

  /** Every row of a fully written batch has been written. */
  lemma WrittenRows(cfg: Tables, p: Setting, ws: seq<Write>, txns: seq<Transaction>, r: T.ItemRow)
    requires StatementsMatch(cfg, p) && Written(p, ws, txns) && r in BatchRows(cfg, txns)
    ensures RowWrite(r, true) in AllRowWrites(cfg, ws)
  {
    var rows := BatchRows(cfg, txns);
    ChunksMembers(rows, cfg.size, r);
    var j :| 0 <= j < |Chunks(rows, cfg.size)| && r in Chunks(rows, cfg.size)[j];
    assert p.statements(txns) >= |Chunks(BatchRows(cfg, txns), cfg.size)|;
    var i :| 0 <= i < |Chunks(rows, cfg.size)[j]| && Chunks(rows, cfg.size)[j][i] == r;
    assert RowWrites(cfg, Write(txns, j))[i] == RowWrite(r, true);
    AllRowWritesMembers(cfg, ws, RowWrite(r, true));
    assert Write(txns, j) in ws;
  }

  /** Every write is a guarded row of some executed batch. */
  lemma WritesAreRows(cfg: Tables, ws: seq<Write>, x: RowWrite<T.CurrentItem>) returns (w: Write)
    requires cfg.size >= 1 && x in AllRowWrites(cfg, ws)
    ensures w in ws && x.guarded && x.row in BatchRows(cfg, w.txns)
  {
    AllRowWritesMembers(cfg, ws, x);
    w :| w in ws && x in RowWrites(cfg, w);
    RowWriteIsRow(BatchRows(cfg, w.txns), cfg.size, w.index, x);
  }

  lemma RowWriteIsRow(rows: seq<T.ItemRow>, size: nat, j: nat, x: RowWrite<T.CurrentItem>)
    requires size >= 1 && j < |Chunks(rows, size)| && x in Writes(Statement(Chunks(rows, size)[j], true))
    ensures x.guarded && x.row in rows
  {
    var chunk := Chunks(rows, size)[j];
    var i :| 0 <= i < |chunk| && Writes(Statement(chunk, true))[i] == x;
    assert x.row in chunk;
    ChunksMembers(rows, size, x.row);
  }

  lemma TableIsBest(cfg: Tables, ws: seq<Write>)
    requires cfg.size >= 1
    ensures BestOf(Latest, TableOf(cfg, ws), AllRowWrites(cfg, ws))
  {
    var all := AllRowWrites(cfg, ws);
    forall x <- all ensures x.guarded { var w := WritesAreRows(cfg, ws, x); }
    UpsertsKeepBest(Latest, all, all);
  }

  lemma BackedIsHeld(cfg: Tables, p: Setting, ws: seq<Write>, v: nat, k: Key)
    requires StatementsMatch(cfg, p) && Backed(p, ws, v) && k in C.TxnRows(TableTxn(cfg, Txn(p, v)))
    ensures C.HeldAtLeast(Latest, TableOf(cfg, ws), k, v)
  {
    var txns :| WrittenWith(p, ws, txns, v);
    var all, batch := AllRowWrites(cfg, ws), TableTxns(cfg, txns);
    GenuineIncreasing(cfg, p, txns);
    TableIsBest(cfg, ws);
    forall r <- BatchRows(cfg, txns)
      ensures exists w :: w in all && w.row == r
    {
      WrittenRows(cfg, p, ws, txns, r);
    }
    var i :| 0 <= i < |txns| && txns[i] == Txn(p, v);
    assert batch[i] == TableTxn(cfg, Txn(p, v)) && batch[i] in batch;
    C.WrittenAtLeast(Latest, batch, BatchRows(cfg, txns), TableOf(cfg, ws), all, batch[i], k);
  }

  /** In every state any run can reach: for each key that a wanted transaction between the first start
      and the checkpoint changes, the table holds a row at least that recent. */
  lemma TableIsNeverBehindCheckpoint(cfg: Tables, p: Setting, es: seq<Event>, v: nat, k: Key)
    requires AllFit(p) && Possible(p, EMPTY_WORLD, es) && NoSkip(p, EMPTY_WORLD, es)
    requires StatementsMatch(cfg, p)
    requires var w := After(p, EMPTY_WORLD, es);
             w.origin.Some? && w.checkpoint.Some? && w.origin.value <= v <= w.checkpoint.value
    requires Owed(p, v) && k in C.TxnRows(TableTxn(cfg, Txn(p, v)))
    ensures C.HeldAtLeast(Latest, TableOf(cfg, After(p, EMPTY_WORLD, es).writes), k, v)
  {
    Safety.CheckpointIsSafe(p, es);
    RunKeepsTraced(p, es);
    BackedIsHeld(cfg, p, After(p, EMPTY_WORLD, es).writes, v, k);
  }

  /** Version `v` of the ledger is wanted and leaves row `r`. */
  ghost predicate LeftBy(cfg: Tables, p: Setting, v: nat, r: T.ItemRow) {
    Owed(p, v) && C.Leaves(TableTxn(cfg, Txn(p, v)), r)
  }

  /** Every row of an executed batch is one that a transaction of the batch leaves. */
  lemma BatchRowSource(cfg: Tables, p: Setting, txns: seq<Transaction>, r: T.ItemRow) returns (t: Transaction)
    requires Genuine(p, txns) && r in BatchRows(cfg, txns)
    ensures t in txns && LeftBy(cfg, p, t.version, r)
  {
    var batch := TableTxns(cfg, txns);
    GenuineIncreasing(cfg, p, txns);
    C.ReplayIsBest(Latest, batch);
    assert C.Sourced(batch, C.ReplayLatest(batch)[r.key]);
    var i :| 0 <= i < |batch| && C.Leaves(batch[i], r);
    t := txns[i];
    assert t == Txn(p, t.version);
  }

  /** In every state any run can reach, with or without splits and skips, every row of the table is
      one that a wanted transaction of the ledger leaves. */
  lemma TableHoldsOnlyLedgerRows(cfg: Tables, p: Setting, es: seq<Event>, k: Key)
    requires cfg.size >= 1 && Possible(p, EMPTY_WORLD, es)
    requires k in TableOf(cfg, After(p, EMPTY_WORLD, es).writes)
    ensures exists v :: LeftBy(cfg, p, v, TableOf(cfg, After(p, EMPTY_WORLD, es).writes)[k])
  {
    var ws := After(p, EMPTY_WORLD, es).writes;
    RunKeepsTraced(p, es);
    TableIsBest(cfg, ws);
    var r := TableOf(cfg, ws)[k];
    var x :| x in AllRowWrites(cfg, ws) && x.row == r;
    var w := WritesAreRows(cfg, ws, x);
    var t := BatchRowSource(cfg, p, w.txns, r);
  }

  // ---------- The table after a clean shutdown ----------

  /** The wanted transactions from `from` up to but not including `to`. */
  ghost function Ledger(p: Setting, from: nat, to: nat): seq<Transaction> {
    if from < to then Filter(RangeResponse(p, from, to - 1, None, 0).txns, p.wanted) else []
  }

  lemma LedgerContents(p: Setting, from: nat, to: nat)
    ensures Genuine(p, Ledger(p, from, to))
    ensures forall v: nat :: from <= v < to && Owed(p, v) <==> Txn(p, v) in Ledger(p, from, to)
  {
    if from < to {
      Safety.RangeResponseContents(p, from, to - 1, None, 0);
      Necessity.FilterIncreasing(RangeResponse(p, from, to - 1, None, 0).txns, p.wanted);
    }
  }

  ghost predicate Inside(from: nat, to: nat, txns: seq<Transaction>) {
    forall t <- txns :: from <= t.version < to
  }

  /** All transactions ever written lie in `from..to`. */
  ghost predicate WrittenBetween(w: World, from: nat, to: nat) {
    forall x <- w.writes :: Inside(from, to, x.txns)
  }

  ghost function BatchWith(p: Setting, ws: seq<Write>, v: nat): seq<Transaction>
    requires Backed(p, ws, v)
    ensures WrittenWith(p, ws, BatchWith(p, ws, v), v)
  {
    var txns :| WrittenWith(p, ws, txns, v);
    txns
  }

  lemma SubBatch(cfg: Tables, p: Setting, txns: seq<Transaction>, from: nat, to: nat)
    requires Genuine(p, txns) && forall t <- txns :: from <= t.version < to
    ensures C.TakenFrom(TableTxns(cfg, Ledger(p, from, to)), TableTxns(cfg, txns))
  {
    LedgerContents(p, from, to);
    var log, batch := TableTxns(cfg, Ledger(p, from, to)), TableTxns(cfg, txns);
    GenuineIncreasing(cfg, p, txns);
    forall i | 0 <= i < |batch|
      ensures batch[i] in log
    {
      var t := txns[i];
      assert t in txns && t == Txn(p, t.version);
      assert Owed(p, t.version);
      var j :| 0 <= j < |Ledger(p, from, to)| && Ledger(p, from, to)[j] == t;
      assert log[j] == batch[i];
    }
  }

  /** A batch that is not empty has a first statement; versions within a written batch are written. */
  lemma BatchWithin(p: Setting, w: World, v: nat, from: nat, to: nat)
    requires WrittenBetween(w, from, to) && Backed(p, w.writes, v)
    requires forall txns | txns != [] :: p.statements(txns) >= 1
    ensures Inside(from, to, BatchWith(p, w.writes, v))
  {
    var txns := BatchWith(p, w.writes, v);
    assert Write(txns, 0) in w.writes;
  }

  /** Where every wanted version of a range is committed and nothing outside the range was ever
      written, the table is the sequential replay of the range, with any half-written, repeated and
      overlapping batches. */
  lemma CommittedTableIsReplay(cfg: Tables, p: Setting, w: World, from: nat, to: nat)
    requires Traced(p, w) && StatementsMatch(cfg, p) && forall txns | txns != [] :: p.statements(txns) >= 1
    requires Done(p, w.committed, from, to) && WrittenBetween(w, from, to)
    ensures TableOf(cfg, w.writes) == C.ReplayLatest(TableTxns(cfg, Ledger(p, from, to)))
  {
    var ledger := Ledger(p, from, to);
    var log, all := TableTxns(cfg, ledger), AllRowWrites(cfg, w.writes);
    LedgerContents(p, from, to);
    forall i | 0 <= i < |ledger|
      ensures Backed(p, w.writes, ledger[i].version)
    {
      assert ledger[i] in ledger && ledger[i] == Txn(p, ledger[i].version);
      assert Owed(p, ledger[i].version);
    }
    var picked := seq(|ledger|, i requires 0 <= i < |ledger| => BatchWith(p, w.writes, ledger[i].version));
    var batches := seq(|ledger|, i requires 0 <= i < |ledger| => TableTxns(cfg, picked[i]));
    var lists := seq(|ledger|, i requires 0 <= i < |ledger| => BatchRows(cfg, picked[i]));
    LogIsCut(cfg, p, w, from, to, picked, batches);
    ListsAreWritten(cfg, p, w, picked, lists);
    forall x <- all
      ensures x.guarded && C.Sourced(log, x.row)
    {
      RowIsFromLedger(cfg, p, w, from, to, x);
    }
    C.SourcedWritesConverge(Latest, log, batches, lists, all);
  }

  lemma LogIsCut(cfg: Tables, p: Setting, w: World, from: nat, to: nat, picked: seq<seq<Transaction>>,
                 batches: seq<seq<C.Txn<T.CurrentItem>>>)
    requires WrittenBetween(w, from, to) && forall txns | txns != [] :: p.statements(txns) >= 1
    requires |picked| == |Ledger(p, from, to)| == |batches|
    requires forall i | 0 <= i < |picked| :: Backed(p, w.writes, Ledger(p, from, to)[i].version)
    requires forall i | 0 <= i < |picked| :: picked[i] == BatchWith(p, w.writes, Ledger(p, from, to)[i].version)
    requires forall i | 0 <= i < |picked| :: batches[i] == TableTxns(cfg, picked[i])
    ensures C.CutFrom(TableTxns(cfg, Ledger(p, from, to)), batches)
  {
    var ledger := Ledger(p, from, to);
    var log := TableTxns(cfg, ledger);
    LedgerContents(p, from, to);
    GenuineIncreasing(cfg, p, ledger);
    forall i | 0 <= i < |ledger|
      ensures C.TakenFrom(log, batches[i]) && log[i] in batches[i]
    {
      BatchWithin(p, w, ledger[i].version, from, to);
      SubBatch(cfg, p, picked[i], from, to);
      assert ledger[i] in ledger;
      var j :| 0 <= j < |picked[i]| && picked[i][j] == ledger[i];
      assert batches[i][j] == log[i];
    }
    forall x <- log
      ensures exists b :: b in batches && x in b
    {
      var i :| 0 <= i < |log| && log[i] == x;
      assert batches[i] in batches;
    }
  }

  lemma ListsAreWritten(cfg: Tables, p: Setting, w: World, picked: seq<seq<Transaction>>, lists: seq<seq<T.ItemRow>>)
    requires StatementsMatch(cfg, p) && |picked| == |lists|
    requires forall i | 0 <= i < |picked| :: Written(p, w.writes, picked[i]) && lists[i] == BatchRows(cfg, picked[i])
    ensures C.AllWritten(lists, AllRowWrites(cfg, w.writes))
  {
    forall rows, r | rows in lists && r in rows
      ensures exists x :: x in AllRowWrites(cfg, w.writes) && x.row == r
    {
      var i :| 0 <= i < |lists| && lists[i] == rows;
      WrittenRows(cfg, p, w.writes, picked[i], r);
    }
  }

  lemma RowIsFromLedger(cfg: Tables, p: Setting, w: World, from: nat, to: nat, x: RowWrite<T.CurrentItem>)
    requires cfg.size >= 1 && Traced(p, w) && WrittenBetween(w, from, to) && x in AllRowWrites(cfg, w.writes)
    ensures x.guarded && C.Sourced(TableTxns(cfg, Ledger(p, from, to)), x.row)
  {
    var source := WritesAreRows(cfg, w.writes, x);
    SubBatch(cfg, p, source.txns, from, to);
    C.BatchRowIsSourced(Latest, TableTxns(cfg, Ledger(p, from, to)), TableTxns(cfg, source.txns), x.row);
  }

  /** After a clean shutdown, over any number of crashes and restarts before it, the table equals the
      sequential replay of every wanted transaction from the very first start to the end of the last
      run, provided nothing outside that range was ever written. */
  lemma CleanShutdownTableIsReplay(cfg: Tables, p: Setting, es: seq<Event>)
    requires AllFit(p) && Possible(p, EMPTY_WORLD, es) && NoSkip(p, EMPTY_WORLD, es)
    requires StatementsMatch(cfg, p) && forall txns | txns != [] :: p.statements(txns) >= 1
    requires var w := After(p, EMPTY_WORLD, es);
             && w.life.Some? && Flow.ShutDown(w.life.value) && w.origin.Some?
             && WrittenBetween(w, w.origin.value, w.life.value.fetch.next)
    ensures var w := After(p, EMPTY_WORLD, es);
            TableOf(cfg, w.writes)
              == C.ReplayLatest(TableTxns(cfg, Ledger(p, w.origin.value, w.life.value.fetch.next)))
  {
    var w := After(p, EMPTY_WORLD, es);
    Safety.RunKeepsInv(p, es);
    Flow.CleanShutdownIsComplete(p, es);
    RunKeepsTraced(p, es);
    CommittedTableIsReplay(cfg, p, w, w.origin.value, w.life.value.fetch.next);
  }

  // ---------- Where what was written lies ----------

  /** Everything written, or on its way to be, lies in `from..to`. */
  ghost predicate WorldInside(w: World, from: nat, to: nat) {
    && WrittenBetween(w, from, to)
    && (w.life.Some? ==>
          var l := w.life.value;
          && (forall m <- l.outbox :: Inside(from, to, m.txns))
          && (forall m <- l.queue :: Inside(from, to, m.txns))
          && (forall i | 0 <= i < |l.tasks| :: l.tasks[i].Working? ==> Inside(from, to, l.tasks[i].msg.txns)))
  }

  lemma InsideWidens(w: World, from: nat, to: nat, to': nat)
    requires WorldInside(w, from, to) && to <= to'
    ensures WorldInside(w, from, to')
  {
  }

  lemma SplitInside(p: Setting, start: nat, a: nat, b: nat, chainId: Option<nat>, len: nat)
    requires a <= b && p.chunkSize >= 1 && chainId.Some?
    ensures var r := RangeResponse(p, a, b, chainId, len);
            forall m <- Split(FetchConfig(p, start), r, Filter(r.txns, p.wanted)) :: Inside(a, b + 1, m.txns)
  {
    var r := RangeResponse(p, a, b, chainId, len);
    var kept := Filter(r.txns, p.wanted);
    Safety.RangeResponseContents(p, a, b, chainId, len);
    var ms := Split(FetchConfig(p, start), r, kept);
    assert Inside(a, b + 1, kept);
    if |kept| >= p.chunkSize {
      forall i | 0 <= i < |ms|
        ensures Inside(a, b + 1, ms[i].txns)
      {
        var lo, hi := ChunksAreSlices(kept, p.chunkSize, i);
        assert forall t <- kept[lo..hi] :: t in kept;
      }
    }
  }

  lemma FetchKeepsInside(p: Setting, w: World, e: Event, from: nat, to: nat)
    requires e.Fetch? && Enabled(p, w, e) && WorldInside(w, from, to)
    requires Step(p, w, e).life.Some? ==> from <= e.a && e.b < to
    ensures WorldInside(Step(p, w, e), from, to)
  {
    Safety.RangeResponseContents(p, e.a, e.b, e.chainId, e.encodedLen);
    if p.chunkSize >= 1 && e.chainId.Some? {
      SplitInside(p, w.life.value.start, e.a, e.b, e.chainId, e.encodedLen);
    }
  }

  lemma StepKeepsInside(p: Setting, w: World, e: Event, from: nat, to: nat)
    requires Enabled(p, w, e) && WorldInside(w, from, to)
    requires e.Fetch? && Step(p, w, e).life.Some? ==> from <= e.a && e.b < to
    ensures WorldInside(Step(p, w, e), from, to)
  {
    if e.Fetch? { FetchKeepsInside(p, w, e, from, to); }
    else if e.Take? { assert w.life.value.queue[0] in w.life.value.queue; }
    else if e.Send? { assert w.life.value.outbox[0] in w.life.value.outbox; }
  }

  /** A response that does not end the process starts at the next version to fetch and moves it past its
      end. */
  lemma AcceptedFetch(p: Setting, w: World, e: Event)
    requires e.Fetch? && Enabled(p, w, e) && Flow.FetchOk(p, w.life.value) && Step(p, w, e).life.Some?
    ensures e.a == w.life.value.fetch.next && Step(p, w, e).life.value.fetch.next == e.b + 1
  {
    Safety.RangeResponseContents(p, e.a, e.b, e.chainId, e.encodedLen);
  }

  // ---------- Restarted runs ----------

  /** The server sends nothing beyond the ending version, as the request asks. */
  ghost predicate StaysWithinRequest(p: Setting) {
    p.ending.Some? && forall a: nat, b: nat | p.serves(a, b) :: b <= p.ending.value
  }

  /** No run starts before `from`. */
  ghost predicate StartsFrom(p: Setting, es: seq<Event>, from: nat) {
    es == [] ||
    (StartsFrom(p, es[..|es| - 1], from)
     && var e := es[|es| - 1];
        e.Boot? ==> from <= StartVersion(After(p, EMPTY_WORLD, es[..|es| - 1]), e.startingVersion))
  }

  lemma {:induction false} RunInsideRequest(p: Setting, es: seq<Event>, from: nat)
    requires Possible(p, EMPTY_WORLD, es) && StaysWithinRequest(p) && StartsFrom(p, es, from)
    ensures WorldInside(After(p, EMPTY_WORLD, es), from, p.ending.value + 1)
    ensures After(p, EMPTY_WORLD, es).life.Some? ==> from <= After(p, EMPTY_WORLD, es).life.value.start
  {
    if es != [] {
      var before, e := After(p, EMPTY_WORLD, es[..|es| - 1]), es[|es| - 1];
      RunInsideRequest(p, es[..|es| - 1], from);
      Flow.RunKeepsFlow(p, es[..|es| - 1]);
      if e.Fetch? && Step(p, before, e).life.Some? { AcceptedFetch(p, before, e); }
      StepKeepsInside(p, before, e, from, p.ending.value + 1);
    }
  }

  /** Over any number of crashes and restarts, none before the first start and none beyond the version
      after the checkpoint, a clean shutdown leaves exactly the sequential replay of the wanted
      transactions from the first start through the ending version. */
  lemma RestartedRunsComputeReplay(cfg: Tables, p: Setting, es: seq<Event>)
    requires AllFit(p) && Possible(p, EMPTY_WORLD, es) && NoSkip(p, EMPTY_WORLD, es)
    requires StatementsMatch(cfg, p) && forall txns | txns != [] :: p.statements(txns) >= 1
    requires StaysWithinRequest(p)
    requires var w := After(p, EMPTY_WORLD, es);
             w.life.Some? && Flow.ShutDown(w.life.value) && w.origin.Some? && StartsFrom(p, es, w.origin.value)
    ensures var w := After(p, EMPTY_WORLD, es);
            TableOf(cfg, w.writes) == C.ReplayLatest(TableTxns(cfg, Ledger(p, w.origin.value, p.ending.value + 1)))
  {
    var w := After(p, EMPTY_WORLD, es);
    Safety.RunKeepsInv(p, es);
    Flow.CleanShutdownIsComplete(p, es);
    RunKeepsTraced(p, es);
    RunInsideRequest(p, es, w.origin.value);
    CommittedTableIsReplay(cfg, p, w, w.origin.value, p.ending.value + 1);
  }

  lemma {:induction false} DefaultStartsBeginAtZero(p: Setting, es: seq<Event>)
    requires Possible(p, EMPTY_WORLD, es) && forall e <- es :: e.Boot? ==> e.startingVersion == None
    ensures StartsFrom(p, es, 0)
    ensures var w := After(p, EMPTY_WORLD, es);
            && (w.origin.Some? ==> w.origin.value == 0)
            && (w.origin == None ==> w.checkpoint == None && w.life == None)
            && (w.life.Some? ==> w.origin.Some?)
  {
    if es != [] {
      assert forall e <- es[..|es| - 1] :: e in es;
      assert es[|es| - 1] in es;
      DefaultStartsBeginAtZero(p, es[..|es| - 1]);
    }
  }

  /** Crash and resume as it is run: every start comes from the database. Whatever the crashes and the
      interleavings, a clean shutdown leaves the sequential replay of the whole ledger. */
  lemma ResumedRunsComputeReplay(cfg: Tables, p: Setting, es: seq<Event>)
    requires AllFit(p) && Possible(p, EMPTY_WORLD, es) && forall e <- es :: e.Boot? ==> e.startingVersion == None
    requires StatementsMatch(cfg, p) && forall txns | txns != [] :: p.statements(txns) >= 1
    requires StaysWithinRequest(p)
    requires After(p, EMPTY_WORLD, es).life.Some? && Flow.ShutDown(After(p, EMPTY_WORLD, es).life.value)
    ensures TableOf(cfg, After(p, EMPTY_WORLD, es).writes)
         == C.ReplayLatest(TableTxns(cfg, Ledger(p, 0, p.ending.value + 1)))
  {
    DefaultStartsNeverSkip(p, es);
    DefaultStartsBeginAtZero(p, es);
    RestartedRunsComputeReplay(cfg, p, es);
  }

  // ---------- Split responses ----------

  /** With split responses too, when nothing was written outside the range of the last run. */
  lemma LastRunTableIsReplay(cfg: Tables, p: Setting, es: seq<Event>)
    requires Possible(p, EMPTY_WORLD, es) && StatementsMatch(cfg, p)
    requires forall txns | txns != [] :: p.statements(txns) >= 1
    requires var w := After(p, EMPTY_WORLD, es);
             && w.life.Some? && Flow.ShutDown(w.life.value)
             && WrittenBetween(w, w.life.value.start, w.life.value.fetch.next)
    ensures var w := After(p, EMPTY_WORLD, es); var l := w.life.value;
            TableOf(cfg, w.writes) == C.ReplayLatest(TableTxns(cfg, Ledger(p, l.start, l.fetch.next)))
  {
    var w := After(p, EMPTY_WORLD, es);
    Flow.CleanShutdownIsComplete(p, es);
    RunKeepsTraced(p, es);
    CommittedTableIsReplay(cfg, p, w, w.life.value.start, w.life.value.fetch.next);
  }

  ghost predicate OneBoot(es: seq<Event>) {
    forall i | 1 <= i < |es| :: !es[i].Boot?
  }

  lemma {:induction false} OneBootRunInside(p: Setting, es: seq<Event>)
    requires Possible(p, EMPTY_WORLD, es) && OneBoot(es)
    ensures var w := After(p, EMPTY_WORLD, es);
            w.life.Some? ==> WorldInside(w, w.life.value.start, w.life.value.fetch.next)
  {
    if es != [] {
      var before, e := After(p, EMPTY_WORLD, es[..|es| - 1]), es[|es| - 1];
      OneBootRunInside(p, es[..|es| - 1]);
      Flow.RunKeepsFlow(p, es[..|es| - 1]);
      var after := Step(p, before, e);
      if before.life.Some? && after.life.Some? {
        var from, to := before.life.value.start, after.life.value.fetch.next;
        if e.Fetch? { AcceptedFetch(p, before, e); }
        InsideWidens(before, from, before.life.value.fetch.next, to);
        StepKeepsInside(p, before, e, from, to);
      }
    }
  }

  /** The whole process computes the sequential replay: a run from an empty database that starts once
      and shuts down cleanly leaves the table equal to the replay of every wanted transaction from its
      start to its end, split responses or not. */
  lemma OneRunComputesReplay(cfg: Tables, p: Setting, es: seq<Event>)
    requires Possible(p, EMPTY_WORLD, es) && OneBoot(es) && StatementsMatch(cfg, p)
    requires forall txns | txns != [] :: p.statements(txns) >= 1
    requires After(p, EMPTY_WORLD, es).life.Some? && Flow.ShutDown(After(p, EMPTY_WORLD, es).life.value)
    ensures var w := After(p, EMPTY_WORLD, es);
            var l := w.life.value;
            && p.ending.Some? && p.ending.value < l.fetch.next
            && TableOf(cfg, w.writes) == C.ReplayLatest(TableTxns(cfg, Ledger(p, l.start, l.fetch.next)))
  {
    OneBootRunInside(p, es);
    Flow.CleanShutdownIsComplete(p, es);
    LastRunTableIsReplay(cfg, p, es);
  }
}
