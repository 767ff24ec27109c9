/** End-to-end checkpoint safety over every run, crash and restart, and exactly when it holds. */
module PipelineSafety {
  import opened Options
  import opened GapDetection
  import opened Fetching
  import opened Pipeline

  // ---------- The invariant ----------

  /** The message carries every wanted version of the range it is stamped with. */
  ghost predicate Full(p: Setting, m: Message) {
    m.start <= m.end && forall v: nat :: m.start <= v <= m.end && Owed(p, v) ==> v in Versions(m.txns)
  }

  ghost predicate AllFull(p: Setting, ms: seq<Message>) {
    forall m <- ms :: Full(p, m)
  }

  ghost predicate ResultDone(p: Setting, committed: set<nat>, r: ProcessingResult) {
    WellFormed(r) && Done(p, committed, r.start, r.end + 1)
  }

  ghost predicate AllDone(p: Setting, committed: set<nat>, rs: seq<ProcessingResult>) {
    forall r <- rs :: ResultDone(p, committed, r)
  }

  ghost predicate TaskOk(p: Setting, committed: set<nat>, t: Task) {
    && (t.Working? ==> Full(p, t.msg))
    && (t.Reporting? ==> ResultDone(p, committed, ResultOf(t.msg)))
  }

  ghost predicate TasksOk(p: Setting, committed: set<nat>, ts: seq<Task>) {
    forall i | 0 <= i < |ts| :: TaskOk(p, committed, ts[i])
  }

  ghost predicate LifeOk(p: Setting, committed: set<nat>, origin: nat, l: Life) {
    && Done(p, committed, origin, l.start)
    && AllFull(p, l.outbox) && AllFull(p, l.queue)
    && TasksOk(p, committed, l.tasks)
    && AllDone(p, committed, l.results) && AllDone(p, committed, l.received)
    && l.detector == AbsorbAll(Fresh(l.start), l.received)
  }

  ghost predicate Inv(p: Setting, w: World) {
    && Safe(p, w)
    && (w.life.Some? ==> w.origin.Some? && LifeOk(p, w.committed, w.origin.value, w.life.value))
  }

  /** Nothing wanted below `start` is still uncommitted. */
  ghost predicate BootOk(p: Setting, w: World, e: Event) {
    e.Boot? && w.origin.Some? ==>
      Done(p, w.committed, w.origin.value, StartVersion(w, e.startingVersion))
  }

  lemma StartsBehindIsOk(p: Setting, w: World, e: Event)
    requires Safe(p, w) && StartsBehind(w, e)
    ensures BootOk(p, w, e)
  {
  }

  // ---------- Preservation, step by step ----------

  lemma RangeResponseContents(p: Setting, a: nat, b: nat, chainId: Option<nat>, len: nat)
    requires a <= b
    ensures var r := RangeResponse(p, a, b, chainId, len);
            && |r.txns| == b + 1 - a && r.txns[0].version == a && r.txns[|r.txns| - 1].version == b
            && (forall v: nat :: a <= v <= b <==> Txn(p, v) in r.txns)
            && (forall t <- r.txns :: a <= t.version <= b && t == Txn(p, t.version))
            && r.txns == RangeResponse(p, a, b, None, 0).txns
  {
    var txns := RangeResponse(p, a, b, chainId, len).txns;
    forall v: nat
      ensures a <= v <= b <==> Txn(p, v) in txns
    {
      if a <= v <= b { assert txns[v - a] == Txn(p, v); }
      if Txn(p, v) in txns {
        var i :| 0 <= i < |txns| && txns[i] == Txn(p, v);
        assert txns[i] == Txn(p, a + i);
      }
    }
    forall t <- txns
      ensures a <= t.version <= b && t == Txn(p, t.version)
    {
      var i :| 0 <= i < |txns| && txns[i] == t;
      assert t == Txn(p, a + i);
    }
  }

  /** A response that fits is sent as one full message. */
  lemma FittingResponseIsFull(p: Setting, a: nat, b: nat, chainId: Option<nat>, len: nat)
    requires a <= b && Fits(p, a, b) && p.chunkSize >= 1 && chainId.Some?
    ensures var r := RangeResponse(p, a, b, chainId, len);
            AllFull(p, Split(FetchConfig(p, a), r, Filter(r.txns, p.wanted)))
  {
    var r := RangeResponse(p, a, b, chainId, len);
    var kept := Filter(r.txns, p.wanted);
    RangeResponseContents(p, a, b, chainId, len);
    SplitLossless(FetchConfig(p, a), r, kept);
    var ms := Split(FetchConfig(p, a), r, kept);
    assert ms == [ms[0]];
    forall v: nat | a <= v <= b && Owed(p, v)
      ensures v in Versions(kept)
    {
      assert Txn(p, v) in kept;
    }
  }

  lemma PieceIsOfLedger(p: Setting, start: nat, a: nat, b: nat, chainId: Option<nat>, len: nat, m: Message, t: Transaction)
    requires a <= b && p.chunkSize >= 1 && chainId.Some? && t in m.txns
    requires var r := RangeResponse(p, a, b, chainId, len);
             m in Split(FetchConfig(p, start), r, Filter(r.txns, p.wanted))
    ensures t == Txn(p, t.version)
  {
    var r := RangeResponse(p, a, b, chainId, len);
    var kept := Filter(r.txns, p.wanted);
    SplitLossless(FetchConfig(p, start), r, kept);
    PayloadHas(Split(FetchConfig(p, start), r, kept), m, t);
    assert t in kept && t in r.txns;
    RangeResponseContents(p, a, b, chainId, len);
  }

  /** The result of any piece of a response reports the whole range, and the timestamp of the last transaction the
      piece carries; if it carries none, that of the last transaction of the response. */
  lemma ResultReportsResponse(p: Setting, start: nat, a: nat, b: nat, chainId: Option<nat>, len: nat, m: Message)
    requires a <= b && p.chunkSize >= 1 && chainId.Some?
    requires var r := RangeResponse(p, a, b, chainId, len);
             m in Split(FetchConfig(p, start), r, Filter(r.txns, p.wanted))
    ensures var q := ResultOf(m);
            && q.start == a && q.end == b
            && q.timestamp == p.timestamps(if m.txns == [] then b else m.txns[|m.txns| - 1].version)
  {
    PieceIsStamped(p, start, a, b, chainId, len, m);
    if m.txns != [] { PieceIsOfLedger(p, start, a, b, chainId, len, m, m.txns[|m.txns| - 1]); }
  }

  lemma PieceIsStamped(p: Setting, start: nat, a: nat, b: nat, chainId: Option<nat>, len: nat, m: Message)
    requires a <= b && p.chunkSize >= 1 && chainId.Some?
    requires var r := RangeResponse(p, a, b, chainId, len);
             m in Split(FetchConfig(p, start), r, Filter(r.txns, p.wanted))
    ensures m.start == a && m.end == b && m.endTimestamp == p.timestamps(b)
  {
    var r := RangeResponse(p, a, b, chainId, len);
    SplitLossless(FetchConfig(p, start), r, Filter(r.txns, p.wanted));
    assert r.txns[0] == Txn(p, a) && r.txns[|r.txns| - 1] == Txn(p, b);
  }

  lemma {:induction false} PayloadHas(ms: seq<Message>, m: Message, t: Transaction)
    requires m in ms && t in m.txns
    ensures t in Payload(ms)
  {
    if m != ms[0] { PayloadHas(ms[1..], m, t); }
  }

  lemma FetchKeepsInv(p: Setting, w: World, e: Event)
    requires AllFit(p) && Inv(p, w) && e.Fetch? && Enabled(p, w, e)
    ensures Inv(p, Step(p, w, e))
  {
    var l := w.life.value;
    RangeResponseContents(p, e.a, e.b, e.chainId, e.encodedLen);
    if p.chunkSize >= 1 && e.chainId.Some? {
      FittingResponseIsFull(p, e.a, e.b, e.chainId, e.encodedLen);
      var r := RangeResponse(p, e.a, e.b, e.chainId, e.encodedLen);
      assert Split(FetchConfig(p, e.a), r, Filter(r.txns, p.wanted))
          == Split(FetchConfig(p, l.start), r, Filter(r.txns, p.wanted));
    }
  }

  /** More commits never hurt. */
  lemma LifeOkMonotone(p: Setting, c: set<nat>, c': set<nat>, origin: nat, l: Life)
    requires c <= c' && LifeOk(p, c, origin, l)
    ensures LifeOk(p, c', origin, l)
  {
    assert forall i | 0 <= i < |l.tasks| :: TaskOk(p, c, l.tasks[i]) ==> TaskOk(p, c', l.tasks[i]);
    assert forall r | ResultDone(p, c, r) :: ResultDone(p, c', r);
  }

  lemma CommitKeepsInv(p: Setting, w: World, e: Event)
    requires Inv(p, w) && e.Commit? && Enabled(p, w, e)
    ensures Inv(p, Step(p, w, e))
  {
    var l := w.life.value;
    var m := l.tasks[e.i].msg;
    var c' := w.committed + Versions(m.txns);
    LifeOkMonotone(p, w.committed, c', w.origin.value, l);
    assert TaskOk(p, c', l.tasks[e.i]);
    assert ResultDone(p, c', ResultOf(m));
  }

  /** The versions behind the detector's frontier are committed. */
  lemma FrontierIsDone(p: Setting, committed: set<nat>, origin: nat, start: nat, rs: seq<ProcessingResult>)
    requires AllDone(p, committed, rs) && Done(p, committed, origin, start)
    ensures Done(p, committed, origin, AbsorbAll(Fresh(start), rs).next)
    ensures var d := AbsorbAll(Fresh(start), rs); d.last.Some? ==> d.last.value.end + 1 == d.next
  {
    AnyRunSound(start, rs);
    var d := AbsorbAll(Fresh(start), rs);
    forall v: nat | start <= v < d.next && Owed(p, v)
      ensures v in committed
    {
      assert Covered(Received(rs), v);
      var r :| r in Received(rs) && Covers(r, v);
      assert r in rs && ResultDone(p, committed, r);
    }
  }

  lemma DetectKeepsInv(p: Setting, w: World, e: Event)
    requires Inv(p, w) && e.Detect? && Enabled(p, w, e)
    ensures Inv(p, Step(p, w, e))
  {
    var l := w.life.value;
    var rs := l.received + [l.results[0]];
    assert rs[..|rs| - 1] == l.received;
    assert l.results[0] in l.results;
    assert AllDone(p, w.committed, rs);
    FrontierIsDone(p, w.committed, w.origin.value, l.start, rs);
  }

  lemma TaskMoveKeepsInv(p: Setting, w: World, e: Event)
    requires Inv(p, w) && Enabled(p, w, e) && (e.Take? || e.Exec? || e.Report? || e.Exit?)
    ensures Inv(p, Step(p, w, e))
  {
    var l := w.life.value;
    assert TaskOk(p, w.committed, l.tasks[e.i]);
    if e.Take? { assert l.queue[0] in l.queue; }
  }

  lemma OtherMoveKeepsInv(p: Setting, w: World, e: Event)
    requires Inv(p, w) && Enabled(p, w, e) && BootOk(p, w, e)
    requires e.Boot? || e.Crash? || e.Miss? || e.Send? || e.Close?
    ensures Inv(p, Step(p, w, e))
  {
    if e.Send? { assert w.life.value.outbox[0] in w.life.value.outbox; }
  }

  lemma StepKeepsInv(p: Setting, w: World, e: Event)
    requires AllFit(p) && Inv(p, w) && Enabled(p, w, e) && BootOk(p, w, e)
    ensures Inv(p, Step(p, w, e))
  {
    if e.Fetch? { FetchKeepsInv(p, w, e); }
    else if e.Commit? { CommitKeepsInv(p, w, e); }
    else if e.Detect? { DetectKeepsInv(p, w, e); }
    else if e.Take? || e.Exec? || e.Report? || e.Exit? { TaskMoveKeepsInv(p, w, e); }
    else { OtherMoveKeepsInv(p, w, e); }
  }

  lemma {:induction false} RunKeepsInv(p: Setting, es: seq<Event>)
    requires AllFit(p) && Possible(p, EMPTY_WORLD, es) && NoSkip(p, EMPTY_WORLD, es)
    ensures Inv(p, After(p, EMPTY_WORLD, es))
  {
    if es != [] {
      var before := After(p, EMPTY_WORLD, es[..|es| - 1]);
      RunKeepsInv(p, es[..|es| - 1]);
      StartsBehindIsOk(p, before, es[|es| - 1]);
      StepKeepsInv(p, before, es[|es| - 1]);
    }
  }

  /** The checkpoint row only moves forward, in any run whatsoever. */
  ghost predicate NotBehind(a: Option<nat>, b: Option<nat>) {
    a.Some? ==> b.Some? && a.value <= b.value
  }

  lemma {:induction false} CheckpointNeverDecreases(p: Setting, w: World, es: seq<Event>)
    requires Possible(p, w, es)
    ensures NotBehind(w.checkpoint, After(p, w, es).checkpoint)
  {
    if es != [] {
      CheckpointNeverDecreases(p, w, es[..|es| - 1]);
    }
  }

  // ---------- Exactly when ----------

  ghost predicate EveryRunSafe(p: Setting) {
    forall es | Possible(p, EMPTY_WORLD, es) && NoSkip(p, EMPTY_WORLD, es) ::
      Safe(p, After(p, EMPTY_WORLD, es))
  }

  /** End-to-end checkpoint safety: in every interleaving of the fetcher, the tasks and the detector,
      over any number of crashes and restarts, every wanted version from the first start to the
      checkpoint is committed. */
  lemma CheckpointIsSafe(p: Setting, es: seq<Event>)
    requires AllFit(p) && Possible(p, EMPTY_WORLD, es) && NoSkip(p, EMPTY_WORLD, es)
    ensures Safe(p, After(p, EMPTY_WORLD, es))
  {
    RunKeepsInv(p, es);
  }
}
