/** The other half: where a response does not fit in one message, or a start skips uncommitted
    versions, there is a run that moves the checkpoint past work that was never done. */
module PipelineNecessity {
  import opened Options
  import opened Chunking
  import opened GapDetection
  import opened Fetching
  import opened Pipeline
  import opened PipelineSafety

  // ---------- Building runs ----------

  lemma Snoc(p: Setting, w: World, es: seq<Event>, e: Event)
    requires Possible(p, w, es) && Enabled(p, After(p, w, es), e)
    ensures Possible(p, w, es + [e]) && After(p, w, es + [e]) == Step(p, After(p, w, es), e)
    ensures NoSkip(p, w, es) && !e.Boot? ==> NoSkip(p, w, es + [e])
  {
    assert (es + [e])[..|es|] == es;
  }

  lemma {:induction false} Prepend(p: Setting, w: World, e: Event, es: seq<Event>)
    requires Enabled(p, w, e) && Possible(p, Step(p, w, e), es)
    ensures Possible(p, w, [e] + es) && After(p, w, [e] + es) == After(p, Step(p, w, e), es)
    ensures StartsBehind(w, e) && NoSkip(p, Step(p, w, e), es) ==> NoSkip(p, w, [e] + es)
    decreases |es|
  {
    var whole := [e] + es;
    if es == [] {
      assert whole == [e] && [e][..0] == [];
      assert After(p, w, []) == w && NoSkip(p, w, []);
    } else {
      Prepend(p, w, e, es[..|es| - 1]);
      assert whole[..|whole| - 1] == [e] + es[..|es| - 1];
    }
  }

  function UpTo(k: nat): (r: set<nat>)
    ensures forall j: nat :: j in r <==> j < k
  {
    if k == 0 then {} else UpTo(k - 1) + {k - 1}
  }

  /** Task 0 is at `t` with nothing yet reported to a detector that starts at `start`; the database
      is that of `w` up to the statements run. */
  ghost predicate TaskZeroAt(w: World, now: World, start: nat, t: Task) {
    && now.checkpoint == w.checkpoint && now.committed == w.committed && now.origin == w.origin
    && now.life.Some?
    && var l := now.life.value;
       |l.tasks| >= 1 && l.tasks[0] == t && l.results == [] && l.detector == Fresh(start)
  }

  lemma ExecMoves(p: Setting, w: World, now: World, start: nat, m: Message, done: set<nat>, j: nat)
    requires TaskZeroAt(w, now, start, Working(m, done)) && m.txns != [] && j < p.statements(m.txns)
    ensures Enabled(p, now, Exec(0, j))
    ensures TaskZeroAt(w, Step(p, now, Exec(0, j)), start, Working(m, done + {j}))
  {
  }

  /** Run the first `k` statements of the message task 0 works on. */
  lemma {:induction false} ExecuteStatements(
    p: Setting, w: World, es: seq<Event>, start: nat, m: Message, k: nat) returns (es': seq<Event>)
    requires Possible(p, w, es) && NoSkip(p, w, es)
    requires TaskZeroAt(w, After(p, w, es), start, Working(m, {}))
    requires m.txns != [] && k <= p.statements(m.txns)
    ensures Possible(p, w, es') && NoSkip(p, w, es')
    ensures TaskZeroAt(w, After(p, w, es'), start, Working(m, UpTo(k)))
  {
    if k == 0 {
      es' := es;
    } else {
      var mid := ExecuteStatements(p, w, es, start, m, k - 1);
      assert UpTo(k - 1) + {k - 1} == UpTo(k);
      ExecMoves(p, w, After(p, w, mid), start, m, UpTo(k - 1), k - 1);
      Snoc(p, w, mid, Exec(0, k - 1));
      es' := mid + [Exec(0, k - 1)];
    }
  }

  /** The first message made of the response for `a..b`. */
  ghost function FirstMessage(p: Setting, a: nat, b: nat): Message
    requires a <= b && p.chunkSize >= 1
  {
    var r := RangeResponse(p, a, b, Some(1), 0);
    var ms := Split(FetchConfig(p, a), r, Filter(r.txns, p.wanted));
    SplitLossless(FetchConfig(p, a), r, Filter(r.txns, p.wanted));
    ms[0]
  }

  /** The first response: its first message waits to be sent, and nothing else has changed. */
  lemma FetchesFirst(p: Setting, w: World, a: nat, b: nat)
    requires w.life == Some(FreshLife(p, a)) && a <= b && p.serves(a, b) && p.chunkSize >= 1
    ensures Enabled(p, w, Fetch(a, b, Some(1), 0))
    ensures var w' := Step(p, w, Fetch(a, b, Some(1), 0));
            && w' == w.(life := w'.life) && w'.life.Some?
            && var l := w'.life.value;
               l.outbox != [] && l.outbox[0] == FirstMessage(p, a, b) && l.queue == [] && l.tasks == FreshLife(p, a).tasks
               && l.results == [] && l.detector == Fresh(a)
  {
    FirstPoll(p, a, b);
  }

  lemma FirstPoll(p: Setting, a: nat, b: nat)
    requires a <= b && p.chunkSize >= 1
    ensures var (st, ms) := Poll(FetchConfig(p, a), Initial(FetchConfig(p, a)), RangeResponse(p, a, b, Some(1), 0));
            st.status != Panicked && ms != [] && ms[0] == FirstMessage(p, a, b)
  {
    var r := RangeResponse(p, a, b, Some(1), 0);
    RangeResponseContents(p, a, b, Some(1), 0);
    SplitLossless(FetchConfig(p, a), r, Filter(r.txns, p.wanted));
  }

  /** Fetch `a..b`, hand its first message to task 0. */
  lemma FetchAndTake(p: Setting, w: World, a: nat, b: nat) returns (es: seq<Event>)
    requires w.life == Some(FreshLife(p, a)) && a <= b && p.serves(a, b)
    requires p.chunkSize >= 1 && p.taskCount >= 1
    ensures Possible(p, w, es) && NoSkip(p, w, es)
    ensures TaskZeroAt(w, After(p, w, es), a, Working(FirstMessage(p, a, b), {}))
  {
    var e1 := [Fetch(a, b, Some(1), 0)];
    FetchesFirst(p, w, a, b);
    assert After(p, w, []) == w && Possible(p, w, []) && NoSkip(p, w, []);
    Snoc(p, w, [], Fetch(a, b, Some(1), 0));
    assert [] + e1 == e1;
    Snoc(p, w, e1, Send);
    Snoc(p, w, e1 + [Send], Take(0));
    es := e1 + [Send] + [Take(0)];
  }

  /** Task 0 finishes a message that starts at the frontier of a fresh detector, and the detector
      persists. */
  lemma FinishAndPersist(p: Setting, w: World, es: seq<Event>, m: Message, done: set<nat>)
    returns (es': seq<Event>)
    requires Possible(p, w, es) && NoSkip(p, w, es)
    requires TaskZeroAt(w, After(p, w, es), m.start, Working(m, done)) && AllExecuted(p, m, done)
    ensures Possible(p, w, es') && NoSkip(p, w, es')
    ensures var after := After(p, w, es');
            && after.checkpoint == UpsertCheckpoint(w.checkpoint, m.end)
            && after.committed == w.committed + Versions(m.txns)
            && after.origin == w.origin
  {
    Snoc(p, w, es, Commit(0));
    var es1 := es + [Commit(0)];
    Snoc(p, w, es1, Report(0));
    var es2 := es1 + [Report(0)];
    assert After(p, w, es2).life.value.results == [ResultOf(m)];
    assert Drain(map[], ResultOf(m)) == (map[], ResultOf(m));
    Snoc(p, w, es2, Detect(true));
    es' := es2 + [Detect(true)];
  }

  /** From a fresh start at `a`, one batch is enough to put the checkpoint at `b`: fetch `a..b`, let
      one task process the first message made of it, and let the detector persist. */
  lemma OneBatch(p: Setting, w: World, a: nat, b: nat) returns (es: seq<Event>)
    requires w.life == Some(FreshLife(p, a)) && a <= b && p.serves(a, b)
    requires p.chunkSize >= 1 && p.taskCount >= 1
    ensures Possible(p, w, es) && NoSkip(p, w, es)
    ensures var after := After(p, w, es);
            && after.checkpoint == UpsertCheckpoint(w.checkpoint, b)
            && after.committed == w.committed + Versions(FirstMessage(p, a, b).txns)
            && after.origin == w.origin
  {
    var m := FirstMessage(p, a, b);
    assert m.start == a && m.end == b by { RangeResponseContents(p, a, b, Some(1), 0); }
    var taken := FetchAndTake(p, w, a, b);
    if m.txns == [] {
      es := FinishAndPersist(p, w, taken, m, {});
    } else {
      var k := p.statements(m.txns);
      var executed := ExecuteStatements(p, w, taken, a, m, k);
      es := FinishAndPersist(p, w, executed, m, UpTo(k));
    }
  }

  // ---------- Splitting breaks safety ----------

  predicate Increasing(txns: seq<Transaction>) {
    forall i, j | 0 <= i < j < |txns| :: txns[i].version < txns[j].version
  }

  lemma {:induction false} FilterIncreasing(txns: seq<Transaction>, wanted: Transaction -> bool)
    requires Increasing(txns)
    ensures Increasing(Filter(txns, wanted))
  {
    if txns != [] {
      var front, last := txns[..|txns| - 1], txns[|txns| - 1];
      FilterIncreasing(front, wanted);
      forall t | t in Filter(front, wanted)
        ensures t.version < last.version
      {
        var i :| 0 <= i < |front| && front[i] == t;
        assert txns[i].version < txns[|txns| - 1].version;
      }
    }
  }

  /** The first piece of a response that does not fit leaves out a wanted version. */
  lemma FirstPieceMisses(p: Setting, a: nat, b: nat) returns (v: nat)
    requires a <= b && p.chunkSize >= 1 && !Fits(p, a, b)
    ensures a <= v <= b && Owed(p, v) && v !in Versions(FirstMessage(p, a, b).txns)
  {
    var r := RangeResponse(p, a, b, Some(1), 0);
    RangeResponseContents(p, a, b, Some(1), 0);
    var kept := Filter(r.txns, p.wanted);
    FilterIncreasing(r.txns, p.wanted);
    var t := kept[p.chunkSize];
    assert t in kept;
    v := t.version;
    assert Chunks(kept, p.chunkSize)[0] == kept[..p.chunkSize];
    assert FirstMessage(p, a, b).txns == kept[..p.chunkSize];
  }

  /** A response served in more than one piece admits an unsafe run. */
  lemma SplitIsUnsafe(p: Setting, a: nat, b: nat) returns (es: seq<Event>)
    requires p.taskCount >= 1 && a <= b && p.serves(a, b) && !Fits(p, a, b)
    ensures Possible(p, EMPTY_WORLD, es) && NoSkip(p, EMPTY_WORLD, es)
    ensures !Safe(p, After(p, EMPTY_WORLD, es))
  {
    var boot := Boot(Some(a));
    var w := Step(p, EMPTY_WORLD, boot);
    var rest := OneBatch(p, w, a, b);
    Prepend(p, EMPTY_WORLD, boot, rest);
    es := [boot] + rest;
    var v := FirstPieceMisses(p, a, b);
    assert v !in After(p, EMPTY_WORLD, es).committed;
  }

  /** Safety holds in every run exactly when every response the server may send goes out as one
      message. */
  lemma SafeIffOneMessagePerResponse(p: Setting)
    requires p.taskCount >= 1
    ensures EveryRunSafe(p) <==> AllFit(p)
  {
    if AllFit(p) {
      forall es | Possible(p, EMPTY_WORLD, es) && NoSkip(p, EMPTY_WORLD, es)
        ensures Safe(p, After(p, EMPTY_WORLD, es))
      {
        CheckpointIsSafe(p, es);
      }
    } else {
      var a, b :| a <= b && p.serves(a, b) && !Fits(p, a, b);
      var es := SplitIsUnsafe(p, a, b);
    }
  }

  /** Three wanted versions served together with room for two per message: safety fails. */
  lemma ThreeVersionsTwoPerMessage()
    ensures var p := Setting(_ => None, _ => "", (a, b) => a == 0 && b == 2, _ => true, 2, None, 1, _ => 1);
            !EveryRunSafe(p)
  {
    var p := Setting(_ => None, _ => "", (a, b) => a == 0 && b == 2, _ => true, 2, None, 1, _ => 1);
    var txns := RangeResponse(p, 0, 2, None, 0).txns;
    assert |txns| == 3;
    assert Filter(txns[..2][..1], p.wanted) == txns[..2][..1];
    assert txns[..2][..1] + [txns[1]] == txns[..2];
    assert txns[..2] + [txns[2]] == txns;
    assert |Filter(txns, p.wanted)| == 3;
    assert !Fits(p, 0, 2);
    SafeIffOneMessagePerResponse(p);
  }

  // ---------- Skipping breaks safety ----------

  ghost predicate SafeFrom(p: Setting, w: World) {
    forall es | Possible(p, w, es) && NoSkip(p, w, es) :: Safe(p, After(p, w, es))
  }

  lemma {:induction false} SafeFromInv(p: Setting, w: World, es: seq<Event>)
    requires AllFit(p) && Inv(p, w) && Possible(p, w, es) && NoSkip(p, w, es)
    ensures Inv(p, After(p, w, es))
  {
    if es != [] {
      var before := After(p, w, es[..|es| - 1]);
      SafeFromInv(p, w, es[..|es| - 1]);
      StartsBehindIsOk(p, before, es[|es| - 1]);
      StepKeepsInv(p, before, es[|es| - 1]);
    }
  }

  /** A restart from a safe database at a version the server can serve stays safe in every
      continuation exactly when no wanted version below that start is still uncommitted. */
  lemma RestartSafeIffNothingSkipped(p: Setting, w: World, start: nat, b: nat)
    requires AllFit(p) && p.chunkSize >= 1 && p.taskCount >= 1
    requires w.life == None && w.origin.Some? && Safe(p, w)
    requires start <= b && p.serves(start, b)
    ensures SafeFrom(p, Step(p, w, Boot(Some(start)))) <==> Done(p, w.committed, w.origin.value, start)
  {
    var boot := Boot(Some(start));
    var w1 := Step(p, w, boot);
    if Done(p, w.committed, w.origin.value, start) {
      StepKeepsInv(p, w, boot);
      forall es | Possible(p, w1, es) && NoSkip(p, w1, es)
        ensures Safe(p, After(p, w1, es))
      {
        SafeFromInv(p, w1, es);
      }
    } else {
      var v: nat :| w.origin.value <= v < start && Owed(p, v) && v !in w.committed;
      var es := OneBatch(p, w1, start, b);
      FirstMessageWithin(p, start, b);
      assert v !in After(p, w1, es).committed;
    }
  }

  /** Boot at 0, a crash, and a boot configured at 5: versions 0 to 4 are behind a checkpoint that moves. */
  lemma SkippingRestartIsUnsafe()
    ensures var p := Setting(_ => None, _ => "", (a, b) => a == b, _ => true, 2, None, 1, _ => 1);
            var w := After(p, EMPTY_WORLD, [Boot(Some(0)), Crash]);
            && Possible(p, EMPTY_WORLD, [Boot(Some(0)), Crash]) && Enabled(p, w, Boot(Some(5)))
            && !SafeFrom(p, Step(p, w, Boot(Some(5))))
  {
    var p := Setting(_ => None, _ => "", (a, b) => a == b, _ => true, 2, None, 1, _ => 1);
    Snoc(p, EMPTY_WORLD, [], Boot(Some(0)));
    assert [] + [Boot(Some(0))] == [Boot(Some(0))] && [Boot(Some(0))] + [Crash] == [Boot(Some(0)), Crash];
    Snoc(p, EMPTY_WORLD, [Boot(Some(0))], Crash);
    var w := After(p, EMPTY_WORLD, [Boot(Some(0)), Crash]);
    assert Owed(p, 0) && 0 !in w.committed;
    forall a: nat, b: nat | a <= b && p.serves(a, b)
      ensures Fits(p, a, b)
    {
      assert |RangeResponse(p, a, b, None, 0).txns| == 1;
    }
    RestartSafeIffNothingSkipped(p, w, 5, 5);
  }

  lemma FirstMessageWithin(p: Setting, a: nat, b: nat)
    requires a <= b && p.chunkSize >= 1
    ensures forall v <- Versions(FirstMessage(p, a, b).txns) :: a <= v <= b
  {
    var r := RangeResponse(p, a, b, Some(1), 0);
    RangeResponseContents(p, a, b, Some(1), 0);
    var kept := Filter(r.txns, p.wanted);
    SplitLossless(FetchConfig(p, a), r, kept);
    var ms := Split(FetchConfig(p, a), r, kept);
    assert Payload(ms) == ms[0].txns + Payload(ms[1..]);
    forall t <- ms[0].txns
      ensures a <= t.version <= b
    {
      assert t in Payload(ms);
    }
  }
}
