/** What every run keeps even when responses are split: no message is lost or duplicated, a clean
    shutdown leaves nothing behind, and a drained detector has caught up with the fetcher. */
module PipelineConservation {
  import opened Options
  import opened GapDetection
  import opened Fetching
  import opened Pipeline
  import opened PipelineSafety

  // ---------- Conservation ----------

  function HeldBy(t: Task): multiset<Message> {
    match t
    case Working(m, _) => multiset{m}
    case Reporting(m) => multiset{m}
    case _ => multiset{}
  }

  /** The messages the tasks hold. */
  function Inflight(ts: seq<Task>): multiset<Message> {
    if ts == [] then multiset{} else Inflight(ts[..|ts| - 1]) + HeldBy(ts[|ts| - 1])
  }

  lemma {:induction false} InflightUpdate(ts: seq<Task>, i: nat, t: Task)
    requires i < |ts|
    ensures Inflight(ts[i := t]) + HeldBy(ts[i]) == Inflight(ts) + HeldBy(t)
  {
    var n := |ts| - 1;
    if i == n {
      assert ts[i := t][..n] == ts[..n];
    } else {
      InflightUpdate(ts[..n], i, t);
      assert ts[i := t][..n] == ts[..n][i := t];
      assert Inflight(ts[i := t]) == Inflight(ts[..n][i := t]) + HeldBy(ts[n]);
      assert Inflight(ts) == Inflight(ts[..n]) + HeldBy(ts[n]);
      ShiftBoth(Inflight(ts[..n][i := t]), HeldBy(ts[i]), Inflight(ts[..n]), HeldBy(t), HeldBy(ts[n]));
    }
  }

  lemma ShiftBoth<T>(a: multiset<T>, x: multiset<T>, b: multiset<T>, y: multiset<T>, z: multiset<T>)
    requires a + x == b + y
    ensures a + z + x == b + z + y
  {
    assert a + z + x == a + x + z;
    assert b + z + y == b + y + z;
  }

  lemma {:induction false} NothingHeld(ts: seq<Task>)
    requires forall i | 0 <= i < |ts| :: HeldBy(ts[i]) == multiset{}
    ensures Inflight(ts) == multiset{}
  {
    if ts != [] { NothingHeld(ts[..|ts| - 1]); }
  }

  function ResultsOf(ms: seq<Message>): (rs: seq<ProcessingResult>)
    ensures |rs| == |ms| && forall i | 0 <= i < |ms| :: rs[i] == ResultOf(ms[i])
  {
    seq(|ms|, i requires 0 <= i < |ms| => ResultOf(ms[i]))
  }

  /** What was sent is what is queued, held by a task, or finished. */
  ghost predicate Balanced(sent: seq<Message>, queue: seq<Message>, tasks: seq<Task>, finished: seq<Message>) {
    multiset(sent) == multiset(queue) + Inflight(tasks) + multiset(finished)
  }

  /** Every message sent is queued, held by a task, or finished, and no other message is; every
      finished message has had its result handed over, and the detector has received a prefix. */
  ghost predicate Conserved(l: Life) {
    && Balanced(l.sent, l.queue, l.tasks, l.finished)
    && l.handed == ResultsOf(l.finished)
    && l.handed == l.received + l.results
    && l.detector == AbsorbAll(Fresh(l.start), l.received)
  }

  lemma PopFront<T>(s: seq<T>)
    requires s != []
    ensures multiset(s) == multiset{s[0]} + multiset(s[1..])
  {
    assert s == [s[0]] + s[1..];
  }

  lemma ResultsOfSnoc(ms: seq<Message>, m: Message)
    ensures ResultsOf(ms + [m]) == ResultsOf(ms) + [ResultOf(m)]
  {
  }

  /** `sent` stays accounted for when what one task held and the queue and the finished messages
      together stay the same. */
  lemma Rebalance<T>(sent: multiset<T>, q: multiset<T>, i: multiset<T>, f: multiset<T>, h: multiset<T>,
                     q': multiset<T>, i': multiset<T>, f': multiset<T>, h': multiset<T>)
    requires sent == q + i + f && i' + h == i + h' && q + h + f == q' + h' + f'
    ensures sent == q' + i' + f'
  {
    forall m: T
      ensures sent[m] == (q' + i' + f')[m]
    {
      assert (i' + h)[m] == (i + h')[m];
      assert (q + h + f)[m] == (q' + h' + f')[m];
    }
  }

  /** Task `i` moves to `t`, with the queue and the finished messages taking up the difference. */
  lemma MoveConserves(l: Life, i: nat, t: Task, queue: seq<Message>, finished: seq<Message>)
    requires i < |l.tasks|
    requires Balanced(l.sent, l.queue, l.tasks, l.finished)
    requires multiset(l.queue) + HeldBy(l.tasks[i]) + multiset(l.finished)
          == multiset(queue) + HeldBy(t) + multiset(finished)
    ensures Balanced(l.sent, queue, l.tasks[i := t], finished)
  {
    InflightUpdate(l.tasks, i, t);
    Rebalance(multiset(l.sent),
              multiset(l.queue), Inflight(l.tasks), multiset(l.finished), HeldBy(l.tasks[i]),
              multiset(queue), Inflight(l.tasks[i := t]), multiset(finished), HeldBy(t));
  }

  lemma TakeConserves(p: Setting, w: World, e: Event)
    requires e.Take? && Enabled(p, w, e) && Conserved(w.life.value)
    ensures Conserved(Step(p, w, e).life.value)
  {
    var l := w.life.value;
    PopFront(l.queue);
    MoveConserves(l, e.i, Working(l.queue[0], {}), l.queue[1..], l.finished);
  }

  lemma FinishBalances<T>(q: multiset<T>, m: T, f: seq<T>)
    ensures q + multiset{m} + multiset(f) == q + multiset{} + multiset(f + [m])
  {
  }

  lemma ReportedPrefix(l: Life, m: Message)
    requires Conserved(l)
    ensures l.handed + [ResultOf(m)] == ResultsOf(l.finished + [m])
    ensures l.handed + [ResultOf(m)] == l.received + (l.results + [ResultOf(m)])
  {
    ResultsOfSnoc(l.finished, m);
  }

  lemma ReportConserves(p: Setting, w: World, e: Event)
    requires e.Report? && Enabled(p, w, e) && Conserved(w.life.value)
    ensures Conserved(Step(p, w, e).life.value)
  {
    var l := w.life.value;
    var m := l.tasks[e.i].msg;
    FinishBalances(multiset(l.queue), m, l.finished);
    MoveConserves(l, e.i, Idle, l.queue, l.finished + [m]);
    ReportedPrefix(l, m);
  }

  /** A task that goes on holding what it held changes nothing. */
  lemma SameHoldConserves(l: Life, i: nat, t: Task)
    requires i < |l.tasks| && HeldBy(t) == HeldBy(l.tasks[i]) && Conserved(l)
    ensures Conserved(l.(tasks := l.tasks[i := t]))
  {
    MoveConserves(l, i, t, l.queue, l.finished);
  }

  lemma ExecConserves(p: Setting, w: World, i: nat, j: nat)
    requires Enabled(p, w, Exec(i, j)) && Conserved(w.life.value)
    ensures Conserved(Step(p, w, Exec(i, j)).life.value)
  {
    var l := w.life.value;
    SameHoldConserves(l, i, Working(l.tasks[i].msg, l.tasks[i].done + {j}));
  }

  lemma CommitConserves(p: Setting, w: World, i: nat)
    requires Enabled(p, w, Commit(i)) && Conserved(w.life.value)
    ensures Conserved(Step(p, w, Commit(i)).life.value)
  {
    var l := w.life.value;
    SameHoldConserves(l, i, Reporting(l.tasks[i].msg));
  }

  lemma ExitConserves(p: Setting, w: World, i: nat)
    requires Enabled(p, w, Exit(i)) && Conserved(w.life.value)
    ensures Conserved(Step(p, w, Exit(i)).life.value)
  {
    SameHoldConserves(w.life.value, i, Exited);
  }

  lemma DetectConserves(p: Setting, w: World, e: Event)
    requires e.Detect? && Enabled(p, w, e) && Conserved(w.life.value)
    ensures Conserved(Step(p, w, e).life.value)
  {
    var l := w.life.value;
    var rs := l.received + [l.results[0]];
    assert rs[..|rs| - 1] == l.received;
    assert rs + l.results[1..] == l.received + l.results;
  }

  lemma SendConserves(p: Setting, w: World, e: Event)
    requires e.Send? && Enabled(p, w, e) && Conserved(w.life.value)
    ensures Conserved(Step(p, w, e).life.value)
  {
  }

  lemma BootConserves(p: Setting, w: World, e: Event)
    requires e.Boot? && Enabled(p, w, e)
    ensures Conserved(Step(p, w, e).life.value)
  {
    NothingHeld(seq(p.taskCount, _ => Idle));
  }

  lemma StepConserves(p: Setting, w: World, e: Event)
    requires Enabled(p, w, e)
    requires w.life.Some? ==> Conserved(w.life.value)
    ensures Step(p, w, e).life.Some? ==> Conserved(Step(p, w, e).life.value)
  {
    if e.Exec? { ExecConserves(p, w, e.i, e.j); }
    else if e.Commit? { CommitConserves(p, w, e.i); }
    else if e.Exit? { ExitConserves(p, w, e.i); }
    else if e.Take? { TakeConserves(p, w, e); }
    else if e.Report? { ReportConserves(p, w, e); }
    else if e.Boot? { BootConserves(p, w, e); }
    else if e.Detect? { DetectConserves(p, w, e); }
    else if e.Send? { SendConserves(p, w, e); }
  }

  // ---------- What has been fetched ----------

  ghost predicate RangesRelate(x: Message, y: Message) {
    (x.start == y.start && x.end == y.end) || x.end < y.start || y.end < x.start
  }

  ghost predicate Spans(ms: seq<Message>, v: nat) {
    exists m :: m in ms && m.start <= v <= m.end
  }

  ghost predicate Carries(ms: seq<Message>, v: nat) {
    exists m :: m in ms && v in Versions(m.txns)
  }

  /** The messages made so far lie between the start and the next version to fetch, span all of it,
      carry every wanted version in it, and never overlap partially. */
  ghost predicate Fetched(p: Setting, start: nat, next: nat, ms: seq<Message>) {
    && (forall m <- ms :: start <= m.start <= m.end < next)
    && (forall x, y | x in ms && y in ms :: RangesRelate(x, y))
    && (forall v :: start <= v < next ==> Spans(ms, v))
    && (forall v :: start <= v < next && Owed(p, v) ==> Carries(ms, v))
  }

  ghost predicate FetchOk(p: Setting, l: Life) {
    && l.fetch.status != Panicked
    && l.fetch.lastFetched + 1 == l.fetch.next && l.start <= l.fetch.next
    && (l.fetch.status == Ended ==> ReachedEnd(FetchConfig(p, l.start), l.fetch.next))
    && (l.closed ==> l.outbox == [] && l.queue == [] && l.fetch.status == Ended)
    && Fetched(p, l.start, l.fetch.next, l.sent + l.outbox)
  }

  lemma {:induction false} PayloadMember(ms: seq<Message>, t: Transaction)
    requires t in Payload(ms)
    ensures Carries(ms, t.version)
  {
    if t in ms[0].txns {
      assert ms[0] in ms;
    } else {
      PayloadMember(ms[1..], t);
      var m :| m in ms[1..] && t.version in Versions(m.txns);
      assert m in ms;
    }
  }

  /** The messages for the range right after `next` extend what was fetched. */
  lemma FetchedGrows(p: Setting, start: nat, next: nat, b: nat, old_: seq<Message>, new_: seq<Message>)
    requires start <= next <= b && Fetched(p, start, next, old_) && new_ != []
    requires forall m <- new_ :: m.start == next && m.end == b
    requires forall v :: next <= v <= b && Owed(p, v) ==> Carries(new_, v)
    ensures Fetched(p, start, b + 1, old_ + new_)
  {
    var ms := old_ + new_;
    assert forall m :: m in ms <==> m in old_ || m in new_;
    forall v | start <= v < b + 1
      ensures Spans(ms, v)
    {
      if v < next {
        assert Spans(old_, v);
        var m :| m in old_ && m.start <= v <= m.end;
        assert m in ms;
      } else {
        assert new_[0] in ms;
      }
    }
    forall v | start <= v < b + 1 && Owed(p, v)
      ensures Carries(ms, v)
    {
      if v < next { assert Carries(old_, v); } else { assert Carries(new_, v); }
      var m :| (m in old_ || m in new_) && v in Versions(m.txns);
      assert m in ms;
    }
  }

  /** The messages of an accepted range response carry every wanted version of it. */
  lemma SplitCarries(p: Setting, start: nat, a: nat, b: nat, chainId: Option<nat>, len: nat)
    requires a <= b && p.chunkSize >= 1 && chainId.Some?
    ensures var r := RangeResponse(p, a, b, chainId, len);
            var ms := Split(FetchConfig(p, start), r, Filter(r.txns, p.wanted));
            && ms != [] && (forall m <- ms :: m.start == a && m.end == b)
            && (forall v :: a <= v <= b && Owed(p, v) ==> Carries(ms, v))
  {
    var r := RangeResponse(p, a, b, chainId, len);
    var kept := Filter(r.txns, p.wanted);
    RangeResponseContents(p, a, b, chainId, len);
    SplitLossless(FetchConfig(p, start), r, kept);
    var ms := Split(FetchConfig(p, start), r, kept);
    forall v: nat | a <= v <= b && Owed(p, v)
      ensures Carries(ms, v)
    {
      assert Txn(p, v) in kept;
      PayloadMember(ms, Txn(p, v));
    }
  }

  lemma FetchStepOk(p: Setting, w: World, e: Event)
    requires e.Fetch? && Enabled(p, w, e) && FetchOk(p, w.life.value)
    ensures Step(p, w, e).life.Some? ==> FetchOk(p, Step(p, w, e).life.value)
  {
    var l := w.life.value;
    var w' := Step(p, w, e);
    RangeResponseContents(p, e.a, e.b, e.chainId, e.encodedLen);
    if w'.life.Some? {
      var ms := w'.life.value.outbox;
      SplitCarries(p, l.start, e.a, e.b, e.chainId, e.encodedLen);
      assert l.sent + l.outbox == l.sent;
      FetchedGrows(p, l.start, l.fetch.next, e.b, l.sent, ms);
    }
  }

  lemma StepKeepsFetchOk(p: Setting, w: World, e: Event)
    requires Enabled(p, w, e)
    requires w.life.Some? ==> FetchOk(p, w.life.value)
    ensures Step(p, w, e).life.Some? ==> FetchOk(p, Step(p, w, e).life.value)
  {
    if e.Fetch? {
      FetchStepOk(p, w, e);
    } else if e.Send? {
      var l := w.life.value;
      assert l.sent + [l.outbox[0]] + l.outbox[1..] == l.sent + l.outbox;
    }
  }

  // ---------- What has been committed ----------

  ghost predicate TaskCommitted(committed: set<nat>, t: Task) {
    t.Reporting? ==> Versions(t.msg.txns) <= committed
  }

  /** Finished messages, and those about to be reported, have been written in full. */
  ghost predicate FinishedAreCommitted(committed: set<nat>, l: Life) {
    && (forall m <- l.finished :: Versions(m.txns) <= committed)
    && (forall i | 0 <= i < |l.tasks| :: TaskCommitted(committed, l.tasks[i]))
  }

  lemma StepKeepsCommitted(p: Setting, w: World, e: Event)
    requires Enabled(p, w, e)
    requires w.life.Some? ==> FinishedAreCommitted(w.committed, w.life.value)
    ensures w.committed <= Step(p, w, e).committed
    ensures Step(p, w, e).life.Some? ==>
              FinishedAreCommitted(Step(p, w, e).committed, Step(p, w, e).life.value)
  {
    if e.Commit? || e.Report? {
      assert TaskCommitted(w.committed, w.life.value.tasks[e.i]);
    }
  }

  // ---------- Over whole runs ----------

  ghost predicate FlowInv(p: Setting, w: World) {
    w.life.Some? ==>
      && Conserved(w.life.value)
      && FetchOk(p, w.life.value)
      && FinishedAreCommitted(w.committed, w.life.value)
  }

  /** No hypothesis on the server, the filter, the chunk size or the restarts. */
  lemma {:induction false} RunKeepsFlow(p: Setting, es: seq<Event>)
    requires Possible(p, EMPTY_WORLD, es)
    ensures FlowInv(p, After(p, EMPTY_WORLD, es))
  {
    if es != [] {
      var before, e := After(p, EMPTY_WORLD, es[..|es| - 1]), es[|es| - 1];
      RunKeepsFlow(p, es[..|es| - 1]);
      StepConserves(p, before, e);
      StepKeepsFetchOk(p, before, e);
      StepKeepsCommitted(p, before, e);
    }
  }

  /** Messages sent always equal those queued, those in flight and those processed, and the results
      handed over are exactly those of the processed messages. */
  lemma MessagesAreConserved(p: Setting, es: seq<Event>)
    requires Possible(p, EMPTY_WORLD, es) && After(p, EMPTY_WORLD, es).life.Some?
    ensures var l := After(p, EMPTY_WORLD, es).life.value;
            && multiset(l.sent) == multiset(l.queue) + Inflight(l.tasks) + multiset(l.finished)
            && l.handed == ResultsOf(l.finished) && l.handed == l.received + l.results
  {
    RunKeepsFlow(p, es);
  }

  /** The fetcher has closed the channel and every task has left its loop. */
  ghost predicate ShutDown(l: Life) {
    l.closed && forall i | 0 <= i < |l.tasks| :: l.tasks[i] == Exited
  }

  /** A clean shutdown, split responses or not: nothing is queued or in flight, what was processed is
      what was sent, every result has been handed over, the ending version is behind, and every
      wanted version from the start to it is committed. */
  lemma CleanShutdownIsComplete(p: Setting, es: seq<Event>)
    requires Possible(p, EMPTY_WORLD, es) && After(p, EMPTY_WORLD, es).life.Some?
    requires ShutDown(After(p, EMPTY_WORLD, es).life.value)
    ensures var w := After(p, EMPTY_WORLD, es);
            var l := w.life.value;
            && l.queue == [] && Inflight(l.tasks) == multiset{}
            && multiset(l.finished) == multiset(l.sent) && l.handed == ResultsOf(l.finished)
            && p.ending.Some? && p.ending.value < l.fetch.next
            && Done(p, w.committed, l.start, l.fetch.next)
  {
    RunKeepsFlow(p, es);
    var w := After(p, EMPTY_WORLD, es);
    var l := w.life.value;
    NothingHeld(l.tasks);
    assert l.sent + l.outbox == l.sent;
    assert multiset(l.sent) == multiset(l.finished);
    forall v: nat | l.start <= v < l.fetch.next && Owed(p, v)
      ensures v in w.committed
    {
      assert Carries(l.sent, v);
      var m :| m in l.sent && v in Versions(m.txns);
      assert m in multiset(l.sent);
      assert m in l.finished;
    }
  }

  /** Whenever everything fetched has been sent, processed, handed over and received, the detector's
      frontier is the fetcher's next version, even though the pieces of a split response all
      report the same range. */
  lemma DrainedDetectorHasCaughtUp(p: Setting, es: seq<Event>)
    requires Possible(p, EMPTY_WORLD, es) && After(p, EMPTY_WORLD, es).life.Some?
    requires var l := After(p, EMPTY_WORLD, es).life.value;
             l.outbox == [] && l.queue == [] && Inflight(l.tasks) == multiset{} && l.results == []
    ensures var l := After(p, EMPTY_WORLD, es).life.value; l.detector.next == l.fetch.next
  {
    RunKeepsFlow(p, es);
    var l := After(p, EMPTY_WORLD, es).life.value;
    assert l.sent + l.outbox == l.sent;
    assert l.received == ResultsOf(l.finished);
    assert multiset(l.sent) == multiset(l.finished);
    ReceivedMatchesSent(p, l);
    FrontierIsLeastUncovered(l.start, l.received);
    LeastUncoveredUnique(l.start, Received(l.received), l.detector.next, l.fetch.next);
  }

  /** Each result received is that of a message sent. */
  lemma ReceivedIsSent(sent: seq<Message>, finished: seq<Message>, r: ProcessingResult) returns (m: Message)
    requires multiset(sent) == multiset(finished) && r in ResultsOf(finished)
    ensures m in sent && r == ResultOf(m)
  {
    var i :| 0 <= i < |finished| && ResultsOf(finished)[i] == r;
    m := finished[i];
    assert m in multiset(sent);
  }

  /** Each message sent has its result received. */
  lemma SentIsReceived(sent: seq<Message>, finished: seq<Message>, m: Message)
    requires multiset(sent) == multiset(finished) && m in sent
    ensures ResultOf(m) in ResultsOf(finished)
  {
    assert m in multiset(finished);
    var i :| 0 <= i < |finished| && finished[i] == m;
    assert ResultsOf(finished)[i] == ResultOf(m);
  }

  lemma ReceivedCompatible(p: Setting, l: Life)
    requires Fetched(p, l.start, l.fetch.next, l.sent)
    requires l.received == ResultsOf(l.finished) && multiset(l.sent) == multiset(l.finished)
    ensures Compatible(l.start, Received(l.received))
    ensures forall r <- Received(l.received) :: r.end < l.fetch.next
  {
    forall a <- Received(l.received)
      ensures WellFormed(a) && l.start <= a.start && a.end < l.fetch.next
    {
      var x := ReceivedIsSent(l.sent, l.finished, a);
    }
    forall a, b | a in Received(l.received) && b in Received(l.received)
      ensures SameRange(a, b) || Apart(a, b)
    {
      var x := ReceivedIsSent(l.sent, l.finished, a);
      var y := ReceivedIsSent(l.sent, l.finished, b);
      assert RangesRelate(x, y);
    }
  }

  lemma ReceivedMatchesSent(p: Setting, l: Life)
    requires Fetched(p, l.start, l.fetch.next, l.sent) && l.start <= l.fetch.next
    requires l.received == ResultsOf(l.finished) && multiset(l.sent) == multiset(l.finished)
    ensures Compatible(l.start, Received(l.received))
    ensures LeastUncovered(l.start, Received(l.received), l.fetch.next)
  {
    ReceivedCompatible(p, l);
    forall v | l.start <= v < l.fetch.next
      ensures Covered(Received(l.received), v)
    {
      assert Spans(l.sent, v);
      var m :| m in l.sent && m.start <= v <= m.end;
      SentIsReceived(l.sent, l.finished, m);
      assert Covers(ResultOf(m), v);
    }
  }
}
