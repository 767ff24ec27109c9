/** Progress: the bounded channels never block the process, and between two crashes it makes only so many
    moves, so every run that goes on as long as it can ends in a shutdown. */
module PipelineProgress {
  import opened Options
  import opened Fetching
  import opened Pipeline
  import opened PipelineConservation
  import Safety = PipelineSafety
  import Necessity = PipelineNecessity

  /** A statement executed again, as after a lost reply; it can happen any number of times and moves
      nothing. */
  predicate Repeats(p: Setting, w: World, e: Event)
    requires Enabled(p, w, e)
  {
    e.Exec? && e.j in w.life.value.tasks[e.i].done
  }

  /** Something other than a crash and a repetition can happen. */
  ghost predicate CanGoOn(p: Setting, w: World) {
    exists e :: e != Crash && !e.Boot? && Enabled(p, w, e) && !Repeats(p, w, e)
  }

  lemma GoesOn(p: Setting, w: World, e: Event)
    requires e != Crash && !e.Boot? && Enabled(p, w, e) && !Repeats(p, w, e)
    ensures CanGoOn(p, w)
  {
  }

  lemma BusyTaskGoesOn(p: Setting, w: World, i: nat)
    requires w.life.Some? && i < |w.life.value.tasks| && w.life.value.results == []
    requires w.life.value.tasks[i].Working? || w.life.value.tasks[i].Reporting?
    ensures CanGoOn(p, w)
  {
    var t := w.life.value.tasks[i];
    if t.Reporting? {
      GoesOn(p, w, Report(i));
    } else if AllExecuted(p, t.msg, t.done) {
      GoesOn(p, w, Commit(i));
    } else {
      var j: nat :| j < p.statements(t.msg.txns) && j !in t.done;
      GoesOn(p, w, Exec(i, j));
    }
  }

  lemma IdleTaskGoesOn(p: Setting, w: World, i: nat)
    requires w.life.Some? && FetchOk(p, w.life.value) && i < |w.life.value.tasks| && w.life.value.tasks[i] == Idle
    ensures CanGoOn(p, w)
  {
    var l := w.life.value;
    if l.queue != [] { GoesOn(p, w, Take(i)); }
    else if l.closed { GoesOn(p, w, Exit(i)); }
    else if l.outbox != [] { GoesOn(p, w, Send); }
    else if l.fetch.status == Polling { GoesOn(p, w, Miss(StreamEnded)); }
    else { GoesOn(p, w, Close); }
  }

  /** No task leaves its loop before the channel is closed. */
  ghost predicate ExitsAreLate(l: Life) {
    forall i | 0 <= i < |l.tasks| :: l.tasks[i] == Exited ==> l.closed
  }

  lemma {:induction false} RunExitsLate(p: Setting, es: seq<Event>)
    requires Possible(p, EMPTY_WORLD, es)
    ensures var w := After(p, EMPTY_WORLD, es); w.life.Some? ==> ExitsAreLate(w.life.value) && |w.life.value.tasks| == p.taskCount
  {
    if es != [] { RunExitsLate(p, es[..|es| - 1]); }
  }

  /** Neither channel ever holds more than it may, and there are always as many tasks as configured. */
  lemma {:induction false} ChannelsAreBounded(p: Setting, es: seq<Event>)
    requires Possible(p, EMPTY_WORLD, es)
    ensures var w := After(p, EMPTY_WORLD, es);
            w.life.Some? ==>
              |w.life.value.queue| <= BUFFER_SIZE && |w.life.value.results| <= BUFFER_SIZE
              && |w.life.value.tasks| == p.taskCount
  {
    if es != [] { ChannelsAreBounded(p, es[..|es| - 1]); }
  }

  ghost predicate EndOf(queue: seq<Message>, sent: seq<Message>) {
    |queue| <= |sent| && queue == sent[|sent| - |queue|..]
  }

  lemma EndOfGrows(queue: seq<Message>, sent: seq<Message>, m: Message)
    requires EndOf(queue, sent)
    ensures EndOf(queue + [m], sent + [m])
  {
  }

  lemma EndOfShrinks(queue: seq<Message>, sent: seq<Message>)
    requires EndOf(queue, sent) && queue != []
    ensures EndOf(queue[1..], sent)
  {
  }

  lemma StepKeepsFifo(p: Setting, w: World, e: Event)
    requires Enabled(p, w, e) && (w.life.Some? ==> EndOf(w.life.value.queue, w.life.value.sent))
    ensures var w' := Step(p, w, e); w'.life.Some? ==> EndOf(w'.life.value.queue, w'.life.value.sent)
  {
    if e.Send? { EndOfGrows(w.life.value.queue, w.life.value.sent, w.life.value.outbox[0]); }
    else if e.Take? { EndOfShrinks(w.life.value.queue, w.life.value.sent); }
  }

  /** Tasks take messages in the order they were sent: what waits is always the last part of what was sent. */
  lemma {:induction false} QueueIsFifo(p: Setting, es: seq<Event>)
    requires Possible(p, EMPTY_WORLD, es)
    ensures var w := After(p, EMPTY_WORLD, es); w.life.Some? ==> EndOf(w.life.value.queue, w.life.value.sent)
  {
    if es != [] {
      QueueIsFifo(p, es[..|es| - 1]);
      StepKeepsFifo(p, After(p, EMPTY_WORLD, es[..|es| - 1]), es[|es| - 1]);
    }
  }

  /** In every state a run can reach, despite both bounded channels, a running process that has not shut
      down can go on. */
  lemma NeverStuck(p: Setting, es: seq<Event>)
    requires Possible(p, EMPTY_WORLD, es) && p.taskCount >= 1
    requires After(p, EMPTY_WORLD, es).life.Some? && !ShutDown(After(p, EMPTY_WORLD, es).life.value)
    ensures CanGoOn(p, After(p, EMPTY_WORLD, es))
  {
    var w := After(p, EMPTY_WORLD, es);
    var l := w.life.value;
    RunKeepsFlow(p, es);
    RunExitsLate(p, es);
    if l.results != [] {
      GoesOn(p, w, Detect(false));
    } else if i: nat :| i < |l.tasks| && (l.tasks[i].Working? || l.tasks[i].Reporting?) {
      BusyTaskGoesOn(p, w, i);
    } else if i: nat :| i < |l.tasks| && l.tasks[i] == Idle {
      IdleTaskGoesOn(p, w, i);
    } else {
      assert false;
    }
  }

  /** A running process that cannot go on has shut down, with every wanted version from its start through
      the ending version committed. */
  lemma StoppedMeansDone(p: Setting, es: seq<Event>)
    requires Possible(p, EMPTY_WORLD, es) && p.taskCount >= 1
    requires After(p, EMPTY_WORLD, es).life.Some? && !CanGoOn(p, After(p, EMPTY_WORLD, es))
    ensures var w := After(p, EMPTY_WORLD, es);
            && ShutDown(w.life.value) && p.ending.Some?
            && Done(p, w.committed, w.life.value.start, p.ending.value + 1)
  {
    if !ShutDown(After(p, EMPTY_WORLD, es).life.value) { NeverStuck(p, es); }
    CleanShutdownIsComplete(p, es);
  }

  // ---------- How much work is left ----------

  function Cost(p: Setting, m: Message): nat {
    if m.txns == [] then 0 else p.statements(m.txns)
  }

  /** The work of messages that each need `each` moves besides their statements. */
  function Sum(p: Setting, ms: seq<Message>, each: nat): nat {
    if ms == [] then 0 else Cost(p, ms[0]) + each + Sum(p, ms[1..], each)
  }

  lemma {:induction false} SumJoins(p: Setting, a: seq<Message>, b: seq<Message>, each: nat)
    ensures Sum(p, a + b, each) == Sum(p, a, each) + Sum(p, b, each)
  {
    if a == [] {
      assert a + b == b;
    } else {
      assert (a + b)[1..] == a[1..] + b;
      SumJoins(p, a[1..], b, each);
    }
  }

  lemma SumOne(p: Setting, m: Message, each: nat)
    ensures Sum(p, [m], each) == Cost(p, m) + each
  {
    assert [m][1..] == [];
  }

  /** Moves a task and the result it owes still need. */
  function TaskWork(p: Setting, t: Task): nat {
    match t
    case Idle => 1
    case Working(m, done) => |Necessity.UpTo(Cost(p, m)) - done| + 4
    case Reporting(m) => 3
    case Exited => 0
  }

  function TasksWork(p: Setting, ts: seq<Task>): nat {
    if ts == [] then 0 else TasksWork(p, ts[..|ts| - 1]) + TaskWork(p, ts[|ts| - 1])
  }

  lemma {:induction false} TasksWorkUpdate(p: Setting, ts: seq<Task>, i: nat, t: Task)
    requires i < |ts|
    ensures TasksWork(p, ts[i := t]) + TaskWork(p, ts[i]) == TasksWork(p, ts) + TaskWork(p, t)
  {
    var n := |ts| - 1;
    if i == n {
      assert ts[i := t][..n] == ts[..n];
    } else {
      TasksWorkUpdate(p, ts[..n], i, t);
      assert ts[i := t][..n] == ts[..n][i := t];
    }
  }

  lemma {:induction false} UpToSize(k: nat)
    ensures |Necessity.UpTo(k)| == k
  {
    if k > 0 { UpToSize(k - 1); }
  }

  /** Moves the messages fetched so far, the tasks and the channel still need. */
  function LifeWork(p: Setting, l: Life): nat {
    Sum(p, l.outbox, 5) + Sum(p, l.queue, 4) + TasksWork(p, l.tasks) + |l.results| + (if l.closed then 0 else 1)
  }

  lemma TaskMoves(p: Setting, l: Life, i: nat, t: Task)
    requires i < |l.tasks| && TaskWork(p, t) <= TaskWork(p, l.tasks[i])
    ensures LifeWork(p, l.(tasks := l.tasks[i := t]))
         == LifeWork(p, l) - (TaskWork(p, l.tasks[i]) - TaskWork(p, t))
  {
    TasksWorkUpdate(p, l.tasks, i, t);
  }

  lemma ExecWorks(p: Setting, w: World, i: nat, j: nat)
    requires Enabled(p, w, Exec(i, j))
    ensures LifeWork(p, Step(p, w, Exec(i, j)).life.value) + (if Repeats(p, w, Exec(i, j)) then 0 else 1)
         == LifeWork(p, w.life.value)
  {
    var l := w.life.value;
    var t := l.tasks[i];
    var all := Necessity.UpTo(Cost(p, t.msg));
    if j in t.done {
      assert t.done + {j} == t.done;
    } else {
      assert all - t.done == (all - (t.done + {j})) + {j};
    }
    TaskMoves(p, l, i, Working(t.msg, t.done + {j}));
  }

  lemma CommitWorks(p: Setting, w: World, i: nat)
    requires Enabled(p, w, Commit(i))
    ensures LifeWork(p, Step(p, w, Commit(i)).life.value) + 1 == LifeWork(p, w.life.value)
  {
    var l := w.life.value;
    var t := l.tasks[i];
    assert Necessity.UpTo(Cost(p, t.msg)) - t.done == {};
    TaskMoves(p, l, i, Reporting(t.msg));
  }

  lemma TakeWorks(p: Setting, w: World, i: nat)
    requires Enabled(p, w, Take(i))
    ensures LifeWork(p, Step(p, w, Take(i)).life.value) + 1 == LifeWork(p, w.life.value)
  {
    var l := w.life.value;
    var m := l.queue[0];
    UpToSize(Cost(p, m));
    assert Necessity.UpTo(Cost(p, m)) - {} == Necessity.UpTo(Cost(p, m));
    TasksWorkUpdate(p, l.tasks, i, Working(m, {}));
  }

  lemma ReportWorks(p: Setting, w: World, i: nat)
    requires Enabled(p, w, Report(i))
    ensures LifeWork(p, Step(p, w, Report(i)).life.value) + 1 == LifeWork(p, w.life.value)
  {
    TasksWorkUpdate(p, w.life.value.tasks, i, Idle);
  }

  lemma SendWorks(p: Setting, w: World)
    requires Enabled(p, w, Send)
    ensures LifeWork(p, Step(p, w, Send).life.value) + 1 == LifeWork(p, w.life.value)
  {
    var l := w.life.value;
    SumJoins(p, l.queue, [l.outbox[0]], 4);
    SumOne(p, l.outbox[0], 4);
  }

  /** Each move that is not a poll does one unit of the work left; a repetition does none. */
  lemma MoveWorks(p: Setting, w: World, e: Event)
    requires Enabled(p, w, e) && !e.Boot? && !e.Crash? && !e.Fetch? && !e.Miss?
    ensures Step(p, w, e).life.Some?
    ensures LifeWork(p, Step(p, w, e).life.value) + (if Repeats(p, w, e) then 0 else 1) == LifeWork(p, w.life.value)
  {
    match e
    case Send => SendWorks(p, w);
    case Close =>
    case Take(i) => TakeWorks(p, w, i);
    case Exec(i, j) => ExecWorks(p, w, i, j);
    case Commit(i) => CommitWorks(p, w, i);
    case Report(i) => ReportWorks(p, w, i);
    case Exit(i) => TaskMoves(p, w.life.value, i, Exited);
    case Detect(_) =>
  }

  // ---------- How many polls are left ----------

  /** Polls the fetcher can still make. */
  function PollsLeft(p: Setting, l: Life): nat
    requires p.ending.Some?
  {
    var turns := TurnsLeft(FetchConfig(p, l.start), l.fetch);
    if l.fetch.status != Polling then 0 else if turns < 0 then 1 else turns + 1
  }

  ghost predicate Polite(p: Setting, l: Life) {
    FetchOk(p, l) && l.fetch.retries <= RECONNECTION_MAX_RETRIES
  }

  /** The work that all messages made so far needed in all. */
  function Made(p: Setting, l: Life): nat {
    Sum(p, l.sent + l.outbox, 5)
  }

  lemma PollUsesOne(p: Setting, w: World, e: Event)
    requires p.ending.Some? && (e.Fetch? || e.Miss?) && Enabled(p, w, e)
    requires Polite(p, w.life.value) && Step(p, w, e).life.Some?
    ensures var l, l' := w.life.value, Step(p, w, e).life.value;
            && l'.fetch.retries <= RECONNECTION_MAX_RETRIES
            && PollsLeft(p, l') + 1 <= PollsLeft(p, l)
            && LifeWork(p, l') == LifeWork(p, l) + (Made(p, l') - Made(p, l))
  {
    var l, l' := w.life.value, Step(p, w, e).life.value;
    if e.Fetch? { Safety.RangeResponseContents(p, e.a, e.b, e.chainId, e.encodedLen); }
    assert l.sent + [] == l.sent;
    SumJoins(p, l.sent, l'.outbox, 5);
  }

  lemma MadeIsKept(p: Setting, w: World, e: Event)
    requires Enabled(p, w, e) && !e.Boot? && !e.Crash? && !e.Fetch? && !e.Miss?
    ensures Made(p, Step(p, w, e).life.value) == Made(p, w.life.value)
  {
    if e.Send? {
      var l := w.life.value;
      assert l.sent + [l.outbox[0]] + l.outbox[1..] == l.sent + l.outbox;
    }
  }

  // ---------- Whole runs between crashes ----------

  /** The moves in `es` that are not repetitions. */
  ghost function Moves(p: Setting, w: World, es: seq<Event>): nat {
    if es == [] then 0
    else
      var before, e := After(p, w, es[..|es| - 1]), es[|es| - 1];
      Moves(p, w, es[..|es| - 1]) + (if Enabled(p, before, e) && Repeats(p, before, e) then 0 else 1)
  }

  function Polls(es: seq<Event>): nat {
    if es == [] then 0
    else Polls(es[..|es| - 1]) + (if es[|es| - 1].Fetch? || es[|es| - 1].Miss? then 1 else 0)
  }

  ghost predicate Quiet(es: seq<Event>) {
    forall e <- es :: !e.Boot? && !e.Crash?
  }

  ghost predicate WithinBudget(p: Setting, w: World, w': World, moves: nat, polls: nat)
    requires p.ending.Some? && w.life.Some? && w'.life.Some?
  {
    var l, l' := w.life.value, w'.life.value;
    && Polite(p, l')
    && Made(p, l) <= Made(p, l')
    && polls + PollsLeft(p, l') <= PollsLeft(p, l)
    && moves + LifeWork(p, l') <= polls + LifeWork(p, l) + (Made(p, l') - Made(p, l))
  }

  lemma StepWithinBudget(p: Setting, w: World, before: World, e: Event, moves: nat, polls: nat)
    requires p.ending.Some? && w.life.Some? && before.life.Some? && WithinBudget(p, w, before, moves, polls)
    requires Enabled(p, before, e) && !e.Boot? && !e.Crash? && Step(p, before, e).life.Some?
    ensures WithinBudget(p, w, Step(p, before, e), moves + (if Repeats(p, before, e) then 0 else 1),
                         polls + (if e.Fetch? || e.Miss? then 1 else 0))
  {
    StepKeepsFetchOk(p, before, e);
    if e.Fetch? || e.Miss? {
      PollUsesOne(p, before, e);
      MadeGrows(p, before, e);
    } else {
      MoveWorks(p, before, e);
      MadeIsKept(p, before, e);
    }
  }

  lemma MadeGrows(p: Setting, w: World, e: Event)
    requires (e.Fetch? || e.Miss?) && Enabled(p, w, e) && Step(p, w, e).life.Some?
    ensures Made(p, w.life.value) <= Made(p, Step(p, w, e).life.value)
  {
    var l, l' := w.life.value, Step(p, w, e).life.value;
    assert l.sent + [] == l.sent;
    SumJoins(p, l.sent, l'.outbox, 5);
  }

  lemma {:induction false} QuietRunWithinBudget(p: Setting, w: World, es: seq<Event>)
    requires p.ending.Some? && w.life.Some? && Polite(p, w.life.value)
    requires Possible(p, w, es) && Quiet(es) && After(p, w, es).life.Some?
    ensures WithinBudget(p, w, After(p, w, es), Moves(p, w, es), Polls(es))
  {
    if es != [] {
      var front, e := es[..|es| - 1], es[|es| - 1];
      assert forall x <- front :: x in es;
      assert e in es;
      QuietRunWithinBudget(p, w, front);
      StepWithinBudget(p, w, After(p, w, front), e, Moves(p, w, front), Polls(front));
    }
  }

  /** With an ending version, between a start and the next crash the fetcher polls at most so many times as
      the versions and the retries allow, and the process makes at most one move for each poll, for each
      statement, five more for each message made, one for each task and one to close. */
  lemma RunsAreBounded(p: Setting, before: World, boot: Event, es: seq<Event>)
    requires p.ending.Some? && boot.Boot? && Enabled(p, before, boot)
    requires var w := Step(p, before, boot);
             Possible(p, w, es) && Quiet(es) && After(p, w, es).life.Some?
    ensures var w := Step(p, before, boot);
            var l := After(p, w, es).life.value;
            && Polls(es) <= PollsLeft(p, w.life.value)
            && Moves(p, w, es) <= Polls(es) + Made(p, l) + p.taskCount + 1
  {
    var w := Step(p, before, boot);
    BootIsPolite(p, before, boot);
    FreshWork(p, w.life.value.start);
    QuietRunWithinBudget(p, w, es);
  }

  lemma BootIsPolite(p: Setting, w: World, e: Event)
    requires e.Boot? && Enabled(p, w, e)
    ensures Polite(p, Step(p, w, e).life.value)
  {
  }

  lemma {:induction false} IdleWork(p: Setting, n: nat)
    ensures TasksWork(p, seq(n, _ => Idle)) == n
  {
    if n > 0 {
      var ts := seq(n, _ => Idle);
      assert ts[..n - 1] == seq(n - 1, _ => Idle);
      IdleWork(p, n - 1);
    }
  }

  lemma FreshWork(p: Setting, start: nat)
    ensures LifeWork(p, FreshLife(p, start)) == p.taskCount + 1 && Made(p, FreshLife(p, start)) == 0
  {
    IdleWork(p, p.taskCount);
  }
}
