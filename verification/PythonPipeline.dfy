/** The Python worker as a machine over atomic steps: the producer, the bounded queue, the consumer
    with its threads and barrier, the checkpoint row, and exits, kills and restarts. The server streams
    consecutively from the version a stream was opened at. */
module PythonPipeline {
  import opened Options
  import opened PythonProducer

  const FETCHER_QUEUE_SIZE: nat := 50
  const TASKS: nat := 10

  type Batch = seq<nat>

  /** The consumer: at the loop head, gathering (with `asked` attempts made), or waiting at the barrier
      for the threads of `held`. */
  datatype Consumer =
    | AtHead
    | Gathering(held: seq<Batch>, asked: nat)
    | Barrier(held: seq<Batch>, ok: set<nat>, failed: set<nat>)

  /** What became of a stretch of versions at the producer. */
  datatype Segment = Delivered(batch: Batch) | Skipped(version: nat)

  /** `stream` is the next version the open stream will serve. `log`, `handled` and `errors` are
      history: the producer's segments, the batches the consumer is done with, and the number of times
      taking a response raised. */
  datatype Life = Life(
    start: nat, ending: Option<nat>, producer: Producer, stream: nat, queue: seq<Batch>, consumer: Consumer,
    exit: Option<nat>, log: seq<Segment>, handled: seq<Batch>, errors: nat)

  /** `nextRow` is the stored next version; `processed` the versions whose batch was processed in full;
      `skipped` those a producer passed over; `origin` the start of the very first run. */
  datatype World = World(
    nextRow: Option<nat>, processed: set<nat>, skipped: set<nat>, origin: Option<nat>, life: Option<Life>)

  const EMPTY_WORLD := World(None, {}, {}, None, None)

  datatype Event =
    | Boot(configured: Option<nat>, ending: Option<nat>, readFails: bool)
    | Kill
    | Serve(count: nat)
    | Stop(recent: bool)
    | Raise
    | QueueSeenEmpty
    | Head
    | Get
    | ThreadDone(i: nat)
    | ThreadFail(i: nat)
    | Join

  /** The start version: configured, else the stored one, else 0. A failed read counts as no row. */
  function StartVersion(w: World, configured: Option<nat>, readFails: bool): nat {
    if configured.Some? then configured.value
    else if !readFails && w.nextRow.Some? then w.nextRow.value
    else 0
  }

  /** The checkpoint upsert: overwrite only a smaller row. */
  function UpsertNext(row: Option<nat>, lastProcessed: nat): Option<nat> {
    if row.Some? && lastProcessed + 1 <= row.value then row else Some(lastProcessed + 1)
  }

  function Range(a: nat, b: nat): seq<nat>
    requires a <= b
  {
    seq(b - a, i requires 0 <= i => a + i)
  }

  function Held(c: Consumer): seq<Batch> {
    if c.AtHead? then [] else c.held
  }

  predicate Running(w: World) {
    w.life.Some? && w.life.value.exit == None
  }

  predicate Finished(c: Consumer, i: nat)
    requires c.Barrier?
  {
    i in c.ok || i in c.failed
  }

  predicate Enabled(w: World, e: Event) {
    if e.Boot? then !Running(w)
    else
      && Running(w)
      && var l := w.life.value;
         match e
         case Boot(_, _, _) => false
         case Kill => true
         case Serve(n) => l.producer.phase == Fetching && |l.queue| < FETCHER_QUEUE_SIZE
         case Stop(_) => l.producer.phase == Fetching
         case Raise => l.producer.phase == Fetching
         case QueueSeenEmpty => l.producer.phase == Draining && l.queue == []
         case Head => l.consumer == AtHead
         case Get => l.consumer.Gathering? && (l.consumer.asked == 0 ==> l.queue != [])
         case ThreadDone(i) => l.consumer.Barrier? && i < |l.consumer.held| && !Finished(l.consumer, i)
         case ThreadFail(i) => l.consumer.Barrier? && i < |l.consumer.held| && !Finished(l.consumer, i)
         case Join => l.consumer.Barrier? && forall i | 0 <= i < |l.consumer.held| :: Finished(l.consumer, i)
  }

  /** What the log gains: the batch put on the queue, or the version passed over. */
  function NewSegments(before: Producer, t: Turned): seq<Segment> {
    if t.put != [] then [Delivered(t.put[0])]
    else if t.producer.next > before.next then [Skipped(before.next)]
    else []
  }

  /** The producer's turn. */
  function Produced(w: World, item: Item): World
    requires Running(w)
  {
    var l := w.life.value;
    var t := Turn(l.ending, l.producer, item);
    var gained := NewSegments(l.producer, t);
    var served := if item.Response? then |item.versions| else 0;
    var raised := item == StreamError || item == Response([]);
    w.(skipped := w.skipped + SkippedVersions(gained),
       life := Some(l.(producer := t.producer, queue := l.queue + t.put,
                       stream := if t.reopen.Some? then t.reopen.value else l.stream + served,
                       exit := if t.producer.phase == Exited then Some(1) else None,
                       log := l.log + gained, errors := if raised then l.errors + 1 else l.errors)))
  }

  function SkippedVersions(log: seq<Segment>): set<nat> {
    set s | s in log && s.Skipped? :: s.version
  }

  /** One attempt to take a batch; after the last one the threads start. */
  function Asked(c: Consumer, offer: Option<Batch>): Consumer
    requires c.Gathering?
  {
    var held := if offer.Some? then c.held + [offer.value] else c.held;
    if c.asked + 1 >= TASKS then Barrier(held, {}, {}) else Gathering(held, c.asked + 1)
  }

  function Taken(l: Life): Life
    requires l.consumer.Gathering?
  {
    if l.queue == [] then l.(consumer := Asked(l.consumer, None))
    else l.(queue := l.queue[1..], consumer := Asked(l.consumer, Some(l.queue[0])))
  }

  function Versions(b: Batch): set<nat> {
    set v | v in b
  }

  /** Past the barrier: a failed thread ends the process; otherwise the row moves to the last version
      of the last batch. */
  function Joined(w: World): World
    requires Running(w) && w.life.value.consumer.Barrier?
  {
    var l := w.life.value;
    var held := l.consumer.held;
    if l.consumer.failed != {} || held == [] || held[|held| - 1] == [] then w.(life := Some(l.(exit := Some(1))))
    else
      w.(nextRow := UpsertNext(w.nextRow, LastVersion(held)),
         life := Some(l.(consumer := AtHead, handled := l.handled + held)))
  }

  function LastVersion(bs: seq<Batch>): nat
    requires bs != [] && bs[|bs| - 1] != []
  {
    var b := bs[|bs| - 1]; b[|b| - 1]
  }

  function Step(w: World, e: Event): World
    requires Enabled(w, e)
  {
    match e
    case Boot(configured, ending, readFails) =>
      var start := StartVersion(w, configured, readFails);
      var p := Start(ending, start);
      w.(origin := if w.origin == None then Some(start) else w.origin,
         life := Some(Life(start, ending, p, start, [], AtHead, if p.phase == Exited then Some(1) else None, [], [], 0)))
    case Kill => w.(life := None)
    case Serve(n) => Produced(w, Response(Range(w.life.value.stream, w.life.value.stream + n)))
    case Stop(recent) => Produced(w, StreamEnd(recent))
    case Raise => Produced(w, StreamError)
    case QueueSeenEmpty =>
      var l := w.life.value;
      w.(life := Some(l.(producer := l.producer.(phase := Ended))))
    case Head =>
      var l := w.life.value;
      w.(life := Some(if l.producer.phase == Ended then l.(exit := Some(0)) else l.(consumer := Gathering([], 0))))
    case Get => w.(life := Some(Taken(w.life.value)))
    case ThreadDone(i) =>
      var l := w.life.value;
      var c := l.consumer;
      w.(processed := w.processed + Versions(c.held[i]), life := Some(l.(consumer := c.(ok := c.ok + {i}))))
    case ThreadFail(i) =>
      var l := w.life.value;
      var c := l.consumer;
      w.(life := Some(l.(consumer := c.(failed := c.failed + {i}))))
    case Join => Joined(w)
  }

  /** The world after `es`; an event that is not enabled changes nothing. */
  ghost function After(w: World, es: seq<Event>): World {
    if es == [] then w
    else
      var before, e := After(w, es[..|es| - 1]), es[|es| - 1];
      if Enabled(before, e) then Step(before, e) else before
  }

  /** No run starts beyond the stored next version, nor, with no row yet, beyond the first start. */
  ghost predicate StartsBehind(w: World, e: Event) {
    e.Boot? ==>
      var start := StartVersion(w, e.configured, e.readFails);
      if w.nextRow.Some? then start <= w.nextRow.value else w.origin.Some? ==> start <= w.origin.value
  }

  ghost predicate NoSkippedStart(w: World, es: seq<Event>) {
    es == [] || (NoSkippedStart(w, es[..|es| - 1]) && StartsBehind(After(w, es[..|es| - 1]), es[|es| - 1]))
  }

  // ---------- The invariant ----------

  /** The versions of a log, in order. */
  function Flat(log: seq<Segment>): seq<nat> {
    if log == [] then []
    else
      var s := log[|log| - 1];
      Flat(log[..|log| - 1]) + (if s.Delivered? then s.batch else [s.version])
  }

  function Deliveries(log: seq<Segment>): seq<Batch> {
    if log == [] then []
    else
      var s := log[|log| - 1];
      Deliveries(log[..|log| - 1]) + (if s.Delivered? then [s.batch] else [])
  }

  function SkipCount(log: seq<Segment>): nat {
    if log == [] then 0 else SkipCount(log[..|log| - 1]) + (if log[|log| - 1].Skipped? then 1 else 0)
  }

  predicate NonEmpty(bs: seq<Batch>) {
    forall i | 0 <= i < |bs| :: bs[i] != []
  }

  ghost predicate AllProcessed(processed: set<nat>, bs: seq<Batch>) {
    forall b <- bs :: Versions(b) <= processed
  }

  /** Every version in `from..to` was processed or skipped. */
  ghost predicate Settled(w: World, from: nat, to: nat) {
    forall v: nat :: from <= v < to ==> v in w.processed || v in w.skipped
  }

  ghost predicate Safe(w: World) {
    w.nextRow.Some? ==> w.origin.Some? && Settled(w, w.origin.value, w.nextRow.value)
  }

  /** The producer's side: the log tiles what was fetched, and the stream stands right after it. */
  ghost predicate ProducerOk(l: Life) {
    && l.start <= l.producer.next
    && Flat(l.log) == Range(l.start, l.producer.next)
    && NonEmpty(Deliveries(l.log))
    && (l.exit == Some(1) || SkipCount(l.log) == l.errors)
    && (l.exit == None ==> l.producer.phase != Exited)
    && (l.producer.phase == Fetching ==> l.stream == l.producer.next)
    && (l.producer.phase == Draining || l.producer.phase == Ended ==> ReachedEnd(l.ending, l.producer.next))
    && (l.producer.phase == Ended ==> l.queue == [])
  }

  ghost predicate ConsumerOk(w: World, l: Life) {
    && AllProcessed(w.processed, l.handled)
    && (l.consumer.Gathering? ==> (l.consumer.asked == 0 <==> l.consumer.held == []))
    && (l.consumer.Barrier? ==>
          && l.consumer.held != []
          && (forall i <- l.consumer.ok :: i < |l.consumer.held| && Versions(l.consumer.held[i]) <= w.processed)
          && (forall i <- l.consumer.failed :: i < |l.consumer.held|))
    && (l.handled != [] && l.handled[|l.handled| - 1] != [] ==>
          w.nextRow.Some? && LastVersion(l.handled) < w.nextRow.value)
    && (l.exit == Some(0) ==> l.consumer == AtHead && l.producer.phase == Ended)
  }

  /** Nothing delivered is lost or reordered on its way to the consumer. */
  ghost predicate FlowOk(l: Life) {
    Deliveries(l.log) == l.handled + Held(l.consumer) + l.queue
  }

  /** What every run keeps, wherever it started. */
  ghost predicate LocalOk(w: World) {
    w.life.Some? ==>
      var l := w.life.value;
      ProducerOk(l) && ConsumerOk(w, l) && FlowOk(l) && SkippedVersions(l.log) <= w.skipped
  }

  ghost predicate Inv(w: World) {
    && Safe(w) && LocalOk(w)
    && (w.life.Some? ==> w.origin.Some? && Settled(w, w.origin.value, w.life.value.start))
  }

  /** Nothing below the start is unsettled. */
  ghost predicate BootOk(w: World, e: Event) {
    e.Boot? && w.origin.Some? ==> Settled(w, w.origin.value, StartVersion(w, e.configured, e.readFails))
  }

  lemma StartsBehindIsOk(w: World, e: Event)
    requires Safe(w) && StartsBehind(w, e)
    ensures BootOk(w, e)
  {
  }

  // ---------- Facts about logs ----------

  lemma Snoc<T>(s: seq<T>, x: T)
    ensures (s + [x])[..|s + [x]| - 1] == s && (s + [x])[|s + [x]| - 1] == x && s + [x] != []
  {
  }

  lemma RangeJoin(a: nat, b: nat, c: nat)
    requires a <= b <= c
    ensures Range(a, b) + Range(b, c) == Range(a, c)
    ensures |Range(b, c)| == c - b && (b < c ==> Range(b, c)[c - b - 1] == c - 1)
  {
  }

  /** Whatever lies in the log was delivered or skipped. */
  lemma {:induction false} FlatMembers(log: seq<Segment>, v: nat)
    requires v in Flat(log)
    ensures v in SkippedVersions(log) || exists b :: b in Deliveries(log) && v in b
  {
    var front, s := log[..|log| - 1], log[|log| - 1];
    assert forall x <- front :: x in log;
    assert s in log;
    if v in Flat(front) {
      FlatMembers(front, v);
      if v !in SkippedVersions(front) {
        var b :| b in Deliveries(front) && v in b;
        assert b in Deliveries(log);
      } else {
        assert v in SkippedVersions(log);
      }
    } else if s.Delivered? {
      assert s.batch in Deliveries(log);
    }
  }

  lemma {:induction false} DeliveriesAreFlat(log: seq<Segment>, b: Batch, v: nat)
    requires b in Deliveries(log) && v in b
    ensures v in Flat(log)
  {
    var front, s := log[..|log| - 1], log[|log| - 1];
    if b in Deliveries(front) { DeliveriesAreFlat(front, b, v); }
  }

  /** The log ends where it ends: its last piece is the end of the range. */
  lemma FrontRange(log: seq<Segment>, a: nat, b: nat) returns (c: nat)
    requires log != [] && a <= b && Flat(log) == Range(a, b)
    ensures a <= c <= b && Flat(log[..|log| - 1]) == Range(a, c)
    ensures log[|log| - 1].Skipped? ==> b == c + 1 && log[|log| - 1].version == c
    ensures log[|log| - 1].Delivered? ==> log[|log| - 1].batch == Range(c, b)
  {
    var front, s := Flat(log[..|log| - 1]), log[|log| - 1];
    var tail := if s.Delivered? then s.batch else [s.version];
    assert Flat(log) == front + tail;
    c := a + |front|;
    assert |front| + |tail| == b - a;
    assert front == Range(a, b)[..|front|] == Range(a, c);
    assert tail == Range(a, b)[|front|..] == Range(c, b);
    assert s.Skipped? ==> tail[0] == Range(c, b)[0] == c;
  }

  /** Deliveries come in order: once the consumer is done with a first part of them, every version up
      to the last it handled was handled or skipped. */
  lemma {:induction false} HandledPrefix(log: seq<Segment>, a: nat, b: nat, first: seq<Batch>, rest: seq<Batch>, v: nat)
    requires a <= b && Flat(log) == Range(a, b) && Deliveries(log) == first + rest
    requires first != [] && NonEmpty(first) && a <= v <= LastVersion(first)
    ensures v in SkippedVersions(log) || exists x :: x in first && v in x
  {
    var last := first[|first| - 1];
    assert last in Deliveries(log) by { assert (first + rest)[|first| - 1] == last; }
    DeliveriesAreFlat(log, last, LastVersion(first));
    assert v < b;
    assert v in Flat(log) by { assert Range(a, b)[v - a] == v; }
    if rest == [] {
      assert first + rest == first;
      FlatMembers(log, v);
    } else {
      var c := FrontRange(log, a, b);
      var front, s := log[..|log| - 1], log[|log| - 1];
      assert forall x <- front :: x in log;
      if s.Skipped? {
        if v != c {
          HandledPrefix(front, a, c, first, rest, v);
        } else {
          assert s in log;
        }
      } else {
        assert Deliveries(front) == first + rest[..|rest| - 1] by {
          assert Deliveries(front) == Deliveries(log)[..|Deliveries(log)| - 1];
        }
        HandledPrefix(front, a, c, first, rest[..|rest| - 1], v);
      }
      assert SkippedVersions(front) <= SkippedVersions(log);
    }
  }

  // ---------- Every step keeps the invariant ----------

  lemma LogGains(log: seq<Segment>, s: Segment)
    ensures Flat(log + [s]) == Flat(log) + (if s.Delivered? then s.batch else [s.version])
    ensures Deliveries(log + [s]) == Deliveries(log) + (if s.Delivered? then [s.batch] else [])
    ensures SkipCount(log + [s]) == SkipCount(log) + (if s.Skipped? then 1 else 0)
    ensures SkippedVersions(log + [s]) == SkippedVersions(log) + SkippedVersions([s])
  {
    Snoc(log, s);
  }

  /** The turn that delivers one more than zero versions. */
  lemma DeliveryTurn(l: Life, n: nat)
    requires l.producer.phase == Fetching && l.stream == l.producer.next && n > 0
    ensures var b := Range(l.stream, l.stream + n);
            var t := Turn(l.ending, l.producer, Response(b));
            && b != [] && |b| == n && t.put == [b] && t.reopen == None && t.producer.next == l.producer.next + n
            && t.producer.phase == PhaseAt(l.ending, l.producer.next + n)
            && NewSegments(l.producer, t) == [Delivered(b)]
  {
    RangeJoin(l.stream, l.stream, l.stream + n);
  }

  lemma DeliveryLog(l: Life, n: nat)
    requires ProducerOk(l) && FlowOk(l)
    ensures var b := Range(l.producer.next, l.producer.next + n); var log := l.log + [Delivered(b)];
            && Flat(log) == Range(l.start, l.producer.next + n)
            && Deliveries(log) == l.handled + Held(l.consumer) + (l.queue + [b])
            && SkipCount(log) == SkipCount(l.log) && SkippedVersions(log) == SkippedVersions(l.log)
            && (n > 0 ==> NonEmpty(Deliveries(log)))
  {
    var b := Range(l.producer.next, l.producer.next + n);
    RangeJoin(l.start, l.producer.next, l.producer.next + n);
    LogGains(l.log, Delivered(b));
    assert SkippedVersions([Delivered(b)]) == {};
    var before := l.handled + Held(l.consumer);
    assert before + l.queue + [b] == before + (l.queue + [b]);
  }

  lemma DeliveryOk(w: World, n: nat)
    requires Running(w) && LocalOk(w) && w.life.value.producer.phase == Fetching && n > 0
    ensures var w' := Produced(w, Response(Range(w.life.value.stream, w.life.value.stream + n)));
            w'.skipped == w.skipped && ProducerOk(w'.life.value) && FlowOk(w'.life.value)
            && SkippedVersions(w'.life.value.log) == SkippedVersions(w.life.value.log)
  {
    var l := w.life.value;
    DeliveryTurn(l, n);
    DeliveryLog(l, n);
    assert SkippedVersions([Delivered(Range(l.stream, l.stream + n))]) == {};
  }

  lemma SkipLog(l: Life)
    requires ProducerOk(l) && FlowOk(l)
    ensures var log := l.log + [Skipped(l.producer.next)];
            && Flat(log) == Range(l.start, l.producer.next + 1)
            && Deliveries(log) == Deliveries(l.log) && SkipCount(log) == SkipCount(l.log) + 1
            && SkippedVersions(log) == SkippedVersions(l.log) + {l.producer.next}
  {
    RangeJoin(l.start, l.producer.next, l.producer.next + 1);
    assert Range(l.producer.next, l.producer.next + 1) == [l.producer.next];
    LogGains(l.log, Skipped(l.producer.next));
    assert SkippedVersions([Skipped(l.producer.next)]) == {l.producer.next};
  }

  /** The turn that passes over a version, or ends the process because no stream can be opened. */
  lemma SkipTurn(l: Life, item: Item)
    requires l.producer.phase == Fetching && (item == StreamError || item == Response([]))
    ensures var t := Turn(l.ending, l.producer, item); var next := l.producer.next;
            && t.put == []
            && (CanOpen(l.ending, next + 1) ==>
                  && t.producer.next == next + 1 && t.reopen == Some(next + 1)
                  && t.producer.phase == PhaseAt(l.ending, next + 1)
                  && NewSegments(l.producer, t) == [Skipped(next)])
            && (!CanOpen(l.ending, next + 1) ==>
                  t.producer.next == next && t.producer.phase == Exited && NewSegments(l.producer, t) == [])
  {
  }

  lemma SkippedOk(l: Life, p: Producer)
    requires ProducerOk(l) && FlowOk(l) && l.exit == None && l.producer.phase == Fetching
    requires p.next == l.producer.next + 1 && p.phase == PhaseAt(l.ending, p.next)
    ensures var l' := l.(producer := p, stream := p.next, log := l.log + [Skipped(l.producer.next)],
                         errors := l.errors + 1);
            ProducerOk(l') && FlowOk(l')
  {
    SkipLog(l);
  }

  /** What the world is after a raise. */
  lemma SkipShape(w: World, item: Item)
    requires Running(w) && w.life.value.producer.phase == Fetching
    requires item == StreamError || item == Response([])
    ensures var w' := Produced(w, item); var l := w.life.value;
            var p := Turn(l.ending, l.producer, item).producer;
            if CanOpen(l.ending, l.producer.next + 1) then
              && w'.skipped == w.skipped + {l.producer.next}
              && w'.life.value == l.(producer := p, stream := p.next, log := l.log + [Skipped(l.producer.next)],
                                     errors := l.errors + 1)
            else
              && w'.skipped == w.skipped
              && w'.life.value == l.(producer := p, exit := Some(1), errors := l.errors + 1)
  {
    var l := w.life.value;
    SkipTurn(l, item);
    assert SkippedVersions([Skipped(l.producer.next)]) == {l.producer.next};
    assert l.queue + [] == l.queue && l.log + [] == l.log;
  }

  lemma SkipOk(w: World, item: Item)
    requires Running(w) && LocalOk(w) && w.life.value.producer.phase == Fetching
    requires item == StreamError || item == Response([])
    ensures var w' := Produced(w, item);
            ProducerOk(w'.life.value) && FlowOk(w'.life.value) && w.skipped <= w'.skipped
            && SkippedVersions(w'.life.value.log) <= w'.skipped
  {
    var l := w.life.value;
    SkipShape(w, item);
    SkipTurn(l, item);
    if CanOpen(l.ending, l.producer.next + 1) {
      SkippedOk(l, Turn(l.ending, l.producer, item).producer);
      SkipLog(l);
    }
  }

  lemma StopOk(w: World, recent: bool)
    requires Running(w) && LocalOk(w) && w.life.value.producer.phase == Fetching
    ensures var w' := Produced(w, StreamEnd(recent));
            ProducerOk(w'.life.value) && FlowOk(w'.life.value) && w'.skipped == w.skipped
            && w'.life.value.log == w.life.value.log
  {
    var l := w.life.value;
    var l' := Produced(w, StreamEnd(recent)).life.value;
    assert l'.log == l.log && l'.queue == l.queue;
  }

  /** A producer's turn with its parts in order keeps everything in order. */
  lemma ProducedParts(w: World, item: Item)
    requires Running(w) && LocalOk(w) && w.life.value.producer.phase == Fetching
    requires var w' := Produced(w, item);
             && ProducerOk(w'.life.value) && FlowOk(w'.life.value)
             && SkippedVersions(w'.life.value.log) <= w'.skipped && w.skipped <= w'.skipped
    ensures LocalOk(Produced(w, item)) && w.skipped <= Produced(w, item).skipped
  {
    var w' := Produced(w, item);
    ConsumerUnmoved(w, w', w.life.value, w'.life.value);
  }

  lemma ProducedOk(w: World, e: Event)
    requires LocalOk(w) && Enabled(w, e) && (e.Serve? || e.Stop? || e.Raise?)
    ensures LocalOk(Step(w, e)) && w.skipped <= Step(w, e).skipped
  {
    match e {
      case Serve(n) => ServedOk(w, n);
      case Stop(recent) =>
        StopOk(w, recent);
        ProducedParts(w, StreamEnd(recent));
      case Raise =>
        SkipOk(w, StreamError);
        ProducedParts(w, StreamError);
    }
  }

  lemma ServedOk(w: World, n: nat)
    requires LocalOk(w) && Enabled(w, Serve(n))
    ensures LocalOk(Step(w, Serve(n))) && w.skipped <= Step(w, Serve(n)).skipped
  {
    var from := w.life.value.stream;
    if n > 0 {
      DeliveryOk(w, n);
      ProducedParts(w, Response(Range(from, from + n)));
    } else {
      assert Range(from, from + n) == [];
      SkipOk(w, Response([]));
      ProducedParts(w, Response([]));
    }
  }

  lemma ConsumerUnmoved(w: World, w': World, l: Life, l': Life)
    requires ConsumerOk(w, l) && l'.consumer == l.consumer && l'.handled == l.handled && l'.exit != Some(0)
    requires w'.processed == w.processed && w'.nextRow == w.nextRow
    ensures ConsumerOk(w', l')
  {
  }

  lemma TakenOk(w: World)
    requires LocalOk(w) && Enabled(w, Get)
    ensures LocalOk(Step(w, Get))
  {
    var l := w.life.value;
    var l' := Taken(l);
    assert Held(l'.consumer) + l'.queue == Held(l.consumer) + l.queue;
    assert l.handled + Held(l'.consumer) + l'.queue == l.handled + (Held(l'.consumer) + l'.queue);
    assert l.handled + Held(l.consumer) + l.queue == l.handled + (Held(l.consumer) + l.queue);
  }

  lemma JoinedOk(w: World)
    requires LocalOk(w) && Enabled(w, Join)
    ensures LocalOk(Step(w, Join))
  {
    var l := w.life.value;
    var held := l.consumer.held;
    assert held[|held| - 1] != [] by {
      assert Deliveries(l.log)[|l.handled| + |held| - 1] == held[|held| - 1];
    }
    if l.consumer.failed == {} {
      var w' := Step(w, Join);
      var l' := w'.life.value;
      assert l'.handled == l.handled + held && l'.handled[|l'.handled| - 1] == held[|held| - 1];
      assert AllProcessed(w.processed, held) by {
        forall i | 0 <= i < |held| ensures Versions(held[i]) <= w.processed { assert Finished(l.consumer, i); }
      }
      assert FlowOk(l');
    }
  }

  lemma OtherStepsOk(w: World, e: Event)
    requires LocalOk(w) && Enabled(w, e)
    requires e.Boot? || e.Kill? || e.QueueSeenEmpty? || e.Head? || e.ThreadDone? || e.ThreadFail?
    ensures LocalOk(Step(w, e))
  {
  }

  lemma StepKeepsLocal(w: World, e: Event)
    requires LocalOk(w) && Enabled(w, e)
    ensures LocalOk(Step(w, e))
  {
    if e.Serve? || e.Stop? || e.Raise? { ProducedOk(w, e); }
    else if e.Get? { TakenOk(w); }
    else if e.Join? { JoinedOk(w); }
    else { OtherStepsOk(w, e); }
  }

  lemma {:induction false} RunKeepsLocal(es: seq<Event>)
    ensures LocalOk(After(EMPTY_WORLD, es))
  {
    if es != [] {
      var before, e := After(EMPTY_WORLD, es[..|es| - 1]), es[|es| - 1];
      RunKeepsLocal(es[..|es| - 1]);
      if Enabled(before, e) { StepKeepsLocal(before, e); }
    }
  }

  /** In a life whose deliveries are accounted for, every version up to the last handled is settled. */
  lemma SettledToHandled(w: World, l: Life)
    requires ProducerOk(l) && FlowOk(l) && AllProcessed(w.processed, l.handled) && SkippedVersions(l.log) <= w.skipped
    requires l.handled != []
    ensures l.handled[|l.handled| - 1] != [] && Settled(w, l.start, LastVersion(l.handled) + 1)
  {
    var rest := Held(l.consumer) + l.queue;
    assert Deliveries(l.log) == l.handled + rest;
    assert NonEmpty(l.handled) by {
      forall i | 0 <= i < |l.handled| ensures l.handled[i] != [] { assert Deliveries(l.log)[i] == l.handled[i]; }
    }
    forall v: nat | l.start <= v <= LastVersion(l.handled)
      ensures v in w.processed || v in w.skipped
    {
      HandledPrefix(l.log, l.start, l.producer.next, l.handled, rest, v);
      if v !in SkippedVersions(l.log) {
        var b :| b in l.handled && v in b;
        assert v in Versions(b);
      }
    }
  }

  lemma StepKeepsInv(w: World, e: Event)
    requires Inv(w) && Enabled(w, e) && BootOk(w, e)
    ensures Inv(Step(w, e))
  {
    StepKeepsLocal(w, e);
    var w' := Step(w, e);
    assert w.processed <= w'.processed && w.skipped <= w'.skipped;
    if e.Join? && w'.life.value.exit == None {
      var l' := w'.life.value;
      assert l'.handled[|l'.handled| - 1] == w.life.value.consumer.held[|w.life.value.consumer.held| - 1];
      SettledToHandled(w', l');
    }
  }

  lemma {:induction false} RunKeepsInv(w: World, es: seq<Event>)
    requires Inv(w) && NoSkippedStart(w, es)
    ensures Inv(After(w, es))
  {
    if es != [] {
      var before, e := After(w, es[..|es| - 1]), es[|es| - 1];
      RunKeepsInv(w, es[..|es| - 1]);
      StartsBehindIsOk(before, e);
      if Enabled(before, e) { StepKeepsInv(before, e); }
    }
  }

  // ---------- The main results ----------

  /** In every run, however it was killed and restarted, what the current producer delivered and what it
      skipped make up, in order and without gap or overlap, exactly the versions it has passed; it
      skipped one version for each time the stream raised, unless that ended the process. */
  lemma FetchedVersionsArePartitioned(es: seq<Event>)
    requires After(EMPTY_WORLD, es).life.Some?
    ensures var l := After(EMPTY_WORLD, es).life.value;
            && l.start <= l.producer.next && Flat(l.log) == Range(l.start, l.producer.next)
            && Deliveries(l.log) == l.handled + Held(l.consumer) + l.queue
            && (l.exit == Some(1) || SkipCount(l.log) == l.errors)
  {
    RunKeepsLocal(es);
  }

  /** Over any number of kills, exits and restarts that start no further than the stored next version,
      every version from the first start up to the stored one was processed or skipped. */
  lemma CheckpointIsSettled(es: seq<Event>)
    requires NoSkippedStart(EMPTY_WORLD, es)
    ensures Safe(After(EMPTY_WORLD, es))
  {
    RunKeepsInv(EMPTY_WORLD, es);
  }

  /** Runs that take their start from the database never start too far. */
  lemma {:induction false} DefaultStartsNeverSkip(es: seq<Event>)
    requires forall e <- es :: e.Boot? ==> e.configured == None
    ensures NoSkippedStart(EMPTY_WORLD, es)
  {
    if es != [] {
      assert forall e <- es[..|es| - 1] :: e in es;
      DefaultStartsNeverSkip(es[..|es| - 1]);
      assert es[|es| - 1] in es;
    }
  }

  /** The stored next version never goes back, whatever happens. */
  lemma {:induction false} NextRowNeverDecreases(w: World, es: seq<Event>)
    requires w.nextRow.Some?
    ensures After(w, es).nextRow.Some? && w.nextRow.value <= After(w, es).nextRow.value
  {
    if es != [] { NextRowNeverDecreases(w, es[..|es| - 1]); }
  }

  ghost predicate AllDelivered(w: World, l: Life) {
    && Deliveries(l.log) == l.handled
    && AllProcessed(w.processed, l.handled)
    && (l.handled != [] ==>
          && l.handled[|l.handled| - 1] != []
          && w.nextRow.Some? && LastVersion(l.handled) < w.nextRow.value)
    && Settled(w, l.start, l.producer.next)
    && ReachedEnd(l.ending, l.producer.next)
  }

  lemma EmptyHandsAreAllDelivered(w: World)
    requires LocalOk(w) && w.life.Some?
    requires w.life.value.producer.phase == Ended && Held(w.life.value.consumer) == []
    ensures AllDelivered(w, w.life.value)
  {
    var l := w.life.value;
    assert l.handled + [] + [] == l.handled;
    forall v: nat | l.start <= v < l.producer.next
      ensures v in w.processed || v in w.skipped
    {
      assert Flat(l.log)[v - l.start] == v;
      FlatMembers(l.log, v);
      if v !in SkippedVersions(l.log) {
        var b :| b in Deliveries(l.log) && v in b;
        assert v in Versions(b);
      }
    }
  }

  /** A process that exits with 0 has handled every batch it was delivered, has moved the row past them,
      and every version from its start through the ending version was processed or skipped. */
  lemma ExitZeroIsComplete(es: seq<Event>)
    requires var w := After(EMPTY_WORLD, es); w.life.Some? && w.life.value.exit == Some(0)
    ensures var w := After(EMPTY_WORLD, es);
            && AllDelivered(w, w.life.value)
            && Settled(w, w.life.value.start, w.life.value.ending.value + 1)
  {
    RunKeepsLocal(es);
    EmptyHandsAreAllDelivered(After(EMPTY_WORLD, es));
  }

  /** After the producer's end a running process can do nothing more by itself exactly when the consumer
      had passed the liveness check and waits for a first batch; nothing delivered is lost then. */
  lemma WaitsForeverIff(es: seq<Event>)
    requires Running(After(EMPTY_WORLD, es)) && After(EMPTY_WORLD, es).life.value.producer.phase == Ended
    ensures var w := After(EMPTY_WORLD, es);
            && ((forall e | Enabled(w, e) :: e == Kill) <==> w.life.value.consumer == Gathering([], 0))
            && (w.life.value.consumer == Gathering([], 0) ==> AllDelivered(w, w.life.value))
  {
    RunKeepsLocal(es);
    var w := After(EMPTY_WORLD, es);
    var l := w.life.value;
    if l.consumer == Gathering([], 0) {
      EmptyHandsAreAllDelivered(w);
    } else if l.consumer.AtHead? {
      assert Enabled(w, Head);
    } else if l.consumer.Gathering? {
      assert Enabled(w, Get);
    } else if i: nat :| i < |l.consumer.held| && !Finished(l.consumer, i) {
      assert Enabled(w, ThreadDone(i));
    } else {
      assert Enabled(w, Join);
    }
  }

  /** Back at the loop head after the producer's end, a process that lives on exits with 0 next. */
  lemma {:induction false} ExitsAfterEnd(w: World, es: seq<Event>)
    requires Running(w) && w.life.value.producer.phase == Ended && w.life.value.consumer == AtHead
    requires forall e <- es :: !e.Boot? && !e.Kill?
    ensures After(w, es) == w || (After(w, es).life.Some? && After(w, es).life.value.exit == Some(0))
    ensures Enabled(w, Head) && Step(w, Head).life.Some? && Step(w, Head).life.value.exit == Some(0)
  {
    if es != [] {
      var front, last := es[..|es| - 1], es[|es| - 1];
      assert forall e <- front :: e in es;
      assert last in es;
      ExitsAfterEnd(w, front);
    }
  }

  // ---------- Where a run begins ----------

  /** A run begins at `from`: the configured version; else the stored next version, if it can be read; else
      0. */
  ghost predicate BeginsAt(w: World, boot: Event, from: nat) {
    && boot.Boot?
    && match boot.configured
       case Some(v) => from == v
       case None => if w.nextRow.Some? && !boot.readFails then from == w.nextRow.value else from == 0
  }

  /** The life began at `from`, and what it added to the processed and the skipped versions is no older. */
  ghost predicate BegunAt(w: World, w': World, from: nat) {
    && w'.life.Some? && LocalOk(w') && w'.life.value.start == from
    && (forall v <- w'.processed :: v in w.processed || from <= v)
    && (forall v <- w'.skipped :: v in w.skipped || from <= v)
  }

  lemma HeldIsFetched(l: Life, i: nat, v: nat)
    requires ProducerOk(l) && FlowOk(l) && i < |Held(l.consumer)| && v in Held(l.consumer)[i]
    ensures l.start <= v < l.producer.next
  {
    var b := Held(l.consumer)[i];
    assert Deliveries(l.log)[|l.handled| + i] == b;
    DeliveriesAreFlat(l.log, b, v);
  }

  lemma ThreadKeepsBegun(w: World, before: World, i: nat, from: nat)
    requires BegunAt(w, before, from) && Enabled(before, ThreadDone(i))
    ensures forall v <- Step(before, ThreadDone(i)).processed :: v in w.processed || from <= v
  {
    forall v <- Step(before, ThreadDone(i)).processed
      ensures v in w.processed || from <= v
    {
      if v !in before.processed { HeldIsFetched(before.life.value, i, v); }
    }
  }

  lemma ProducerKeepsBegun(w: World, before: World, e: Event, from: nat)
    requires BegunAt(w, before, from) && Enabled(before, e) && (e.Serve? || e.Stop? || e.Raise?)
    ensures forall v <- Step(before, e).skipped :: v in w.skipped || from <= v
  {
    forall v <- Step(before, e).skipped
      ensures v in w.skipped || from <= v
    {
      assert v !in before.skipped ==> v == before.life.value.producer.next;
    }
  }

  lemma StepKeepsBegun(w: World, before: World, e: Event, from: nat)
    requires BegunAt(w, before, from) && Enabled(before, e) && !e.Boot? && !e.Kill?
    ensures BegunAt(w, Step(before, e), from)
  {
    StepKeepsLocal(before, e);
    if e.ThreadDone? { ThreadKeepsBegun(w, before, e.i, from); }
    else if e.Serve? || e.Stop? || e.Raise? { ProducerKeepsBegun(w, before, e, from); }
  }

  lemma {:induction false} LifeKeepsStart(w: World, w1: World, es: seq<Event>, from: nat)
    requires BegunAt(w, w1, from) && forall e <- es :: !e.Boot? && !e.Kill?
    ensures BegunAt(w, After(w1, es), from)
  {
    if es != [] {
      var front, e := es[..|es| - 1], es[|es| - 1];
      assert forall x <- front :: x in es;
      assert e in es;
      LifeKeepsStart(w, w1, front, from);
      if Enabled(After(w1, front), e) { StepKeepsBegun(w, After(w1, front), e, from); }
    }
  }

  /** Until the next kill or restart, whatever happens: what was delivered and skipped is exactly the versions
      from there on, and nothing older was processed or skipped. */
  lemma RunsBeginWhereTheyShould(w: World, boot: Event, from: nat, es: seq<Event>)
    requires Enabled(w, boot) && BeginsAt(w, boot, from) && forall e <- es :: !e.Boot? && !e.Kill?
    ensures var w' := After(Step(w, boot), es);
            && w'.life.Some?
            && from <= w'.life.value.producer.next
            && Flat(w'.life.value.log) == Range(from, w'.life.value.producer.next)
            && (forall v <- w'.processed :: v in w.processed || from <= v)
            && (forall v <- w'.skipped :: v in w.skipped || from <= v)
  {
    LifeKeepsStart(w, Step(w, boot), es, from);
  }

  /** The queue never holds more than it may, and no round more batches than there are tasks. */
  lemma {:induction false} QueueIsBounded(es: seq<Event>)
    ensures var w := After(EMPTY_WORLD, es);
            w.life.Some? ==>
              && |w.life.value.queue| <= FETCHER_QUEUE_SIZE
              && |Held(w.life.value.consumer)| <= TASKS
              && (w.life.value.consumer.Gathering? ==> |w.life.value.consumer.held| <= w.life.value.consumer.asked < TASKS)
  {
    if es != [] { QueueIsBounded(es[..|es| - 1]); }
  }

  // ---------- Both limits are real ----------

  lemma AfterThen(w: World, es: seq<Event>, e: Event)
    requires Enabled(After(w, es), e)
    ensures After(w, es + [e]) == Step(After(w, es), e)
  {
    Snoc(es, e);
  }

  lemma NoBootThen(w: World, es: seq<Event>, e: Event)
    requires NoSkippedStart(w, es) && !e.Boot?
    ensures NoSkippedStart(w, es + [e])
  {
    Snoc(es, e);
  }

  /** The attempts after the first find the queue empty. */
  lemma {:induction false} EmptyPolls(w: World, es: seq<Event>, k: nat) returns (out: seq<Event>)
    requires Running(After(w, es)) && NoSkippedStart(w, es)
    requires var l := After(w, es).life.value;
             l.queue == [] && l.consumer.Gathering? && l.consumer.asked == TASKS - k && 1 <= k < TASKS
    ensures NoSkippedStart(w, out)
    ensures var w0 := After(w, es);
            After(w, out) == w0.(life := Some(w0.life.value.(consumer := Barrier(w0.life.value.consumer.held, {}, {}))))
    decreases k
  {
    AfterThen(w, es, Get);
    NoBootThen(w, es, Get);
    out := es + [Get];
    if k > 1 { out := EmptyPolls(w, out, k - 1); }
  }

  /** The parts of a world that a checkpoint is about. */
  ghost predicate SameDatabase(w: World, w': World) {
    w'.processed == w.processed && w'.skipped == w.skipped && w'.origin == w.origin && w'.nextRow == w.nextRow
  }

  /** One version is fetched and put on the queue. */
  lemma OneServed(w: World)
    requires Running(w) && w.life.value.queue == [] && w.life.value.producer.phase == Fetching
    ensures Enabled(w, Serve(1))
    ensures var w' := Step(w, Serve(1)); var v := w.life.value.stream;
            && SameDatabase(w, w') && Running(w') && w'.life.value.consumer == w.life.value.consumer
            && w'.life.value.queue == [[v]] && w'.life.value.producer.phase != Ended
  {
    var v := w.life.value.stream;
    assert Range(v, v + 1) == [v];
    assert SkippedVersions([Delivered([v])]) == {};
  }

  /** One version is fetched and taken, and the consumer stands at the barrier. */
  lemma OneTaken(w: World) returns (es: seq<Event>)
    requires Running(w) && w.life.value.consumer == AtHead && w.life.value.queue == []
    requires w.life.value.producer.phase == Fetching
    ensures NoSkippedStart(w, es)
    ensures var w' := After(w, es);
            SameDatabase(w, w') && Running(w') && w'.life.value.consumer == Barrier([[w.life.value.stream]], {}, {})
  {
    assert After(w, []) == w;
    OneServed(w);
    AfterThen(w, [], Serve(1));
    NoBootThen(w, [], Serve(1));
    es := [] + [Serve(1)];
    AfterThen(w, es, Head);
    NoBootThen(w, es, Head);
    es := es + [Head];
    AfterThen(w, es, Get);
    NoBootThen(w, es, Get);
    es := es + [Get];
    es := EmptyPolls(w, es, TASKS - 1);
  }

  /** The only thread finishes. */
  lemma OneProcessed(w: World) returns (es: seq<Event>)
    requires Running(w) && w.life.value.consumer == AtHead && w.life.value.queue == []
    requires w.life.value.producer.phase == Fetching
    ensures NoSkippedStart(w, es)
    ensures var v := w.life.value.stream; var w' := After(w, es);
            && SameDatabase(w.(processed := w.processed + {v}), w')
            && Running(w') && w'.life.value.consumer == Barrier([[v]], {0}, {})
  {
    es := OneTaken(w);
    AfterThen(w, es, ThreadDone(0));
    NoBootThen(w, es, ThreadDone(0));
    es := es + [ThreadDone(0)];
  }

  /** One version is fetched, processed and checkpointed. */
  lemma OneVersion(w: World) returns (es: seq<Event>)
    requires Running(w) && w.life.value.consumer == AtHead && w.life.value.queue == []
    requires w.life.value.producer.phase == Fetching
    ensures NoSkippedStart(w, es)
    ensures var v := w.life.value.stream; var w' := After(w, es);
            && w'.processed == w.processed + {v} && w'.skipped == w.skipped && w'.origin == w.origin
            && w'.nextRow == UpsertNext(w.nextRow, v)
  {
    es := OneProcessed(w);
    AfterThen(w, es, Join);
    NoBootThen(w, es, Join);
    es := es + [Join];
  }

  /** A restart at a configured version, from a settled database, leaves every later checkpoint settled
      exactly when nothing below that version is unsettled. */
  lemma RestartSettledIff(w: World, start: nat, ending: Option<nat>)
    requires w.life == None && w.origin.Some? && Safe(w) && !ReachedEnd(ending, start)
    ensures var w1 := Step(w, Boot(Some(start), ending, false));
            (forall es | NoSkippedStart(w1, es) :: Safe(After(w1, es))) <==> Settled(w, w.origin.value, start)
  {
    var boot := Boot(Some(start), ending, false);
    var w1 := Step(w, boot);
    if Settled(w, w.origin.value, start) {
      StepKeepsInv(w, boot);
      forall es | NoSkippedStart(w1, es)
        ensures Safe(After(w1, es))
      {
        RunKeepsInv(w1, es);
      }
    } else {
      var v: nat :| w.origin.value <= v < start && v !in w.processed && v !in w.skipped;
      var es := OneVersion(w1);
      assert v !in After(w1, es).processed;
    }
  }

  /** Boot at 0, a kill, and a boot configured at 5: versions 0 to 4 are behind a checkpoint that moves. */
  lemma SkippingRestartLeavesHole()
    ensures var w := After(EMPTY_WORLD, [Boot(Some(0), None, false), Kill]);
            && Enabled(w, Boot(Some(5), None, false))
            && var w1 := Step(w, Boot(Some(5), None, false));
               exists es :: NoSkippedStart(w1, es) && !Safe(After(w1, es))
  {
    var first := Boot(Some(0), None, false);
    assert After(EMPTY_WORLD, []) == EMPTY_WORLD;
    AfterThen(EMPTY_WORLD, [], first);
    assert [] + [first] == [first] && [first] + [Kill] == [first, Kill];
    AfterThen(EMPTY_WORLD, [first], Kill);
    var w := After(EMPTY_WORLD, [first, Kill]);
    assert 0 !in w.processed && 0 !in w.skipped;
    RestartSettledIff(w, 5, None);
  }

  /** With ending version 1, the consumer can pass the liveness check just before the producer ends. */
  lemma ProducerEndsBehindTheCheck() returns (es: seq<Event>)
    ensures var w := After(EMPTY_WORLD, es);
            && Running(w) && w.life.value.producer.phase == Ended && w.life.value.consumer == Gathering([], 0)
            && forall e | Enabled(w, e) :: e == Kill
  {
    var boot := Boot(Some(1), Some(1), false);
    assert After(EMPTY_WORLD, []) == EMPTY_WORLD;
    AfterThen(EMPTY_WORLD, [], boot);
    es := [] + [boot];
    AfterThen(EMPTY_WORLD, es, Raise);
    es := es + [Raise];
    AfterThen(EMPTY_WORLD, es, Head);
    es := es + [Head];
    AfterThen(EMPTY_WORLD, es, QueueSeenEmpty);
    es := es + [QueueSeenEmpty];
  }
}
