/** The whole ingestion process as a machine over atomic steps: the fetcher, the bounded message
    channel, the processor tasks, the bounded result channel, the gap detector, the checkpoint row,
    and crashes and restarts. An event names who moves; `After` says what the move does. */
module Pipeline {
  import opened Options
  import opened GapDetection
  import opened Fetching

  /** Both channels hold at most this many entries. */
  const BUFFER_SIZE: nat := 100

  /** What does not change: the ledger, what the server may put in one response, and the
      configuration. `statements(txns)` is the number of database statements a batch turns into. */
  datatype Setting = Setting(
    timestamps: nat -> Option<int>,
    contents: nat -> string,
    serves: (nat, nat) -> bool,
    wanted: Transaction -> bool,
    chunkSize: nat,
    ending: Option<nat>,
    taskCount: nat,
    statements: seq<Transaction> -> nat)

  function Txn(p: Setting, v: nat): Transaction {
    Transaction(v, p.timestamps(v), p.contents(v))
  }

  /** The response that carries exactly the versions from `a` to `b`. */
  function RangeResponse(p: Setting, a: nat, b: nat, chainId: Option<nat>, encodedLen: nat): Item
    requires a <= b
  {
    Response(seq(b + 1 - a, i requires 0 <= i => Txn(p, a + i)), chainId, encodedLen)
  }

  function FetchConfig(p: Setting, start: nat): Config {
    Config(start, p.ending, p.chunkSize, p.wanted)
  }

  /** One database statement of a batch: the batch and the position of the statement in it. */
  datatype Write = Write(txns: seq<Transaction>, index: nat)

  datatype Task =
    | Idle
    | Working(msg: Message, done: set<nat>)
    | Reporting(msg: Message)
    | Exited

  /** What a running process holds. The last four fields are history: the messages put on the
      channel, the messages whose result was handed over, the results handed over, and the results
      the detector has received. */
  datatype Life = Life(
    start: nat,
    fetch: FetchState,
    outbox: seq<Message>,
    queue: seq<Message>,
    closed: bool,
    tasks: seq<Task>,
    results: seq<ProcessingResult>,
    detector: Detector,
    sent: seq<Message>,
    finished: seq<Message>,
    handed: seq<ProcessingResult>,
    received: seq<ProcessingResult>)

  /** The database and, while it runs, the process. `committed` is the set of versions whose batch
      was written in full; `origin` is where the very first run started. */
  datatype World = World(
    checkpoint: Option<nat>,
    writes: seq<Write>,
    committed: set<nat>,
    origin: Option<nat>,
    life: Option<Life>)

  const EMPTY_WORLD := World(None, [], {}, None, None)

  datatype Event =
    | Boot(startingVersion: Option<nat>)
    | Crash
    | Fetch(a: nat, b: nat, chainId: Option<nat>, encodedLen: nat)
    | Miss(item: Item)
    | Send
    | Close
    | Take(i: nat)
    | Exec(i: nat, j: nat)
    | Commit(i: nat)
    | Report(i: nat)
    | Exit(i: nat)
    | Detect(persist: bool)

  /** The version a run starts from: the configured one, else the one after the checkpoint, else 0. */
  function StartVersion(w: World, startingVersion: Option<nat>): nat {
    match startingVersion
    case Some(v) => v
    case None => if w.checkpoint.Some? then w.checkpoint.value + 1 else 0
  }

  function FreshLife(p: Setting, start: nat): Life {
    Life(start, Initial(FetchConfig(p, start)), [], [], false, seq(p.taskCount, _ => Idle), [],
         Fresh(start), [], [], [], [])
  }

  /** The checkpoint upsert: insert, or overwrite unless the stored version is larger. */
  function UpsertCheckpoint(row: Option<nat>, version: nat): Option<nat> {
    if row.Some? && row.value > version then row else Some(version)
  }

  function Versions(txns: seq<Transaction>): set<nat> {
    set t | t in txns :: t.version
  }

  function ResultOf(m: Message): ProcessingResult {
    ProcessingResult(m.start, m.end, if m.txns == [] then m.endTimestamp else m.txns[|m.txns| - 1].timestamp)
  }

  predicate AllExecuted(p: Setting, m: Message, done: set<nat>) {
    m.txns == [] || forall j | 0 <= j < p.statements(m.txns) :: j in done
  }

  predicate Enabled(p: Setting, w: World, e: Event) {
    if e.Boot? then w.life == None
    else
      && w.life.Some?
      && var l := w.life.value;
         match e
         case Boot(_) => false
         case Crash => true
         case Fetch(a, b, _, _) =>
           l.outbox == [] && l.fetch.status == Polling && a <= b && p.serves(a, b)
         case Miss(item) => l.outbox == [] && l.fetch.status == Polling && !item.Response?
         case Send => l.outbox != [] && |l.queue| < BUFFER_SIZE
         case Close => l.outbox == [] && l.queue == [] && l.fetch.status == Ended && !l.closed
         case Take(i) => i < |l.tasks| && l.tasks[i] == Idle && l.queue != []
         case Exec(i, j) =>
           i < |l.tasks| && l.tasks[i].Working? && l.tasks[i].msg.txns != [] && j < p.statements(l.tasks[i].msg.txns)
         case Commit(i) =>
           i < |l.tasks| && l.tasks[i].Working? && AllExecuted(p, l.tasks[i].msg, l.tasks[i].done)
         case Report(i) => i < |l.tasks| && l.tasks[i].Reporting? && |l.results| < BUFFER_SIZE
         case Exit(i) => i < |l.tasks| && l.tasks[i] == Idle && l.queue == [] && l.closed
         case Detect(_) => l.results != []
  }

  /** The fetcher's turn: a panic anywhere ends the process. */
  function Polled(p: Setting, w: World, item: Item): World
    requires w.life.Some? && w.life.value.fetch.status == Polling
  {
    var l := w.life.value;
    var (st, ms) := Poll(FetchConfig(p, l.start), l.fetch, item);
    w.(life := if st.status == Panicked then None else Some(l.(fetch := st, outbox := ms)))
  }

  function Step(p: Setting, w: World, e: Event): World
    requires Enabled(p, w, e)
  {
    match e
    case Boot(sv) =>
      var start := StartVersion(w, sv);
      w.(origin := if w.origin == None then Some(start) else w.origin, life := Some(FreshLife(p, start)))
    case Crash => w.(life := None)
    case Fetch(a, b, chainId, len) => Polled(p, w, RangeResponse(p, a, b, chainId, len))
    case Miss(item) => Polled(p, w, item)
    case Send =>
      var l := w.life.value;
      w.(life := Some(l.(outbox := l.outbox[1..], queue := l.queue + [l.outbox[0]], sent := l.sent + [l.outbox[0]])))
    case Close => w.(life := Some(w.life.value.(closed := true)))
    case Take(i) =>
      var l := w.life.value;
      w.(life := Some(l.(queue := l.queue[1..], tasks := l.tasks[i := Working(l.queue[0], {})])))
    case Exec(i, j) =>
      var l := w.life.value;
      var t := l.tasks[i];
      w.(writes := w.writes + [Write(t.msg.txns, j)],
         life := Some(l.(tasks := l.tasks[i := Working(t.msg, t.done + {j})])))
    case Commit(i) =>
      var l := w.life.value;
      var t := l.tasks[i];
      w.(committed := w.committed + Versions(t.msg.txns),
         life := Some(l.(tasks := l.tasks[i := Reporting(t.msg)])))
    case Report(i) =>
      var l := w.life.value;
      var m := l.tasks[i].msg;
      w.(life := Some(l.(tasks := l.tasks[i := Idle], results := l.results + [ResultOf(m)],
                         finished := l.finished + [m], handed := l.handed + [ResultOf(m)])))
    case Exit(i) =>
      var l := w.life.value;
      w.(life := Some(l.(tasks := l.tasks[i := Exited])))
    case Detect(persist) =>
      var l := w.life.value;
      var d := Absorb(l.detector, l.results[0]);
      w.(checkpoint := if persist && d.last.Some? then UpsertCheckpoint(w.checkpoint, d.last.value.end)
                       else w.checkpoint,
         life := Some(l.(results := l.results[1..], detector := d, received := l.received + [l.results[0]])))
  }

  /** The world after `es`; an event that is not enabled changes nothing. */
  ghost function After(p: Setting, w: World, es: seq<Event>): World {
    if es == [] then w
    else
      var before, e := After(p, w, es[..|es| - 1]), es[|es| - 1];
      if Enabled(p, before, e) then Step(p, before, e) else before
  }

  /** `es` is a possible sequence of events from `w`. */
  ghost predicate Possible(p: Setting, w: World, es: seq<Event>) {
    es == [] ||
    (Possible(p, w, es[..|es| - 1]) && Enabled(p, After(p, w, es[..|es| - 1]), es[|es| - 1]))
  }

  // ---------- The property ----------

  /** The filter wants version `v`. */
  predicate Owed(p: Setting, v: nat) {
    p.wanted(Txn(p, v))
  }

  /** Every wanted version in `from..to` has been committed. */
  ghost predicate Done(p: Setting, committed: set<nat>, from: int, to: int) {
    forall v: nat :: from <= v < to && Owed(p, v) ==> v in committed
  }

  /** Everything from the first start up to the checkpoint has been committed. */
  ghost predicate Safe(p: Setting, w: World) {
    w.checkpoint.Some? ==> w.origin.Some? && Done(p, w.committed, w.origin.value, w.checkpoint.value + 1)
  }

  /** A response for these versions goes out as one message (a chunk size of 0 panics instead). */
  ghost predicate Fits(p: Setting, a: nat, b: nat)
    requires a <= b
  {
    p.chunkSize == 0 || |Filter(RangeResponse(p, a, b, None, 0).txns, p.wanted)| <= p.chunkSize
  }

  ghost predicate AllFit(p: Setting) {
    forall a, b | a <= b && p.serves(a, b) :: Fits(p, a, b)
  }

  /** No run starts beyond the version after the checkpoint, nor, with no checkpoint yet, beyond
      the first start. */
  ghost predicate StartsBehind(w: World, e: Event) {
    e.Boot? ==>
      var start := StartVersion(w, e.startingVersion);
      if w.checkpoint.Some? then start <= w.checkpoint.value + 1
      else w.origin.Some? ==> start <= w.origin.value
  }

  ghost predicate NoSkip(p: Setting, w: World, es: seq<Event>) {
    es == [] ||
    (NoSkip(p, w, es[..|es| - 1]) && StartsBehind(After(p, w, es[..|es| - 1]), es[|es| - 1]))
  }

  /** A run with no configured starting version never skips. */
  lemma {:induction false} DefaultStartsNeverSkip(p: Setting, es: seq<Event>)
    requires Possible(p, EMPTY_WORLD, es)
    requires forall e <- es :: e.Boot? ==> e.startingVersion == None
    ensures NoSkip(p, EMPTY_WORLD, es)
  {
    if es != [] {
      assert forall e <- es[..|es| - 1] :: e in es;
      DefaultStartsNeverSkip(p, es[..|es| - 1]);
      assert es[|es| - 1] in es;
    }
  }
}
