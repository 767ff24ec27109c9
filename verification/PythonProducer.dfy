/** The Python worker's producer: one loop that turns an unreliable stream into queued batches, and
    skips one version whenever the stream raises. */
module PythonProducer {
  import opened Options

  const RECONNECTION_MAX_RETRIES: nat := 5

  /** What asking the stream for its next response can give. `recent` says that the last
      reconnection was less than the minimum time ago. */
  datatype Item = Response(versions: seq<nat>) | StreamEnd(recent: bool) | StreamError

  datatype Phase = Fetching | Draining | Ended | Exited

  datatype Producer = Producer(next: nat, retries: nat, reconnected: bool, phase: Phase)

  /** What a turn puts on the queue, and where it asks for a new stream. */
  datatype Turned = Turned(producer: Producer, put: seq<seq<nat>>, reopen: Option<nat>)

  /** An ending version of 0 counts as none. */
  predicate ReachedEnd(ending: Option<nat>, next: nat) {
    ending.Some? && ending.value != 0 && next > ending.value
  }

  /** How many transactions a stream opened at `from` asks for. */
  function RequestCount(ending: Option<nat>, from: nat): Option<int> {
    if ending.Some? && ending.value != 0 then Some(ending.value - from + 1) else None
  }

  /** A negative count cannot be encoded. */
  predicate CanOpen(ending: Option<nat>, from: nat) {
    RequestCount(ending, from).Some? ==> RequestCount(ending, from).value >= 0
  }

  function Start(ending: Option<nat>, start: nat): Producer {
    Producer(start, 0, false, if CanOpen(ending, start) then Fetching else Exited)
  }

  function PhaseAt(ending: Option<nat>, next: nat): Phase {
    if ReachedEnd(ending, next) then Draining else Fetching
  }

  /** Leave out one version and ask for the rest. */
  function Skip(ending: Option<nat>, p: Producer): Turned {
    if CanOpen(ending, p.next + 1) then
      Turned(p.(next := p.next + 1, phase := PhaseAt(ending, p.next + 1)), [], Some(p.next + 1))
    else Turned(p.(phase := Exited), [], None)
  }

  /** One turn of the loop, up to the next call of the stream, the wait for the queue, or an exit. */
  function Turn(ending: Option<nat>, p: Producer, item: Item): Turned {
    match item
    case Response(versions) =>
      if versions == [] then Skip(ending, p.(retries := 0))
      else
        var next := versions[|versions| - 1] + 1;
        Turned(p.(next := next, retries := 0, phase := PhaseAt(ending, next)), [versions], None)
    case StreamError => Skip(ending, p)
    case StreamEnd(recent) =>
      if ReachedEnd(ending, p.next) then Turned(p.(phase := Draining), [], None)
      else if p.reconnected && p.retries >= RECONNECTION_MAX_RETRIES && recent then
        Turned(p.(phase := Exited), [], None)
      else if CanOpen(ending, p.next) then
        Turned(p.(retries := p.retries + 1, reconnected := true), [], Some(p.next))
      else Turned(p.(phase := Exited), [], None)
  }

  /** The producer after a list of stream items, and all it has queued. It stops looking at the
      stream once it has left the fetching phase. */
  function Turns(ending: Option<nat>, p: Producer, items: seq<Item>): (Producer, seq<seq<nat>>) {
    if items == [] then (p, [])
    else
      var (q, puts) := Turns(ending, p, items[..|items| - 1]);
      if q.phase != Fetching then (q, puts)
      else
        var t := Turn(ending, q, items[|items| - 1]);
        (t.producer, puts + t.put)
  }

  /** The loop's variables, updated in place. */
  class ProducerLoop {
    const ending: Option<nat>
    var nextVersionToFetch: nat
    var reconnectionRetries: nat
    var hasReconnected: bool
    var phase: Phase
    var queued: seq<seq<nat>>

    ghost function State(): Producer
      reads this
    {
      Producer(nextVersionToFetch, reconnectionRetries, hasReconnected, phase)
    }

    constructor (ending: Option<nat>, start: nat)
      ensures this.ending == ending && State() == Start(ending, start) && queued == []
    {
      this.ending := ending;
      nextVersionToFetch, reconnectionRetries, hasReconnected, queued := start, 0, false, [];
      phase := if CanOpen(ending, start) then Fetching else Exited;
    }

    /** The end test and the reconnection that close each turn. */
    method CloseTurn(isSuccess: bool, recent: bool)
      requires phase == Fetching
      modifies this`phase, this`reconnectionRetries, this`hasReconnected
      ensures isSuccess ==> State() == old(State()).(phase := PhaseAt(ending, nextVersionToFetch))
      ensures !isSuccess ==> State() == Turn(ending, old(State()), StreamEnd(recent)).producer
    {
      if ReachedEnd(ending, nextVersionToFetch) {
        phase := Draining;
      } else if !isSuccess {
        if hasReconnected && reconnectionRetries >= RECONNECTION_MAX_RETRIES && recent {
          phase := Exited;
        } else if CanOpen(ending, nextVersionToFetch) {
          reconnectionRetries, hasReconnected := reconnectionRetries + 1, true;
        } else {
          phase := Exited;
        }
      }
    }

    /** Run over the items until the producer leaves the fetching phase. */
    method Run(items: seq<Item>)
      modifies this
      ensures State() == Turns(ending, old(State()), items).0
      ensures queued == old(queued) + Turns(ending, old(State()), items).1
    {
      for i := 0 to |items|
        invariant State() == Turns(ending, old(State()), items[..i]).0
        invariant queued == old(queued) + Turns(ending, old(State()), items[..i]).1
      {
        assert items[..i + 1][..i] == items[..i];
        if phase == Fetching {
          match items[i] {
            case Response(versions) =>
              reconnectionRetries := 0;
              if versions == [] {
                SkipVersion();
              } else {
                nextVersionToFetch := versions[|versions| - 1] + 1;
                queued := queued + [versions];
                CloseTurn(true, false);
              }
            case StreamEnd(recent) => CloseTurn(false, recent);
            case StreamError => SkipVersion();
          }
        }
      }
      assert items[..|items|] == items;
    }

    method SkipVersion()
      requires phase == Fetching
      modifies this`phase, this`nextVersionToFetch, this`reconnectionRetries, this`hasReconnected
      ensures State() == Skip(ending, old(State())).producer
    {
      if CanOpen(ending, nextVersionToFetch + 1) {
        nextVersionToFetch := nextVersionToFetch + 1;
        CloseTurn(true, false);
      } else {
        phase := Exited;
      }
    }
  }
}
