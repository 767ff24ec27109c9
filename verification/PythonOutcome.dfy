/** What the Python producer comes to, told from the stream alone: when it goes on, when it reaches the end, when
    it gives up, and what it queues. */
module PythonOutcome {
  import opened Options
  import opened PythonProducer

  /** The stream raised, or sent a response without transactions. */
  predicate Raised(item: Item) {
    item == StreamError || item == Response([])
  }

  /** The next version: past the last of each response, and one further for each time the stream raised. */
  function NextAfter(start: nat, items: seq<Item>): nat {
    if items == [] then start
    else
      var last, before := items[|items| - 1], NextAfter(start, items[..|items| - 1]);
      if Raised(last) then before + 1
      else if last.Response? then last.versions[|last.versions| - 1] + 1
      else before
  }

  /** How often the stream ended since it last sent anything. */
  function EndsSinceResponse(items: seq<Item>): nat {
    if items == [] || items[|items| - 1].Response? then 0
    else EndsSinceResponse(items[..|items| - 1]) + (if items[|items| - 1].StreamEnd? then 1 else 0)
  }

  /** The batches of the responses, in order. */
  function Batches(items: seq<Item>): seq<seq<nat>> {
    if items == [] then []
    else
      var last := items[|items| - 1];
      Batches(items[..|items| - 1]) + (if last.Response? && last.versions != [] then [last.versions] else [])
  }

  /** The version is past the ending one; an ending version of 0 counts as none. */
  predicate Past(ending: Option<nat>, v: nat) {
    ending.Some? && ending.value != 0 && v > ending.value
  }

  predicate Reached(ending: Option<nat>, start: nat, items: seq<Item>, i: nat)
    requires i < |items|
  {
    Past(ending, NextAfter(start, items[..i + 1]))
  }

  /** Item `i` is nothing to give up at: not an end of the stream soon after the last reconnection with five ends or
      more since the last response, unless everything was fetched; and not a raise where nothing was left to
      fetch. */
  predicate Fine(ending: Option<nat>, start: nat, items: seq<Item>, i: nat)
    requires i < |items|
  {
    if items[i].StreamEnd? then
      !items[i].recent || EndsSinceResponse(items[..i]) < RECONNECTION_MAX_RETRIES || Reached(ending, start, items, i)
    else Raised(items[i]) ==> !Past(ending, NextAfter(start, items[..i]))
  }

  predicate GoesPast(ending: Option<nat>, start: nat, items: seq<Item>, i: nat)
    requires i < |items|
  {
    Fine(ending, start, items, i) && !Reached(ending, start, items, i)
  }

  ghost predicate AllPast(ending: Option<nat>, start: nat, items: seq<Item>, n: nat) {
    n <= |items| && forall i | 0 <= i < n :: GoesPast(ending, start, items, i)
  }

  /** The producer still fetches after `items`. */
  ghost predicate StillFetching(ending: Option<nat>, start: nat, p: Producer, items: seq<Item>) {
    && p.phase == Fetching && p.next == NextAfter(start, items) && p.retries == EndsSinceResponse(items)
    && (p.reconnected <==> exists i | 0 <= i < |items| :: items[i].StreamEnd?)
    && (p.retries > 0 ==> p.reconnected)
    && CanOpen(ending, p.next)
  }

  lemma TurnOutcome(ending: Option<nat>, start: nat, p: Producer, items: seq<Item>, item: Item)
    requires StillFetching(ending, start, p, items)
    ensures var all, n := items + [item], |items|; var t := Turn(ending, p, item);
            && (GoesPast(ending, start, all, n) ==> StillFetching(ending, start, t.producer, all))
            && (Fine(ending, start, all, n) && Reached(ending, start, all, n) ==> t.producer.phase == Draining)
            && (!Fine(ending, start, all, n) ==> t.producer.phase == Exited)
            && t.put == (if item.Response? && item.versions != [] then [item.versions] else [])
  {
    var all := items + [item];
    assert all[..|items|] == items && all[..|items| + 1] == all && all[|all| - 1] == item;
    assert forall i | 0 <= i < |items| :: all[i] == items[i];
    assert (exists i | 0 <= i < |all| :: all[i].StreamEnd?) <==>
           (exists i | 0 <= i < |items| :: items[i].StreamEnd?) || item.StreamEnd? by {
      if i :| 0 <= i < |items| && items[i].StreamEnd? { assert all[i].StreamEnd?; }
      if item.StreamEnd? { assert all[|items|].StreamEnd?; }
    }
  }

  lemma PrefixGoesPast(ending: Option<nat>, start: nat, items: seq<Item>, n: nat, i: nat)
    requires i < n <= |items|
    ensures Fine(ending, start, items, i) <==> Fine(ending, start, items[..n], i)
    ensures Reached(ending, start, items, i) <==> Reached(ending, start, items[..n], i)
    ensures GoesPast(ending, start, items, i) <==> GoesPast(ending, start, items[..n], i)
  {
    assert items[..n][..i] == items[..i] && items[..n][..i + 1] == items[..i + 1];
  }

  /** As long as it goes past every item the producer fetches on, from where it should, and has queued the batch of
      every response, in order. */
  lemma {:induction false} GoesOn(ending: Option<nat>, start: nat, items: seq<Item>)
    requires CanOpen(ending, start) && AllPast(ending, start, items, |items|)
    ensures StillFetching(ending, start, Turns(ending, Start(ending, start), items).0, items)
    ensures Turns(ending, Start(ending, start), items).1 == Batches(items)
  {
    if items != [] {
      var front, item := items[..|items| - 1], items[|items| - 1];
      forall i | 0 <= i < |front| ensures GoesPast(ending, start, front, i) {
        PrefixGoesPast(ending, start, items, |front|, i);
      }
      GoesOn(ending, start, front);
      assert items == front + [item];
      TurnOutcome(ending, start, Turns(ending, Start(ending, start), front).0, front, item);
    }
  }

  lemma {:induction false} StoppedStays(ending: Option<nat>, p: Producer, items: seq<Item>, n: nat)
    requires n <= |items| && Turns(ending, p, items[..n]).0.phase != Fetching
    ensures Turns(ending, p, items) == Turns(ending, p, items[..n])
    decreases |items| - n
  {
    if n == |items| {
      assert items[..n] == items;
    } else {
      assert items[..n + 1][..n] == items[..n];
      StoppedStays(ending, p, items, n + 1);
    }
  }

  /** The producer stops at the first item it does not go past: it has reached the end if that item is fine, and gives
      up if not. */
  lemma StopsAt(ending: Option<nat>, start: nat, items: seq<Item>, n: nat)
    requires CanOpen(ending, start) && AllPast(ending, start, items, n) && n < |items|
    requires !GoesPast(ending, start, items, n)
    ensures var (p, puts) := Turns(ending, Start(ending, start), items);
            && p.phase == (if Fine(ending, start, items, n) then Draining else Exited)
            && puts == Batches(items[..n + 1])
  {
    var front, item := items[..n], items[n];
    forall i | 0 <= i < n ensures GoesPast(ending, start, front, i) { PrefixGoesPast(ending, start, items, n, i); }
    GoesOn(ending, start, front);
    assert items[..n + 1] == front + [item] && items[..n + 1][..n] == front;
    PrefixGoesPast(ending, start, items, n + 1, n);
    TurnOutcome(ending, start, Turns(ending, Start(ending, start), front).0, front, item);
    StoppedStays(ending, Start(ending, start), items, n + 1);
  }

  lemma {:induction false} FirstStop(ending: Option<nat>, start: nat, items: seq<Item>, k: nat) returns (n: nat)
    requires AllPast(ending, start, items, k)
    ensures AllPast(ending, start, items, n) && (n < |items| ==> !GoesPast(ending, start, items, n))
    decreases |items| - k
  {
    n := k;
    if k < |items| && GoesPast(ending, start, items, k) { n := FirstStop(ending, start, items, k + 1); }
  }

  ghost predicate Stops(ending: Option<nat>, start: nat, items: seq<Item>, n: nat) {
    n < |items| && AllPast(ending, start, items, n) && !GoesPast(ending, start, items, n)
  }

  /** Exactly when a producer that could open its first stream gives up. */
  lemma GivesUpIff(ending: Option<nat>, start: nat, items: seq<Item>)
    requires CanOpen(ending, start)
    ensures Turns(ending, Start(ending, start), items).0.phase == Exited <==>
              exists n :: Stops(ending, start, items, n) && !Fine(ending, start, items, n)
  {
    var n := FirstStop(ending, start, items, 0);
    if n == |items| {
      GoesOn(ending, start, items);
    } else {
      StopsAt(ending, start, items, n);
      assert Stops(ending, start, items, n);
    }
  }

  /** A producer whose start is not past the end never gives up while the stream never ends six times without a
      response in between. */
  lemma PatientStreamNeverGivesUp(ending: Option<nat>, start: nat, items: seq<Item>)
    requires !Past(ending, start)
    requires forall i | 0 <= i <= |items| :: EndsSinceResponse(items[..i]) <= RECONNECTION_MAX_RETRIES
    ensures Turns(ending, Start(ending, start), items).0.phase != Exited
    ensures (forall i | 0 <= i < |items| :: !Reached(ending, start, items, i)) ==>
              var (p, puts) := Turns(ending, Start(ending, start), items);
              p.phase == Fetching && p.next == NextAfter(start, items) && puts == Batches(items)
  {
    var n := FirstStop(ending, start, items, 0);
    if n == |items| {
      GoesOn(ending, start, items);
    } else {
      var front := items[..n + 1];
      assert front[..n] == items[..n] && front[n] == items[n];
      assert EndsSinceResponse(front) <= RECONNECTION_MAX_RETRIES;
      if n == 0 { assert items[..n] == []; } else { assert GoesPast(ending, start, items, n - 1); }
      assert Fine(ending, start, items, n);
      StopsAt(ending, start, items, n);
    }
  }
}
