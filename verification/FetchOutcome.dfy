/** What the fetch loop comes to, told from the stream alone: when it goes on, when it ends, when it
    panics, what it asks for and what it sends. */
module FetchOutcome {
  import opened Options
  import opened Machine
  import opened Fetching

  /** The version after the last response, or the start. */
  function NextAfter(start: nat, items: seq<Item>): nat {
    if items == [] then start
    else
      var last := items[|items| - 1];
      if last.Response? && last.txns != [] then last.txns[|last.txns| - 1].version + 1
      else NextAfter(start, items[..|items| - 1])
  }

  /** How many errors, ends and timeouts in a row the stream closes with. */
  function Failures(items: seq<Item>): nat {
    if items == [] || items[|items| - 1].Response? then 0 else Failures(items[..|items| - 1]) + 1
  }

  /** Everything was fetched by the time of item `i`. */
  predicate Reached(cfg: Config, items: seq<Item>, i: nat)
    requires i < |items|
  {
    cfg.ending.Some? && NextAfter(cfg.start, items[..i + 1]) > cfg.ending.value
  }

  /** Item `i` is nothing to panic at: a response that is not empty, carries a chain id and starts right
      after the one before; or a failure with fewer than five right before it, or after everything was
      fetched. A message must have room for a transaction. */
  predicate Fine(cfg: Config, items: seq<Item>, i: nat)
    requires i < |items|
  {
    match items[i]
    case Response(txns, chainId, _) =>
      txns != [] && chainId.Some? && txns[0].version == NextAfter(cfg.start, items[..i]) && cfg.chunkSize >= 1
    case _ => Failures(items[..i]) < RECONNECTION_MAX_RETRIES || Reached(cfg, items, i)
  }

  /** The loop goes past item `i`. */
  predicate GoesPast(cfg: Config, items: seq<Item>, i: nat)
    requires i < |items|
  {
    Fine(cfg, items, i) && !Reached(cfg, items, i)
  }

  function Missing(cfg: Config, next: nat): Request {
    Request(next, if cfg.ending.Some? then Some((cfg.ending.value - next + 1) % TWO_TO_THE_64) else None)
  }

  /** One request at the start and one after every failure, each from the next version on. */
  function Asked(cfg: Config, items: seq<Item>): seq<Request> {
    if items == [] then [Missing(cfg, cfg.start)]
    else
      var front := items[..|items| - 1];
      Asked(cfg, front) + (if items[|items| - 1].Response? then [] else [Missing(cfg, NextAfter(cfg.start, front))])
  }

  /** The wanted transactions of the responses, in order. */
  function Wanted(cfg: Config, items: seq<Item>): seq<Transaction> {
    if items == [] then []
    else
      var last := items[|items| - 1];
      Wanted(cfg, items[..|items| - 1]) + (if last.Response? then Filter(last.txns, cfg.wanted) else [])
  }

  // ---------- While it goes on ----------

  lemma {:induction false} PayloadJoins(a: seq<Message>, b: seq<Message>)
    ensures Payload(a + b) == Payload(a) + Payload(b)
  {
    if a == [] {
      assert a + b == b;
    } else {
      assert (a + b)[1..] == a[1..] + b;
      PayloadJoins(a[1..], b);
      assert a[0].txns + (Payload(a[1..]) + Payload(b)) == a[0].txns + Payload(a[1..]) + Payload(b);
    }
  }

  /** The state of a loop that still polls after `items`. */
  ghost predicate StillPolling(cfg: Config, st: FetchState, items: seq<Item>) {
    var next := NextAfter(cfg.start, items);
    && st.next == next && st.lastFetched == next - 1 && st.retries == Failures(items) && st.status == Polling
    && st.requests == Asked(cfg, items)
  }

  lemma SnocParts(items: seq<Item>, item: Item)
    ensures var all := items + [item];
            all != [] && all[|all| - 1] == item && all[..|all| - 1] == items && all[..|items|] == items && all[..|items| + 1] == all
  {
  }

  lemma SnocCounts(cfg: Config, items: seq<Item>, item: Item)
    ensures var all := items + [item]; var next := NextAfter(cfg.start, items);
            && NextAfter(cfg.start, all)
                 == (if item.Response? && item.txns != [] then item.txns[|item.txns| - 1].version + 1 else next)
            && Failures(all) == (if item.Response? then 0 else Failures(items) + 1)
            && Asked(cfg, all) == Asked(cfg, items) + (if item.Response? then [] else [Missing(cfg, next)])
  {
    SnocParts(items, item);
  }

  lemma SnocFacts(cfg: Config, items: seq<Item>, item: Item)
    ensures var all, n := items + [item], |items|; var next := NextAfter(cfg.start, items);
            && (Reached(cfg, all, n) <==> ReachedEnd(cfg, NextAfter(cfg.start, all)))
            && (item.Response? ==>
                  (Fine(cfg, all, n) <==>
                     item.txns != [] && item.chainId.Some? && item.txns[0].version == next && cfg.chunkSize >= 1))
            && (!item.Response? ==>
                  (Fine(cfg, all, n) <==> Failures(items) < RECONNECTION_MAX_RETRIES || ReachedEnd(cfg, next)))
  {
    SnocParts(items, item);
    SnocCounts(cfg, items, item);
  }

  /** What a turn comes to: on with the loop, its end, or a panic, with the payload sent. */
  ghost predicate Turned(cfg: Config, st: FetchState, items: seq<Item>, item: Item)
    requires st.status == Polling
  {
    var all, n := items + [item], |items|;
    var (st', ms) := Poll(cfg, st, item);
    && (GoesPast(cfg, all, n) ==> StillPolling(cfg, st', all))
    && (Fine(cfg, all, n) && Reached(cfg, all, n) ==> st'.status == Ended)
    && (!Fine(cfg, all, n) ==> st'.status == Panicked && ms == [])
    && (Fine(cfg, all, n) ==> Payload(ms) == if item.Response? then Filter(item.txns, cfg.wanted) else [])
  }

  lemma ResponseOutcome(cfg: Config, st: FetchState, items: seq<Item>, item: Item)
    requires StillPolling(cfg, st, items) && item.Response?
    ensures Turned(cfg, st, items, item)
  {
    SnocCounts(cfg, items, item);
    SnocFacts(cfg, items, item);
    if Fine(cfg, items + [item], |items|) {
      SplitLossless(cfg, item, Filter(item.txns, cfg.wanted));
    }
  }

  lemma FailureOutcome(cfg: Config, st: FetchState, items: seq<Item>, item: Item)
    requires StillPolling(cfg, st, items) && !item.Response?
    ensures Turned(cfg, st, items, item)
  {
    SnocCounts(cfg, items, item);
    SnocFacts(cfg, items, item);
  }

  lemma PollOutcome(cfg: Config, st: FetchState, items: seq<Item>, item: Item)
    requires StillPolling(cfg, st, items)
    ensures Turned(cfg, st, items, item)
  {
    if item.Response? { ResponseOutcome(cfg, st, items, item); } else { FailureOutcome(cfg, st, items, item); }
  }

  lemma PrefixGoesPast(cfg: Config, items: seq<Item>, n: nat, i: nat)
    requires i < n <= |items|
    ensures Fine(cfg, items, i) <==> Fine(cfg, items[..n], i)
    ensures GoesPast(cfg, items, i) <==> GoesPast(cfg, items[..n], i)
  {
    assert items[..n][..i] == items[..i] && items[..n][..i + 1] == items[..i + 1];
  }

  /** As long as it goes past every item the loop polls on, from where the responses ended, with as many
      retries as there were failures since the last one, one request for every failure, and every wanted
      transaction sent once and in order. */
  lemma {:induction false} GoesOn(cfg: Config, items: seq<Item>)
    requires forall i | 0 <= i < |items| :: GoesPast(cfg, items, i)
    ensures StillPolling(cfg, PollAll(cfg, Initial(cfg), items).0, items)
    ensures Payload(PollAll(cfg, Initial(cfg), items).1) == Wanted(cfg, items)
  {
    if items != [] {
      var front, item := items[..|items| - 1], items[|items| - 1];
      forall i | 0 <= i < |front| ensures GoesPast(cfg, front, i) { PrefixGoesPast(cfg, items, |front|, i); }
      GoesOn(cfg, front);
      assert items == front + [item];
      var (st, ms) := PollAll(cfg, Initial(cfg), front);
      PollAllSnoc(cfg, Initial(cfg), front, item);
      PollOutcome(cfg, st, front, item);
      PayloadJoins(ms, Poll(cfg, st, item).1);
    }
  }

  /** The turn at which the loop stops. */
  lemma LastTurn(cfg: Config, front: seq<Item>, item: Item)
    requires forall i | 0 <= i < |front| :: GoesPast(cfg, front, i)
    requires !GoesPast(cfg, front + [item], |front|)
    ensures var all := front + [item]; var fine := Fine(cfg, all, |front|);
            var (st, ms) := PollAll(cfg, Initial(cfg), all);
            && st.status == (if fine then Ended else Panicked)
            && Payload(ms) == Wanted(cfg, if fine then all else front)
  {
    GoesOn(cfg, front);
    var (st, ms) := PollAll(cfg, Initial(cfg), front);
    PollAllSnoc(cfg, Initial(cfg), front, item);
    PollOutcome(cfg, st, front, item);
    PayloadJoins(ms, Poll(cfg, st, item).1);
    assert (front + [item])[..|front|] == front;
  }

  /** The loop stops at the first item it does not go past: it ends there if that item is fine, and
      panics if not. */
  lemma StopsAt(cfg: Config, items: seq<Item>, n: nat)
    requires n < |items| && (forall i | 0 <= i < n :: GoesPast(cfg, items, i)) && !GoesPast(cfg, items, n)
    ensures var (st, ms) := PollAll(cfg, Initial(cfg), items);
            && st.status == (if Fine(cfg, items, n) then Ended else Panicked)
            && Payload(ms) == Wanted(cfg, if Fine(cfg, items, n) then items[..n + 1] else items[..n])
  {
    var front, item := items[..n], items[n];
    forall i | 0 <= i < n ensures GoesPast(cfg, front, i) { PrefixGoesPast(cfg, items, n, i); }
    assert items[..n + 1] == front + [item];
    PrefixGoesPast(cfg, items, n + 1, n);
    LastTurn(cfg, front, item);
    StoppedStays(cfg, Initial(cfg), items, n + 1);
  }

  lemma {:induction false} FirstStop(cfg: Config, items: seq<Item>, k: nat) returns (n: nat)
    requires k <= |items| && (forall i | 0 <= i < k :: GoesPast(cfg, items, i))
    ensures k <= n <= |items| && (forall i | 0 <= i < n :: GoesPast(cfg, items, i))
    ensures n < |items| ==> !GoesPast(cfg, items, n)
    decreases |items| - k
  {
    n := k;
    if k < |items| && GoesPast(cfg, items, k) { n := FirstStop(cfg, items, k + 1); }
  }

  /** Item `n` is the first the loop does not go past. */
  ghost predicate Stops(cfg: Config, items: seq<Item>, n: nat) {
    n < |items| && !GoesPast(cfg, items, n) && forall i | 0 <= i < n :: GoesPast(cfg, items, i)
  }

  lemma OneStop(cfg: Config, items: seq<Item>, n: nat, m: nat)
    requires Stops(cfg, items, n) && Stops(cfg, items, m)
    ensures n == m
  {
  }

  /** Exactly when the loop panics: at an item that is not fine, before everything was fetched. */
  lemma PanicsIff(cfg: Config, items: seq<Item>)
    ensures PollAll(cfg, Initial(cfg), items).0.status == Panicked <==>
              exists n :: Stops(cfg, items, n) && !Fine(cfg, items, n)
  {
    var n := FirstStop(cfg, items, 0);
    if n == |items| {
      GoesOn(cfg, items);
    } else {
      StopsAt(cfg, items, n);
      assert Stops(cfg, items, n);
      forall m: nat | Stops(cfg, items, m) ensures m == n { OneStop(cfg, items, n, m); }
    }
  }

  /** The stream's responses are whole and follow on, and no six failures come in a row. */
  ghost predicate Patient(cfg: Config, items: seq<Item>) {
    && cfg.chunkSize >= 1
    && (forall i | 0 <= i < |items| && items[i].Response? ::
          items[i].txns != [] && items[i].chainId.Some? && items[i].txns[0].version == NextAfter(cfg.start, items[..i]))
    && (forall i | 0 <= i <= |items| :: Failures(items[..i]) <= RECONNECTION_MAX_RETRIES)
  }

  /** On such a stream the loop never panics; until everything is fetched it polls on, having asked once
      more for the rest after every failure. */
  lemma PatientStreamNeverPanics(cfg: Config, items: seq<Item>)
    requires Patient(cfg, items)
    ensures PollAll(cfg, Initial(cfg), items).0.status != Panicked
    ensures (forall i | 0 <= i < |items| :: !Reached(cfg, items, i)) ==>
              var st := PollAll(cfg, Initial(cfg), items).0;
              st.status == Polling && st.next == NextAfter(cfg.start, items) && st.requests == Asked(cfg, items)
  {
    forall i | 0 <= i < |items|
      ensures Fine(cfg, items, i)
    {
      assert items[..i + 1][..i] == items[..i] && items[..i + 1][i] == items[i];
      assert Failures(items[..i + 1]) <= RECONNECTION_MAX_RETRIES;
    }
    PanicsIff(cfg, items);
    if forall i | 0 <= i < |items| :: !Reached(cfg, items, i) { GoesOn(cfg, items); }
  }

  /** There is one request for the start and one for every failure. */
  lemma {:induction false} OneRequestPerFailure(cfg: Config, items: seq<Item>)
    ensures |Asked(cfg, items)| == 1 + |set i | 0 <= i < |items| && !items[i].Response?|
  {
    var bad := set i | 0 <= i < |items| && !items[i].Response?;
    if items != [] {
      var n := |items| - 1;
      var front := set i | 0 <= i < n && !items[..n][i].Response?;
      OneRequestPerFailure(cfg, items[..n]);
      assert bad == if items[n].Response? then front else front + {n};
    } else {
      assert bad == {};
    }
  }
}
