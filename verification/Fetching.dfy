/** The fetcher task: it polls an unreliable stream, checks for gaps, filters, splits, sends,
    and reconnects where it left off. */
module Fetching {
  import opened Options
  import opened Machine
  import opened Chunking

  const RECONNECTION_MAX_RETRIES: nat := 5

  datatype Transaction = Transaction(version: nat, timestamp: Option<int>, content: string)

  /** What one poll of the stream yields. */
  datatype Item =
    | Response(txns: seq<Transaction>, chainId: Option<nat>, encodedLen: nat)
    | RpcError
    | StreamEnded
    | TimedOut

  /** What is sent to the processor tasks. The range is that of the whole response, whatever was
      filtered out or sent in another piece. */
  datatype Message = Message(
    txns: seq<Transaction>, chainId: nat, start: nat, end: nat,
    startTimestamp: Option<int>, endTimestamp: Option<int>, sizeInBytes: nat)

  datatype Config = Config(
    start: nat, ending: Option<nat>, chunkSize: nat, wanted: Transaction -> bool)

  datatype Status = Polling | Ended | Panicked

  datatype Request = Request(start: nat, count: Option<nat>)

  datatype FetchState = FetchState(
    next: nat, lastFetched: int, retries: nat, status: Status, requests: seq<Request>)

  /** The number of transactions to request, computed in 64-bit signed arithmetic and then read as
      unsigned. */
  function Remaining(ending: Option<nat>, start: nat): Option<nat> {
    match ending
    case None => None
    case Some(v) => Some((v - start + 1) % TWO_TO_THE_64)
  }

  function Initial(cfg: Config): FetchState {
    FetchState(cfg.start, cfg.start - 1, 0, Polling, [Request(cfg.start, Remaining(cfg.ending, cfg.start))])
  }

  function Filter(txns: seq<Transaction>, wanted: Transaction -> bool): (r: seq<Transaction>)
    ensures |r| <= |txns|
    ensures forall t :: t in r <==> t in txns && wanted(t)
  {
    if txns == [] then []
    else if wanted(txns[|txns| - 1]) then Filter(txns[..|txns| - 1], wanted) + [txns[|txns| - 1]]
    else Filter(txns[..|txns| - 1], wanted)
  }

  predicate ReachedEnd(cfg: Config, next: nat) {
    cfg.ending.Some? && next > cfg.ending.value
  }

  /** The message for one piece of a response. */
  function Envelope(r: Item, txns: seq<Transaction>, size: nat): Message
    requires r.Response? && r.txns != [] && r.chainId.Some?
  {
    var first, last := r.txns[0], r.txns[|r.txns| - 1];
    Message(txns, r.chainId.value, first.version, last.version, first.timestamp, last.timestamp, size)
  }

  function Envelopes(r: Item, pieces: seq<seq<Transaction>>, average: nat): (ms: seq<Message>)
    requires r.Response? && r.txns != [] && r.chainId.Some?
    ensures |ms| == |pieces|
    ensures forall i | 0 <= i < |ms| :: ms[i] == Envelope(r, pieces[i], average * |pieces[i]|)
  {
    seq(|pieces|, i requires 0 <= i < |pieces| => Envelope(r, pieces[i], average * |pieces[i]|))
  }

  /** The messages a response turns into once filtered to `kept`. */
  function Split(cfg: Config, r: Item, kept: seq<Transaction>): seq<Message>
    requires r.Response? && r.txns != [] && r.chainId.Some?
    requires cfg.chunkSize >= 1
  {
    if |kept| < cfg.chunkSize then
      [Envelope(r, kept, r.encodedLen)]
    else
      Envelopes(r, Chunks(kept, cfg.chunkSize), r.encodedLen / |r.txns|)
  }

  /** One turn of the loop: the new state and the messages sent during it. */
  function Poll(cfg: Config, st: FetchState, item: Item): (FetchState, seq<Message>)
    requires st.status == Polling
  {
    match item
    case Response(txns, chainId, _) =>
      if txns == [] then (st.(retries := 0, status := Panicked), [])
      else
        var start, end := txns[0].version, txns[|txns| - 1].version;
        var st1 := st.(retries := 0, next := end + 1);
        if chainId == None || st.lastFetched + 1 != start then (st1.(status := Panicked), [])
        else if cfg.chunkSize == 0 then (st1.(lastFetched := end, status := Panicked), [])
        else
          (st1.(lastFetched := end, status := if ReachedEnd(cfg, end + 1) then Ended else Polling),
           Split(cfg, item, Filter(txns, cfg.wanted)))
    case _ =>
      if ReachedEnd(cfg, st.next) then (st.(status := Ended), [])
      else if st.retries >= RECONNECTION_MAX_RETRIES then (st.(status := Panicked), [])
      else
        (st.(retries := st.retries + 1,
             requests := st.requests + [Request(st.next, Remaining(cfg.ending, st.next))]), [])
  }

  /** Polling `items` in turn until the loop ends, panics or runs out of items. */
  function PollAll(cfg: Config, st: FetchState, items: seq<Item>): (FetchState, seq<Message>)
    decreases |items|
  {
    if items == [] || st.status != Polling then (st, [])
    else
      var (st1, ms1) := Poll(cfg, st, items[0]);
      var (st2, ms2) := PollAll(cfg, st1, items[1..]);
      (st2, ms1 + ms2)
  }

  /** What a run comes to with one more item. */
  function Then(cfg: Config, r: (FetchState, seq<Message>), item: Item): (FetchState, seq<Message>) {
    if r.0.status != Polling then r
    else
      var (st, ms) := Poll(cfg, r.0, item);
      (st, r.1 + ms)
  }

  lemma ThenAfter(cfg: Config, ms: seq<Message>, r: (FetchState, seq<Message>), item: Item)
    ensures Then(cfg, (r.0, ms + r.1), item) == (Then(cfg, r, item).0, ms + Then(cfg, r, item).1)
  {
    if r.0.status == Polling {
      var now := Poll(cfg, r.0, item).1;
      assert ms + r.1 + now == ms + (r.1 + now);
    }
  }

  lemma PollAllCons(cfg: Config, st: FetchState, item: Item, rest: seq<Item>)
    requires st.status == Polling
    ensures var (st1, ms1) := Poll(cfg, st, item); var r := PollAll(cfg, st1, rest);
            PollAll(cfg, st, [item] + rest) == (r.0, ms1 + r.1)
  {
    assert ([item] + rest)[1..] == rest;
  }

  lemma {:induction false} PollAllSnoc(cfg: Config, st: FetchState, items: seq<Item>, item: Item)
    ensures PollAll(cfg, st, items + [item]) == Then(cfg, PollAll(cfg, st, items), item)
    decreases |items|
  {
    if st.status == Polling {
      if items == [] {
        PollAllCons(cfg, st, item, []);
        assert [item] + [] == [] + [item];
        var now := Poll(cfg, st, item).1;
        assert now + [] == [] + now;
      } else {
        var head, rest := items[0], items[1..];
        var (st1, ms1) := Poll(cfg, st, head);
        assert items == [head] + rest && items + [item] == [head] + (rest + [item]);
        PollAllCons(cfg, st, head, rest);
        PollAllCons(cfg, st, head, rest + [item]);
        PollAllSnoc(cfg, st1, rest, item);
        ThenAfter(cfg, ms1, PollAll(cfg, st1, rest), item);
      }
    }
  }

  /** A loop that has stopped looks at nothing more. */
  lemma {:induction false} StoppedStays(cfg: Config, st: FetchState, items: seq<Item>, n: nat)
    requires n <= |items| && PollAll(cfg, st, items[..n]).0.status != Polling
    ensures PollAll(cfg, st, items) == PollAll(cfg, st, items[..n])
    decreases |items| - n
  {
    if n == |items| {
      assert items[..n] == items;
    } else {
      assert items[..n + 1] == items[..n] + [items[n]];
      PollAllSnoc(cfg, st, items[..n], items[n]);
      StoppedStays(cfg, st, items, n + 1);
    }
  }

  lemma RunIsOver(cfg: Config, st: FetchState, items: seq<Item>, n: nat)
    requires n <= |items| && (n < |items| ==> PollAll(cfg, st, items[..n]).0.status != Polling)
    ensures PollAll(cfg, st, items) == PollAll(cfg, st, items[..n])
  {
    if n == |items| { assert items[..n] == items; } else { StoppedStays(cfg, st, items, n); }
  }

  /** The loop as the program runs it. The stream is the list of items it yields over time, across
      reconnections; `sent` is everything put on the channel. */
  class Fetcher {
    const cfg: Config
    var nextVersionToFetch: nat
    var lastFetchedVersion: int
    var reconnectionRetries: nat
    var status: Status
    var requests: seq<Request>
    var sent: seq<Message>

    constructor (cfg: Config)
      ensures this.cfg == cfg && Contents() == Initial(cfg) && sent == []
    {
      this.cfg := cfg;
      nextVersionToFetch, reconnectionRetries, lastFetchedVersion := cfg.start, 0, cfg.start - 1;
      status, sent := Polling, [];
      requests := [Request(cfg.start, Remaining(cfg.ending, cfg.start))];
    }

    function Contents(): FetchState reads this {
      FetchState(nextVersionToFetch, lastFetchedVersion, reconnectionRetries, status, requests)
    }

    method Run(items: seq<Item>)
      modifies this
      ensures var (st, ms) := PollAll(cfg, old(Contents()), items);
              Contents() == st && sent == old(sent) + ms
    {
      var i := 0;
      ghost var before, r: (FetchState, seq<Message>) := Contents(), (Contents(), []);
      while i < |items| && status == Polling
        invariant 0 <= i <= |items|
        invariant r == PollAll(cfg, before, items[..i])
        invariant Contents() == r.0 && sent == old(sent) + r.1
      {
        assert items[..i + 1] == items[..i] + [items[i]];
        PollAllSnoc(cfg, before, items[..i], items[i]);
        ThenAfter(cfg, old(sent), r, items[i]);
        HandleItem(items[i]);
        r := Then(cfg, r, items[i]);
        i := i + 1;
      }
      RunIsOver(cfg, before, items, i);
    }

    method HandleItem(item: Item)
      requires status == Polling
      modifies this
      ensures (Contents(), sent) == Then(cfg, (old(Contents()), old(sent)), item)
    {
      assert sent + [] == sent;
      var isSuccess := false;
      if item.Response? {
        reconnectionRetries := 0;
        if item.txns == [] { status := Panicked; return; }
        var startVersion, endVersion := item.txns[0].version, item.txns[|item.txns| - 1].version;
        nextVersionToFetch := endVersion + 1;
        if item.chainId == None { status := Panicked; return; }
        var kept := Retain(item.txns);
        if lastFetchedVersion + 1 != startVersion { status := Panicked; return; }
        lastFetchedVersion := endVersion;
        if cfg.chunkSize == 0 { status := Panicked; return; }
        SendPieces(item, kept);
        isSuccess := true;
      }
      if ReachedEnd(cfg, nextVersionToFetch) {
        status := Ended;
      } else if !isSuccess {
        if reconnectionRetries >= RECONNECTION_MAX_RETRIES {
          status := Panicked;
        } else {
          reconnectionRetries := reconnectionRetries + 1;
          requests := requests + [Request(nextVersionToFetch, Remaining(cfg.ending, nextVersionToFetch))];
        }
      }
    }

    /** Drop the transactions the filter does not want. */
    method Retain(txns: seq<Transaction>) returns (kept: seq<Transaction>)
      ensures kept == Filter(txns, cfg.wanted)
    {
      kept := [];
      for i := 0 to |txns|
        invariant kept == Filter(txns[..i], cfg.wanted)
      {
        assert txns[..i + 1][..i] == txns[..i];
        if cfg.wanted(txns[i]) {
          kept := kept + [txns[i]];
        }
      }
      assert txns[..|txns|] == txns;
    }

    /** Send a response, in pieces when it does not fit in one message. */
    method SendPieces(item: Item, kept: seq<Transaction>)
      requires item.Response? && item.txns != [] && item.chainId.Some? && cfg.chunkSize >= 1
      modifies this`sent
      ensures sent == old(sent) + Split(cfg, item, kept)
    {
      if |kept| < cfg.chunkSize {
        sent := sent + [Envelope(item, kept, item.encodedLen)];
      } else {
        var average := item.encodedLen / |item.txns|;
        var pieces := Chunks(kept, cfg.chunkSize);
        for i := 0 to |pieces|
          invariant sent == old(sent) + Envelopes(item, pieces, average)[..i]
        {
          sent := sent + [Envelope(item, pieces[i], average * |pieces[i]|)];
        }
      }
    }
  }

  // ---------- Splitting ----------

  function Payload(ms: seq<Message>): seq<Transaction> {
    if ms == [] then [] else ms[0].txns + Payload(ms[1..])
  }

  function TotalSize(ms: seq<Message>): nat {
    if ms == [] then 0 else ms[0].sizeInBytes + TotalSize(ms[1..])
  }

  lemma {:induction false} EnvelopesPayload(r: Item, pieces: seq<seq<Transaction>>, average: nat)
    requires r.Response? && r.txns != [] && r.chainId.Some?
    ensures Payload(Envelopes(r, pieces, average)) == Concat(pieces)
    ensures TotalSize(Envelopes(r, pieces, average)) == average * |Concat(pieces)|
    decreases |pieces|
  {
    if pieces != [] {
      var ms, rest := Envelopes(r, pieces, average), Envelopes(r, pieces[1..], average);
      EnvelopesPayload(r, pieces[1..], average);
      assert ms[1..] == rest;
      calc {
        TotalSize(ms);
        average * |pieces[0]| + average * |Concat(pieces[1..])|;
        average * (|pieces[0]| + |Concat(pieces[1..])|);
      }
    }
  }

  /** The message carries the chain id of the response, and the versions and timestamps of its first and
      last transactions, whatever was filtered out. */
  predicate Stamped(r: Item, m: Message)
    requires r.Response? && r.txns != []
  {
    && r.chainId == Some(m.chainId)
    && m.start == r.txns[0].version && m.end == r.txns[|r.txns| - 1].version
    && m.startTimestamp == r.txns[0].timestamp && m.endTimestamp == r.txns[|r.txns| - 1].timestamp
  }

  lemma EnvelopesStamped(r: Item, pieces: seq<seq<Transaction>>, average: nat, limit: nat)
    requires r.Response? && r.txns != [] && r.chainId.Some? && forall c <- pieces :: |c| <= limit
    ensures forall m <- Envelopes(r, pieces, average) :: |m.txns| <= limit && Stamped(r, m)
  {
    var ms := Envelopes(r, pieces, average);
    forall m <- ms
      ensures |m.txns| <= limit && Stamped(r, m)
    {
      var i :| 0 <= i < |ms| && ms[i] == m;
      assert m == Envelope(r, pieces[i], average * |pieces[i]|) && pieces[i] in pieces;
    }
  }

  lemma OnePayload(m: Message)
    ensures Payload([m]) == m.txns && TotalSize([m]) == m.sizeInBytes
  {
    assert [m][1..] == [];
  }

  /** Splitting loses, duplicates and reorders nothing, sends at least one message, keeps every
      message within the limit, and stamps every message with the range of the whole response. */
  lemma SplitLossless(cfg: Config, r: Item, kept: seq<Transaction>)
    requires r.Response? && r.txns != [] && r.chainId.Some? && cfg.chunkSize >= 1
    ensures var ms := Split(cfg, r, kept);
            && ms != [] && Payload(ms) == kept
            && (forall m <- ms :: |m.txns| <= cfg.chunkSize)
            && (forall m <- ms :: Stamped(r, m))
            && (|ms| == 1 <==> |kept| <= cfg.chunkSize)
            && (|kept| <= cfg.chunkSize ==> ms[0].txns == kept)
  {
    if |kept| < cfg.chunkSize {
      OnePayload(Envelope(r, kept, r.encodedLen));
    } else {
      SplitPieces(cfg, r, kept);
    }
  }

  lemma SplitPieces(cfg: Config, r: Item, kept: seq<Transaction>)
    requires r.Response? && r.txns != [] && r.chainId.Some? && 1 <= cfg.chunkSize <= |kept|
    ensures var ms := Split(cfg, r, kept);
            && ms != [] && Payload(ms) == kept
            && (forall m <- ms :: |m.txns| <= cfg.chunkSize && Stamped(r, m))
            && (|ms| == 1 <==> |kept| <= cfg.chunkSize)
            && (|kept| <= cfg.chunkSize ==> ms[0].txns == kept)
  {
    var pieces := Chunks(kept, cfg.chunkSize);
    ChunksLossless(kept, cfg.chunkSize);
    ChunksSingle(kept, cfg.chunkSize);
    EnvelopesPayload(r, pieces, r.encodedLen / |r.txns|);
    EnvelopesStamped(r, pieces, r.encodedLen / |r.txns|, cfg.chunkSize);
  }

  lemma MulDivBounds(size: nat, n: nat, k: nat)
    requires 1 <= n && k <= n
    ensures (size / n) * k <= size
    ensures k == n ==> size - (size / n) * k < n
  {
    assert size == (size / n) * n + size % n;
    assert (size / n) * k <= (size / n) * n by {
      assert (size / n) * (n - k) >= 0;
    }
  }

  lemma SplitTotal(cfg: Config, r: Item, kept: seq<Transaction>)
    requires r.Response? && r.txns != [] && r.chainId.Some? && cfg.chunkSize >= 1
    ensures TotalSize(Split(cfg, r, kept))
         == if |kept| < cfg.chunkSize then r.encodedLen else (r.encodedLen / |r.txns|) * |kept|
  {
    if |kept| < cfg.chunkSize {
      OnePayload(Envelope(r, kept, r.encodedLen));
    } else {
      ChunksLossless(kept, cfg.chunkSize);
      EnvelopesPayload(r, Chunks(kept, cfg.chunkSize), r.encodedLen / |r.txns|);
    }
  }

  /** The byte sizes of the pieces never add up to more than the response, and when nothing was
      filtered they fall short by fewer bytes than there are transactions. */
  lemma SplitSizes(cfg: Config, r: Item, kept: seq<Transaction>)
    requires r.Response? && r.txns != [] && r.chainId.Some? && cfg.chunkSize >= 1
    requires |kept| <= |r.txns|
    ensures TotalSize(Split(cfg, r, kept)) <= r.encodedLen
    ensures |kept| == |r.txns| ==> r.encodedLen - TotalSize(Split(cfg, r, kept)) < |r.txns|
  {
    SplitTotal(cfg, r, kept);
    MulDivBounds(r.encodedLen, |r.txns|, |kept|);
  }

  // ---------- Tiling ----------

  /** The ranges of the messages with immediate repetitions dropped. */
  function Ranges(ms: seq<Message>): seq<(nat, nat)> {
    if ms == [] then []
    else
      var rest := Ranges(ms[1..]);
      var range := (ms[0].start, ms[0].end);
      if rest != [] && rest[0] == range then rest else [range] + rest
  }

  /** The ranges follow one another from `from` up to just before `to`, none empty. */
  predicate Tiles(ranges: seq<(nat, nat)>, from: int, to: int) {
    if ranges == [] then from == to
    else ranges[0].0 == from && from <= ranges[0].1 && Tiles(ranges[1..], ranges[0].1 + 1, to)
  }

  /** What the stream promises: a response lists its transactions in order. */
  predicate Ordered(item: Item) {
    item.Response? && item.txns != [] ==> item.txns[0].version <= item.txns[|item.txns| - 1].version
  }

  predicate AllCarry(ms: seq<Message>, start: nat, end: int) {
    forall m <- ms :: m.start == start && m.end == end
  }

  lemma {:induction false} SameRangeCollapses(ms: seq<Message>, rest: seq<Message>, range: (nat, nat))
    requires ms != [] && AllCarry(ms, range.0, range.1)
    requires Ranges(rest) != [] ==> Ranges(rest)[0] != range
    ensures Ranges(ms + rest) == [range] + Ranges(rest)
    decreases |ms|
  {
    assert (ms + rest)[1..] == ms[1..] + rest;
    if |ms| == 1 {
      assert ms[1..] + rest == rest;
    } else {
      SameRangeCollapses(ms[1..], rest, range);
    }
  }

  /** A block of messages with one range, put before messages that tile on from it. */
  lemma TilePrepend(ms: seq<Message>, rest: seq<Message>, from: nat, mid: int, to: int)
    requires ms == [] ==> from == mid
    requires ms != [] ==> from < mid && AllCarry(ms, from, mid - 1)
    requires Tiles(Ranges(rest), mid, to)
    ensures Tiles(Ranges(ms + rest), from, to)
  {
    if ms == [] {
      assert ms + rest == rest;
    } else {
      var range: (nat, nat) := (from, mid - 1);
      SameRangeCollapses(ms, rest, range);
      assert ([range] + Ranges(rest))[1..] == Ranges(rest);
    }
  }

  /** One turn sends nothing and fetches nothing, or sends the one range that follows. */
  lemma PollSendsNextRange(cfg: Config, st: FetchState, item: Item)
    requires cfg.chunkSize >= 1 && st.status == Polling && st.lastFetched + 1 == st.next && Ordered(item)
    ensures var (st1, ms) := Poll(cfg, st, item);
            && (st1.status != Panicked ==> st1.next == st1.lastFetched + 1)
            && (ms == [] ==> st1.lastFetched == st.lastFetched)
            && (ms != [] ==> st1.lastFetched >= st.next && AllCarry(ms, st.next, st1.lastFetched))
  {
    if item.Response? && item.txns != [] && item.chainId.Some? {
      SplitLossless(cfg, item, Filter(item.txns, cfg.wanted));
    }
  }

  /** The ranges of `ms` tile from `from` to just after the last version fetched, which is the next
      to fetch unless the loop panicked. */
  ghost predicate TiledTo(from: int, st: FetchState, ms: seq<Message>) {
    && Tiles(Ranges(ms), from, st.lastFetched + 1) && from <= st.lastFetched + 1
    && (st.status != Panicked ==> st.next == st.lastFetched + 1)
  }

  /** For every sequence of responses, errors, ends and timeouts and every filter, the distinct
      ranges sent follow one another without gap or overlap from where polling began to just after
      the last version fetched; and unless the loop panicked that is the next version to fetch. */
  lemma {:induction false} SentRangesTile(cfg: Config, st: FetchState, items: seq<Item>)
    requires cfg.chunkSize >= 1 && st.status == Polling && st.lastFetched + 1 == st.next
    requires forall i <- items :: Ordered(i)
    ensures var (st', ms) := PollAll(cfg, st, items); TiledTo(st.next, st', ms)
    decreases |items|
  {
    if items != [] {
      var (st1, ms1) := Poll(cfg, st, items[0]);
      PollSendsNextRange(cfg, st, items[0]);
      var (st2, ms2) := PollAll(cfg, st1, items[1..]);
      if st1.status == Polling {
        assert forall i <- items[1..] :: i in items;
        SentRangesTile(cfg, st1, items[1..]);
      } else {
        assert TiledTo(st1.lastFetched + 1, st2, ms2);
      }
      TiledPrepend(st.next, st1.lastFetched + 1, st2, ms1, ms2);
    }
  }

  lemma TiledPrepend(from: nat, mid: int, st: FetchState, ms: seq<Message>, rest: seq<Message>)
    requires ms == [] ==> from == mid
    requires ms != [] ==> from < mid && AllCarry(ms, from, mid - 1)
    requires TiledTo(mid, st, rest)
    ensures TiledTo(from, st, ms + rest)
  {
    TilePrepend(ms, rest, from, mid, st.lastFetched + 1);
  }

  // ---------- Termination and what is requested ----------

  function TurnsLeft(cfg: Config, st: FetchState): int
    requires cfg.ending.Some?
  {
    (RECONNECTION_MAX_RETRIES + 1) * (cfg.ending.value + 1 - st.next) + RECONNECTION_MAX_RETRIES - st.retries
  }

  /** With an ending version the loop stops, by reaching it or by panicking, within a number of turns
      fixed by the versions and the retries left. */
  lemma {:induction false} FetchLoopHalts(cfg: Config, st: FetchState, items: seq<Item>)
    requires cfg.ending.Some? && st.status == Polling
    requires st.lastFetched + 1 == st.next <= cfg.ending.value + 1 && st.retries <= RECONNECTION_MAX_RETRIES
    requires forall i <- items :: Ordered(i)
    requires |items| > TurnsLeft(cfg, st)
    ensures PollAll(cfg, st, items).0.status != Polling
    decreases |items|
  {
    var (st1, ms1) := Poll(cfg, st, items[0]);
    if st1.status == Polling {
      assert items[0] in items;
      FetchLoopHalts(cfg, st1, items[1..]);
    }
  }

  /** Every reconnection asks for exactly the versions still missing, and for at least one. */
  lemma {:induction false} ReconnectsAskForTheRest(cfg: Config, st: FetchState, items: seq<Item>, k: nat)
    requires st.status == Polling && st.lastFetched + 1 == st.next
    requires cfg.ending.Some? ==> cfg.ending.value < TWO_TO_THE_64 - 1
    requires forall i <- items :: Ordered(i)
    requires |st.requests| <= k < |PollAll(cfg, st, items).0.requests|
    ensures var (st', ms) := PollAll(cfg, st, items);
            var q := st'.requests[k];
            && st.next <= q.start <= st'.lastFetched + 1
            && (cfg.ending.Some? ==> q.count == Some(cfg.ending.value + 1 - q.start) && q.count.value >= 1)
            && (cfg.ending == None ==> q.count == None)
    decreases |items|
  {
    var (st1, ms1) := Poll(cfg, st, items[0]);
    assert items[0] in items;
    if st1.status == Polling {
      RequestsOnlyGrow(cfg, st1, items[1..]);
      if k >= |st1.requests| {
        ReconnectsAskForTheRest(cfg, st1, items[1..], k);
      }
    }
  }

  lemma {:induction false} RequestsOnlyGrow(cfg: Config, st: FetchState, items: seq<Item>)
    requires st.status == Polling ==> st.lastFetched + 1 == st.next
    requires forall i <- items :: Ordered(i)
    ensures st.requests <= PollAll(cfg, st, items).0.requests
    ensures st.lastFetched <= PollAll(cfg, st, items).0.lastFetched
    decreases |items|
  {
    if items != [] && st.status == Polling {
      assert items[0] in items;
      RequestsOnlyGrow(cfg, Poll(cfg, st, items[0]).0, items[1..]);
    }
  }
}
