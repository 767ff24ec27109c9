/** The sliding-window sum behind the throughput figures. */
module MovingAverage {
  import opened Machine

  /** A value and the millisecond it was recorded at. */
  datatype Entry = Entry(at: nat, value: nat)

  function Sum(es: seq<Entry>): nat {
    if es == [] then 0 else es[0].value + Sum(es[1..])
  }

  lemma {:induction false} SumSnoc(es: seq<Entry>, e: Entry)
    ensures Sum(es + [e]) == Sum(es) + e.value
  {
    if es != [] {
      SumSnoc(es[1..], e);
      assert (es + [e])[1..] == es[1..] + [e];
    } else {
      assert (es + [e])[1..] == [];
    }
  }

  /** 64-bit unsigned subtraction. */
  function Elapsed(now: nat, then_: nat): nat {
    (now - then_) % TWO_TO_THE_64
  }

  /** Drop entries from the front while more than two are left and the first is too old. */
  function Prune(es: seq<Entry>, now: nat, window: nat): (r: seq<Entry>)
    decreases |es|
  {
    if |es| > 2 && Elapsed(now, es[0].at) > window then Prune(es[1..], now, window) else es
  }

  function Ticked(es: seq<Entry>, e: Entry, window: nat): seq<Entry> {
    Prune(es + [e], e.at, window)
  }

  /** The average before the floating-point division. */
  datatype Average = Zero | Ratio(scaledSum: nat, elapsedMillis: nat)

  /** The average computed afresh from the entries. */
  function Recomputed(es: seq<Entry>): Average {
    if |es| < 2 then Zero else Ratio(1000 * Sum(es), Elapsed(es[|es| - 1].at, es[0].at))
  }

  class MovingAverage {
    const windowMillis: nat
    var values: seq<Entry>
    var sum: nat

    /** The running sum is that of the entries kept, so no subtraction from it underflows. */
    ghost predicate Valid() reads this {
      sum == Sum(values) && values != []
    }

    constructor (windowMillis: nat, now: nat)
      ensures Valid() && this.windowMillis == windowMillis && values == [Entry(now, 0)]
    {
      this.windowMillis, values, sum := windowMillis, [Entry(now, 0)], 0;
    }

    method Tick(timestampMillis: nat, value: nat)
      requires Valid()
      modifies this
      ensures Valid() && values == Ticked(old(values), Entry(timestampMillis, value), windowMillis)
    {
      var e := Entry(timestampMillis, value);
      SumSnoc(values, e);
      values := values + [e];
      sum := sum + value;
      while |values| > 2 && Elapsed(timestampMillis, values[0].at) > windowMillis
        invariant Valid() && Prune(values, timestampMillis, windowMillis) == Ticked(old(values), e, windowMillis)
        decreases |values|
      {
        sum := sum - values[0].value;
        values := values[1..];
      }
    }

    /** The average: zero for fewer than two entries, else a thousand times the sum over the time between
        the first and the last. */
    method Avg() returns (average: Average)
      requires Valid()
      ensures average == Recomputed(values)
    {
      if |values| < 2 { return Zero; }
      return Ratio(sum * 1000, Elapsed(values[|values| - 1].at, values[0].at));
    }
  }

  // ---------- The window as a part of the complete history ----------

  function TickedAll(first: Entry, ticks: seq<Entry>, window: nat): seq<Entry> {
    if ticks == [] then [first]
    else Ticked(TickedAll(first, ticks[..|ticks| - 1], window), ticks[|ticks| - 1], window)
  }

  predicate Chronological(h: seq<Entry>) {
    && (forall i, j | 0 <= i < j < |h| :: h[i].at <= h[j].at)
    && (forall e <- h :: e.at < TWO_TO_THE_64)
  }

  /** `es` is the end of the history `h`: it holds every entry within the window of the last one,
      nothing older unless that is needed to have two entries. */
  ghost predicate IsWindow(h: seq<Entry>, es: seq<Entry>, window: nat) {
    && 2 <= |es| <= |h| && es == h[|h| - |es|..]
    && (forall i | 0 <= i < |h| - |es| :: h[|h| - 1].at - h[i].at > window)
    && (|es| > 2 ==> forall e <- es :: h[|h| - 1].at - e.at <= window)
  }

  lemma {:induction false} PruneWindow(h: seq<Entry>, k: nat, window: nat)
    requires Chronological(h) && k + 2 <= |h|
    requires forall i | 0 <= i < k :: h[|h| - 1].at - h[i].at > window
    ensures IsWindow(h, Prune(h[k..], h[|h| - 1].at, window), window)
    decreases |h| - k
  {
    var now := h[|h| - 1].at;
    assert h[k] in h && h[|h| - 1] in h && h[k].at <= now;
    assert Elapsed(now, h[k].at) == now - h[k].at;
    if |h[k..]| > 2 && now - h[k].at > window {
      assert h[k..][1..] == h[k + 1..];
      PruneWindow(h, k + 1, window);
    } else {
      forall e <- h[k..]
        ensures e.at >= h[k].at
      {
        var i :| k <= i < |h| && h[i] == e;
      }
    }
  }

  /** Pushing one more entry onto a window leaves a suffix of the history, outside which all is old. */
  lemma PushExtends(h: seq<Entry>, es: seq<Entry>, e: Entry, window: nat)
    requires Chronological(h + [e]) && IsWindow(h, es, window)
    ensures IsWindow(h + [e], Prune(es + [e], e.at, window), window)
  {
    var h1, k := h + [e], |h| - |es|;
    assert es + [e] == h1[k..];
    forall i | 0 <= i < k
      ensures h1[|h1| - 1].at - h1[i].at > window
    {
      assert h1[i] == h[i] && h1[|h| - 1] == h[|h| - 1];
    }
    PruneWindow(h1, k, window);
  }

  lemma ChronologicalFront(h: seq<Entry>, e: Entry)
    requires Chronological(h + [e])
    ensures Chronological(h)
  {
    assert forall i | 0 <= i < |h| :: h[i] == (h + [e])[i];
    assert forall x <- h :: x in h + [e];
  }

  /** The deque refines the complete history: after any run of at least one tick with timestamps that
      do not go back, what is kept is exactly the window. */
  lemma {:induction false} DequeIsWindow(first: Entry, ticks: seq<Entry>, window: nat)
    requires ticks != [] && Chronological([first] + ticks)
    ensures IsWindow([first] + ticks, TickedAll(first, ticks, window), window)
  {
    var front, e := ticks[..|ticks| - 1], ticks[|ticks| - 1];
    var h := [first] + front;
    assert [first] + ticks == h + [e];
    ChronologicalFront(h, e);
    if front == [] {
      assert h == [first] && h + [e] == (h + [e])[0..];
      PruneWindow(h + [e], 0, window);
    } else {
      DequeIsWindow(first, front, window);
      PushExtends(h, TickedAll(first, front, window), e, window);
    }
  }
}
