/** The reorder buffer that turns out-of-order processing results into a contiguous frontier. */
module GapDetection {

  import opened Options

  /** The version range one processed batch reports, with the timestamp of its last transaction.
      The two durations only feed metrics and are not modelled. */
  datatype ProcessingResult = ProcessingResult(start: nat, end: nat, timestamp: Option<int>)

  /** The detector's three fields as a value. */
  datatype Detector = Detector(
    next: nat, seen: map<nat, ProcessingResult>, last: Option<ProcessingResult>)

  function Fresh(start: nat): Detector {
    Detector(start, map[], None)
  }

  /** Follow stored results for as long as one starts right after the previous one ends. */
  function Drain(seen: map<nat, ProcessingResult>, prev: ProcessingResult)
    : (r: (map<nat, ProcessingResult>, ProcessingResult))
    decreases |seen|
  {
    if prev.end + 1 in seen then
      assert |seen - {prev.end + 1}| < |seen| by { RemovalShrinks(seen, prev.end + 1); }
      Drain(seen - {prev.end + 1}, seen[prev.end + 1])
    else
      (seen, prev)
  }

  lemma RemovalShrinks<K, V>(m: map<K, V>, k: K)
    requires k in m
    ensures |m - {k}| == |m| - 1
  {
    assert (m - {k}).Keys == m.Keys - {k};
  }

  /** The detector after one more result. */
  function Absorb(d: Detector, r: ProcessingResult): Detector {
    if d.next != r.start then
      d.(seen := d.seen[r.start := r])
    else
      var (seen, last) := Drain(d.seen, r);
      Detector(last.end + 1, seen, Some(last))
  }

  function AbsorbAll(d: Detector, rs: seq<ProcessingResult>): Detector {
    if rs == [] then d else Absorb(AbsorbAll(d, rs[..|rs| - 1]), rs[|rs| - 1])
  }

  /** The detector as the program runs it: fields updated in place, a draining loop. */
  class GapDetector {
    var nextVersionToProcess: nat
    var seenVersions: map<nat, ProcessingResult>
    var lastSuccessBatch: Option<ProcessingResult>

    constructor (startingVersion: nat)
      ensures Contents() == Fresh(startingVersion)
    {
      nextVersionToProcess, seenVersions, lastSuccessBatch := startingVersion, map[], None;
    }

    function Contents(): Detector reads this {
      Detector(nextVersionToProcess, seenVersions, lastSuccessBatch)
    }

    method ProcessVersions(result: ProcessingResult)
      returns (next: nat, numGaps: nat, last: Option<ProcessingResult>)
      modifies this
      ensures Contents() == Absorb(old(Contents()), result)
      ensures next == nextVersionToProcess && numGaps == |seenVersions| && last == lastSuccessBatch
    {
      if nextVersionToProcess != result.start {
        seenVersions := seenVersions[result.start := result];
      } else {
        UpdatePrevBatch(result);
      }
      return nextVersionToProcess, |seenVersions|, lastSuccessBatch;
    }

    method UpdatePrevBatch(result: ProcessingResult)
      modifies this
      ensures var (seen, last) := Drain(old(seenVersions), result);
              Contents() == Detector(last.end + 1, seen, Some(last))
    {
      var newPrevBatch := result;
      while newPrevBatch.end + 1 in seenVersions
        invariant Drain(seenVersions, newPrevBatch) == Drain(old(seenVersions), result)
        decreases |seenVersions|
      {
        var key := newPrevBatch.end + 1;
        RemovalShrinks(seenVersions, key);
        newPrevBatch, seenVersions := seenVersions[key], seenVersions - {key};
      }
      nextVersionToProcess := newPrevBatch.end + 1;
      lastSuccessBatch := Some(newPrevBatch);
    }
  }

  // ---------- What holds for any results at all ----------

  predicate WellFormed(r: ProcessingResult) {
    r.start <= r.end
  }

  predicate Covers(r: ProcessingResult, v: nat) {
    r.start <= v <= r.end
  }

  ghost predicate Covered(recv: set<ProcessingResult>, v: nat) {
    exists r :: r in recv && Covers(r, v)
  }

  /** Every stored result sits under its own start, and every result is well formed. */
  ghost predicate Keyed(seen: map<nat, ProcessingResult>) {
    forall k <- seen :: seen[k].start == k && WellFormed(seen[k])
  }

  /** `recv` accounts for the detector: the frontier's prefix is covered by received results,
      what is stored was received, and the frontier is not itself waiting in the store. */
  ghost predicate Sound(s: nat, recv: set<ProcessingResult>, d: Detector) {
    && s <= d.next
    && Keyed(d.seen)
    && d.next !in d.seen
    && (forall k <- d.seen :: d.seen[k] in recv)
    && (forall v :: s <= v < d.next ==> Covered(recv, v))
    && (d.last == None ==> d.next == s)
    && (d.last.Some? ==> d.last.value in recv && d.last.value.end + 1 == d.next)
  }

  /** Draining only moves forward, over versions that stored results cover. */
  lemma {:induction false} DrainAdvances(
    seen: map<nat, ProcessingResult>, prev: ProcessingResult, recv: set<ProcessingResult>)
    requires Keyed(seen) && prev in recv && (forall k <- seen :: seen[k] in recv)
    ensures var (seen', last) := Drain(seen, prev);
            && Keyed(seen') && last in recv
            && prev.end <= last.end && last.end + 1 !in seen'
            && (forall k <- seen' :: k in seen && seen'[k] == seen[k])
            && (forall v :: prev.end < v <= last.end ==> Covered(recv, v))
    decreases |seen|
  {
    if prev.end + 1 in seen {
      var k := prev.end + 1;
      RemovalShrinks(seen, k);
      DrainAdvances(seen - {k}, seen[k], recv);
      assert forall v :: prev.end < v <= seen[k].end ==> Covers(seen[k], v);
    }
  }

  lemma AbsorbSound(s: nat, recv: set<ProcessingResult>, d: Detector, r: ProcessingResult)
    requires Sound(s, recv, d) && WellFormed(r)
    ensures Sound(s, recv + {r}, Absorb(d, r))
    ensures d.next <= Absorb(d, r).next
  {
    var recv' := recv + {r};
    assert forall v :: Covered(recv, v) ==> Covered(recv', v);
    if d.next == r.start {
      DrainAdvances(d.seen, r, recv');
      assert forall v :: r.start <= v <= r.end ==> Covers(r, v);
    }
  }

  function Received(rs: seq<ProcessingResult>): set<ProcessingResult> {
    set r | r in rs
  }

  lemma ReceivedSnoc(rs: seq<ProcessingResult>)
    requires rs != []
    ensures Received(rs) == Received(rs[..|rs| - 1]) + {rs[|rs| - 1]}
  {
    assert rs == rs[..|rs| - 1] + [rs[|rs| - 1]];
  }

  /** For arbitrary well-formed results in any order, with overlaps and repetitions: the frontier
      only covers reported versions, and it is never a key of the store. */
  lemma {:induction false} AnyRunSound(s: nat, rs: seq<ProcessingResult>)
    requires forall r <- rs :: WellFormed(r)
    ensures Sound(s, Received(rs), AbsorbAll(Fresh(s), rs))
  {
    if rs != [] {
      var front := rs[..|rs| - 1];
      AnyRunSound(s, front);
      AbsorbSound(s, Received(front), AbsorbAll(Fresh(s), front), rs[|rs| - 1]);
      ReceivedSnoc(rs);
    }
  }

  /** The latest report that starts at `k`. */
  function LatestAt(rs: seq<ProcessingResult>, k: nat): Option<ProcessingResult> {
    if rs == [] then None
    else if rs[|rs| - 1].start == k then Some(rs[|rs| - 1])
    else LatestAt(rs[..|rs| - 1], k)
  }

  /** For arbitrary well-formed results, whatever is stored is the latest report of its start. */
  lemma {:induction false} StoreHoldsLatest(s: nat, rs: seq<ProcessingResult>, k: nat)
    requires (forall r <- rs :: WellFormed(r)) && k in AbsorbAll(Fresh(s), rs).seen
    ensures LatestAt(rs, k) == Some(AbsorbAll(Fresh(s), rs).seen[k])
  {
    var front, r := rs[..|rs| - 1], rs[|rs| - 1];
    var d := AbsorbAll(Fresh(s), front);
    assert forall x <- front :: x in rs;
    AnyRunSound(s, front);
    if d.next == r.start {
      var recv := Received(front) + {r};
      DrainAdvances(d.seen, r, recv);
      StoreHoldsLatest(s, front, k);
    } else if k != r.start {
      StoreHoldsLatest(s, front, k);
    }
  }

  /** For arbitrary well-formed results the frontier never moves back. */
  lemma {:induction false} FrontierMonotone(s: nat, rs: seq<ProcessingResult>, more: seq<ProcessingResult>)
    requires forall r <- rs + more :: WellFormed(r)
    ensures AbsorbAll(Fresh(s), rs).next <= AbsorbAll(Fresh(s), rs + more).next
    decreases |more|
  {
    if more == [] {
      assert rs + more == rs;
    } else {
      var front := more[..|more| - 1];
      assert (rs + more)[..|rs + more| - 1] == rs + front;
      assert forall r <- rs + front :: r in rs + more;
      FrontierMonotone(s, rs, front);
      AnyRunSound(s, rs + front);
      assert more[|more| - 1] in rs + more;
      AbsorbSound(s, Received(rs + front), AbsorbAll(Fresh(s), rs + front), more[|more| - 1]);
    }
  }

  // ---------- Exact frontier, with repeated (split) reports allowed ----------

  predicate SameRange(a: ProcessingResult, b: ProcessingResult) {
    a.start == b.start && a.end == b.end
  }

  predicate Apart(a: ProcessingResult, b: ProcessingResult) {
    a.end < b.start || b.end < a.start
  }

  /** Two reports never overlap partially: they name the same range or disjoint ones. This is what
      the pieces of a split response look like, all carrying the range of the whole response. */
  ghost predicate Compatible(s: nat, recv: set<ProcessingResult>) {
    && (forall r <- recv :: WellFormed(r) && s <= r.start)
    && (forall a, b | a in recv && b in recv :: SameRange(a, b) || Apart(a, b))
  }

  /** Every received result is behind the frontier, or waits beyond it under its own start. */
  ghost predicate Exact(recv: set<ProcessingResult>, d: Detector) {
    forall r <- recv :: r.end < d.next || (d.next < r.start && r.start in d.seen)
  }

  ghost predicate LeastUncovered(s: nat, recv: set<ProcessingResult>, n: nat) {
    s <= n && !Covered(recv, n) && forall v :: s <= v < n ==> Covered(recv, v)
  }

  lemma {:induction false} DrainExact(
    s: nat, recv: set<ProcessingResult>, seen: map<nat, ProcessingResult>, prev: ProcessingResult)
    requires Compatible(s, recv) && Keyed(seen) && prev in recv
    requires forall k <- seen :: seen[k] in recv
    requires forall r <- recv :: r.end <= prev.end || (prev.end < r.start && r.start in seen)
    ensures var (seen', last) := Drain(seen, prev);
            && (forall r <- recv :: r.end <= last.end || (last.end + 1 < r.start && r.start in seen'))
            && (forall k <- seen :: k <= prev.end ==> k in seen')
    decreases |seen|
  {
    if prev.end + 1 in seen {
      var k := prev.end + 1;
      RemovalShrinks(seen, k);
      forall r <- recv
        ensures r.end <= seen[k].end || (seen[k].end < r.start && r.start in seen - {k})
      {
        assert SameRange(r, seen[k]) || Apart(r, seen[k]);
      }
      DrainExact(s, recv, seen - {k}, seen[k]);
      DrainAdvances(seen - {k}, seen[k], recv);
    }
  }

  lemma AbsorbExact(s: nat, recv: set<ProcessingResult>, d: Detector, r: ProcessingResult)
    requires Compatible(s, recv + {r}) && Sound(s, recv, d) && Exact(recv, d)
    ensures Exact(recv + {r}, Absorb(d, r))
  {
    var recv' := recv + {r};
    if d.next == r.start {
      forall x <- recv'
        ensures x.end <= r.end || (r.end < x.start && x.start in d.seen)
      {
        assert SameRange(x, r) || Apart(x, r);
      }
      DrainExact(s, recv', d.seen, r);
    } else {
      if d.next <= r.end && r.start < d.next {
        assert Covered(recv, r.start);
        var x :| x in recv && Covers(x, r.start);
        assert SameRange(x, r) || Apart(x, r);
        assert x.end < d.next || d.next < x.start;
      }
    }
  }

  lemma CompatibleSubset(s: nat, small: set<ProcessingResult>, big: set<ProcessingResult>)
    requires Compatible(s, big) && small <= big
    ensures Compatible(s, small)
  {
  }

  lemma {:induction false} RunExact(s: nat, rs: seq<ProcessingResult>)
    requires Compatible(s, Received(rs))
    ensures Sound(s, Received(rs), AbsorbAll(Fresh(s), rs))
    ensures Exact(Received(rs), AbsorbAll(Fresh(s), rs))
  {
    assert forall r <- rs :: r in Received(rs);
    AnyRunSound(s, rs);
    if rs != [] {
      var front := rs[..|rs| - 1];
      ReceivedSnoc(rs);
      CompatibleSubset(s, Received(front), Received(rs));
      RunExact(s, front);
      AbsorbExact(s, Received(front), AbsorbAll(Fresh(s), front), rs[|rs| - 1]);
    }
  }

  /** However the reports are ordered or repeated, the frontier is the least version that no report
      covers, as long as no two reports overlap partially. */
  lemma FrontierIsLeastUncovered(s: nat, rs: seq<ProcessingResult>)
    requires Compatible(s, Received(rs))
    ensures LeastUncovered(s, Received(rs), AbsorbAll(Fresh(s), rs).next)
  {
    RunExact(s, rs);
  }

  // ---------- Confluence without repetition ----------

  /** Results drawn without repetition from a tiling of the versions from `s` on. */
  ghost predicate DrawnFromTiling(s: nat, rs: seq<ProcessingResult>) {
    && (forall r <- rs :: WellFormed(r) && s <= r.start)
    && (forall i, j | 0 <= i < j < |rs| :: Apart(rs[i], rs[j]))
  }

  lemma DrawnIsCompatible(s: nat, rs: seq<ProcessingResult>)
    requires DrawnFromTiling(s, rs)
    ensures Compatible(s, Received(rs))
    ensures forall a, b | a in rs && b in rs :: a == b || Apart(a, b)
  {
    forall a, b | a in rs && b in rs
      ensures a == b || Apart(a, b)
    {
      var i :| 0 <= i < |rs| && rs[i] == a;
      var j :| 0 <= j < |rs| && rs[j] == b;
      assert i < j ==> Apart(rs[i], rs[j]);
      assert j < i ==> Apart(rs[j], rs[i]);
    }
  }

  /** Nothing stored lies behind the frontier. */
  ghost predicate OnlyAhead(d: Detector) {
    forall k <- d.seen :: d.next < k
  }

  /** Stored ranges do not overlap. */
  ghost predicate Spread(seen: map<nat, ProcessingResult>) {
    forall i, j | i in seen && j in seen && i < j :: seen[i].end < j
  }

  /** With disjoint stored results all beyond `prev`, draining leaves only results beyond its end. */
  lemma {:induction false} DrainKeepsOnlyLater(seen: map<nat, ProcessingResult>, prev: ProcessingResult)
    requires Spread(seen) && forall j <- seen :: prev.end < j
    ensures forall k <- Drain(seen, prev).0 :: Drain(seen, prev).1.end + 1 < k
    decreases |seen|
  {
    var n := prev.end + 1;
    if n in seen {
      RemovalShrinks(seen, n);
      var rest := seen - {n};
      assert Spread(rest);
      assert forall j <- rest :: seen[n].end < j;
      DrainKeepsOnlyLater(rest, seen[n]);
    }
  }

  lemma AbsorbStaysAhead(s: nat, recv: set<ProcessingResult>, d: Detector, r: ProcessingResult)
    requires Sound(s, recv, d) && OnlyAhead(d) && WellFormed(r) && s <= r.start
    requires forall a <- recv :: Apart(a, r)
    requires forall a, b | a in recv && b in recv :: a == b || Apart(a, b)
    ensures OnlyAhead(Absorb(d, r))
  {
    if d.next == r.start {
      assert Spread(d.seen) by {
        forall i, j | i in d.seen && j in d.seen && i < j
          ensures d.seen[i].end < j
        {
          assert Apart(d.seen[i], d.seen[j]);
        }
      }
      forall j <- d.seen
        ensures r.end < j
      {
        assert Apart(d.seen[j], r);
      }
      DrainKeepsOnlyLater(d.seen, r);
    } else {
      assert Covered(recv, r.start) <== r.start < d.next;
    }
  }

  /** Nothing behind the frontier is stored when no result arrives twice. */
  lemma {:induction false} NoStaleEntries(s: nat, rs: seq<ProcessingResult>)
    requires DrawnFromTiling(s, rs)
    ensures OnlyAhead(AbsorbAll(Fresh(s), rs))
  {
    if rs != [] {
      var front, r := rs[..|rs| - 1], rs[|rs| - 1];
      assert forall x <- front :: x in rs;
      NoStaleEntries(s, front);
      DrawnIsCompatible(s, front);
      AnyRunSound(s, front);
      forall a <- Received(front)
        ensures Apart(a, r)
      {
        var i :| 0 <= i < |front| && front[i] == a;
        assert Apart(rs[i], rs[|rs| - 1]);
      }
      AbsorbStaysAhead(s, Received(front), AbsorbAll(Fresh(s), front), r);
    }
  }

  /** The store holds exactly the received results beyond the frontier. */
  ghost predicate HoldsBeyond(recv: set<ProcessingResult>, d: Detector) {
    && (forall k <- d.seen :: d.next < k && d.seen[k] in recv && d.seen[k].start == k)
    && (forall r <- recv :: d.next < r.start ==> r.start in d.seen && d.seen[r.start] == r)
  }

  /** The complete state a set of disjoint results must leave behind. */
  ghost predicate Determined(s: nat, recv: set<ProcessingResult>, d: Detector) {
    && LeastUncovered(s, recv, d.next)
    && HoldsBeyond(recv, d)
    && (d.last == None <==> d.next == s)
    && (d.last.Some? ==> d.last.value in recv && d.last.value.end + 1 == d.next)
  }

  /** Exact frontier: the frontier is the least version not covered, the store holds exactly the
      received results beyond it, and the last batch is the received one that ends just before it. */
  lemma StateIsDetermined(s: nat, rs: seq<ProcessingResult>)
    requires DrawnFromTiling(s, rs)
    ensures Determined(s, Received(rs), AbsorbAll(Fresh(s), rs))
  {
    var d, recv := AbsorbAll(Fresh(s), rs), Received(rs);
    DrawnIsCompatible(s, rs);
    RunExact(s, rs);
    NoStaleEntries(s, rs);
    forall r | r in recv && d.next < r.start
      ensures r.start in d.seen && d.seen[r.start] == r
    {
      var x := d.seen[r.start];
      assert x in rs && r in rs && x.start == r.start;
      assert x == r || Apart(x, r);
    }
  }

  lemma LeastUncoveredUnique(s: nat, recv: set<ProcessingResult>, m: nat, n: nat)
    requires LeastUncovered(s, recv, m) && LeastUncovered(s, recv, n)
    ensures m == n
  {
    assert m < n ==> Covered(recv, m);
    assert n < m ==> Covered(recv, n);
  }

  lemma DeterminedUnique(s: nat, recv: set<ProcessingResult>, d: Detector, d': Detector)
    requires Determined(s, recv, d) && Determined(s, recv, d')
    requires forall a, b | a in recv && b in recv :: a == b || Apart(a, b)
    requires forall a <- recv :: WellFormed(a)
    ensures d == d'
  {
    LeastUncoveredUnique(s, recv, d.next, d'.next);
    assert forall k <- d.seen :: d.seen[k] in recv;
    assert forall k <- d'.seen :: d'.seen[k] in recv;
    assert d.seen.Keys == d'.seen.Keys;
    assert d.seen == d'.seen;
    if d.last.Some? {
      var a, b := d.last.value, d'.last.value;
      assert a == b || Apart(a, b);
    }
  }

  /** Confluence: two arrival orders of the same results leave the same detector. */
  lemma Confluence(s: nat, rs: seq<ProcessingResult>, rs': seq<ProcessingResult>)
    requires DrawnFromTiling(s, rs) && DrawnFromTiling(s, rs')
    requires Received(rs) == Received(rs')
    ensures AbsorbAll(Fresh(s), rs) == AbsorbAll(Fresh(s), rs')
  {
    StateIsDetermined(s, rs);
    StateIsDetermined(s, rs');
    DrawnIsCompatible(s, rs);
    DeterminedUnique(s, Received(rs), AbsorbAll(Fresh(s), rs), AbsorbAll(Fresh(s), rs'));
  }

  // ---------- Late siblings of a split response ----------

  lemma AbsorbAllSplit(d: Detector, xs: seq<ProcessingResult>, ys: seq<ProcessingResult>)
    ensures AbsorbAll(d, xs + ys) == AbsorbAll(AbsorbAll(d, xs), ys)
    decreases |ys|
  {
    if ys == [] {
      assert xs + ys == xs;
    } else {
      assert (xs + ys)[..|xs + ys| - 1] == xs + ys[..|ys| - 1];
      AbsorbAllSplit(d, xs, ys[..|ys| - 1]);
    }
  }

  /** The two stores agree everywhere but possibly at `k`. */
  ghost predicate AgreeOff(a: map<nat, ProcessingResult>, b: map<nat, ProcessingResult>, k: nat) {
    forall x | x != k :: (x in a <==> x in b) && (x in a ==> a[x] == b[x])
  }

  /** The two detectors agree except that `b` also stores something under `k`, behind the frontier. */
  ghost predicate OnlyExtra(a: Detector, b: Detector, k: nat) {
    && a.next == b.next && a.last == b.last && k < a.next && k in b.seen
    && AgreeOff(a.seen, b.seen, k)
  }

  lemma {:induction false} DrainIgnoresExtra(
    a: map<nat, ProcessingResult>, b: map<nat, ProcessingResult>, prev: ProcessingResult, k: nat)
    requires Keyed(a) && Keyed(b) && AgreeOff(a, b, k) && k in b && k <= prev.end
    ensures Drain(a, prev).1 == Drain(b, prev).1 && prev.end <= Drain(a, prev).1.end
    ensures AgreeOff(Drain(a, prev).0, Drain(b, prev).0, k) && k in Drain(b, prev).0
    decreases |a|
  {
    var n := prev.end + 1;
    if n in a {
      RemovalShrinks(a, n);
      DrainIgnoresExtra(a - {n}, b - {n}, a[n], k);
    }
  }

  lemma AbsorbIgnoresExtra(a: Detector, b: Detector, r: ProcessingResult, k: nat)
    requires OnlyExtra(a, b, k) && Keyed(a.seen) && Keyed(b.seen) && WellFormed(r)
    ensures OnlyExtra(Absorb(a, r), Absorb(b, r), k)
    ensures Keyed(Absorb(a, r).seen) && Keyed(Absorb(b, r).seen)
  {
    if a.next == r.start {
      DrainIgnoresExtra(a.seen, b.seen, r, k);
      DrainAdvances(a.seen, r, a.seen.Values + {r});
      DrainAdvances(b.seen, r, b.seen.Values + {r});
    }
  }

  /** A report whose start is already behind the frontier stays in the store for ever and moves
      nothing: after any continuation the frontier and the last batch are what they would have been
      without it. */
  lemma {:induction false} LateSiblingIsInert(
    s: nat, before: seq<ProcessingResult>, sibling: ProcessingResult, after: seq<ProcessingResult>)
    requires forall r <- before + [sibling] + after :: WellFormed(r)
    requires sibling.start < AbsorbAll(Fresh(s), before).next
    ensures OnlyExtra(AbsorbAll(Fresh(s), before + after),
                      AbsorbAll(Fresh(s), before + [sibling] + after), sibling.start)
    ensures Keyed(AbsorbAll(Fresh(s), before + after).seen)
    ensures Keyed(AbsorbAll(Fresh(s), before + [sibling] + after).seen)
    decreases |after|
  {
    var k := sibling.start;
    if after == [] {
      assert before + after == before;
      assert before + [sibling] + after == before + [sibling];
      assert (before + [sibling])[..|before|] == before;
      assert forall r <- before :: r in before + [sibling] + after;
      AnyRunSound(s, before);
      assert sibling in before + [sibling] + after;
    } else {
      var front, r := after[..|after| - 1], after[|after| - 1];
      assert (before + after)[..|before + after| - 1] == before + front;
      assert (before + [sibling] + after)[..|before + after|] == before + [sibling] + front;
      assert forall x <- before + [sibling] + front :: x in before + [sibling] + after;
      LateSiblingIsInert(s, before, sibling, front);
      assert r in before + [sibling] + after;
      AbsorbIgnoresExtra(AbsorbAll(Fresh(s), before + front),
                         AbsorbAll(Fresh(s), before + [sibling] + front), r, k);
    }
  }
}
