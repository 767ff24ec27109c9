/** The status tracker: it feeds results to the gap detector and, at most once a second, moves the
    checkpoint row. */
module StatusTracking {
  import opened Options
  import opened GapDetection
  import Pipeline

  const UPDATE_PROCESSOR_STATUS_SECS: nat := 1

  /** The stored row of one processor. */
  class ProcessorStatus {
    var lastSuccessVersion: Option<nat>

    constructor ()
      ensures lastSuccessVersion == None
    {
      lastSuccessVersion := None;
    }

    /** Insert the row, or overwrite it unless the stored version is larger. */
    method UpdateLastProcessedVersion(version: nat)
      modifies this
      ensures lastSuccessVersion == Pipeline.UpsertCheckpoint(old(lastSuccessVersion), version)
    {
      if lastSuccessVersion == None {
        lastSuccessVersion := Some(version);
      } else if lastSuccessVersion.value <= version {
        lastSuccessVersion := Some(version);
      }
    }
  }

  /** A received result, the time its turn looks at the clock, and the time after the update that may
      follow, in milliseconds. */
  datatype Arrival = Arrival(result: ProcessingResult, checked: nat, after: nat)

  /** The loop's state; `updates` is history: the times at which the row was written. */
  datatype Tracker = Tracker(detector: Detector, row: Option<nat>, lastUpdate: nat, updates: seq<nat>)

  /** Whole seconds since `then_`; a monotonic clock never shows less than zero. */
  function ElapsedSecs(now: nat, then_: nat): nat {
    if now < then_ then 0 else (now - then_) / 1000
  }

  /** The turn for an arrival writes the row. */
  predicate Due(k: Tracker, a: Arrival) {
    Absorb(k.detector, a.result).last.Some? && ElapsedSecs(a.checked, k.lastUpdate) >= UPDATE_PROCESSOR_STATUS_SECS
  }

  function Turn(k: Tracker, a: Arrival): Tracker {
    var d := Absorb(k.detector, a.result);
    if Due(k, a) then Tracker(d, Pipeline.UpsertCheckpoint(k.row, d.last.value.end), a.after, k.updates + [a.checked])
    else k.(detector := d)
  }

  function Tracked(k: Tracker, arrivals: seq<Arrival>): Tracker {
    if arrivals == [] then k else Turn(Tracked(k, arrivals[..|arrivals| - 1]), arrivals[|arrivals| - 1])
  }

  /** The receive loop until the channel closes. */
  method StatusTrackerLoop(detector: GapDetector, status: ProcessorStatus, started: nat, arrivals: seq<Arrival>)
    returns (lastUpdate: nat, updates: seq<nat>)
    modifies detector, status
    ensures Tracker(detector.Contents(), status.lastSuccessVersion, lastUpdate, updates)
         == Tracked(Tracker(old(detector.Contents()), old(status.lastSuccessVersion), started, []), arrivals)
  {
    lastUpdate, updates := started, [];
    ghost var k := Tracker(detector.Contents(), status.lastSuccessVersion, started, []);
    for i := 0 to |arrivals|
      invariant Tracker(detector.Contents(), status.lastSuccessVersion, lastUpdate, updates) == Tracked(k, arrivals[..i])
    {
      assert arrivals[..i + 1][..i] == arrivals[..i];
      var next, numGaps, last := detector.ProcessVersions(arrivals[i].result);
      if last.Some? {
        if ElapsedSecs(arrivals[i].checked, lastUpdate) >= UPDATE_PROCESSOR_STATUS_SECS {
          status.UpdateLastProcessedVersion(last.value.end);
          lastUpdate, updates := arrivals[i].after, updates + [arrivals[i].checked];
        }
      }
    }
    assert arrivals[..|arrivals|] == arrivals;
  }

  function ResultsIn(arrivals: seq<Arrival>): (rs: seq<ProcessingResult>)
    ensures |rs| == |arrivals| && forall i | 0 <= i < |rs| :: rs[i] == arrivals[i].result
  {
    seq(|arrivals|, i requires 0 <= i < |arrivals| => arrivals[i].result)
  }

  /** The tracked row never leads the frontier: whatever it holds beyond what it held before, every
      version from the start to it is covered by results received, and it never moves back. */
  lemma {:induction false} RowNeverLeads(start: nat, row: Option<nat>, started: nat, arrivals: seq<Arrival>)
    requires forall a <- arrivals :: WellFormed(a.result)
    ensures var k := Tracked(Tracker(Fresh(start), row, started, []), arrivals);
            && k.detector == AbsorbAll(Fresh(start), ResultsIn(arrivals))
            && (row.Some? ==> k.row.Some? && row.value <= k.row.value)
            && (k.row != row ==> k.row.value < k.detector.next)
            && (k.row != row ==> forall v :: start <= v <= k.row.value ==> Covered(Received(ResultsIn(arrivals)), v))
  {
    var rs := ResultsIn(arrivals);
    AnyRunSound(start, rs);
    if arrivals != [] {
      var front := arrivals[..|arrivals| - 1];
      RowNeverLeads(start, row, started, front);
      assert rs[..|rs| - 1] == ResultsIn(front);
      assert forall r <- ResultsIn(front) :: WellFormed(r);
      AnyRunSound(start, ResultsIn(front));
      AbsorbSound(start, Received(ResultsIn(front)), AbsorbAll(Fresh(start), ResultsIn(front)), rs[|rs| - 1]);
    }
  }

  /** When the row is written, and what: at an arrival checked a second or more after the clock, with the
      frontier past the start, it moves to the version before the frontier unless it is there already or
      beyond, and the clock restarts; at any other arrival nothing of this changes. */
  lemma RowFollowsFrontier(start: nat, row: Option<nat>, started: nat, arrivals: seq<Arrival>)
    requires arrivals != [] && forall a <- arrivals :: WellFormed(a.result)
    ensures var k, a := Tracker(Fresh(start), row, started, []), arrivals[|arrivals| - 1];
            var before, after := Tracked(k, arrivals[..|arrivals| - 1]), Tracked(k, arrivals);
            var next := AbsorbAll(Fresh(start), ResultsIn(arrivals)).next;
            if a.checked >= before.lastUpdate + 1000 && next > start then
              && after.row.Some? && after.row.value + 1 >= next
              && (after.row != before.row ==> after.row.value + 1 == next)
              && after.lastUpdate == a.after && after.updates == before.updates + [a.checked]
            else
              after.row == before.row && after.lastUpdate == before.lastUpdate && after.updates == before.updates
  {
    RowNeverLeads(start, row, started, arrivals);
    assert forall r <- ResultsIn(arrivals) :: WellFormed(r);
    FrontierPastStart(start, ResultsIn(arrivals));
    var k := Tracker(Fresh(start), row, started, []);
    DueIff(Tracked(k, arrivals[..|arrivals| - 1]), arrivals[|arrivals| - 1], start);
  }

  lemma DueIff(k: Tracker, a: Arrival, start: nat)
    requires var d := Absorb(k.detector, a.result);
             && (d.last.Some? <==> d.next > start) && (d.last.Some? ==> d.last.value.end + 1 == d.next)
    ensures Due(k, a) <==> a.checked >= k.lastUpdate + 1000 && Turn(k, a).detector.next > start
    ensures Due(k, a) ==> var r := Turn(k, a).row;
                          r.Some? && r.value + 1 >= Turn(k, a).detector.next && (r != k.row ==> r.value + 1 == Turn(k, a).detector.next)
  {
  }

  /** A batch has been absorbed exactly when the frontier is past the start. */
  lemma {:induction false} FrontierPastStart(start: nat, rs: seq<ProcessingResult>)
    requires forall r <- rs :: WellFormed(r)
    ensures var d := AbsorbAll(Fresh(start), rs);
            (d.last.Some? <==> d.next > start) && (d.last.Some? ==> d.last.value.end + 1 == d.next)
  {
    AnyRunSound(start, rs);
    if rs != [] {
      var front, r := rs[..|rs| - 1], rs[|rs| - 1];
      assert forall x <- front :: x in rs;
      FrontierPastStart(start, front);
      AnyRunSound(start, front);
      AbsorbSound(start, Received(front), AbsorbAll(Fresh(start), front), r);
      if AbsorbAll(Fresh(start), front).next == r.start {
        DrainAdvances(AbsorbAll(Fresh(start), front).seen, r, Received(front) + {r});
      }
    }
  }

  /** Writes of the row are at least a second apart, and the first is at least a second after the start. */
  ghost predicate Spaced(started: nat, updates: seq<nat>) {
    && (updates != [] ==> started + 1000 <= updates[0])
    && forall i, j | 0 <= i < j < |updates| :: updates[i] + 1000 <= updates[j]
  }

  /** However the results arrive, the row is written at most once a second. */
  lemma {:induction false} UpdatesAreSpaced(k: Tracker, arrivals: seq<Arrival>)
    requires k.updates == [] && forall a <- arrivals :: a.checked <= a.after
    ensures var k' := Tracked(k, arrivals);
            && Spaced(k.lastUpdate, k'.updates)
            && (k'.updates == [] ==> k'.lastUpdate == k.lastUpdate)
            && (k'.updates != [] ==> k'.updates[|k'.updates| - 1] <= k'.lastUpdate)
  {
    if arrivals != [] {
      assert forall a <- arrivals[..|arrivals| - 1] :: a in arrivals;
      assert arrivals[|arrivals| - 1] in arrivals;
      UpdatesAreSpaced(k, arrivals[..|arrivals| - 1]);
    }
  }

  // ---------- The detector's steps in the whole process ----------

  /** The process's events for a list of arrivals. */
  function Detects(k: Tracker, arrivals: seq<Arrival>): seq<Pipeline.Event> {
    if arrivals == [] then []
    else
      var front := arrivals[..|arrivals| - 1];
      Detects(k, front) + [Pipeline.Detect(Due(Tracked(k, front), arrivals[|arrivals| - 1]))]
  }

  /** The process is where the tracker is, with `rest` still to be received. */
  ghost predicate InStep(w: Pipeline.World, k: Tracker, rest: seq<ProcessingResult>) {
    && w.life.Some? && w.life.value.results == rest
    && w.life.value.detector == k.detector && w.checkpoint == k.row
  }

  /** In the whole process the waiting results can be received exactly as the loop receives them. */
  lemma {:induction false} DetectsAreTracked(
    p: Pipeline.Setting, w: Pipeline.World, k: Tracker, arrivals: seq<Arrival>, rest: seq<ProcessingResult>)
    requires InStep(w, k, ResultsIn(arrivals) + rest)
    ensures Pipeline.Possible(p, w, Detects(k, arrivals))
    ensures InStep(Pipeline.After(p, w, Detects(k, arrivals)), Tracked(k, arrivals), rest)
  {
    if arrivals == [] {
      assert ResultsIn(arrivals) + rest == rest;
    } else {
      var front, a := arrivals[..|arrivals| - 1], arrivals[|arrivals| - 1];
      assert ResultsIn(arrivals) + rest == ResultsIn(front) + ([a.result] + rest);
      DetectsAreTracked(p, w, k, front, [a.result] + rest);
      var es, before := Detects(k, arrivals), Tracked(k, front);
      assert es[..|es| - 1] == Detects(k, front) && es[|es| - 1] == Pipeline.Detect(Due(before, a));
      assert ([a.result] + rest)[1..] == rest;
    }
  }
}
