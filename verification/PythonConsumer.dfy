/** The Python consumer's round as it runs: gather, join, look for gaps, move the row. */
module PythonConsumer {
  import opened Options
  import opened PythonPipeline

  /** The batches among the answers of the queue, in order. */
  function Batches(offers: seq<Option<Batch>>): seq<Batch> {
    if offers == [] then []
    else
      var o := offers[|offers| - 1];
      Batches(offers[..|offers| - 1]) + (if o.Some? then [o.value] else [])
  }

  /** The consumer after a list of attempts, as the machine takes them. */
  function Attempts(offers: seq<Option<Batch>>): Consumer {
    if offers == [] then Gathering([], 0)
    else
      var c := Attempts(offers[..|offers| - 1]);
      if c.Gathering? then Asked(c, offers[|offers| - 1]) else c
  }

  /** A full round of attempts ends at the barrier with exactly the batches that were offered. */
  lemma {:induction false} AttemptsGather(offers: seq<Option<Batch>>)
    requires |offers| <= TASKS
    ensures Attempts(offers) == if |offers| < TASKS then Gathering(Batches(offers), |offers|)
                                else Barrier(Batches(offers), {}, {})
  {
    if offers != [] { AttemptsGather(offers[..|offers| - 1]); }
  }

  lemma {:induction false} BatchesNonEmpty(offers: seq<Option<Batch>>)
    requires offers != [] && offers[0].Some?
    requires forall o <- offers :: o.Some? ==> o.value != []
    ensures Batches(offers) != [] && NonEmpty(Batches(offers))
  {
    var front := offers[..|offers| - 1];
    assert offers[|offers| - 1] in offers;
    assert forall o <- front :: o in offers;
    if |offers| > 1 { BatchesNonEmpty(front); } else { assert Batches(offers) == [] + [offers[0].value]; }
  }

  /** How many batches, from the `i`-th on, do not start right after the one before. */
  function Gaps(held: seq<Batch>, i: nat): nat
    requires NonEmpty(held) && 1 <= i
    decreases |held| - i
  {
    if i >= |held| then 0
    else (if held[i - 1][|held[i - 1]| - 1] + 1 != held[i][0] then 1 else 0) + Gaps(held, i + 1)
  }

  /** What a round comes to: it is refused exactly when a thread failed, and then the row stays; else the
      row moves past the last batch. */
  predicate Rounded(offers: seq<Option<Batch>>, failed: set<nat>, row: Option<nat>, ok: bool, row': Option<nat>) {
    var held := Batches(offers);
    && held != [] && NonEmpty(held)
    && (ok <==> forall i | 0 <= i < |held| :: i !in failed)
    && (ok ==> row' == UpsertNext(row, LastVersion(held)))
    && (!ok ==> row' == row)
  }

  class ConsumerLoop {
    var batchStartVersion: nat
    var nextVersionRow: Option<nat>

    constructor (start: nat, row: Option<nat>)
      ensures batchStartVersion == start && nextVersionRow == row
    {
      batchStartVersion, nextVersionRow := start, row;
    }

    /** Insert the row, or overwrite a smaller one. */
    method UpdateLastProcessedVersion(last: nat)
      modifies this`nextVersionRow
      ensures nextVersionRow == UpsertNext(old(nextVersionRow), last)
    {
      if nextVersionRow == None {
        nextVersionRow := Some(last + 1);
      } else if last + 1 > nextVersionRow.value {
        nextVersionRow := Some(last + 1);
      }
    }

    /** The first attempt waits for a batch; the others may find none. */
    method Gather(offers: seq<Option<Batch>>) returns (held: seq<Batch>)
      requires |offers| == TASKS && offers[0].Some?
      ensures Attempts(offers) == Barrier(held, {}, {})
    {
      held := [];
      for i := 0 to TASKS
        invariant held == Batches(offers[..i])
      {
        assert offers[..i + 1][..i] == offers[..i];
        if offers[i].Some? { held := held + [offers[i].value]; }
      }
      assert offers[..TASKS] == offers;
      AttemptsGather(offers);
    }

    /** Walk the results in order, counting those that do not follow on. */
    method WalkResults(held: seq<Batch>) returns (prevEnd: nat, gaps: nat)
      requires held != [] && NonEmpty(held)
      ensures prevEnd == LastVersion(held) && gaps == Gaps(held, 1)
    {
      prevEnd, gaps := held[0][|held[0]| - 1], 0;
      for i := 1 to |held|
        invariant prevEnd == held[i - 1][|held[i - 1]| - 1]
        invariant gaps + Gaps(held, i) == Gaps(held, 1)
      {
        if prevEnd + 1 != held[i][0] { gaps := gaps + 1; }
        prevEnd := held[i][|held[i]| - 1];
      }
    }

    /** One round. A failed thread ends the process and leaves the row alone; otherwise the row and the
        next start move past the last batch, gaps or not. `gaps` counts the batches after the first
        that do not follow on. */
    method Round(offers: seq<Option<Batch>>, failed: set<nat>) returns (ok: bool, gaps: nat)
      requires |offers| == TASKS && offers[0].Some?
      requires forall o <- offers :: o.Some? ==> o.value != []
      modifies this
      ensures Rounded(offers, failed, old(nextVersionRow), ok, nextVersionRow)
      ensures ok ==> batchStartVersion == LastVersion(Batches(offers)) + 1
      ensures ok ==> gaps == Gaps(Batches(offers), 1)
      ensures !ok ==> batchStartVersion == old(batchStartVersion)
    {
      var held := Gather(offers);
      AttemptsGather(offers);
      BatchesNonEmpty(offers);
      gaps := 0;
      for i := 0 to |held|
        invariant forall j | 0 <= j < i :: j !in failed
      {
        if i in failed { return false, 0; }
      }
      var prevEnd;
      prevEnd, gaps := WalkResults(held);
      batchStartVersion := prevEnd + 1;
      UpdateLastProcessedVersion(prevEnd);
      ok := true;
    }
  }

  /** Whatever a round comes to is what the machine's join does: the same verdict, and the same row. */
  lemma RoundIsJoin(
    w: World, offers: seq<Option<Batch>>, finished: set<nat>, failed: set<nat>, ok: bool, row: Option<nat>)
    requires LocalOk(w) && Running(w) && w.life.value.consumer == Barrier(Batches(offers), finished, failed)
    requires Enabled(w, Join) && Rounded(offers, failed, w.nextRow, ok, row)
    ensures Step(w, Join).nextRow == row
    ensures Step(w, Join).life.Some? && (ok <==> Step(w, Join).life.value.exit == None)
    ensures ok ==> Step(w, Join).life.value.handled == w.life.value.handled + Batches(offers)
  {
  }
}
