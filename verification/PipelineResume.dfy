/** Where a run begins: right after the checkpoint, or where the configuration says. */
module PipelineResume {
  import opened Options
  import opened Fetching
  import opened Pipeline
  import opened PipelineConservation
  import opened PipelineProgress
  import E = EndToEnd

  ghost predicate AtLeast(from: nat, txns: seq<Transaction>) {
    forall t <- txns :: from <= t.version
  }

  /** What was written after the first `n` statements, and what is on its way to be written, is no older
      than `from`. */
  ghost predicate NewFrom(w: World, n: nat, from: nat) {
    && n <= |w.writes| && (forall i | n <= i < |w.writes| :: AtLeast(from, w.writes[i].txns))
    && (w.life.Some? ==>
          var l := w.life.value;
          && (forall m <- l.sent :: AtLeast(from, m.txns))
          && (forall m <- l.outbox :: AtLeast(from, m.txns)) && (forall m <- l.queue :: AtLeast(from, m.txns))
          && (forall i | 0 <= i < |l.tasks| :: l.tasks[i].Working? ==> AtLeast(from, l.tasks[i].msg.txns)))
  }

  lemma FetchKeepsNewFrom(p: Setting, w: World, e: Event, n: nat, from: nat)
    requires e.Fetch? && Enabled(p, w, e) && NewFrom(w, n, from)
    requires FetchOk(p, w.life.value) && from <= w.life.value.start
    ensures NewFrom(Step(p, w, e), n, from)
  {
    if Step(p, w, e).life.Some? {
      E.AcceptedFetch(p, w, e);
      E.SplitInside(p, w.life.value.start, e.a, e.b, e.chainId, e.encodedLen);
      forall m <- Step(p, w, e).life.value.outbox
        ensures AtLeast(from, m.txns)
      {
        assert E.Inside(e.a, e.b + 1, m.txns);
      }
    }
  }

  lemma StepKeepsNewFrom(p: Setting, w: World, e: Event, n: nat, from: nat)
    requires Enabled(p, w, e) && !e.Boot? && NewFrom(w, n, from)
    requires FetchOk(p, w.life.value) && from <= w.life.value.start
    ensures NewFrom(Step(p, w, e), n, from)
  {
    if e.Fetch? { FetchKeepsNewFrom(p, w, e, n, from); }
    else if e.Take? { assert w.life.value.queue[0] in w.life.value.queue; }
    else if e.Send? { assert w.life.value.outbox[0] in w.life.value.outbox; }
  }

  /** While the process of `w` lives on. */
  lemma {:induction false} LifeKeepsStart(p: Setting, w: World, es: seq<Event>, n: nat, from: nat)
    requires Possible(p, w, es) && Quiet(es) && w.life.Some? && FetchOk(p, w.life.value)
    requires w.life.value.start == from && NewFrom(w, n, from)
    ensures var w' := After(p, w, es);
            NewFrom(w', n, from) && (w'.life.Some? ==> w'.life.value.start == from && FetchOk(p, w'.life.value))
  {
    if es != [] {
      var front, e := es[..|es| - 1], es[|es| - 1];
      assert forall x <- front :: x in es;
      assert e in es;
      LifeKeepsStart(p, w, front, n, from);
      var before := After(p, w, front);
      StepKeepsNewFrom(p, before, e, n, from);
      StepKeepsFetchOk(p, before, e);
    }
  }

  /** A run begins at `from`: the configured version; else the version after the checkpoint; else 0. */
  ghost predicate BeginsAt(w: World, boot: Event, from: nat) {
    && boot.Boot?
    && match boot.startingVersion
       case Some(v) => from == v
       case None => if w.checkpoint.Some? then from == w.checkpoint.value + 1 else from == 0
  }

  /** Until the next crash, whatever happens: every message lies at or after that version, together they
      span everything from it to the next version to fetch, and everything written since the start is of
      that version or later. */
  lemma RunsBeginWhereTheyShould(p: Setting, w: World, boot: Event, from: nat, es: seq<Event>)
    requires Enabled(p, w, boot) && BeginsAt(w, boot, from)
    requires Possible(p, Step(p, w, boot), es) && Quiet(es)
    ensures var w' := After(p, Step(p, w, boot), es);
            && |w.writes| <= |w'.writes|
            && (forall i, t | |w.writes| <= i < |w'.writes| && t in w'.writes[i].txns :: from <= t.version)
            && (w'.life.Some? ==>
                  var l := w'.life.value;
                  && from <= l.fetch.next
                  && (forall m <- l.sent + l.outbox :: from <= m.start && AtLeast(from, m.txns))
                  && (forall v | from <= v < l.fetch.next :: Spans(l.sent + l.outbox, v)))
  {
    var w1 := Step(p, w, boot);
    assert FetchOk(p, w1.life.value);
    LifeKeepsStart(p, w1, es, |w.writes|, from);
    var w' := After(p, w1, es);
    forall i, t | |w.writes| <= i < |w'.writes| && t in w'.writes[i].txns
      ensures from <= t.version
    {
      assert AtLeast(from, w'.writes[i].txns);
    }
  }
}
