/** Concurrent statements that take row locks in list order and keep them to the end cannot
    deadlock when every list is in strict key order. */
module LockOrder {
  import opened Upserts

  /** Statement `i` takes the locks `plan[i]` in order. It has taken the first `pos[i]` and holds
      them until it is done. */
  datatype Locks = Locks(pos: seq<nat>, done: seq<bool>)

  datatype Move = Acquire(i: nat) | Finish(i: nat)

  predicate Wellformed(plan: seq<seq<Key>>, s: Locks) {
    |s.pos| == |plan| && |s.done| == |plan| && forall i | 0 <= i < |plan| :: s.pos[i] <= |plan[i]|
  }

  predicate Holds(plan: seq<seq<Key>>, s: Locks, i: nat, k: Key)
    requires Wellformed(plan, s) && i < |plan|
  {
    !s.done[i] && k in plan[i][..s.pos[i]]
  }

  predicate Waiting(plan: seq<seq<Key>>, s: Locks, i: nat)
    requires Wellformed(plan, s)
  {
    i < |plan| && !s.done[i] && s.pos[i] < |plan[i]|
  }

  function Wanted(plan: seq<seq<Key>>, s: Locks, i: nat): Key
    requires Wellformed(plan, s) && Waiting(plan, s, i)
  {
    plan[i][s.pos[i]]
  }

  ghost predicate CanMove(plan: seq<seq<Key>>, s: Locks, m: Move)
    requires Wellformed(plan, s)
  {
    match m
    case Acquire(i) =>
      && Waiting(plan, s, i)
      && forall j: nat | j < |plan| && j != i :: !Holds(plan, s, j, Wanted(plan, s, i))
    case Finish(i) => i < |plan| && !s.done[i] && s.pos[i] == |plan[i]|
  }

  ghost function Moved(plan: seq<seq<Key>>, s: Locks, m: Move): (s': Locks)
    requires Wellformed(plan, s) && CanMove(plan, s, m)
    ensures Wellformed(plan, s')
  {
    match m
    case Acquire(i) => s.(pos := s.pos[i := s.pos[i] + 1])
    case Finish(i) => s.(done := s.done[i := true])
  }

  function AtStart(plan: seq<seq<Key>>): Locks {
    Locks(seq(|plan|, _ => 0), seq(|plan|, _ => false))
  }

  /** The state after a list of moves; a move that is not possible changes nothing. */
  ghost function After(plan: seq<seq<Key>>, ms: seq<Move>): (s: Locks)
    ensures Wellformed(plan, s)
  {
    if ms == [] then AtStart(plan)
    else
      var s, m := After(plan, ms[..|ms| - 1]), ms[|ms| - 1];
      if CanMove(plan, s, m) then Moved(plan, s, m) else s
  }

  ghost predicate Possible(plan: seq<seq<Key>>, ms: seq<Move>) {
    ms == [] ||
    (Possible(plan, ms[..|ms| - 1]) && CanMove(plan, After(plan, ms[..|ms| - 1]), ms[|ms| - 1]))
  }

  ghost predicate Stuck(plan: seq<seq<Key>>, s: Locks)
    requires Wellformed(plan, s)
  {
    forall m :: !CanMove(plan, s, m)
  }

  predicate Ascending(keys: seq<Key>) {
    forall i, j | 0 <= i < j < |keys| :: KeyLess(keys[i], keys[j])
  }

  predicate Finished(s: Locks) {
    forall i | 0 <= i < |s.done| :: s.done[i]
  }

  // ---------- Progress ----------

  /** Among the waiting statements below `n` there is one that wants the greatest key. */
  lemma {:induction false} GreatestWanted(plan: seq<seq<Key>>, s: Locks, n: nat) returns (g: nat)
    requires Wellformed(plan, s) && n <= |plan|
    requires exists i :: 0 <= i < n && Waiting(plan, s, i)
    ensures g < n && Waiting(plan, s, g)
    ensures forall i: nat | i < n && Waiting(plan, s, i) :: !KeyLess(Wanted(plan, s, g), Wanted(plan, s, i))
  {
    if exists i :: 0 <= i < n - 1 && Waiting(plan, s, i) {
      g := GreatestWanted(plan, s, n - 1);
      if Waiting(plan, s, n - 1) && KeyLess(Wanted(plan, s, g), Wanted(plan, s, n - 1)) {
        var last := Wanted(plan, s, n - 1);
        forall i: nat | i < n && Waiting(plan, s, i)
          ensures !KeyLess(last, Wanted(plan, s, i))
        {
          KeyOrderTotal(last, last);
          if KeyLess(last, Wanted(plan, s, i)) {
            KeyOrderTransitive(Wanted(plan, s, g), last, Wanted(plan, s, i));
          }
        }
        g := n - 1;
      }
    } else {
      g := n - 1;
      KeyOrderTotal(Wanted(plan, s, g), Wanted(plan, s, g));
    }
  }

  /** Whoever holds the greatest wanted key waits for nothing. */
  lemma HolderHasAll(plan: seq<seq<Key>>, s: Locks, g: nat, j: nat)
    requires Wellformed(plan, s) && Waiting(plan, s, g) && j < |plan| && Ascending(plan[j])
    requires forall i: nat | i < |plan| && Waiting(plan, s, i) :: !KeyLess(Wanted(plan, s, g), Wanted(plan, s, i))
    requires Holds(plan, s, j, Wanted(plan, s, g))
    ensures s.pos[j] == |plan[j]|
  {
    var h :| 0 <= h < s.pos[j] && plan[j][h] == Wanted(plan, s, g);
    assert s.pos[j] < |plan[j]| ==> KeyLess(plan[j][h], plan[j][s.pos[j]]) && Waiting(plan, s, j);
  }

  /** Deadlock freedom: in every state that any moves can reach, unless all statements are done, some
      statement can take its next lock or finish. */
  lemma NoDeadlock(plan: seq<seq<Key>>, ms: seq<Move>)
    requires forall keys <- plan :: Ascending(keys)
    requires !Finished(After(plan, ms))
    ensures !Stuck(plan, After(plan, ms))
  {
    var s := After(plan, ms);
    var i :| 0 <= i < |s.done| && !s.done[i];
    if s.pos[i] == |plan[i]| {
      assert CanMove(plan, s, Finish(i));
    } else {
      assert Waiting(plan, s, i);
      var g := GreatestWanted(plan, s, |plan|);
      if j: nat :| j < |plan| && j != g && Holds(plan, s, j, Wanted(plan, s, g)) {
        HolderHasAll(plan, s, g, j);
        assert CanMove(plan, s, Finish(j));
      } else {
        assert CanMove(plan, s, Acquire(g));
      }
    }
  }

  // ---------- Exclusion and termination ----------

  ghost predicate Exclusive(plan: seq<seq<Key>>, s: Locks)
    requires Wellformed(plan, s)
  {
    forall i: nat, j: nat, k | i < j < |plan| && Holds(plan, s, i, k) :: !Holds(plan, s, j, k)
  }

  /** No two unfinished statements ever hold the same row. */
  lemma {:induction false} LocksAreExclusive(plan: seq<seq<Key>>, ms: seq<Move>)
    requires Possible(plan, ms)
    ensures Exclusive(plan, After(plan, ms))
  {
    if ms == [] {
      assert forall i: nat, k | i < |plan| :: !Holds(plan, AtStart(plan), i, k);
    } else {
      var s, m := After(plan, ms[..|ms| - 1]), ms[|ms| - 1];
      LocksAreExclusive(plan, ms[..|ms| - 1]);
      MoveKeepsExclusive(plan, s, m);
    }
  }

  lemma MoveKeepsExclusive(plan: seq<seq<Key>>, s: Locks, m: Move)
    requires Wellformed(plan, s) && CanMove(plan, s, m) && Exclusive(plan, s)
    ensures Exclusive(plan, Moved(plan, s, m))
  {
    forall i: nat, j: nat, k |
      i < j < |plan| && Holds(plan, Moved(plan, s, m), i, k) && Holds(plan, Moved(plan, s, m), j, k)
      ensures false
    {
      HoldsAfter(plan, s, m, i, k);
      HoldsAfter(plan, s, m, j, k);
    }
  }

  lemma HoldsAfter(plan: seq<seq<Key>>, s: Locks, m: Move, i: nat, k: Key)
    requires Wellformed(plan, s) && CanMove(plan, s, m) && i < |plan|
    requires Holds(plan, Moved(plan, s, m), i, k)
    ensures Holds(plan, s, i, k) || (m == Acquire(i) && k == Wanted(plan, s, i))
  {
    if m == Acquire(i) {
      assert plan[i][..s.pos[i] + 1] == plan[i][..s.pos[i]] + [plan[i][s.pos[i]]];
    }
  }

  /** Moves still to be made by the first `n` statements. */
  function WorkLeft(plan: seq<seq<Key>>, s: Locks, n: nat): nat
    requires Wellformed(plan, s) && n <= |plan|
  {
    if n == 0 then 0
    else WorkLeft(plan, s, n - 1) + (|plan[n - 1]| - s.pos[n - 1]) + (if s.done[n - 1] then 0 else 1)
  }

  lemma {:induction false} MoveDoesWork(plan: seq<seq<Key>>, s: Locks, m: Move, n: nat)
    requires Wellformed(plan, s) && CanMove(plan, s, m) && n <= |plan|
    ensures WorkLeft(plan, Moved(plan, s, m), n) == WorkLeft(plan, s, n) - (if m.i < n then 1 else 0)
  {
    if n > 0 { MoveDoesWork(plan, s, m, n - 1); }
  }

  /** Every run is bounded by the work there is at the start. */
  lemma {:induction false} RunsAreBounded(plan: seq<seq<Key>>, ms: seq<Move>)
    requires Possible(plan, ms)
    ensures |ms| + WorkLeft(plan, After(plan, ms), |plan|) == WorkLeft(plan, AtStart(plan), |plan|)
  {
    if ms != [] {
      RunsAreBounded(plan, ms[..|ms| - 1]);
      MoveDoesWork(plan, After(plan, ms[..|ms| - 1]), ms[|ms| - 1], |plan|);
    }
  }

  /** Every run that cannot go on has finished all its statements, and none goes on for ever. */
  lemma MaximalRunsFinish(plan: seq<seq<Key>>, ms: seq<Move>)
    requires forall keys <- plan :: Ascending(keys)
    requires Possible(plan, ms)
    ensures |ms| <= WorkLeft(plan, AtStart(plan), |plan|)
    ensures Stuck(plan, After(plan, ms)) ==> Finished(After(plan, ms))
  {
    RunsAreBounded(plan, ms);
    if !Finished(After(plan, ms)) { NoDeadlock(plan, ms); }
  }

  /** Without the sort two statements over the same two rows can lock each other out. */
  lemma UnsortedCanDeadlock()
    ensures var plan: seq<seq<Key>> := [[["a"], ["b"]], [["b"], ["a"]]];
            var s := After(plan, [Acquire(0), Acquire(1)]);
            Possible(plan, [Acquire(0), Acquire(1)]) && Stuck(plan, s) && !Finished(s)
  {
    var plan: seq<seq<Key>> := [[["a"], ["b"]], [["b"], ["a"]]];
    var ms := [Acquire(0), Acquire(1)];
    var s0, s1, s2 := Locks([0, 0], [false, false]), Locks([1, 0], [false, false]), Locks([1, 1], [false, false]);
    assert ms[..1] == [Acquire(0)] && ms[..1][..0] == [];
    assert After(plan, []) == AtStart(plan) == s0 && Possible(plan, []);
    assert ["a"][0] != ["b"][0];
    assert plan[0][..1] == [["a"]] && plan[1][..0] == [] && plan[1][..1] == [["b"]];
    assert CanMove(plan, s0, Acquire(0)) && Moved(plan, s0, Acquire(0)) == s1;
    assert After(plan, ms[..1]) == s1 && Possible(plan, ms[..1]);
    assert CanMove(plan, s1, Acquire(1)) && Moved(plan, s1, Acquire(1)) == s2;
    assert After(plan, ms) == s2;
    assert Wanted(plan, s2, 0) == ["b"] && Holds(plan, s2, 1, ["b"]);
    assert Wanted(plan, s2, 1) == ["a"] && Holds(plan, s2, 0, ["a"]);
    assert !s2.done[0];
  }
}
