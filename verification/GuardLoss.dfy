/** The guard is dropped from a statement whose rendered text mentions "where". When the order of
    statements then matters, and when it matters anyway. */
module GuardLoss {
  import opened Upserts

  function Lower(s: string): string {
    seq(|s|, i requires 0 <= i < |s| =>
      if 'A' <= s[i] <= 'Z' then ((s[i] as int) - ('A' as int) + ('a' as int)) as char else s[i])
  }

  predicate Mentions(s: string, word: string) {
    exists i | 0 <= i <= |s| :: word <= s[i..]
  }

  /** The guard stays on a statement unless its text, values included, mentions "where". */
  predicate KeepsGuard(rendered: string) {
    !Mentions(Lower(rendered), "where")
  }

  /** The letter, in either case. */
  predicate Letter(c: char, lower: char, upper: char) {
    c == lower || c == upper
  }

  /** From position `i` the text spells "where", each letter in either case. */
  predicate Spells(s: string, i: nat) {
    && i + 5 <= |s|
    && Letter(s[i], 'w', 'W') && Letter(s[i + 1], 'h', 'H') && Letter(s[i + 2], 'e', 'E')
    && Letter(s[i + 3], 'r', 'R') && Letter(s[i + 4], 'e', 'E')
  }

  lemma SpellsWhere(s: string, i: nat)
    requires i <= |s|
    ensures "where" <= Lower(s)[i..] <==> Spells(s, i)
  {
    var low := Lower(s);
    if i + 5 <= |low| {
      assert low[i..][..5] == [low[i], low[i + 1], low[i + 2], low[i + 3], low[i + 4]];
      assert "where" <= low[i..] <==> low[i..][..5] == "where";
    }
  }

  /** The guard stays exactly when the text spells "where" nowhere. */
  lemma KeepsGuardIff(rendered: string)
    ensures KeepsGuard(rendered) <==> forall i: nat :: !Spells(rendered, i)
  {
    if i: nat :| Spells(rendered, i) { SpellsWhere(rendered, i); }
    if !KeepsGuard(rendered) {
      var i :| 0 <= i <= |Lower(rendered)| && "where" <= Lower(rendered)[i..];
      SpellsWhere(rendered, i);
    }
  }

  /** A statement as it is sent: `render` is the text of the query with its bound values. */
  function Prepare<D>(render: seq<Row<D>> -> string, rows: seq<Row<D>>): Statement<D> {
    Statement(rows, KeepsGuard(render(rows)))
  }

  function AllWrites<D>(stmts: seq<Statement<D>>): seq<RowWrite<D>> {
    if stmts == [] then [] else AllWrites(stmts[..|stmts| - 1]) + Writes(stmts[|stmts| - 1])
  }

  lemma {:induction false} AllWritesMembers<D>(stmts: seq<Statement<D>>, w: RowWrite<D>)
    ensures w in AllWrites(stmts) <==> exists s :: s in stmts && w in Writes(s)
  {
    if stmts != [] {
      var front, last := stmts[..|stmts| - 1], stmts[|stmts| - 1];
      AllWritesMembers(front, w);
      assert stmts == front + [last];
      assert forall s :: s in stmts <==> s in front || s == last;
    }
  }

  lemma {:induction false} UpsertAllSplit<D>(
    wins: Wins, t: Table<D>, a: seq<RowWrite<D>>, b: seq<RowWrite<D>>)
    ensures UpsertAll(wins, t, a + b) == UpsertAll(wins, UpsertAll(wins, t, a), b)
    decreases |b|
  {
    if b == [] {
      assert a + b == a;
    } else {
      assert (a + b)[..|a + b| - 1] == a + b[..|b| - 1];
      UpsertAllSplit(wins, t, a, b[..|b| - 1]);
    }
  }

  ghost function TableAfter<D(!new)>(wins: Wins, stmts: seq<Statement<D>>): Table<D> {
    UpsertAll(wins, map[], AllWrites(stmts))
  }

  /** All orders of the statements end in the same table. */
  ghost predicate OrderIrrelevant<D(!new)>(wins: Wins, stmts: seq<Statement<D>>) {
    forall p | multiset(p) == multiset(stmts) :: TableAfter(wins, p) == TableAfter(wins, stmts)
  }

  /** No statement without its guard carries a row that another statement's row beats. */
  ghost predicate NoStaleUnguarded<D(!new)>(wins: Wins, stmts: seq<Statement<D>>) {
    forall s, r | s in stmts && !s.guarded && r in s.rows :: Top(wins, AllWrites(stmts), r)
  }

  /** Among the rows written to a key only one is beaten by none. */
  ghost predicate NoTies<D(!new)>(wins: Wins, stmts: seq<Statement<D>>) {
    forall w, x | w in AllWrites(stmts) && x in AllWrites(stmts) && w.row.key == x.row.key
               && Top(wins, AllWrites(stmts), w.row) && Top(wins, AllWrites(stmts), x.row) :: w.row == x.row
  }

  predicate DistinctKeys<D>(rows: seq<Row<D>>) {
    forall i, j | 0 <= i < j < |rows| :: rows[i].key != rows[j].key
  }

  lemma SameMembers<D>(p: seq<Statement<D>>, stmts: seq<Statement<D>>, w: RowWrite<D>)
    requires multiset(p) == multiset(stmts)
    ensures w in AllWrites(p) <==> w in AllWrites(stmts)
  {
    AllWritesMembers(p, w);
    AllWritesMembers(stmts, w);
    assert forall s :: s in p <==> s in multiset(p);
    assert forall s :: s in stmts <==> s in multiset(stmts);
  }

  /** Without stale unguarded rows every order ends with a best row for each key. */
  lemma EveryOrderIsBest<D(!new)>(wins: Wins, stmts: seq<Statement<D>>, p: seq<Statement<D>>)
    requires NoStaleUnguarded(wins, stmts) && multiset(p) == multiset(stmts)
    ensures BestOf(wins, UpsertAll(wins, map[], AllWrites(p)), AllWrites(stmts))
  {
    var ws, all := AllWrites(p), AllWrites(stmts);
    forall w: RowWrite<D> ensures w in ws <==> w in all { SameMembers(p, stmts, w); }
    forall w <- ws
      ensures w.guarded || Top(wins, all, w.row)
    {
      AllWritesMembers(stmts, w);
      var s :| s in stmts && w in Writes(s);
      var i :| 0 <= i < |s.rows| && w == RowWrite(s.rows[i], s.guarded);
    }
    UpsertsKeepBest(wins, ws, all);
    var t := UpsertAll<D>(wins, map[], ws);
    forall k <- t
      ensures Top(wins, all, t[k]) && exists w :: w in all && w.row == t[k]
    {
      assert Top(wins, ws, t[k]);
      var w :| w in ws && w.row == t[k];
      assert w in all;
    }
  }

  lemma MoveLast<T>(xs: seq<T>, x: T) returns (others: seq<T>)
    requires x in xs
    ensures multiset(others + [x]) == multiset(xs)
  {
    var n :| 0 <= n < |xs| && xs[n] == x;
    others := xs[..n] + xs[n + 1..];
    assert xs == xs[..n] + [x] + xs[n + 1..];
  }

  /** Rows of other keys leave a key alone. */
  lemma {:induction false} OtherKeysKeep<D>(wins: Wins, t: Table<D>, ws: seq<RowWrite<D>>, k: Key)
    requires forall w <- ws :: w.row.key != k
    ensures (k in UpsertAll(wins, t, ws) <==> k in t) && (k in t ==> UpsertAll(wins, t, ws)[k] == t[k])
  {
    if ws != [] {
      assert forall w <- ws[..|ws| - 1] :: w in ws;
      assert ws[|ws| - 1] in ws;
      OtherKeysKeep(wins, t, ws[..|ws| - 1], k);
    }
  }

  /** The statement that runs last decides about a row of its own: without a guard the row stays, and with
      one it stays unless a strictly better row is there. */
  lemma LastStatementDecides<D(!new)>(wins: Wins, t: Table<D>, s: Statement<D>, i: nat)
    requires i < |s.rows| && DistinctKeys(s.rows)
    ensures var r, t' := s.rows[i], UpsertAll(wins, t, Writes(s));
            && r.key in t'
            && (!s.guarded || r.key !in t || Beats(wins, r.version, t[r.key].version) ==> t'[r.key] == r)
            && (s.guarded ==> Beats(wins, t'[r.key].version, r.version))
  {
    var r, ws := s.rows[i], Writes(s);
    var before := UpsertAll(wins, t, ws[..i]);
    forall w <- ws[..i] ensures w.row.key != r.key { var j :| 0 <= j < i && ws[j] == w; }
    OtherKeysKeep(wins, t, ws[..i], r.key);
    assert ws[..i + 1][..i] == ws[..i];
    forall w <- ws[i + 1..] ensures w.row.key != r.key { var j :| i < j < |ws| && ws[j] == w; }
    UpsertAllSplit(wins, t, ws[..i + 1], ws[i + 1..]);
    assert ws == ws[..i + 1] + ws[i + 1..];
    OtherKeysKeep(wins, UpsertAll(wins, t, ws[..i + 1]), ws[i + 1..], r.key);
  }

  lemma LastTable<D(!new)>(wins: Wins, others: seq<Statement<D>>, s: Statement<D>)
    ensures TableAfter(wins, others + [s]) == UpsertAll(wins, TableAfter(wins, others), Writes(s))
  {
    assert (others + [s])[..|others|] == others;
    UpsertAllSplit<D>(wins, map[], AllWrites(others), Writes(s));
  }

  /** What a table holds was written. */
  lemma {:induction false} HeldWasWritten<D(!new)>(wins: Wins, ws: seq<RowWrite<D>>, k: Key)
    requires k in UpsertAll<D>(wins, map[], ws)
    ensures exists w :: w in ws && w.row == UpsertAll<D>(wins, map[], ws)[k]
  {
    var front, w := ws[..|ws| - 1], ws[|ws| - 1];
    var t := UpsertAll<D>(wins, map[], front);
    if UpsertAll<D>(wins, map[], ws)[k] == w.row {
      assert w in ws;
    } else {
      HeldWasWritten(wins, front, k);
      var x :| x in front && x.row == t[k];
      assert x in ws;
    }
  }

  /** A row that no write beats, or that is written without a guard, stays when its statement runs last. */
  lemma LastRowStays<D(!new)>(wins: Wins, stmts: seq<Statement<D>>, s: Statement<D>, r: Row<D>)
    returns (p: seq<Statement<D>>)
    requires s in stmts && r in s.rows && DistinctKeys(s.rows)
    requires !s.guarded || Top(wins, AllWrites(stmts), r)
    ensures multiset(p) == multiset(stmts) && r.key in TableAfter(wins, p) && TableAfter(wins, p)[r.key] == r
  {
    var others := MoveLast(stmts, s);
    p := others + [s];
    LastTable(wins, others, s);
    var i :| 0 <= i < |s.rows| && s.rows[i] == r;
    var t := TableAfter(wins, others);
    if s.guarded && r.key in t {
      HeldWasWritten(wins, AllWrites(others), r.key);
      var w :| w in AllWrites(others) && w.row == t[r.key];
      assert p[..|others|] == others;
      assert w in AllWrites(p);
      SameMembers(p, stmts, w);
    }
    LastStatementDecides(wins, t, s, i);
  }

  /** A stale row does not stay when the statement that beats it runs last. */
  lemma BetterRowLast<D(!new)>(wins: Wins, stmts: seq<Statement<D>>, s: Statement<D>, r: Row<D>, q: Row<D>)
    returns (p: seq<Statement<D>>)
    requires s in stmts && q in s.rows && DistinctKeys(s.rows) && q.key == r.key && !Beats(wins, r.version, q.version)
    ensures multiset(p) == multiset(stmts) && r.key in TableAfter(wins, p) && TableAfter(wins, p)[r.key] != r
  {
    var others := MoveLast(stmts, s);
    p := others + [s];
    LastTable(wins, others, s);
    var i :| 0 <= i < |s.rows| && s.rows[i] == q;
    LastStatementDecides(wins, TableAfter(wins, others), s, i);
  }

  lemma WriteOf<D(!new)>(stmts: seq<Statement<D>>, w: RowWrite<D>) returns (s: Statement<D>)
    requires w in AllWrites(stmts)
    ensures s in stmts && w.row in s.rows && s.guarded == w.guarded
  {
    AllWritesMembers(stmts, w);
    s :| s in stmts && w in Writes(s);
    var i :| 0 <= i < |s.rows| && w == Writes(s)[i];
    assert w.row == s.rows[i];
  }

  lemma StaleUnguardedMatters<D(!new)>(wins: Wins, stmts: seq<Statement<D>>, s: Statement<D>, r: Row<D>)
    requires (forall s <- stmts :: DistinctKeys(s.rows)) && s in stmts && !s.guarded && r in s.rows
    requires !Top(wins, AllWrites(stmts), r)
    ensures !OrderIrrelevant(wins, stmts)
  {
    var w :| w in AllWrites(stmts) && w.row.key == r.key && !Beats(wins, r.version, w.row.version);
    var better := WriteOf(stmts, w);
    var p := LastRowStays(wins, stmts, s, r);
    var q := BetterRowLast(wins, stmts, better, r, w.row);
    assert TableAfter(wins, p) != TableAfter(wins, q);
  }

  lemma TieMatters<D(!new)>(wins: Wins, stmts: seq<Statement<D>>, w: RowWrite<D>, x: RowWrite<D>)
    requires (forall s <- stmts :: DistinctKeys(s.rows)) && w in AllWrites(stmts) && x in AllWrites(stmts)
    requires w.row.key == x.row.key && w.row != x.row
    requires Top(wins, AllWrites(stmts), w.row) && Top(wins, AllWrites(stmts), x.row)
    ensures !OrderIrrelevant(wins, stmts)
  {
    var s := WriteOf(stmts, w);
    var u := WriteOf(stmts, x);
    var p := LastRowStays(wins, stmts, s, w.row);
    var q := LastRowStays(wins, stmts, u, x.row);
    assert TableAfter(wins, p) != TableAfter(wins, q);
  }

  lemma BestWithoutTiesAgree<D(!new)>(wins: Wins, stmts: seq<Statement<D>>, t: Table<D>, t': Table<D>, k: Key)
    requires NoTies(wins, stmts) && BestOf(wins, t, AllWrites(stmts)) && BestOf(wins, t', AllWrites(stmts)) && k in t
    ensures k in t' && t[k] == t'[k]
  {
    assert Top(wins, AllWrites(stmts), t[k]);
    var w :| w in AllWrites(stmts) && w.row == t[k];
    assert Top(wins, AllWrites(stmts), t'[k]);
    var x :| x in AllWrites(stmts) && x.row == t'[k];
  }

  lemma OneTable<D(!new)>(wins: Wins, stmts: seq<Statement<D>>, p: seq<Statement<D>>)
    requires NoStaleUnguarded(wins, stmts) && NoTies(wins, stmts) && multiset(p) == multiset(stmts)
    ensures TableAfter(wins, p) == TableAfter(wins, stmts)
  {
    EveryOrderIsBest(wins, stmts, p);
    EveryOrderIsBest(wins, stmts, stmts);
    var t, t' := TableAfter(wins, p), TableAfter(wins, stmts);
    forall k <- t.Keys ensures k in t'.Keys && t[k] == t'[k] { BestWithoutTiesAgree(wins, stmts, t, t', k); }
    forall k <- t'.Keys ensures k in t.Keys { BestWithoutTiesAgree(wins, stmts, t', t, k); }
    assert t.Keys == t'.Keys;
  }

  /** All orders of the statements end in one table exactly when no statement that lost its guard carries a
      stale row and no two best rows of a key differ. */
  lemma OrderIrrelevantIff<D(!new)>(wins: Wins, stmts: seq<Statement<D>>)
    requires forall s <- stmts :: DistinctKeys(s.rows)
    ensures OrderIrrelevant(wins, stmts) <==> NoStaleUnguarded(wins, stmts) && NoTies(wins, stmts)
  {
    if !NoStaleUnguarded(wins, stmts) {
      var s, r :| s in stmts && !s.guarded && r in s.rows && !Top(wins, AllWrites(stmts), r);
      StaleUnguardedMatters(wins, stmts, s, r);
    } else if !NoTies(wins, stmts) {
      SomeTieMatters(wins, stmts);
    } else {
      forall p | multiset(p) == multiset(stmts)
        ensures TableAfter(wins, p) == TableAfter(wins, stmts)
      {
        OneTable(wins, stmts, p);
      }
    }
  }

  lemma SomeTieMatters<D(!new)>(wins: Wins, stmts: seq<Statement<D>>)
    requires (forall s <- stmts :: DistinctKeys(s.rows)) && !NoTies(wins, stmts)
    ensures !OrderIrrelevant(wins, stmts)
  {
    var w, x :| w in AllWrites(stmts) && x in AllWrites(stmts) && w.row.key == x.row.key && w.row != x.row
             && Top(wins, AllWrites(stmts), w.row) && Top(wins, AllWrites(stmts), x.row);
    TieMatters(wins, stmts, w, x);
  }

  // ---------- The two ways it fails ----------

  /** The text of a statement: the query, then the values bound to it. */
  function Rendered(query: string, values: seq<string>): string {
    query + " -- binds: [" + Listed(values) + "]"
  }

  function Listed(values: seq<string>): string {
    if values == [] then "" else "\"" + values[0] + "\", " + Listed(values[1..])
  }

  /** `s` has `word` in it after lowering. */
  lemma MentionedInside(before: string, word: string, after: string)
    ensures Mentions(Lower(before + word + after), Lower(word))
  {
    var all := before + word + after;
    assert Lower(word) <= Lower(all)[|before|..] by {
      assert forall i | 0 <= i < |word| :: Lower(all)[|before|..][i] == Lower(word)[i];
    }
  }

  lemma {:induction false} ValueIsListed(values: seq<string>, i: nat) returns (before: string, after: string)
    requires i < |values|
    ensures Listed(values) == before + values[i] + after
  {
    if i == 0 {
      before, after := "\"", "\", " + Listed(values[1..]);
    } else {
      before, after := ValueIsListed(values[1..], i - 1);
      before := "\"" + values[0] + "\", " + before;
    }
  }

  /** Whatever the query, one value that is "where" in any case, alone or inside other text, costs the
      statement its guard. */
  lemma WhereInValueDropsGuard(query: string, values: seq<string>, i: nat, before: string, word: string, after: string)
    requires i < |values| && values[i] == before + word + after && Lower(word) == "where"
    ensures !KeepsGuard(Rendered(query, values))
  {
    var b, a := ValueIsListed(values, i);
    var left, right := query + " -- binds: [" + b + before, after + a + "]";
    assert Rendered(query, values) == left + word + right;
    MentionedInside(left, word, right);
  }

  /** The values of rows with two key columns, a version and one text column. */
  function BoundValues(rows: seq<Row<string>>): seq<string> {
    if rows == [] then [] else rows[0].key + [rows[0].data] + BoundValues(rows[1..])
  }

  /** A value that mentions "Where" is enough, whatever the query: the two orders of an older and a newer
      row end in different tables. */
  lemma WhereInValueLetsOldRowWin(query: string)
    ensures var old_, new_ := Row(["h", "k"], 1, "Where to"), Row(["h", "k"], 2, "x");
            var render := (rows: seq<Row<string>>) => Rendered(query, BoundValues(rows));
            !OrderIrrelevant(Latest, [Prepare(render, [old_]), Prepare(render, [new_])])
  {
    var old_, new_ := Row(["h", "k"], 1, "Where to"), Row(["h", "k"], 2, "x");
    var render := (rows: seq<Row<string>>) => Rendered(query, BoundValues(rows));
    var a, b := Prepare(render, [old_]), Prepare(render, [new_]);
    assert [old_][1..] == [];
    assert BoundValues([old_])[2] == "" + "Where" + " to" && Lower("Where") == "where";
    WhereInValueDropsGuard(query, BoundValues([old_]), 2, "", "Where", " to");
    var stmts := [a, b];
    assert Writes(b)[0] == RowWrite(new_, b.guarded) && b in stmts && a in stmts;
    AllWritesMembers(stmts, Writes(b)[0]);
    StaleUnguardedMatters(Latest, stmts, a, old_);
  }

  /** Two guarded rows of one key and version that differ, as a row and its cleaned form do, end in
      different tables in the two orders. */
  lemma TieLetsLastRowWin(key: Key, version: nat, a: string, b: string)
    requires a != b
    ensures !OrderIrrelevant(Latest, [Statement([Row(key, version, a)], true), Statement([Row(key, version, b)], true)])
  {
    var s, u := Statement([Row(key, version, a)], true), Statement([Row(key, version, b)], true);
    var stmts := [s, u];
    var w, x := Writes(s)[0], Writes(u)[0];
    assert s in stmts && u in stmts;
    AllWritesMembers(stmts, w);
    AllWritesMembers(stmts, x);
    forall y <- AllWrites(stmts)
      ensures y.row.version == version
    {
      var z := WriteOf(stmts, y);
    }
    TieMatters(Latest, stmts, w, x);
  }
}
