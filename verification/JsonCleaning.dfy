/** Removing null bytes from rows before a failed insert is retried. */
module JsonCleaning {
  import opened Options

  datatype Json =
    | Null
    | Bool(b: bool)
    | Number(text: string)
    | Text(s: string)
    | Array(items: seq<Json>)
    | Object(fields: seq<Field>)

  datatype Field = Field(name: string, value: Json)

  const NUL: char := '\U{0000}'
  /** The six characters of the escape: a backslash, a u and four zeros. */
  const ESCAPE: string := "\\u0000"

  function RemoveNul(s: string): string {
    if s == [] then [] else (if s[0] == NUL then [] else [s[0]]) + RemoveNul(s[1..])
  }

  /** One pass from the left over non-overlapping occurrences. */
  function RemoveEscape(s: string): string
    decreases |s|
  {
    if s == [] then []
    else if ESCAPE <= s then RemoveEscape(s[|ESCAPE|..])
    else [s[0]] + RemoveEscape(s[1..])
  }

  function CleanText(s: string): string {
    RemoveEscape(RemoveNul(s))
  }

  function Clean(j: Json): Json {
    match j
    case Text(s) => Text(CleanText(s))
    case Array(items) => Array(seq(|items|, i requires 0 <= i < |items| => Clean(items[i])))
    case Object(fields) =>
      Object(seq(|fields|, i requires 0 <= i < |fields| => Field(fields[i].name, Clean(fields[i].value))))
    case _ => j
  }

  // ---------- Strings ----------

  lemma {:induction false} RemoveNulRemoves(s: string)
    ensures NUL !in RemoveNul(s)
    ensures |RemoveNul(s)| <= |s| && (RemoveNul(s) == s <==> NUL !in s)
  {
    if s != [] {
      RemoveNulRemoves(s[1..]);
      assert s == [s[0]] + s[1..];
    }
  }

  ghost predicate HasEscape(s: string) {
    exists i :: 0 <= i <= |s| && ESCAPE <= s[i..]
  }

  lemma {:induction false} RemoveEscapeShrinks(s: string)
    ensures |RemoveEscape(s)| <= |s| && (RemoveEscape(s) == s <==> !HasEscape(s))
    ensures forall c :: c in RemoveEscape(s) ==> c in s
    decreases |s|
  {
    if s != [] {
      assert s == [s[0]] + s[1..];
      if ESCAPE <= s {
        RemoveEscapeShrinks(s[|ESCAPE|..]);
        assert s[0..] == s;
      } else {
        RemoveEscapeShrinks(s[1..]);
        if HasEscape(s[1..]) {
          var i :| 0 <= i <= |s[1..]| && ESCAPE <= s[1..][i..];
          assert s[i + 1..] == s[1..][i..];
        }
        if HasEscape(s) {
          var i :| 0 <= i <= |s| && ESCAPE <= s[i..];
          assert s[0..] == s;
          assert s[i..] == s[1..][i - 1..];
        }
      }
    }
  }

  /** A cleaned string has no null byte, and a string changes exactly when it holds a null byte or
      the escape. */
  lemma CleanTextExact(s: string)
    ensures NUL !in CleanText(s)
    ensures CleanText(s) == s <==> NUL !in s && !HasEscape(s)
  {
    RemoveNulRemoves(s);
    RemoveEscapeShrinks(RemoveNul(s));
  }

  lemma {:induction false} RemoveNulJoins(a: string, b: string)
    ensures RemoveNul(a + b) == RemoveNul(a) + RemoveNul(b)
  {
    if a == [] {
      assert a + b == b;
    } else {
      assert (a + b)[1..] == a[1..] + b;
      RemoveNulJoins(a[1..], b);
    }
  }

  /** The escape starts right after `a` in `a + ESCAPE + b`, and nowhere before. */
  ghost predicate FirstEscape(a: string, b: string) {
    forall i | 0 <= i < |a| :: !(ESCAPE <= (a + ESCAPE + b)[i..])
  }

  lemma {:induction false} RemoveFirstEscape(a: string, b: string)
    requires FirstEscape(a, b)
    ensures RemoveEscape(a + ESCAPE + b) == a + RemoveEscape(b)
  {
    var s := a + ESCAPE + b;
    if a == [] {
      assert s == ESCAPE + b && s[|ESCAPE|..] == b;
    } else {
      var rest := a[1..] + ESCAPE + b;
      assert s[0..] == s && s[1..] == rest && !(ESCAPE <= s);
      forall i | 0 <= i < |a[1..]|
        ensures !(ESCAPE <= rest[i..])
      {
        assert rest[i..] == s[i + 1..];
      }
      RemoveFirstEscape(a[1..], b);
      assert a == [a[0]] + a[1..];
    }
  }

  /** What cleaning removes, and that it removes nothing else: each null byte; then, from the left, each
      occurrence of the escape; a string with neither stays. */
  lemma CleanTextRemoves(a: string, b: string)
    ensures CleanText(a + [NUL] + b) == CleanText(a + b)
    ensures NUL !in a && NUL !in b && FirstEscape(a, b) ==> CleanText(a + ESCAPE + b) == a + CleanText(b)
    ensures NUL !in a && !HasEscape(a) ==> CleanText(a) == a
  {
    RemoveNulJoins(a + [NUL], b);
    RemoveNulJoins(a, [NUL]);
    RemoveNulJoins(a, b);
    assert [NUL][1..] == [] && RemoveNul([NUL]) == [];
    assert RemoveNul(a) + [] == RemoveNul(a);
    CleanTextExact(a);
    if NUL !in a && NUL !in b && FirstEscape(a, b) {
      RemoveNulRemoves(a + ESCAPE + b);
      RemoveNulRemoves(b);
      RemoveFirstEscape(a, b);
    }
  }

  // ---------- Trees ----------

  /** The tree with every string value blanked: shape, object keys and the other leaves. */
  function Skeleton(j: Json): Json {
    match j
    case Text(_) => Text("")
    case Array(items) => Array(seq(|items|, i requires 0 <= i < |items| => Skeleton(items[i])))
    case Object(fields) =>
      Object(seq(|fields|, i requires 0 <= i < |fields| => Field(fields[i].name, Skeleton(fields[i].value))))
    case _ => j
  }

  /** Every string value of the tree satisfies `ok`. */
  predicate EveryText(j: Json, ok: string -> bool) {
    match j
    case Text(s) => ok(s)
    case Array(items) => forall i | 0 <= i < |items| :: EveryText(items[i], ok)
    case Object(fields) => forall i | 0 <= i < |fields| :: EveryText(fields[i].value, ok)
    case _ => true
  }

  /** After cleaning, no string value anywhere contains a null byte. */
  lemma {:induction false} CleanRemovesNul(j: Json)
    ensures EveryText(Clean(j), s => NUL !in s)
  {
    match j
    case Text(s) => CleanTextExact(s);
    case Array(items) =>
      forall i | 0 <= i < |items| ensures EveryText(Clean(items[i]), s => NUL !in s) {
        CleanRemovesNul(items[i]);
      }
    case Object(fields) =>
      forall i | 0 <= i < |fields| ensures EveryText(Clean(fields[i].value), s => NUL !in s) {
        CleanRemovesNul(fields[i].value);
      }
    case _ =>
  }

  /** Cleaning touches string values only. */
  lemma {:induction false} CleanKeepsSkeleton(j: Json)
    ensures Skeleton(Clean(j)) == Skeleton(j)
  {
    match j
    case Array(items) =>
      forall i | 0 <= i < |items| ensures Skeleton(Clean(items[i])) == Skeleton(items[i]) {
        CleanKeepsSkeleton(items[i]);
      }
      assert Skeleton(Clean(j)).items == Skeleton(j).items;
    case Object(fields) =>
      forall i | 0 <= i < |fields| ensures Skeleton(Clean(fields[i].value)) == Skeleton(fields[i].value) {
        CleanKeepsSkeleton(fields[i].value);
      }
      assert Skeleton(Clean(j)).fields == Skeleton(j).fields;
    case _ =>
  }

  /** The value reached by taking children by position. */
  function At(j: Json, path: seq<nat>): Option<Json> {
    if path == [] then Some(j)
    else if j.Array? && path[0] < |j.items| then At(j.items[path[0]], path[1..])
    else if j.Object? && path[0] < |j.fields| then At(j.fields[path[0]].value, path[1..])
    else None
  }

  /** Wherever the tree has a string, the cleaned tree has that string cleaned. */
  lemma {:induction false} CleanAt(j: Json, path: seq<nat>)
    ensures At(Clean(j), path) == match At(j, path) case None => None case Some(v) => Some(Clean(v))
    decreases |path|
  {
    if path != [] {
      if j.Array? && path[0] < |j.items| { CleanAt(j.items[path[0]], path[1..]); }
      else if j.Object? && path[0] < |j.fields| { CleanAt(j.fields[path[0]].value, path[1..]); }
    }
  }

  lemma TextsAreCleaned(j: Json, path: seq<nat>, s: string)
    requires At(j, path) == Some(Text(s))
    ensures At(Clean(j), path) == Some(Text(CleanText(s)))
  {
    CleanAt(j, path);
  }

  ghost predicate Spotless(s: string) {
    NUL !in s && !HasEscape(s)
  }

  ghost predicate SpotlessTree(j: Json) {
    match j
    case Text(s) => Spotless(s)
    case Array(items) => forall i | 0 <= i < |items| :: SpotlessTree(items[i])
    case Object(fields) => forall i | 0 <= i < |fields| :: SpotlessTree(fields[i].value)
    case _ => true
  }

  /** Cleaning leaves a tree alone exactly when no string value holds a null byte or the escape. */
  lemma {:induction false} CleanIdentityIff(j: Json)
    ensures Clean(j) == j <==> SpotlessTree(j)
  {
    match j
    case Text(s) => CleanTextExact(s);
    case Array(items) =>
      forall i | 0 <= i < |items| ensures Clean(items[i]) == items[i] <==> SpotlessTree(items[i]) {
        CleanIdentityIff(items[i]);
      }
      var cleaned := Clean(j).items;
      assert forall i | 0 <= i < |items| :: cleaned[i] == Clean(items[i]);
      if SpotlessTree(j) { assert cleaned == items; }
    case Object(fields) =>
      forall i | 0 <= i < |fields|
        ensures Clean(fields[i].value) == fields[i].value <==> SpotlessTree(fields[i].value)
      {
        CleanIdentityIff(fields[i].value);
      }
      var cleaned := Clean(j).fields;
      assert forall i | 0 <= i < |fields| :: cleaned[i].value == Clean(fields[i].value);
      if SpotlessTree(j) { assert cleaned == fields; }
    case _ =>
  }
}
