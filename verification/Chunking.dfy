/** Cutting a list into consecutive pieces of bounded length, as both the stream fetcher
    (before sending) and the database layer (before inserting) do. */
module Chunking {

  /** The pieces of `s`, each of length `size` except possibly the last. */
  function Chunks<T>(s: seq<T>, size: nat): (r: seq<seq<T>>)
    requires size >= 1
    decreases |s|
  {
    if s == [] then []
    else if |s| <= size then [s]
    else [s[..size]] + Chunks(s[size..], size)
  }

  function Concat<T>(ss: seq<seq<T>>): (r: seq<T>) {
    if ss == [] then [] else ss[0] + Concat(ss[1..])
  }

  /** Cutting loses nothing, keeps the order, and no piece is empty or over the limit. */
  lemma {:induction false} ChunksLossless<T>(s: seq<T>, size: nat)
    requires size >= 1
    ensures Concat(Chunks(s, size)) == s
    ensures forall c <- Chunks(s, size) :: 1 <= |c| <= size
    ensures Chunks(s, size) == [] <==> s == []
    decreases |s|
  {
    if |s| > size {
      var rest := Chunks(s[size..], size);
      ChunksLossless(s[size..], size);
      assert Chunks(s, size)[1..] == rest;
      assert s == s[..size] + s[size..];
    } else if s != [] {
      assert Chunks(s, size) == [s];
      assert Concat([s]) == s + Concat([s][1..]);
      assert [s][1..] == [];
    }
  }

  /** Every piece but the last is as long as it may be. */
  lemma {:induction false} ChunksFull<T>(s: seq<T>, size: nat, i: nat)
    requires size >= 1 && i + 1 < |Chunks(s, size)|
    ensures |Chunks(s, size)[i]| == size
    decreases |s|
  {
    if i > 0 { ChunksFull(s[size..], size, i - 1); }
  }

  /** There is one piece exactly when the list is non-empty and fits in one. */
  lemma ChunksSingle<T>(s: seq<T>, size: nat)
    requires size >= 1
    ensures |Chunks(s, size)| == 1 <==> 1 <= |s| <= size
    ensures 1 <= |s| <= size ==> Chunks(s, size) == [s]
  {
    if |s| > size {
      ChunksLossless(s[size..], size);
    }
  }

  /** An element is in the list exactly when it is in one of the pieces. */
  lemma {:induction false} ConcatMembers<T>(ss: seq<seq<T>>, x: T)
    ensures x in Concat(ss) <==> exists i :: 0 <= i < |ss| && x in ss[i]
  {
    if ss != [] {
      ConcatMembers(ss[1..], x);
      if x in Concat(ss[1..]) {
        var i :| 0 <= i < |ss[1..]| && x in ss[1..][i];
        assert x in ss[i + 1];
      }
      forall i | 0 <= i < |ss| && x in ss[i]
        ensures x in Concat(ss)
      {
        if i > 0 { assert x in ss[1..][i - 1]; }
      }
    }
  }

  lemma ChunksMembers<T>(s: seq<T>, size: nat, x: T)
    requires size >= 1
    ensures x in s <==> exists i :: 0 <= i < |Chunks(s, size)| && x in Chunks(s, size)[i]
  {
    ChunksLossless(s, size);
    ConcatMembers(Chunks(s, size), x);
  }

  /** Every piece is a contiguous slice of the list. */
  lemma {:induction false} ChunksAreSlices<T>(s: seq<T>, size: nat, i: nat) returns (lo: nat, hi: nat)
    requires size >= 1 && i < |Chunks(s, size)|
    ensures lo <= hi <= |s| && Chunks(s, size)[i] == s[lo..hi]
    decreases |s|
  {
    if |s| <= size {
      lo, hi := 0, |s|;
    } else if i == 0 {
      lo, hi := 0, size;
    } else {
      var l, h := ChunksAreSlices(s[size..], size, i - 1);
      lo, hi := l + size, h + size;
      SliceOfRest(s, size, l, h);
    }
  }

  lemma SliceOfRest<T>(s: seq<T>, n: nat, lo: nat, hi: nat)
    requires n <= |s| && lo <= hi <= |s| - n
    ensures s[n..][lo..hi] == s[lo + n..hi + n]
  {
  }
}
