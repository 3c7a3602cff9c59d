/**
  Sequences used as insertion-ordered sets, the way a Python `dict` whose
  values are all `None` is used as an ordered set of its keys.
 */
module Seqs {

  /** No element occurs twice. */
  predicate NoDups<T(==)>(s: seq<T>) {
    forall i, j | 0 <= i < j < |s| :: s[i] != s[j]
  }

  /** `s` without the elements of `gone`; the others keep their relative order. */
  function Purge<T(==)>(s: seq<T>, gone: set<T>): (r: seq<T>)
    ensures forall x | x in r :: x in s && x !in gone
    ensures forall x | x in s && x !in gone :: x in r
    ensures |r| <= |s|
    ensures (forall x | x in s :: x !in gone) ==> r == s
  {
    if s == [] then []
    else
      var init, last := s[..|s| - 1], s[|s| - 1];
      assert s == init + [last];
      Purge(init, gone) + (if last in gone then [] else [last])
  }

  /** Deleting one key from an insertion-ordered dict. */
  function Without<T(==)>(s: seq<T>, x: T): (r: seq<T>)
    ensures x !in r
    ensures forall y | y in r :: y in s && y != x
    ensures forall y | y in s && y != x :: y in r
    ensures x !in s ==> r == s
  {
    Purge(s, {x})
  }

  /**
    Assigning `d[x] = None` on a dict used as an ordered set: a new key
    goes to the end, an existing key keeps its place.
   */
  function AppendIfAbsent<T(==)>(s: seq<T>, x: T): (r: seq<T>)
    ensures x in r
    ensures forall y | y in r :: y in s || y == x
    ensures forall y | y in s :: y in r
    ensures x in s ==> r == s
    ensures x !in s ==> r == s + [x]
  {
    if x in s then s else s + [x]
  }

  /** The first occurrences of the elements of `s`, in order. */
  function Dedup<T(==)>(s: seq<T>): (r: seq<T>)
    ensures NoDups(r)
    ensures forall x | x in r :: x in s
    ensures forall x | x in s :: x in r
  {
    if s == [] then []
    else
      var init, last := s[..|s| - 1], s[|s| - 1];
      assert s == init + [last];
      AppendIfAbsent(Dedup(init), last)
  }

  lemma PurgeSnoc<T>(s: seq<T>, x: T, gone: set<T>)
    ensures Purge(s + [x], gone) == Purge(s, gone) + (if x in gone then [] else [x])
  {
    assert (s + [x])[..|s|] == s;
  }

  lemma {:induction false} PurgeKeepsNoDups<T>(s: seq<T>, gone: set<T>)
    requires NoDups(s)
    ensures NoDups(Purge(s, gone))
  {
    if s != [] {
      var init, last := s[..|s| - 1], s[|s| - 1];
      assert s == init + [last];
      PurgeKeepsNoDups(init, gone);
      PurgeSnoc(init, last, gone);
      assert last !in init;
    }
  }

  /** Purging in two rounds is purging the union once. */
  lemma {:induction false} PurgeTwice<T>(s: seq<T>, a: set<T>, b: set<T>)
    ensures Purge(Purge(s, a), b) == Purge(s, a + b)
  {
    if s != [] {
      var init, last := s[..|s| - 1], s[|s| - 1];
      assert s == init + [last];
      PurgeTwice(init, a, b);
      PurgeSnoc(init, last, a);
      PurgeSnoc(init, last, a + b);
      if last in a {
        assert Purge(s, a) == Purge(init, a);
      } else {
        assert Purge(s, a) == Purge(init, a) + [last];
        PurgeSnoc(Purge(init, a), last, b);
      }
    }
  }

  /** Appending an absent element and deleting it again gives back the original. */
  lemma WithoutAppended<T>(s: seq<T>, x: T)
    requires x !in s
    ensures Without(s + [x], x) == s
  {
    PurgeSnoc(s, x, {x});
  }

  /** Purging distributes over concatenation: the survivors keep their order. */
  lemma {:induction false} PurgeAppend<T>(s: seq<T>, t: seq<T>, gone: set<T>)
    ensures Purge(s + t, gone) == Purge(s, gone) + Purge(t, gone)
  {
    if t != [] {
      var init, last := t[..|t| - 1], t[|t| - 1];
      assert t == init + [last];
      assert s + t == (s + init) + [last];
      PurgeAppend(s, init, gone);
      PurgeSnoc(s + init, last, gone);
      PurgeSnoc(init, last, gone);
    } else {
      assert s + t == s;
    }
  }

  /**
    `del d[x]` on a dict used as an ordered set: the key at index `i` is
    cut out, and the keys before and after it stay where they were.
   */
  lemma WithoutAt<T>(s: seq<T>, i: nat)
    requires NoDups(s) && i < |s|
    ensures Without(s, s[i]) == s[..i] + s[i + 1..]
  {
    var x, before, after := s[i], s[..i], s[i + 1..];
    assert s == before + [x] + after;
    assert forall j | 0 <= j < |before| :: before[j] == s[j];
    assert forall j | 0 <= j < |after| :: after[j] == s[i + 1 + j];
    CutOut(before, x, after);
  }

  lemma CutOut<T>(before: seq<T>, x: T, after: seq<T>)
    requires x !in before && x !in after
    ensures Without(before + [x] + after, x) == before + after
  {
    var gone := {x};
    assert Purge(before, gone) == before;
    assert Purge(after, gone) == after;
    PurgeSnoc(before, x, gone);
    assert Purge(before + [x], gone) == before;
    PurgeAppend(before + [x], after, gone);
  }

  /** The index of the first occurrence of `x` in `s`. */
  function FirstIndex<T(==)>(s: seq<T>, x: T): (r: nat)
    requires x in s
    ensures r < |s| && s[r] == x && x !in s[..r]
  {
    if s[0] == x then 0
    else
      var k := FirstIndex(s[1..], x);
      assert s[..k + 1] == [s[0]] + s[1..][..k];
      k + 1
  }

  lemma FirstIndexAt<T>(s: seq<T>, x: T, k: nat)
    requires k < |s| && s[k] == x && x !in s[..k]
    ensures FirstIndex(s, x) == k
  {
    var f := FirstIndex(s, x);
    assert forall j | 0 <= j < k :: s[..k][j] == s[j];
    assert forall j | 0 <= j < f :: s[..f][j] == s[j];
  }

  /**
    `Dedup` lists the elements of `s` in the order of their first
    occurrences, which is the order in which repeated activation admits them.
   */
  lemma {:induction false} DedupFirstOccurrenceOrder<T>(s: seq<T>)
    ensures forall i, j | 0 <= i < j < |Dedup(s)| :: FirstIndex(s, Dedup(s)[i]) < FirstIndex(s, Dedup(s)[j])
  {
    if s != [] {
      var init, last := s[..|s| - 1], s[|s| - 1];
      assert s == init + [last];
      DedupFirstOccurrenceOrder(init);
      var d := Dedup(init);
      forall y | y in init
        ensures FirstIndex(s, y) == FirstIndex(init, y)
      {
        var k := FirstIndex(init, y);
        assert s[..k] == init[..k];
        FirstIndexAt(s, y, k);
      }
      if last !in init {
        assert s[..|init|] == init;
        FirstIndexAt(s, last, |init|);
        assert Dedup(s) == d + [last];
      }
    }
  }

  lemma TakeOneMore<T>(s: seq<T>, i: nat)
    requires i < |s|
    ensures s[..i + 1] == s[..i] + [s[i]]
  {
  }
}
