/**
  `reorder_for_rfc_6555_section_5_4` from src/trio/_highlevel_open_tcp_stream.py.

  Section 5.4 of RFC 6555 asks that when name resolution returns addresses
  of more than one family, the first two connection attempts use different
  families. The function moves the first entry whose family differs from
  the first entry's into the second position; everything else keeps its
  relative order.
 */
module HappyEyeballs {
  import opened Wrappers

  /**
    One `getaddrinfo` result: `(family, type, proto, canonname, sockaddr)`.
    The socket address is opaque here.
   */
  datatype Target<A> = Target(family: int, kind: int, proto: int, canonname: string, sockaddr: A)

  /** `list.pop(i)`: the list without its element at `i`. */
  function RemoveAt<T>(s: seq<T>, i: nat): (r: seq<T>)
    requires i < |s|
    ensures |r| == |s| - 1
    ensures forall k | 0 <= k < i :: r[k] == s[k]
    ensures forall k | i <= k < |r| :: r[k] == s[k + 1]
  {
    s[..i] + s[i + 1..]
  }

  /** `list.insert(i, x)`: `x` placed at index `i`, later elements shifted right. */
  function InsertAt<T>(s: seq<T>, i: nat, x: T): (r: seq<T>)
    requires i <= |s|
    ensures |r| == |s| + 1
    ensures r[i] == x
    ensures forall k | 0 <= k < i :: r[k] == s[k]
    ensures forall k | i < k < |r| :: r[k] == s[k - 1]
  {
    s[..i] + [x] + s[i..]
  }

  /** The first index from `from` on whose family differs from the first entry's. */
  function FirstOtherFamily<A>(targets: seq<Target<A>>, from: nat): (r: Option<nat>)
    ensures r.Some? ==>
      && from <= r.value < |targets|
      && targets[r.value].family != targets[0].family
      && forall k | from <= k < r.value :: targets[k].family == targets[0].family
    ensures r.None? ==> forall k | from <= k < |targets| :: targets[k].family == targets[0].family
    decreases |targets| - from
  {
    if from >= |targets| then None
    else if targets[from].family != targets[0].family then Some(from)
    else FirstOtherFamily(targets, from + 1)
  }

  /** Some entry after the first has another family than the first. */
  predicate MixedFamilies<A>(targets: seq<Target<A>>) {
    exists k | 1 <= k < |targets| :: targets[k].family != targets[0].family
  }

  /**
    The reordered list, defined by where the entries end up: the first
    entry with a different family moves to index 1, the entries between
    index 1 and its old index shift right by one, and all others stay.
   */
  function Reordered<A>(targets: seq<Target<A>>): (r: seq<Target<A>>)
    ensures |r| == |targets|
    ensures multiset(r) == multiset(targets)
    ensures |targets| > 0 ==> r[0] == targets[0]
    ensures MixedFamilies(targets) ==> r[1].family != r[0].family
    ensures !MixedFamilies(targets) ==> r == targets
    ensures forall i | FirstOtherFamily(targets, 1) == Some(i) ::
      && r[1] == targets[i]
      && (forall k | 2 <= k <= i :: r[k] == targets[k - 1])
      && (forall k | i < k < |targets| :: r[k] == targets[k])
  {
    match FirstOtherFamily(targets, 1)
    case None => targets
    case Some(i) => MovePermutes(targets, i); MoveToSecond(targets, i)
  }

  /** Entry `i` moved to index 1, the entries in between shifted right. */
  function MoveToSecond<T>(s: seq<T>, i: nat): (r: seq<T>)
    requires 1 <= i < |s|
    ensures |r| == |s|
    ensures r[0] == s[0] && r[1] == s[i]
    ensures forall k | 2 <= k <= i :: r[k] == s[k - 1]
    ensures forall k | i < k < |s| :: r[k] == s[k]
  {
    s[..1] + [s[i]] + s[1..i] + s[i + 1..]
  }

  /** Moving an entry keeps every entry, each as often as before. */
  lemma MovePermutes<T>(s: seq<T>, i: nat)
    requires 1 <= i < |s|
    ensures multiset(MoveToSecond(s, i)) == multiset(s)
  {
    var head, middle, tail := s[..1], s[1..i], s[i + 1..];
    assert s == head + (middle + [s[i]]) + tail;
    assert MoveToSecond(s, i) == head + ([s[i]] + middle) + tail;
    assert multiset(middle + [s[i]]) == multiset([s[i]] + middle);
  }

  /**
    The loop of `reorder_for_rfc_6555_section_5_4`: scan from index 1 for
    the first entry whose family differs from entry 0's; if it is not
    already at index 1, pop it and insert it at index 1; stop there.
   */
  method ReorderForRfc6555<A>(targets: seq<Target<A>>) returns (r: seq<Target<A>>)
    ensures r == Reordered(targets)
  {
    r := targets;
    var i := 1;
    while i < |r|
      invariant 1 <= i
      invariant r == targets
      invariant forall k | 1 <= k < i && k < |targets| :: targets[k].family == targets[0].family
    {
      if r[i].family != r[0].family {
        if i != 1 {
          var moved := r[i];
          r := InsertAt(RemoveAt(r, i), 1, moved);
        }
        return;
      }
      i := i + 1;
    }
  }

  /**
    A second pass changes nothing: after the first one, entry 1 already has
    another family than entry 0 (or no entry does).
   */
  lemma ReorderIdempotent<A>(targets: seq<Target<A>>)
    ensures Reordered(Reordered(targets)) == Reordered(targets)
  {
    var once := Reordered(targets);
    if MixedFamilies(targets) {
      assert MixedFamilies(once);
      assert FirstOtherFamily(once, 1) == Some(1);
    }
  }
}
