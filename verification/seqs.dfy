/** Generic facts about applying a function to every element of a sequence. */
module Seqs {

  /** `f` applied to every element, in order. */
  function Map<X, Y>(f: X -> Y, s: seq<X>): (r: seq<Y>)
    ensures |r| == |s|
    ensures forall i :: 0 <= i < |s| ==> r[i] == f(s[i])
    decreases |s|
  {
    if |s| == 0 then [] else [f(s[0])] + Map(f, s[1..])
  }

  /** Mapping a split sequence is mapping each part in turn. */
  lemma {:induction false} MapAppend<X, Y>(f: X -> Y, a: seq<X>, b: seq<X>)
    ensures Map(f, a + b) == Map(f, a) + Map(f, b)
  {
    assert |Map(f, a + b)| == |Map(f, a) + Map(f, b)|;
    forall i | 0 <= i < |a + b|
      ensures Map(f, a + b)[i] == (Map(f, a) + Map(f, b))[i]
    {
      if i >= |a| {
        assert (a + b)[i] == b[i - |a|];
      }
    }
  }

  /** Taking one element out of a sequence before mapping takes its image out of the
      mapped sequence. */
  lemma MapRemove<X, Y>(f: X -> Y, s: seq<X>, k: nat)
    requires k < |s|
    ensures multiset(Map(f, s)) == multiset{f(s[k])} + multiset(Map(f, s[..k] + s[k + 1..]))
  {
    var m := Map(f, s);
    MultisetRemove(m, k);
    MapAppend(f, s[..k], s[k + 1..]);
    assert Map(f, s[..k]) == m[..k];
    assert Map(f, s[k + 1..]) == m[k + 1..];
  }

  /** Taking one element out of a sequence takes one copy of it out of its multiset. */
  lemma MultisetRemove<X>(s: seq<X>, k: nat)
    requires k < |s|
    ensures multiset(s) == multiset{s[k]} + multiset(s[..k] + s[k + 1..])
  {
    assert s == s[..k] + s[k..];
    assert s[k..] == [s[k]] + s[k + 1..];
  }

  /** Mapping two rearrangements of the same elements gives rearrangements of the
      same results. */
  lemma {:induction false} MapPermutation<X, Y>(f: X -> Y, a: seq<X>, b: seq<X>)
    requires multiset(a) == multiset(b)
    ensures multiset(Map(f, a)) == multiset(Map(f, b))
    decreases |a|
  {
    if |a| == 0 {
      assert |b| == |multiset(b)| == 0;
    } else {
      var x := a[0];
      assert x in multiset(b);
      var k :| 0 <= k < |b| && b[k] == x;
      var rest := b[..k] + b[k + 1..];
      MultisetRemove(a, 0);
      MultisetRemove(b, k);
      assert a[..0] + a[1..] == a[1..];
      assert multiset(a[1..]) == multiset(rest) by {
        forall y ensures multiset(a[1..])[y] == multiset(rest)[y] {
          assert multiset(a)[y] == multiset{x}[y] + multiset(a[1..])[y];
          assert multiset(b)[y] == multiset{x}[y] + multiset(rest)[y];
        }
      }
      MapPermutation(f, a[1..], rest);
      MapRemove(f, a, 0);
      MapRemove(f, b, k);
    }
  }
}
