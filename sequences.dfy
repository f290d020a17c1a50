/**
 * The two ways the players cut one element out of an array with
 * `Array.prototype.splice(index, 1)`: at a known position, and at the
 * position `indexOf` reports for a value.
 */
module Sequences {

  /** `s.splice(p, 1)` for a position inside `s`: drop exactly element `p`. */
  function RemoveAt<T>(s: seq<T>, p: nat): (r: seq<T>)
    requires p < |s|
    ensures |r| == |s| - 1
    ensures forall i :: 0 <= i < p ==> r[i] == s[i]
    ensures forall i :: p <= i < |r| ==> r[i] == s[i + 1]
    ensures multiset(r) + multiset{s[p]} == multiset(s)
  {
    assert s == s[..p] + [s[p]] + s[p + 1..];
    s[..p] + s[p + 1..]
  }

  /** `s.indexOf(x)`: the first position holding `x`, or -1. */
  function IndexOf<T(==)>(s: seq<T>, x: T): (r: int)
    ensures r == -1 <==> x !in s
    ensures r != -1 ==> 0 <= r < |s| && s[r] == x && x !in s[..r]
  {
    if |s| == 0 then -1
    else if s[0] == x then 0
    else
      var k := IndexOf(s[1..], x);
      if k == -1 then -1
      else
        assert s[..k + 1] == [s[0]] + s[1..][..k];
        k + 1
  }

  /**
   * `s.splice(s.indexOf(x), 1)`. When `x` is missing, `indexOf` gives -1 and
   * `splice(-1, 1)` removes the LAST element, which is what happens here too.
   */
  function SpliceIndexOf<T(==)>(s: seq<T>, x: T): (r: seq<T>)
    ensures x in s ==> multiset(r) == multiset(s) - multiset{x}
    ensures x in s ==> r == RemoveAt(s, IndexOf(s, x))
    ensures x !in s ==> r == (if |s| == 0 then s else s[..|s| - 1])
  {
    var i := IndexOf(s, x);
    if i != -1 then RemoveAt(s, i)
    else if |s| == 0 then s
    else s[..|s| - 1]
  }

  /** No value occurs twice. */
  ghost predicate NoDuplicates<T>(s: seq<T>)
  {
    forall i, j :: 0 <= i < j < |s| ==> s[i] != s[j]
  }

  /**
   * Pushing a value that is not there yet and splicing it out again gives back
   * the original sequence, whatever the order of the earlier elements.
   */
  lemma {:induction false} SpliceAfterPush<T>(s: seq<T>, x: T)
    requires x !in s
    ensures SpliceIndexOf(s + [x], x) == s
  {
    var t := s + [x];
    assert t[|s|] == x;
    assert t[..|s|] == s;
    assert IndexOf(t, x) == |s|;
  }

  /** Removing one element never creates a duplicate. */
  lemma {:induction false} RemoveAtKeepsNoDuplicates<T>(s: seq<T>, p: nat)
    requires p < |s| && NoDuplicates(s)
    ensures NoDuplicates(RemoveAt(s, p))
  {
    var r := RemoveAt(s, p);
    forall i, j | 0 <= i < j < |r| ensures r[i] != r[j] {
      var i' := if i < p then i else i + 1;
      var j' := if j < p then j else j + 1;
      assert r[i] == s[i'] && r[j] == s[j'] && i' < j';
    }
  }

  /** The splice that ends an add keeps the loading queue free of duplicates. */
  lemma SpliceIndexOfKeepsNoDuplicates<T>(s: seq<T>, x: T)
    requires NoDuplicates(s)
    ensures NoDuplicates(SpliceIndexOf(s, x))
  {
    var i := IndexOf(s, x);
    if i != -1 {
      RemoveAtKeepsNoDuplicates(s, i);
    }
  }

  /** Pushing a value that is not there yet never creates a duplicate. */
  lemma PushKeepsNoDuplicates<T>(s: seq<T>, x: T)
    requires NoDuplicates(s) && x !in s
    ensures NoDuplicates(s + [x])
  {
    var t := s + [x];
    forall i, j | 0 <= i < j < |t| ensures t[i] != t[j] {
      if j == |s| {
        assert t[i] == s[i];
      }
    }
  }
}
