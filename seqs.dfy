/**
 * The first element of a sequence that meets a condition: where a Python
 * loop over a list stops with the first exception it raises.
 */
module Seqs {
  import opened Wrappers

  /** The position of the first element of xs that satisfies p, if any. */
  function FirstWhere<T>(xs: seq<T>, p: T -> bool): (r: Option<nat>)
    ensures r.None? <==> forall i :: 0 <= i < |xs| ==> !p(xs[i])
    ensures r.Some? ==> r.value < |xs| && p(xs[r.value]) && forall j :: 0 <= j < r.value ==> !p(xs[j])
  {
    if xs == [] then None
    else if p(xs[0]) then Some(0)
    else
      match FirstWhere(xs[1..], p)
        case None => None
        case Some(k) => Some(k + 1)
  }

  /** The position is determined: an element meeting p after elements that do not is the first. */
  lemma FirstWhereAt<T>(xs: seq<T>, p: T -> bool, i: nat)
    requires i < |xs| && p(xs[i])
    requires forall j :: 0 <= j < i ==> !p(xs[j])
    ensures FirstWhere(xs, p) == Some(i)
  {
  }

  /**
   * `x in xs`, one element at a time.  Written recursively so that a proof
   * about one value does not compare it with every element of a long
   * literal list at once; HasIsIn relates the two.
   */
  predicate Has<T(==)>(xs: seq<T>, x: T) {
    xs != [] && (xs[0] == x || Has(xs[1..], x))
  }

  lemma {:induction false} HasIsIn<T>(xs: seq<T>, x: T)
    ensures Has(xs, x) <==> x in xs
  {
    if xs != [] {
      HasIsIn(xs[1..], x);
      assert xs == [xs[0]] + xs[1..];
    }
  }

  /** The concatenation of a sequence of sequences, in order: `for page in pages: out += page`. */
  function Flatten<T>(xss: seq<seq<T>>): (r: seq<T>)
  {
    if xss == [] then [] else Flatten(xss[..|xss| - 1]) + xss[|xss| - 1]
  }

  /** Every element of every part is in the concatenation, and nothing else is. */
  lemma {:induction false} FlattenMembers<T>(xss: seq<seq<T>>, x: T)
    ensures x in Flatten(xss) <==> exists i :: 0 <= i < |xss| && x in xss[i]
  {
    if xss != [] {
      var pre := xss[..|xss| - 1];
      FlattenMembers(pre, x);
      if x in Flatten(xss) && x !in xss[|xss| - 1] {
        var i :| 0 <= i < |pre| && x in pre[i];
        assert xss[i] == pre[i];
      }
      if exists i :: 0 <= i < |xss| && x in xss[i] {
        var i :| 0 <= i < |xss| && x in xss[i];
        if i < |pre| {
          assert pre[i] == xss[i];
        }
      }
    }
  }

  /** The length of the concatenation is the sum of the lengths, so no element is lost or repeated. */
  function SumLengths<T>(xss: seq<seq<T>>): nat {
    if xss == [] then 0 else SumLengths(xss[..|xss| - 1]) + |xss[|xss| - 1]|
  }

  lemma {:induction false} FlattenLength<T>(xss: seq<seq<T>>)
    ensures |Flatten(xss)| == SumLengths(xss)
  {
    if xss != [] {
      FlattenLength(xss[..|xss| - 1]);
    }
  }

  /** Part i sits in the concatenation right after the parts before it: the parts keep their order. */
  lemma {:induction false} FlattenPart<T>(xss: seq<seq<T>>, i: nat)
    requires i < |xss|
    ensures SumLengths(xss[..i]) + |xss[i]| <= |Flatten(xss)|
    ensures Flatten(xss)[SumLengths(xss[..i])..SumLengths(xss[..i]) + |xss[i]|] == xss[i]
  {
    var n := |xss| - 1;
    var pre := xss[..n];
    FlattenLength(pre);
    FlattenLength(xss);
    if i < n {
      assert pre[..i] == xss[..i] && pre[i] == xss[i];
      FlattenPart(pre, i);
    } else {
      assert pre == xss[..i];
    }
  }
}
