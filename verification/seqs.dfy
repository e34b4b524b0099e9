/** First-match search and order-preserving filtering over sequences. */
module Seqs {
  import opened Wrappers

  /** Index of the first element satisfying `p`, or None when no element does. */
  function FirstMatch<T>(s: seq<T>, p: T -> bool): (r: Option<nat>)
    ensures r.Some? ==> r.value < |s| && p(s[r.value])
    ensures r.Some? ==> forall j :: 0 <= j < r.value ==> !p(s[j])
    ensures r.None? <==> forall j :: 0 <= j < |s| ==> !p(s[j])
    decreases |s|
  {
    if |s| == 0 then None
    else if p(s[0]) then Some(0)
    else match FirstMatch(s[1..], p)
      case Some(i) => Some(i + 1)
      case None => None
  }

  /** The elements of `s` for which `f` holds, in their original order.  Defined
      from the back, the way an append loop builds it. */
  function Filter<T>(s: seq<T>, f: T -> bool): (r: seq<T>)
    ensures |r| <= |s|
    ensures forall k :: 0 <= k < |r| ==> f(r[k])
    decreases |s|
  {
    if |s| == 0 then []
    else
      var init := Filter(s[..|s| - 1], f);
      if f(s[|s| - 1]) then init + [s[|s| - 1]] else init
  }

  /** The positions of `s` whose element satisfies `f`, in ascending order. */
  function Kept<T>(s: seq<T>, f: T -> bool): (idx: seq<nat>)
    ensures forall k :: 0 <= k < |idx| ==> idx[k] < |s|
    decreases |s|
  {
    if |s| == 0 then []
    else
      var init := Kept(s[..|s| - 1], f);
      if f(s[|s| - 1]) then init + [|s| - 1] else init
  }

  /** Filter yields exactly the subsequence of `s` at the positions where `f` holds:
      one output per kept position, positions strictly increasing, and a position
      is kept if and only if `f` holds of its element. */
  lemma {:induction false} FilterIsKeptSubsequence<T>(s: seq<T>, f: T -> bool)
    ensures |Kept(s, f)| == |Filter(s, f)|
    ensures forall k :: 0 <= k < |Kept(s, f)| ==> Filter(s, f)[k] == s[Kept(s, f)[k]]
    ensures forall k, l :: 0 <= k < l < |Kept(s, f)| ==> Kept(s, f)[k] < Kept(s, f)[l]
    ensures forall i :: 0 <= i < |s| ==> (i in Kept(s, f) <==> f(s[i]))
  {
    FilterAtKept(s, f);
    KeptIncreasing(s, f);
    KeptExactly(s, f);
  }

  /** The k-th filtered element is the element at the k-th kept position. */
  lemma {:induction false} FilterAtKept<T>(s: seq<T>, f: T -> bool)
    ensures |Kept(s, f)| == |Filter(s, f)|
    ensures forall k :: 0 <= k < |Kept(s, f)| ==> Filter(s, f)[k] == s[Kept(s, f)[k]]
    decreases |s|
  {
    if |s| > 0 {
      var n := |s| - 1;
      var init := s[..n];
      FilterAtKept(init, f);
      var k0, f0 := Kept(init, f), Filter(init, f);
      var k1, f1 := Kept(s, f), Filter(s, f);
      forall k | 0 <= k < |k1|
        ensures f1[k] == s[k1[k]]
      {
        if k < |k0| {
          assert k1[k] == k0[k] && f1[k] == f0[k];
          assert init[k0[k]] == s[k0[k]];
        }
      }
    }
  }

  /** Kept positions come in strictly increasing order. */
  lemma {:induction false} KeptIncreasing<T>(s: seq<T>, f: T -> bool)
    ensures forall k, l :: 0 <= k < l < |Kept(s, f)| ==> Kept(s, f)[k] < Kept(s, f)[l]
    decreases |s|
  {
    if |s| > 0 {
      var n := |s| - 1;
      KeptIncreasing(s[..n], f);
      var k0, k1 := Kept(s[..n], f), Kept(s, f);
      forall k, l | 0 <= k < l < |k1|
        ensures k1[k] < k1[l]
      {
        if l < |k0| {
          assert k1[k] == k0[k] && k1[l] == k0[l];
        } else {
          assert k1[k] == k0[k] < n;
        }
      }
    }
  }

  /** A position is kept exactly when `f` holds of its element. */
  lemma {:induction false} KeptExactly<T>(s: seq<T>, f: T -> bool)
    ensures forall i :: 0 <= i < |s| ==> (i in Kept(s, f) <==> f(s[i]))
    decreases |s|
  {
    if |s| > 0 {
      var n := |s| - 1;
      var init := s[..n];
      KeptExactly(init, f);
      var k0, k1 := Kept(init, f), Kept(s, f);
      forall i | 0 <= i < |s|
        ensures i in k1 <==> f(s[i])
      {
        if i < n {
          assert init[i] == s[i];
          assert i in k0 <==> f(init[i]);
          assert i in k1 <==> i in k0;
        }
      }
    }
  }

  /** A predicate that holds everywhere filters nothing out. */
  lemma {:induction false} FilterKeepsAll<T>(s: seq<T>, f: T -> bool)
    requires forall k :: 0 <= k < |s| ==> f(s[k])
    ensures Filter(s, f) == s
    decreases |s|
  {
    if |s| > 0 {
      FilterKeepsAll(s[..|s| - 1], f);
      assert s[..|s| - 1] + [s[|s| - 1]] == s;
    }
  }

  /** Filtering one more element appends it exactly when `f` holds of it. */
  lemma FilterSnoc<T>(s: seq<T>, x: T, f: T -> bool)
    ensures Filter(s + [x], f) == if f(x) then Filter(s, f) + [x] else Filter(s, f)
  {
  }
}
