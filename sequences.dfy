/**
 * Column-wise operations on sequences, the value-level counterparts of the
 * dataframe operations the dashboard uses: projecting a column (Map),
 * boolean-mask selection (Filter) and column sums (SumOf).
 */
module Sequences {

  /** Projects every element through `f`, keeping the order. */
  function Map<T, U>(s: seq<T>, f: T -> U): (r: seq<U>)
    ensures |r| == |s|
    ensures forall i :: 0 <= i < |s| ==> r[i] == f(s[i])
  {
    if s == [] then [] else [f(s[0])] + Map(s[1..], f)
  }

  /** The elements of `s` that satisfy `p`, in their original order. */
  function Filter<T>(s: seq<T>, p: T -> bool): (r: seq<T>)
    ensures |r| <= |s|
  {
    if s == [] then [] else (if p(s[0]) then [s[0]] else []) + Filter(s[1..], p)
  }

  /** Filter keeps an element exactly when it is in `s` and satisfies `p`. */
  lemma {:induction false} FilterMembers<T>(s: seq<T>, p: T -> bool)
    ensures forall i :: 0 <= i < |Filter(s, p)| ==> Filter(s, p)[i] in s && p(Filter(s, p)[i])
    ensures forall i :: 0 <= i < |s| && p(s[i]) ==> s[i] in Filter(s, p)
  {
    if s != [] {
      FilterMembers(s[1..], p);
      var head := if p(s[0]) then [s[0]] else [];
      var tail := Filter(s[1..], p);
      assert Filter(s, p) == head + tail;
      forall i | 0 <= i < |s| && p(s[i])
        ensures s[i] in Filter(s, p)
      {
        if i > 0 {
          assert s[i] == s[1..][i - 1];
        }
      }
    }
  }

  /** Sum of `f` over the elements of `s`. */
  function SumOf<T>(s: seq<T>, f: T -> nat): nat
  {
    if s == [] then 0 else f(s[0]) + SumOf(s[1..], f)
  }

  lemma {:induction false} SumOfConcat<T>(a: seq<T>, b: seq<T>, f: T -> nat)
    ensures SumOf(a + b, f) == SumOf(a, f) + SumOf(b, f)
  {
    if a == [] {
      assert a + b == b;
    } else {
      assert (a + b)[1..] == a[1..] + b;
      SumOfConcat(a[1..], b, f);
    }
  }

  /** Sum over a prefix one element longer. */
  lemma SumOfPrefix<T>(s: seq<T>, i: nat, f: T -> nat)
    requires i < |s|
    ensures SumOf(s[..i + 1], f) == SumOf(s[..i], f) + f(s[i])
  {
    assert s[..i + 1] == s[..i] + [s[i]];
    SumOfConcat(s[..i], [s[i]], f);
  }

  function Id(x: nat): nat
  {
    x
  }

  /** Sum of a column of naturals. */
  function Sum(xs: seq<nat>): nat
  {
    SumOf(xs, Id)
  }

  /** Summing `f` over a sequence is summing the projected column. */
  lemma {:induction false} SumOfMap<T>(s: seq<T>, f: T -> nat)
    ensures SumOf(s, f) == Sum(Map(s, f))
  {
    if s != [] {
      SumOfMap(s[1..], f);
      assert Map(s, f)[1..] == Map(s[1..], f);
    }
  }

  /**
   * `idx` lists, in increasing order, the positions of `s` whose elements
   * make up `r`, and these positions are exactly those where `p` holds:
   * `r` is the order-preserving selection of `s` by `p`.
   */
  ghost predicate SelectionBy<T>(r: seq<T>, s: seq<T>, p: T -> bool, idx: seq<int>)
  {
    && |idx| == |r|
    && (forall k :: 0 <= k < |idx| ==> 0 <= idx[k] < |s| && r[k] == s[idx[k]])
    && (forall k, l :: 0 <= k < l < |idx| ==> idx[k] < idx[l])
    && (forall i :: 0 <= i < |s| ==> (p(s[i]) <==> i in idx))
  }

  /** Filter keeps exactly the positions where `p` holds, in their original order. */
  lemma {:induction false} FilterIsSelection<T>(s: seq<T>, p: T -> bool)
    ensures exists idx :: SelectionBy(Filter(s, p), s, p, idx)
  {
    if s == [] {
      assert SelectionBy(Filter(s, p), s, p, []);
    } else {
      FilterIsSelection(s[1..], p);
      var tailIdx :| SelectionBy(Filter(s[1..], p), s[1..], p, tailIdx);
      var idx := ExtendSelection(s, p, tailIdx);
    }
  }

  /** Positions shifted one place to the right. */
  function Shift(idx: seq<int>): (r: seq<int>)
    ensures |r| == |idx|
    ensures forall k :: 0 <= k < |idx| ==> r[k] == idx[k] + 1
  {
    seq(|idx|, k requires 0 <= k < |idx| => idx[k] + 1)
  }

  lemma ShiftMembers(idx: seq<int>, i: int)
    ensures i in Shift(idx) <==> i - 1 in idx
  {
    var shifted := Shift(idx);
    if i in shifted {
      var k :| 0 <= k < |shifted| && shifted[k] == i;
      assert idx[k] == i - 1;
    }
    if i - 1 in idx {
      var k :| 0 <= k < |idx| && idx[k] == i - 1;
      assert shifted[k] == i;
    }
  }

  /** One step of FilterIsSelection: from the selection of `s[1..]` to that of `s`. */
  lemma ExtendSelection<T>(s: seq<T>, p: T -> bool, tailIdx: seq<int>) returns (idx: seq<int>)
    requires s != []
    requires SelectionBy(Filter(s[1..], p), s[1..], p, tailIdx)
    ensures SelectionBy(Filter(s, p), s, p, idx)
  {
    var shifted := Shift(tailIdx);
    ShiftedPositions(s, p, tailIdx);
    if p(s[0]) {
      idx := [0] + shifted;
      assert Filter(s, p) == [s[0]] + Filter(s[1..], p);
      KeepHead(s, p, Filter(s[1..], p), shifted);
    } else {
      idx := shifted;
      assert Filter(s, p) == Filter(s[1..], p);
    }
  }

  /** The shifted positions of the tail's selection, read against `s` itself. */
  lemma ShiftedPositions<T>(s: seq<T>, p: T -> bool, tailIdx: seq<int>)
    requires s != []
    requires SelectionBy(Filter(s[1..], p), s[1..], p, tailIdx)
    ensures forall i :: 1 <= i < |s| ==> (p(s[i]) <==> i in Shift(tailIdx))
    ensures 0 !in Shift(tailIdx)
    ensures forall k :: 0 <= k < |tailIdx| ==>
      1 <= Shift(tailIdx)[k] < |s| && Filter(s[1..], p)[k] == s[Shift(tailIdx)[k]]
    ensures forall k, l :: 0 <= k < l < |tailIdx| ==> Shift(tailIdx)[k] < Shift(tailIdx)[l]
  {
    forall i | 1 <= i < |s|
      ensures p(s[i]) <==> i in Shift(tailIdx)
    {
      assert s[i] == s[1..][i - 1];
      ShiftMembers(tailIdx, i);
    }
    ShiftMembers(tailIdx, 0);
  }

  lemma KeepHead<T>(s: seq<T>, p: T -> bool, tail: seq<T>, shifted: seq<int>)
    requires s != [] && p(s[0])
    requires forall i :: 1 <= i < |s| ==> (p(s[i]) <==> i in shifted)
    requires |shifted| == |tail|
    requires forall k :: 0 <= k < |shifted| ==> 1 <= shifted[k] < |s| && tail[k] == s[shifted[k]]
    requires forall k, l :: 0 <= k < l < |shifted| ==> shifted[k] < shifted[l]
    ensures SelectionBy([s[0]] + tail, s, p, [0] + shifted)
  {
    HeadPositions(s, p, shifted);
    HeadElements(s, tail, shifted);
    HeadIncreasing(shifted);
  }

  lemma HeadPositions<T>(s: seq<T>, p: T -> bool, shifted: seq<int>)
    requires s != [] && p(s[0])
    requires forall i :: 1 <= i < |s| ==> (p(s[i]) <==> i in shifted)
    ensures forall i :: 0 <= i < |s| ==> (p(s[i]) <==> i in [0] + shifted)
  {
    forall i | 0 <= i < |s|
      ensures p(s[i]) <==> i in [0] + shifted
    {
      assert i in [0] + shifted <==> i == 0 || i in shifted;
    }
  }

  lemma HeadElements<T>(s: seq<T>, tail: seq<T>, shifted: seq<int>)
    requires s != [] && |shifted| == |tail|
    requires forall k :: 0 <= k < |shifted| ==> 1 <= shifted[k] < |s| && tail[k] == s[shifted[k]]
    ensures forall k :: 0 <= k < |[0] + shifted| ==>
      0 <= ([0] + shifted)[k] < |s| && ([s[0]] + tail)[k] == s[([0] + shifted)[k]]
  {
    forall k | 0 <= k < |[0] + shifted|
      ensures 0 <= ([0] + shifted)[k] < |s| && ([s[0]] + tail)[k] == s[([0] + shifted)[k]]
    {
      if k > 0 {
        assert ([0] + shifted)[k] == shifted[k - 1] && ([s[0]] + tail)[k] == tail[k - 1];
      }
    }
  }

  lemma HeadIncreasing(shifted: seq<int>)
    requires forall k :: 0 <= k < |shifted| ==> 1 <= shifted[k]
    requires forall k, l :: 0 <= k < l < |shifted| ==> shifted[k] < shifted[l]
    ensures forall k, l :: 0 <= k < l < |[0] + shifted| ==> ([0] + shifted)[k] < ([0] + shifted)[l]
  {
    forall k, l | 0 <= k < l < |[0] + shifted|
      ensures ([0] + shifted)[k] < ([0] + shifted)[l]
    {
      assert ([0] + shifted)[l] == shifted[l - 1];
      if k > 0 {
        assert ([0] + shifted)[k] == shifted[k - 1];
      }
    }
  }

  /** A relation that holds between every earlier and later element. */
  ghost predicate Pairwise<T>(s: seq<T>, rel: (T, T) -> bool)
  {
    forall i, j :: 0 <= i < j < |s| ==> rel(s[i], s[j])
  }

  /** Selecting by a mask keeps every pairwise relation: orderings and distinctness survive. */
  lemma {:induction false} FilterPairwise<T>(s: seq<T>, p: T -> bool, rel: (T, T) -> bool)
    requires Pairwise(s, rel)
    ensures Pairwise(Filter(s, p), rel)
  {
    if s != [] {
      assert Pairwise(s[1..], rel);
      FilterPairwise(s[1..], p, rel);
      var tail := Filter(s[1..], p);
      FilterMembers(s[1..], p);
      if p(s[0]) {
        assert Filter(s, p) == [s[0]] + tail;
        forall j | 0 <= j < |tail|
          ensures rel(s[0], tail[j])
        {
          assert tail[j] in s[1..];
          var m :| 0 <= m < |s[1..]| && s[1..][m] == tail[j];
          assert s[m + 1] == tail[j];
        }
      } else {
        assert Filter(s, p) == tail;
      }
    }
  }
}
