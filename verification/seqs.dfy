/**
 Generic facts about sequences used by the news pipeline: order-preserving
 filtering (a DataFrame boolean mask) and concatenation of per-feed lists.
 */
module Seqs {

  /** `a` can be obtained from `b` by deleting elements, keeping the order of the rest. */
  ghost predicate IsSubseq<T>(a: seq<T>, b: seq<T>)
    decreases |b|
  {
    if |a| == 0 then true
    else if |b| == 0 then false
    else (a[0] == b[0] && IsSubseq(a[1..], b[1..])) || IsSubseq(a, b[1..])
  }

  lemma {:induction false} SubseqRefl<T>(s: seq<T>)
    ensures IsSubseq(s, s)
    decreases |s|
  {
    if |s| > 0 {
      SubseqRefl(s[1..]);
    }
  }

  /** Every element of a subsequence is an element of the whole. */
  lemma {:induction false} SubseqMembers<T>(a: seq<T>, b: seq<T>)
    requires IsSubseq(a, b)
    ensures forall x :: x in a ==> x in b
    decreases |b|
  {
    if |a| > 0 && |b| > 0 {
      if a[0] == b[0] && IsSubseq(a[1..], b[1..]) {
        SubseqMembers(a[1..], b[1..]);
        assert forall x :: x in a ==> x == a[0] || x in a[1..];
      } else {
        SubseqMembers(a, b[1..]);
      }
    }
  }

  lemma {:induction false} SubseqTrans<T>(a: seq<T>, b: seq<T>, c: seq<T>)
    requires IsSubseq(a, b) && IsSubseq(b, c)
    ensures IsSubseq(a, c)
    decreases |c|
  {
    if |a| > 0 && |c| > 0 {
      assert |b| > 0;
      if b[0] == c[0] && IsSubseq(b[1..], c[1..]) {
        if a[0] == b[0] && IsSubseq(a[1..], b[1..]) {
          SubseqTrans(a[1..], b[1..], c[1..]);
        } else {
          SubseqTrans(a, b[1..], c[1..]);
        }
      } else {
        SubseqTrans(a, b, c[1..]);
      }
    }
  }

  /**
   The elements of `s` that satisfy `p`, in their original order. The three
   ensures clauses determine the result completely: it is a subsequence of `s`,
   it holds only elements satisfying `p`, and it holds each of them exactly as
   often as `s` does.
   */
  function Filter<T(!new)>(s: seq<T>, p: T -> bool): (r: seq<T>)
    ensures |r| <= |s|
    ensures IsSubseq(r, s)
    ensures forall i :: 0 <= i < |r| ==> p(r[i])
    ensures forall x :: multiset(r)[x] == if p(x) then multiset(s)[x] else 0
    decreases |s|
  {
    if |s| == 0 then []
    else
      var rest := Filter(s[1..], p);
      assert s == [s[0]] + s[1..];
      if p(s[0]) then [s[0]] + rest else rest
  }

  /** An element of `s` survives the filter exactly when it satisfies `p`. */
  lemma FilterMember<T(!new)>(s: seq<T>, p: T -> bool, x: T)
    ensures x in Filter(s, p) <==> x in s && p(x)
  {
  }

  /** Filtering twice is filtering once by the conjunction. */
  lemma {:induction false} FilterFilter<T(!new)>(s: seq<T>, p: T -> bool, q: T -> bool, pq: T -> bool)
    requires forall x :: pq(x) == (p(x) && q(x))
    ensures Filter(Filter(s, p), q) == Filter(s, pq)
    decreases |s|
  {
    if |s| > 0 {
      FilterFilter(s[1..], p, q, pq);
    }
  }

  /** Filters by two predicates that agree everywhere give the same result. */
  lemma {:induction false} FilterSameAs<T(!new)>(s: seq<T>, p: T -> bool, q: T -> bool)
    requires forall x :: p(x) == q(x)
    ensures Filter(s, p) == Filter(s, q)
    decreases |s|
  {
    if |s| > 0 {
      FilterSameAs(s[1..], p, q);
    }
  }

  /** A filter whose predicate holds everywhere on `s` returns `s` itself. */
  lemma {:induction false} FilterAll<T(!new)>(s: seq<T>, p: T -> bool)
    requires forall i :: 0 <= i < |s| ==> p(s[i])
    ensures Filter(s, p) == s
    decreases |s|
  {
    if |s| > 0 {
      FilterAll(s[1..], p);
    }
  }

  /** A filter whose predicate fails everywhere on `s` returns nothing. */
  lemma FilterNone<T(!new)>(s: seq<T>, p: T -> bool)
    requires forall i :: 0 <= i < |s| ==> !p(s[i])
    ensures Filter(s, p) == []
  {
  }

  /** Two sequences with the same multiset of elements have the same elements. */
  lemma SameMembers<T>(a: seq<T>, b: seq<T>)
    requires multiset(a) == multiset(b)
    ensures forall x :: x in a <==> x in b
  {
    forall x
      ensures x in a <==> x in b
    {
      assert x in a <==> x in multiset(a);
      assert x in b <==> x in multiset(b);
    }
  }

  /** Sum of the lengths of the inner sequences. */
  function TotalLength<T>(ss: seq<seq<T>>): nat
    decreases |ss|
  {
    if |ss| == 0 then 0 else |ss[0]| + TotalLength(ss[1..])
  }

  /** The inner sequences one after the other, in order. */
  function Flatten<T>(ss: seq<seq<T>>): (r: seq<T>)
    ensures |r| == TotalLength(ss)
    decreases |ss|
  {
    if |ss| == 0 then [] else ss[0] + Flatten(ss[1..])
  }

  /** Position in `Flatten(ss)` where `ss[i]` begins. */
  function Offset<T>(ss: seq<seq<T>>, i: nat): nat
    requires i <= |ss|
  {
    TotalLength(ss[..i])
  }

  lemma {:induction false} OffsetStep<T>(ss: seq<seq<T>>, i: nat)
    requires 0 < i <= |ss|
    ensures Offset(ss, i) == |ss[0]| + Offset(ss[1..], i - 1)
  {
    assert ss[..i][1..] == ss[1..][..i - 1];
  }

  /**
   Element `j` of inner sequence `i` sits at `Offset(ss, i) + j` of the
   concatenation: outer order first, inner order second.
   */
  lemma {:induction false} FlattenAt<T>(ss: seq<seq<T>>, i: nat, j: nat)
    requires i < |ss| && j < |ss[i]|
    ensures Offset(ss, i) + j < |Flatten(ss)|
    ensures Flatten(ss)[Offset(ss, i) + j] == ss[i][j]
    decreases i
  {
    if i == 0 {
      assert ss[..0] == [];
    } else {
      OffsetStep(ss, i);
      FlattenAt(ss[1..], i - 1, j);
    }
  }

  /** Nothing is fabricated by concatenation, and nothing is lost. */
  lemma {:induction false} FlattenMember<T>(ss: seq<seq<T>>, x: T)
    ensures x in Flatten(ss) <==> exists i, j :: 0 <= i < |ss| && 0 <= j < |ss[i]| && ss[i][j] == x
    decreases |ss|
  {
    if |ss| > 0 {
      FlattenMember(ss[1..], x);
      if x in Flatten(ss) {
        if x in ss[0] {
          var j :| 0 <= j < |ss[0]| && ss[0][j] == x;
        } else {
          assert x in Flatten(ss[1..]);
          var i, j :| 0 <= i < |ss[1..]| && 0 <= j < |ss[1..][i]| && ss[1..][i][j] == x;
          assert ss[i + 1][j] == x;
        }
      }
      if exists i, j :: 0 <= i < |ss| && 0 <= j < |ss[i]| && ss[i][j] == x {
        var i, j :| 0 <= i < |ss| && 0 <= j < |ss[i]| && ss[i][j] == x;
        if i > 0 {
          assert ss[1..][i - 1][j] == x;
        }
      }
    }
  }
}
