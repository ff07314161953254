/** Order-preserving filtering of sequences (LINQ's Where) and what "keeps relative order" means. */
module Sequences {

  /** The elements of `s` that satisfy `keep`, in their order in `s`. */
  function Filter<T>(s: seq<T>, keep: T -> bool): (r: seq<T>)
    ensures |r| <= |s|
  {
    if s == [] then [] else (if keep(s[0]) then [s[0]] else []) + Filter(s[1..], keep)
  }

  /** `idx` lists, in increasing order, the positions of `s` at which the elements of `sub` occur. */
  ghost predicate Embedding<T>(sub: seq<T>, s: seq<T>, idx: seq<int>)
  {
    && |idx| == |sub|
    && (forall i :: 0 <= i < |idx| ==> 0 <= idx[i] < |s| && sub[i] == s[idx[i]])
    && (forall i, j :: 0 <= i < j < |idx| ==> idx[i] < idx[j])
  }

  /** `sub` is obtained from `s` by dropping elements: what is left keeps its relative order. */
  ghost predicate IsSubsequence<T>(sub: seq<T>, s: seq<T>)
  {
    exists idx :: Embedding(sub, s, idx)
  }

  function Shifted(idx: seq<int>): (r: seq<int>)
    ensures |r| == |idx| && forall i :: 0 <= i < |idx| ==> r[i] == idx[i] + 1
  {
    seq(|idx|, i requires 0 <= i < |idx| => idx[i] + 1)
  }

  lemma ShiftedEmbedding<T>(sub: seq<T>, s: seq<T>, idx: seq<int>)
    requires s != [] && Embedding(sub, s[1..], idx)
    ensures Embedding(sub, s, Shifted(idx))
  {
  }

  lemma ConsEmbedding<T>(sub: seq<T>, s: seq<T>, idx: seq<int>)
    requires s != [] && Embedding(sub, s[1..], idx)
    ensures Embedding([s[0]] + sub, s, [0] + Shifted(idx))
  {
    var r := [0] + Shifted(idx);
    forall i | 0 <= i < |r|
      ensures 0 <= r[i] < |s| && ([s[0]] + sub)[i] == s[r[i]]
    {
    }
    forall i, j | 0 <= i < j < |r|
      ensures r[i] < r[j]
    {
    }
  }

  lemma {:induction false} FilterIndices<T>(s: seq<T>, keep: T -> bool) returns (idx: seq<int>)
    ensures Embedding(Filter(s, keep), s, idx)
  {
    if s == [] {
      idx := [];
    } else {
      var rest := FilterIndices(s[1..], keep);
      if keep(s[0]) {
        ConsEmbedding(Filter(s[1..], keep), s, rest);
        idx := [0] + Shifted(rest);
      } else {
        ShiftedEmbedding(Filter(s[1..], keep), s, rest);
        idx := Shifted(rest);
      }
    }
  }

  /** Filtering keeps the relative order of the elements it keeps. */
  lemma FilterIsSubsequence<T>(s: seq<T>, keep: T -> bool)
    ensures IsSubsequence(Filter(s, keep), s)
  {
    var idx := FilterIndices(s, keep);
  }

  /** An element survives filtering exactly when it is in the input and satisfies the predicate. */
  lemma {:induction false} FilterMembership<T>(s: seq<T>, keep: T -> bool, x: T)
    ensures x in Filter(s, keep) <==> x in s && keep(x)
  {
    if s != [] {
      FilterMembership(s[1..], keep, x);
      assert s == [s[0]] + s[1..];
    }
  }

  /** Splitting a sequence by a predicate and its negation loses and duplicates nothing. */
  lemma {:induction false} FilterPartition<T>(s: seq<T>, keep: T -> bool, drop: T -> bool)
    requires forall i :: 0 <= i < |s| ==> (keep(s[i]) <==> !drop(s[i]))
    ensures |Filter(s, keep)| + |Filter(s, drop)| == |s|
  {
    if s != [] {
      FilterPartition(s[1..], keep, drop);
    }
  }
}
