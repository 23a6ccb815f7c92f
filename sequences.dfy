/** Order-keeping filters and first occurrences over sequences: the meaning
    of JavaScript's `Array.prototype.filter` and of the first index at
    which a value appears. */
module Sequences {
  import opened Wrappers

  /** The positions of `s` whose element `keep` accepts, in increasing
      order: each accepted position appears, and no other. */
  function Positions<T>(s: seq<T>, keep: T -> bool): (idx: seq<nat>)
    ensures |idx| <= |s|
    ensures forall k :: 0 <= k < |idx| ==> idx[k] < |s| && keep(s[idx[k]])
    ensures forall k, l :: 0 <= k < l < |idx| ==> idx[k] < idx[l]
  {
    if s == [] then []
    else
      var n := |s| - 1;
      var init := Positions(s[..n], keep);
      assert forall k :: 0 <= k < |init| ==> s[..n][init[k]] == s[init[k]];
      init + (if keep(s[n]) then [n] else [])
  }

  /** Every accepted position is among the positions. */
  lemma {:induction false} PositionsComplete<T>(s: seq<T>, keep: T -> bool, i: nat)
    requires i < |s| && keep(s[i])
    ensures i in Positions(s, keep)
    decreases |s|
  {
    var n := |s| - 1;
    if i < n {
      assert s[..n][i] == s[i];
      PositionsComplete(s[..n], keep, i);
    }
  }

  /** The positions are exactly the accepted ones. */
  lemma PositionsMembers<T>(s: seq<T>, keep: T -> bool)
    ensures forall i :: 0 <= i < |s| ==> (i in Positions(s, keep) <==> keep(s[i]))
  {
    forall i | 0 <= i < |s| && keep(s[i])
      ensures i in Positions(s, keep)
    {
      PositionsComplete(s, keep, i);
    }
  }

  /** `r` is `s` filtered by `keep` with the order kept: its k-th element
      is the element at the k-th position `keep` accepts. */
  predicate IsFilter<T(==)>(r: seq<T>, s: seq<T>, keep: T -> bool) {
    var idx := Positions(s, keep);
    |r| == |idx| && forall k :: 0 <= k < |r| ==> r[k] == s[idx[k]]
  }

  /** `s.filter(keep)`: the elements `keep` accepts. */
  function Filter<T(==,!new)>(s: seq<T>, keep: T -> bool): (r: seq<T>)
    ensures |r| <= |s|
  {
    if s == [] then []
    else
      var n := |s| - 1;
      Filter(s[..n], keep) + (if keep(s[n]) then [s[n]] else [])
  }

  /** The filter holds exactly the accepted elements. */
  lemma {:induction false} FilterMembers<T(!new)>(s: seq<T>, keep: T -> bool)
    ensures forall x :: x in Filter(s, keep) <==> x in s && keep(x)
    decreases |s|
  {
    if s != [] {
      var n := |s| - 1;
      assert s == s[..n] + [s[n]];
      FilterMembers(s[..n], keep);
    }
  }

  /** The filter keeps the order: its k-th element is the element at the
      k-th position `keep` accepts. */
  lemma {:induction false} FilterInOrder<T(!new)>(s: seq<T>, keep: T -> bool)
    ensures IsFilter(Filter(s, keep), s, keep)
    decreases |s|
  {
    if s != [] {
      var n := |s| - 1;
      FilterInOrder(s[..n], keep);
      FilterInOrderSnoc(s, keep);
    }
  }

  /** One more element extends the filter and the positions alike. */
  lemma FilterInOrderSnoc<T(!new)>(s: seq<T>, keep: T -> bool)
    requires s != []
    requires IsFilter(Filter(s[..|s| - 1], keep), s[..|s| - 1], keep)
    ensures IsFilter(Filter(s, keep), s, keep)
  {
    SnocParts(s, keep);
    forall k | 0 <= k < |Filter(s, keep)|
      ensures Filter(s, keep)[k] == s[Positions(s, keep)[k]]
    {
      FilterAtSnoc(s, keep, k);
    }
  }

  /** The last element of `s` extends its filter and its positions. */
  lemma SnocParts<T(!new)>(s: seq<T>, keep: T -> bool)
    requires s != []
    ensures var n := |s| - 1;
            Filter(s, keep) == Filter(s[..n], keep) + (if keep(s[n]) then [s[n]] else []) &&
            Positions(s, keep) == Positions(s[..n], keep) + (if keep(s[n]) then [n] else [])
  {
  }

  /** The k-th element of the filter of `s`, given the order of the filter
      of all but its last element. */
  lemma FilterAtSnoc<T(!new)>(s: seq<T>, keep: T -> bool, k: nat)
    requires s != []
    requires IsFilter(Filter(s[..|s| - 1], keep), s[..|s| - 1], keep)
    requires k < |Filter(s, keep)|
    ensures k < |Positions(s, keep)| && Filter(s, keep)[k] == s[Positions(s, keep)[k]]
  {
    var n := |s| - 1;
    SnocParts(s, keep);
    var init := Filter(s[..n], keep);
    var idx0 := Positions(s[..n], keep);
    if k < |init| {
      assert Filter(s, keep)[k] == init[k] == s[..n][idx0[k]];
      assert Positions(s, keep)[k] == idx0[k];
    }
  }

  /** Filtering a concatenation filters each part. */
  lemma {:induction false} FilterConcat<T(!new)>(a: seq<T>, b: seq<T>, keep: T -> bool)
    ensures Filter(a + b, keep) == Filter(a, keep) + Filter(b, keep)
    decreases |b|
  {
    if b == [] {
      assert a + b == a;
    } else {
      var n := |b| - 1;
      assert (a + b)[..|a + b| - 1] == a + b[..n];
      FilterConcat(a, b[..n], keep);
    }
  }

  /** `s.findIndex(p)`: the index of the first element `p` accepts, or
      `None` when there is none. */
  function FirstWhere<T>(s: seq<T>, p: T -> bool): (r: Option<nat>)
    ensures r.Some? ==> r.value < |s| && p(s[r.value])
    ensures r.Some? ==> forall i :: 0 <= i < r.value ==> !p(s[i])
    ensures r.None? ==> forall i :: 0 <= i < |s| ==> !p(s[i])
  {
    if s == [] then None
    else if p(s[0]) then Some(0)
    else match FirstWhere(s[1..], p)
      case None => None
      case Some(k) => Some(k + 1)
  }

  /** The index of the first occurrence of `x` in `s`. */
  function FirstIndex<T(==)>(s: seq<T>, x: T): (i: nat)
    requires x in s
    ensures i < |s| && s[i] == x && x !in s[..i]
  {
    if s[0] == x then 0
    else
      var i := FirstIndex(s[1..], x);
      assert s[..i + 1] == [s[0]] + s[1..][..i];
      i + 1
  }

  /** An index holding `x` with no `x` before it is the first occurrence. */
  lemma FirstIndexUnique<T>(s: seq<T>, x: T, i: nat)
    requires i < |s| && s[i] == x && x !in s[..i]
    ensures FirstIndex(s, x) == i
  {
  }

  /** A value that occurs in a prefix first occurs there. */
  lemma FirstIndexPrefix<T>(s: seq<T>, n: nat, x: T)
    requires n <= |s| && x in s[..n]
    ensures FirstIndex(s, x) == FirstIndex(s[..n], x)
  {
    var f := FirstIndex(s[..n], x);
    assert s[..n][..f] == s[..f];
    FirstIndexUnique(s, x, f);
  }
}
