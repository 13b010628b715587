/** `Array.prototype.filter` over sequences, with the facts the model relies on. */
module Seqs {

  /** The elements of `s` that satisfy `keep`, in their original order. */
  function Filter<T(!new)>(s: seq<T>, keep: T -> bool): (r: seq<T>)
    ensures |r| <= |s|
    ensures forall x :: x in r <==> x in s && keep(x)
    ensures |r| == |s| <==> forall i :: 0 <= i < |s| ==> keep(s[i])
    ensures |r| == 0 <==> forall i :: 0 <= i < |s| ==> !keep(s[i])
  {
    if |s| == 0 then []
    else
      var rest := Filter(s[1..], keep);
      assert forall i :: 1 <= i < |s| ==> s[i] == s[1..][i - 1];
      if keep(s[0]) then [s[0]] + rest else rest
  }

  /** Filtering a one-element sequence keeps the element exactly when it satisfies the predicate. */
  lemma FilterSingleton<T(!new)>(x: T, keep: T -> bool)
    ensures Filter([x], keep) == if keep(x) then [x] else []
  {
    assert [x][1..] == [];
  }

  /** Filtering distributes over concatenation: elements of the front stay in front. */
  lemma {:induction false} FilterConcat<T(!new)>(a: seq<T>, b: seq<T>, keep: T -> bool)
    ensures Filter(a + b, keep) == Filter(a, keep) + Filter(b, keep)
  {
    if |a| == 0 {
      assert a + b == b;
    } else {
      assert (a + b)[1..] == a[1..] + b;
      FilterConcat(a[1..], b, keep);
    }
  }

  /** Filtering preserves order: the result splits at any cut of the input. */
  lemma FilterSplit<T(!new)>(s: seq<T>, k: nat, keep: T -> bool)
    requires k <= |s|
    ensures Filter(s, keep) == Filter(s[..k], keep) + Filter(s[k..], keep)
  {
    assert s == s[..k] + s[k..];
    FilterConcat(s[..k], s[k..], keep);
  }

  /** Filtering with a predicate that holds everywhere is the identity. */
  lemma {:induction false} FilterKeepsAll<T(!new)>(s: seq<T>, keep: T -> bool)
    requires forall i :: 0 <= i < |s| ==> keep(s[i])
    ensures Filter(s, keep) == s
  {
    if |s| > 0 {
      assert forall i :: 0 <= i < |s[1..]| ==> keep(s[1..][i]) by {
        forall i | 0 <= i < |s[1..]| ensures keep(s[1..][i]) { assert s[1..][i] == s[i + 1]; }
      }
      FilterKeepsAll(s[1..], keep);
    }
  }

  /** Filtering a sequence with a known first element. */
  lemma FilterCons<T(!new)>(x: T, t: seq<T>, keep: T -> bool)
    ensures Filter([x] + t, keep) == if keep(x) then [x] + Filter(t, keep) else Filter(t, keep)
  {
    assert ([x] + t)[1..] == t;
  }

  /** Filtering out the one element the predicate rejects removes exactly that element. */
  lemma FilterDropsOne<T(!new)>(front: seq<T>, x: T, back: seq<T>, keep: T -> bool)
    requires forall i :: 0 <= i < |front| ==> keep(front[i])
    requires forall i :: 0 <= i < |back| ==> keep(back[i])
    requires !keep(x)
    ensures Filter(front + [x] + back, keep) == front + back
  {
    calc {
      Filter(front + [x] + back, keep);
      { assert front + [x] + back == front + ([x] + back); }
      Filter(front + ([x] + back), keep);
      { FilterConcat(front, [x] + back, keep); }
      Filter(front, keep) + Filter([x] + back, keep);
      { FilterKeepsAll(front, keep); FilterCons(x, back, keep); FilterKeepsAll(back, keep); }
      front + back;
    }
  }

  /** Putting one more element in front of one part of a split adds it to the whole. */
  lemma MultisetCons<T>(x: T, a: seq<T>, b: seq<T>, t: seq<T>)
    requires multiset(a) + multiset(b) == multiset(t)
    ensures multiset([x] + a) + multiset(b) == multiset([x] + t)
    ensures multiset(b) + multiset([x] + a) == multiset([x] + t)
  {
  }

  /** A predicate and its negation split a sequence into two parts that together hold every element once. */
  lemma {:induction false} FilterPartition<T(!new)>(s: seq<T>, keep: T -> bool, drop: T -> bool)
    requires forall x :: drop(x) == !keep(x)
    ensures |Filter(s, keep)| + |Filter(s, drop)| == |s|
    ensures multiset(Filter(s, keep)) + multiset(Filter(s, drop)) == multiset(s)
  {
    if |s| > 0 {
      var x, t := s[0], s[1..];
      assert s == [x] + t;
      FilterPartition(t, keep, drop);
      FilterCons(x, t, keep);
      FilterCons(x, t, drop);
      if keep(x) {
        MultisetCons(x, Filter(t, keep), Filter(t, drop), t);
      } else {
        MultisetCons(x, Filter(t, drop), Filter(t, keep), t);
      }
    }
  }
}
