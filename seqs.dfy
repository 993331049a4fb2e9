/** Sequence facts shared by the repositories, the forms and the search
    filters. */
module Seqs {

  /** r can be obtained from s by deleting elements: the elements of r occur
      in s in the same order. */
  ghost predicate Subsequence<T>(r: seq<T>, s: seq<T>)
  {
    if r == [] then true
    else if s == [] then false
    else (r[0] == s[0] && Subsequence(r[1..], s[1..])) || Subsequence(r, s[1..])
  }

  lemma {:induction false} SubsequenceRefl<T>(s: seq<T>)
    ensures Subsequence(s, s)
  {
    if s != [] {
      SubsequenceRefl(s[1..]);
    }
  }

  lemma {:induction false} SubsequenceLength<T>(r: seq<T>, s: seq<T>)
    requires Subsequence(r, s)
    ensures |r| <= |s|
  {
    if r != [] {
      if r[0] == s[0] && Subsequence(r[1..], s[1..]) {
        SubsequenceLength(r[1..], s[1..]);
      } else {
        SubsequenceLength(r, s[1..]);
      }
    }
  }

  /** A sequence is the part before an index, the element there and the part after. */
  lemma SplitAt<T>(s: seq<T>, index: nat)
    requires index < |s|
    ensures s == s[..index] + [s[index]] + s[index + 1..]
    ensures RemoveAt(s, index) == s[..index] + s[index + 1..]
  {
    assert s[index..] == [s[index]] + s[index + 1..];
    assert s == s[..index] + s[index..];
  }

  /** `copy.splice(index, 1)`: removes the element at index; an index past
      the end removes nothing. */
  function RemoveAt<T>(s: seq<T>, index: nat): (r: seq<T>)
    ensures index < |s| ==> |r| == |s| - 1
    ensures index < |s| ==> forall j :: 0 <= j < index ==> r[j] == s[j]
    ensures index < |s| ==> forall j :: index <= j < |r| ==> r[j] == s[j + 1]
    ensures index >= |s| ==> r == s
  {
    if index < |s| then s[..index] + s[index + 1..] else s
  }

  /** The survivors of RemoveAt keep their order. */
  lemma {:induction false} RemoveAtSubsequence<T>(s: seq<T>, index: nat)
    requires index < |s|
    ensures Subsequence(RemoveAt(s, index), s)
  {
    var r := RemoveAt(s, index);
    if index == 0 {
      assert r == s[1..];
      SubsequenceRefl(s[1..]);
    } else {
      RemoveAtSubsequence(s[1..], index - 1);
      assert r[1..] == RemoveAt(s[1..], index - 1);
      assert r[0] == s[0];
    }
  }

  /** RemoveAt takes away exactly one occurrence of the element at index. */
  lemma RemoveAtMultiset<T>(s: seq<T>, index: nat)
    requires index < |s|
    ensures multiset(RemoveAt(s, index)) + multiset{s[index]} == multiset(s)
  {
    assert s == s[..index] + [s[index]] + s[index + 1..];
  }

  /** `xs.filter(p)`: the elements satisfying p, in their order. */
  function Filter<T(!new)>(xs: seq<T>, p: T -> bool): (r: seq<T>)
    ensures Subsequence(r, xs)
    ensures forall x {:trigger multiset(r)[x]} :: multiset(r)[x] == if p(x) then multiset(xs)[x] else 0
    ensures (forall i :: 0 <= i < |xs| ==> p(xs[i])) ==> r == xs
    ensures (forall i :: 0 <= i < |xs| ==> !p(xs[i])) ==> r == []
  {
    if |xs| == 0 then []
    else
      var rest := Filter(xs[1..], p);
      assert xs == [xs[0]] + xs[1..];
      if p(xs[0]) then
        assert ([xs[0]] + rest)[1..] == rest;
        [xs[0]] + rest
      else
        assert Subsequence(rest, xs);
        rest
  }

  /** An element is kept exactly when it satisfies p. */
  lemma FilterMembers<T(!new)>(xs: seq<T>, p: T -> bool)
    ensures forall i :: 0 <= i < |Filter(xs, p)| ==> p(Filter(xs, p)[i])
    ensures forall i :: 0 <= i < |xs| ==> (xs[i] in Filter(xs, p) <==> p(xs[i]))
  {
    var r := Filter(xs, p);
    forall i | 0 <= i < |r| ensures p(r[i]) {
      assert r[i] in multiset(r);
    }
    forall i | 0 <= i < |xs| ensures xs[i] in r <==> p(xs[i]) {
      assert xs[i] in multiset(xs);
      assert xs[i] in r <==> xs[i] in multiset(r);
    }
  }

  /** Filtering twice with the same test is filtering once. */
  lemma FilterIdempotent<T(!new)>(xs: seq<T>, p: T -> bool)
    ensures Filter(Filter(xs, p), p) == Filter(xs, p)
  {
    FilterMembers(xs, p);
  }

  /** Filtering a concatenation filters each part. */
  lemma {:induction false} FilterConcat<T(!new)>(xs: seq<T>, ys: seq<T>, p: T -> bool)
    ensures Filter(xs + ys, p) == Filter(xs, p) + Filter(ys, p)
  {
    if xs != [] {
      assert (xs + ys)[1..] == xs[1..] + ys;
      FilterConcat(xs[1..], ys, p);
    } else {
      assert xs + ys == ys;
    }
  }
}
