/** The by-id array operations every repository and page uses:
    `findIndex`, `find` and "filter out this id", generic over the record
    type and the record's id accessor. */
module Records {
  import opened Types
  import opened Seqs

  /** `xs.findIndex(x => idOf(x) === id)`: the first position holding id, or -1. */
  function FindIndex<T>(xs: seq<T>, idOf: T -> string, id: string): (r: int)
    ensures -1 <= r < |xs|
    ensures r < 0 <==> forall i :: 0 <= i < |xs| ==> idOf(xs[i]) != id
    ensures 0 <= r ==> idOf(xs[r]) == id && forall i :: 0 <= i < r ==> idOf(xs[i]) != id
  {
    if |xs| == 0 then -1
    else if idOf(xs[0]) == id then 0
    else
      var k := FindIndex(xs[1..], idOf, id);
      if k < 0 then -1 else k + 1
  }

  /** `xs.find(x => idOf(x) === id)`: the first record holding id, if any. */
  function Find<T>(xs: seq<T>, idOf: T -> string, id: string): (r: Option<T>)
    ensures r.None? <==> forall i :: 0 <= i < |xs| ==> idOf(xs[i]) != id
    ensures r.Some? ==> exists k :: 0 <= k < |xs| && xs[k] == r.value && idOf(xs[k]) == id
                          && forall i :: 0 <= i < k ==> idOf(xs[i]) != id
  {
    var k := FindIndex(xs, idOf, id);
    if k < 0 then None else Some(xs[k])
  }

  /** `xs.filter(x => idOf(x) !== id)`. */
  function RemoveId<T(!new)>(xs: seq<T>, idOf: T -> string, id: string): (r: seq<T>)
    ensures Subsequence(r, xs)
    ensures forall x {:trigger multiset(r)[x]} :: multiset(r)[x] == if idOf(x) == id then 0 else multiset(xs)[x]
    ensures |r| == |xs| <==> forall i :: 0 <= i < |xs| ==> idOf(xs[i]) != id
    ensures (forall i :: 0 <= i < |xs| ==> idOf(xs[i]) != id) ==> r == xs
  {
    if |xs| == 0 then []
    else
      var rest := RemoveId(xs[1..], idOf, id);
      assert xs == [xs[0]] + xs[1..];
      SubsequenceLength(rest, xs[1..]);
      if idOf(xs[0]) == id then
        assert Subsequence(rest, xs);
        rest
      else
        assert ([xs[0]] + rest)[1..] == rest;
        [xs[0]] + rest
  }

  /** After removal no record holds the id. */
  lemma RemoveIdGone<T(!new)>(xs: seq<T>, idOf: T -> string, id: string)
    ensures forall i :: 0 <= i < |RemoveId(xs, idOf, id)| ==> idOf(RemoveId(xs, idOf, id)[i]) != id
  {
    var r := RemoveId(xs, idOf, id);
    forall i | 0 <= i < |r| ensures idOf(r[i]) != id {
      assert r[i] in multiset(r);
    }
  }

  /** `xs.filter(x => key(x) === id)`: the records whose key is id, in order. */
  function WithKey<T(!new)>(xs: seq<T>, key: T -> string, id: string): (r: seq<T>)
    ensures Subsequence(r, xs)
    ensures forall x {:trigger multiset(r)[x]} :: multiset(r)[x] == if key(x) == id then multiset(xs)[x] else 0
    ensures (forall i :: 0 <= i < |xs| ==> key(xs[i]) != id) ==> r == []
  {
    Filter(xs, x => key(x) == id)
  }

  /** Filtering a sequence extended at the end: the way a `forEach` sees it. */
  lemma WithKeySnoc<T(!new)>(xs: seq<T>, x: T, key: T -> string, id: string)
    ensures WithKey(xs + [x], key, id) == WithKey(xs, key, id) + (if key(x) == id then [x] else [])
  {
    FilterConcat(xs, [x], y => key(y) == id);
  }

  /** The kept records are exactly those whose key is id. */
  lemma WithKeyMembers<T(!new)>(xs: seq<T>, key: T -> string, id: string)
    ensures forall i :: 0 <= i < |WithKey(xs, key, id)| ==> key(WithKey(xs, key, id)[i]) == id
    ensures forall i :: 0 <= i < |xs| && key(xs[i]) == id ==> xs[i] in WithKey(xs, key, id)
  {
    FilterMembers(xs, x => key(x) == id);
  }

  /** findIndex on a sequence extended at the end. */
  lemma {:induction false} FindIndexSnoc<T>(xs: seq<T>, x: T, idOf: T -> string, id: string)
    ensures FindIndex(xs + [x], idOf, id) ==
            if 0 <= FindIndex(xs, idOf, id) then FindIndex(xs, idOf, id)
            else if idOf(x) == id then |xs| else -1
  {
    if |xs| > 0 {
      assert (xs + [x])[1..] == xs[1..] + [x];
      FindIndexSnoc(xs[1..], x, idOf, id);
    }
  }
}
