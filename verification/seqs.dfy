/** The array operations the source relies on, `find` and `filter`, as
    functions on sequences, with the facts about them the other modules use. */
module Seqs {
  import opened JsValues

  /** `s.findIndex(p)`: the index of the first element satisfying `p`. */
  function Find<T>(s: seq<T>, p: T -> bool): (r: Option<nat>)
    ensures r.Some? ==> r.value < |s| && p(s[r.value])
    ensures r.Some? ==> forall j :: 0 <= j < r.value ==> !p(s[j])
    ensures r.None? <==> forall j :: 0 <= j < |s| ==> !p(s[j])
  {
    if s == [] then None
    else if p(s[0]) then Some(0)
    else
      match Find(s[1..], p)
      case None => None
      case Some(i) => Some(i + 1)
  }

  /** `s.filter(p)`: the elements satisfying `p`, in their original order. */
  function Filter<T(!new)>(s: seq<T>, p: T -> bool): (r: seq<T>)
    ensures |r| <= |s|
    ensures forall x :: x in r <==> x in s && p(x)
  {
    if s == [] then []
    else (if p(s[0]) then [s[0]] else []) + Filter(s[1..], p)
  }

  /** Filtering distributes over concatenation, so order is kept. */
  lemma {:induction false} FilterAppend<T(!new)>(a: seq<T>, b: seq<T>, p: T -> bool)
    ensures Filter(a + b, p) == Filter(a, p) + Filter(b, p)
  {
    if a == [] {
      assert a + b == b;
    } else {
      assert (a + b)[0] == a[0];
      assert (a + b)[1..] == a[1..] + b;
      FilterAppend(a[1..], b, p);
    }
  }

  /** A filter that every element passes returns the sequence unchanged. */
  lemma {:induction false} FilterKeepsAll<T(!new)>(s: seq<T>, p: T -> bool)
    requires forall x :: x in s ==> p(x)
    ensures Filter(s, p) == s
  {
    if s != [] {
      FilterKeepsAll(s[1..], p);
    }
  }

  /** The elements passing `p` and those failing it together make up `s`. */
  lemma {:induction false} FilterPartition<T(!new)>(s: seq<T>, p: T -> bool, q: T -> bool)
    requires forall x :: q(x) <==> !p(x)
    ensures multiset(Filter(s, p)) + multiset(Filter(s, q)) == multiset(s)
  {
    if s != [] {
      var x, rest := s[0], s[1..];
      assert s == [x] + rest;
      FilterPartition(rest, p, q);
      if p(x) {
        assert Filter(s, p) == [x] + Filter(rest, p);
        assert Filter(s, q) == Filter(rest, q);
        assert multiset([x] + Filter(rest, p)) == multiset{x} + multiset(Filter(rest, p));
      } else {
        assert Filter(s, p) == Filter(rest, p);
        assert Filter(s, q) == [x] + Filter(rest, q);
        assert multiset([x] + Filter(rest, q)) == multiset{x} + multiset(Filter(rest, q));
      }
      assert multiset(s) == multiset{x} + multiset(rest);
    }
  }

  /** A filter no element passes returns nothing. */
  lemma {:induction false} FilterDropsAll<T(!new)>(s: seq<T>, p: T -> bool)
    requires forall x :: x in s ==> !p(x)
    ensures Filter(s, p) == []
  {
    if s != [] {
      assert s[0] in s;
      FilterDropsAll(s[1..], p);
    }
  }

  /** Filtering a sequence with one more element at the end. */
  lemma FilterSnoc<T(!new)>(s: seq<T>, x: T, p: T -> bool)
    ensures Filter(s + [x], p) == Filter(s, p) + (if p(x) then [x] else [])
  {
    FilterAppend(s, [x], p);
    assert [x][1..] == [];
  }
}
