/** Sequence helpers shared by both versions of the record store: Python's
    `next((x for x in xs if p(x)), None)` as a first-match search, and list
    comprehensions with an `if` as an order-keeping filter. */
module Lists {

  datatype Option<+T> = None | Some(value: T)

  /** Index of the first element of `s` satisfying `p`, or None when no element does. */
  function FirstIndex<T>(s: seq<T>, p: T -> bool): (r: Option<nat>)
    ensures r.None? <==> forall k :: 0 <= k < |s| ==> !p(s[k])
    ensures r.Some? ==> r.value < |s| && p(s[r.value])
    ensures r.Some? ==> forall k :: 0 <= k < r.value ==> !p(s[k])
    decreases |s|
  {
    if s == [] then None
    else if p(s[0]) then Some(0)
    else
      match FirstIndex(s[1..], p)
      case None => None
      case Some(i) => Some(i + 1)
  }

  /** The first match is the only index that matches with no match before it. */
  lemma FirstIndexIs<T>(s: seq<T>, p: T -> bool, i: nat)
    requires i < |s| && p(s[i])
    requires forall k :: 0 <= k < i ==> !p(s[k])
    ensures FirstIndex(s, p) == Some(i)
  {
  }

  /** Searching from the front: the head is the first match when it matches,
      otherwise the first match is one past the first match in the tail. */
  lemma FirstIndexCons<T>(x: T, s: seq<T>, p: T -> bool)
    ensures FirstIndex([x] + s, p)
         == if p(x) then Some(0)
            else match FirstIndex(s, p) case None => None case Some(i) => Some(i + 1)
  {
    assert ([x] + s)[1..] == s;
  }

  /** The elements of `s` satisfying `p`, in their order in `s`. */
  function Filter<T>(s: seq<T>, p: T -> bool): (r: seq<T>)
    ensures |r| <= |s|
    ensures forall k :: 0 <= k < |r| ==> p(r[k])
    decreases |s|
  {
    if s == [] then []
    else Filter(s[..|s| - 1], p) + (if p(s[|s| - 1]) then [s[|s| - 1]] else [])
  }

  /** The filter keeps exactly the elements that pass: each kept element is in
      `s`, and each element of `s` that passes is kept. */
  lemma {:induction false} FilterMembers<T>(s: seq<T>, p: T -> bool)
    ensures forall k :: 0 <= k < |Filter(s, p)| ==> Filter(s, p)[k] in s
    ensures forall k :: 0 <= k < |s| && p(s[k]) ==> s[k] in Filter(s, p)
    decreases |s|
  {
    if s != [] {
      var init := s[..|s| - 1];
      var x := s[|s| - 1];
      FilterMembers(init, p);
      var r := Filter(s, p);
      var ri := Filter(init, p);
      assert r == ri + (if p(x) then [x] else []);
      forall k | 0 <= k < |r| ensures r[k] in s {
        if k < |ri| {
          assert r[k] == ri[k];
          assert ri[k] in init;
        }
      }
      forall k | 0 <= k < |s| && p(s[k]) ensures s[k] in r {
        if k < |init| {
          assert s[k] == init[k];
          assert init[k] in ri;
        }
      }
    }
  }

  /** Filtering distributes over concatenation: the filter keeps order. */
  lemma {:induction false} FilterAppend<T>(a: seq<T>, b: seq<T>, p: T -> bool)
    ensures Filter(a + b, p) == Filter(a, p) + Filter(b, p)
    decreases |b|
  {
    if b == [] {
      assert a + b == a;
    } else {
      var b' := b[..|b| - 1];
      assert (a + b)[..|a + b| - 1] == a + b';
      FilterAppend(a, b', p);
    }
  }

  /** Filtering a sequence whose every element passes gives the sequence back. */
  lemma {:induction false} FilterKeepsAll<T>(s: seq<T>, p: T -> bool)
    requires forall k :: 0 <= k < |s| ==> p(s[k])
    ensures Filter(s, p) == s
    decreases |s|
  {
    if s != [] {
      var init := s[..|s| - 1];
      FilterKeepsAll(init, p);
      assert p(s[|s| - 1]);
      assert init + [s[|s| - 1]] == s;
    }
  }

  /** Filtering a sequence whose every element fails gives the empty sequence. */
  lemma {:induction false} FilterDropsAll<T>(s: seq<T>, p: T -> bool)
    requires forall k :: 0 <= k < |s| ==> !p(s[k])
    ensures Filter(s, p) == []
    decreases |s|
  {
    if s != [] {
      FilterDropsAll(s[..|s| - 1], p);
    }
  }

  /** Filtering from the front: the head is kept exactly when it passes. */
  lemma FilterCons<T>(x: T, s: seq<T>, p: T -> bool)
    ensures Filter([x] + s, p) == (if p(x) then [x] else []) + Filter(s, p)
  {
    FilterAppend([x], s, p);
    assert Filter([x], p) == Filter([], p) + (if p(x) then [x] else []) by {
      assert [x][..0] == [];
    }
  }
}
