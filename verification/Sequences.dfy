/** Array.prototype.filter, find, map and the stable Array.prototype.sort, with the few
    facts about them that the store proofs need. */
module Sequences {

  datatype Option<+T> = None | Some(value: T) {
    function GetOr(default: T): T {
      if Some? then value else default
    }
  }

  function Filter<T>(p: T -> bool, s: seq<T>): (r: seq<T>)
    ensures |r| <= |s|
  {
    if s == [] then []
    else if p(s[0]) then [s[0]] + Filter(p, s[1..])
    else Filter(p, s[1..])
  }

  function Map<A, B>(f: A -> B, s: seq<A>): (r: seq<B>)
    ensures |r| == |s|
    ensures forall i :: 0 <= i < |s| ==> r[i] == f(s[i])
  {
    if s == [] then [] else [f(s[0])] + Map(f, s[1..])
  }

  /** The index that Array.prototype.findIndex returns, or |s| when nothing matches. */
  function FirstIndex<T(!new)>(p: T -> bool, s: seq<T>): (i: nat)
    ensures i <= |s|
    ensures i < |s| ==> p(s[i])
    ensures forall j :: 0 <= j < i ==> !p(s[j])
  {
    if s == [] then 0 else if p(s[0]) then 0 else 1 + FirstIndex(p, s[1..])
  }

  function Find<T(!new)>(p: T -> bool, s: seq<T>): (r: Option<T>)
    ensures r.Some? ==> r.value in s && p(r.value)
    ensures r.None? ==> forall x :: x in s ==> !p(x)
  {
    var i := FirstIndex(p, s);
    if i < |s| then Some(s[i]) else None
  }

  function Head<T>(s: seq<T>): Option<T> {
    if s == [] then None else Some(s[0])
  }

  // ----- distinct keys -----

  ghost predicate NoDup<T>(s: seq<T>) {
    forall i, j :: 0 <= i < j < |s| ==> s[i] != s[j]
  }

  ghost predicate SameElements<T(!new)>(s: seq<T>, t: seq<T>) {
    forall x :: x in s <==> x in t
  }

  // ----- Filter -----

  lemma {:induction false} FilterMembers<T(!new)>(p: T -> bool, s: seq<T>)
    ensures forall x :: x in Filter(p, s) <==> x in s && p(x)
  {
    if s != [] {
      FilterMembers(p, s[1..]);
      assert s == [s[0]] + s[1..];
    }
  }

  lemma {:induction false} FilterAppend<T(!new)>(p: T -> bool, s: seq<T>, t: seq<T>)
    ensures Filter(p, s + t) == Filter(p, s) + Filter(p, t)
  {
    if s == [] {
      assert s + t == t;
    } else {
      assert (s + t)[1..] == s[1..] + t;
      FilterAppend(p, s[1..], t);
    }
  }

  lemma {:induction false} FilterCongruent<T(!new)>(p: T -> bool, q: T -> bool, s: seq<T>)
    requires forall x :: x in s ==> p(x) == q(x)
    ensures Filter(p, s) == Filter(q, s)
  {
    if s != [] {
      assert s[0] in s;
      FilterCongruent(p, q, s[1..]);
    }
  }

  lemma {:induction false} FilterAll<T(!new)>(p: T -> bool, s: seq<T>)
    requires forall x :: x in s ==> p(x)
    ensures Filter(p, s) == s
  {
    if s != [] {
      assert s[0] in s;
      FilterAll(p, s[1..]);
    }
  }

  lemma MapCongruent<A(!new), B>(f: A -> B, g: A -> B, s: seq<A>)
    requires forall x :: x in s ==> f(x) == g(x)
    ensures Map(f, s) == Map(g, s)
  {
    forall i | 0 <= i < |s|
      ensures Map(f, s)[i] == Map(g, s)[i]
    {
      assert s[i] in s;
    }
  }

  // ----- stable insertion sort: the result Array.prototype.sort must return -----

  function Insert<T>(le: (T, T) -> bool, x: T, s: seq<T>): (r: seq<T>)
    ensures |r| == |s| + 1
  {
    if s == [] || le(x, s[0]) then [x] + s else [s[0]] + Insert(le, x, s[1..])
  }

  function Sort<T>(le: (T, T) -> bool, s: seq<T>): (r: seq<T>)
    ensures |r| == |s|
  {
    if s == [] then [] else Insert(le, s[0], Sort(le, s[1..]))
  }

  ghost predicate TotalPreorder<T(!new)>(le: (T, T) -> bool) {
    && (forall a, b :: le(a, b) || le(b, a))
    && (forall a, b, c :: le(a, b) && le(b, c) ==> le(a, c))
  }

  ghost predicate Sorted<T(!new)>(le: (T, T) -> bool, s: seq<T>) {
    forall i, j :: 0 <= i < j < |s| ==> le(s[i], s[j])
  }

  /** Sorted, with every comparison strict. */
  ghost predicate StrictlySorted<T(!new)>(le: (T, T) -> bool, s: seq<T>) {
    forall i, j :: 0 <= i < j < |s| ==> le(s[i], s[j]) && !le(s[j], s[i])
  }

  lemma {:induction false} InsertMultiset<T>(le: (T, T) -> bool, x: T, s: seq<T>)
    ensures multiset(Insert(le, x, s)) == multiset(s) + multiset{x}
  {
    if !(s == [] || le(x, s[0])) {
      InsertMultiset(le, x, s[1..]);
      assert s == [s[0]] + s[1..];
    }
  }

  lemma {:induction false} SortMultiset<T>(le: (T, T) -> bool, s: seq<T>)
    ensures multiset(Sort(le, s)) == multiset(s)
  {
    if s != [] {
      SortMultiset(le, s[1..]);
      InsertMultiset(le, s[0], Sort(le, s[1..]));
      assert s == [s[0]] + s[1..];
    }
  }

  lemma SortMembers<T(!new)>(le: (T, T) -> bool, s: seq<T>)
    ensures SameElements(Sort(le, s), s)
  {
    SortMultiset(le, s);
    forall x
      ensures x in Sort(le, s) <==> x in s
    {
      assert x in multiset(Sort(le, s)) <==> x in multiset(s);
    }
  }

  lemma {:induction false} InsertSorted<T(!new)>(le: (T, T) -> bool, x: T, s: seq<T>)
    requires TotalPreorder(le) && Sorted(le, s)
    ensures Sorted(le, Insert(le, x, s))
  {
    if s == [] || le(x, s[0]) {
      assert forall j :: 0 <= j < |s| ==> le(x, s[j]);
    } else {
      InsertSorted(le, x, s[1..]);
      InsertMultiset(le, x, s[1..]);
      var r := Insert(le, x, s[1..]);
      forall j | 0 <= j < |r|
        ensures le(s[0], r[j])
      {
        assert r[j] in multiset(r);
        assert r[j] == x || r[j] in s[1..];
      }
    }
  }

  lemma {:induction false} SortSorted<T(!new)>(le: (T, T) -> bool, s: seq<T>)
    requires TotalPreorder(le)
    ensures Sorted(le, Sort(le, s))
  {
    if s != [] {
      SortSorted(le, s[1..]);
      InsertSorted(le, s[0], Sort(le, s[1..]));
    }
  }

  lemma {:induction false} FilterInsert<T(!new)>(le: (T, T) -> bool, p: T -> bool, x: T, s: seq<T>)
    requires TotalPreorder(le) && Sorted(le, s)
    ensures Filter(p, Insert(le, x, s)) == if p(x) then Insert(le, x, Filter(p, s)) else Filter(p, s)
  {
    if s == [] || le(x, s[0]) {
      assert ([x] + s)[1..] == s;
      var f := Filter(p, s);
      if f != [] {
        FilterMembers(p, s);
        assert f[0] in f;
        assert le(x, f[0]);
      }
    } else {
      FilterInsert(le, p, x, s[1..]);
      var r := Insert(le, x, s[1..]);
      assert ([s[0]] + r)[1..] == r;
      assert Filter(p, Insert(le, x, s)) == if p(s[0]) then [s[0]] + Filter(p, r) else Filter(p, r);
      var f := Filter(p, s[1..]);
      if p(s[0]) {
        assert ([s[0]] + f)[1..] == f;
      } else if p(x) && f != [] {
        // x goes after s[0] in s; in the filtered list it is compared with f[0] on
        assert Filter(p, s) == f;
      }
    }
  }

  /** Filtering a sorted list is sorting the filtered list, ties included. */
  lemma {:induction false} FilterSort<T(!new)>(le: (T, T) -> bool, p: T -> bool, s: seq<T>)
    requires TotalPreorder(le)
    ensures Filter(p, Sort(le, s)) == Sort(le, Filter(p, s))
  {
    if s != [] {
      FilterSort(le, p, s[1..]);
      SortSorted(le, s[1..]);
      FilterInsert(le, p, s[0], Sort(le, s[1..]));
      var f := Filter(p, s[1..]);
      assert ([s[0]] + f)[1..] == f;
    }
  }

  lemma {:induction false} SortOfSorted<T(!new)>(le: (T, T) -> bool, s: seq<T>)
    requires Sorted(le, s)
    ensures Sort(le, s) == s
  {
    if s != [] {
      SortOfSorted(le, s[1..]);
    }
  }

  /** Sorting leaves the order of the elements that matter alone exactly when they were in order. */
  lemma SortedExactly<T(!new)>(le: (T, T) -> bool, p: T -> bool, s: seq<T>)
    requires TotalPreorder(le)
    ensures Filter(p, Sort(le, s)) == Filter(p, s) <==> Sorted(le, Filter(p, s))
  {
    FilterSort(le, p, s);
    SortSorted(le, Filter(p, s));
    if Sorted(le, Filter(p, s)) {
      SortOfSorted(le, Filter(p, s));
    }
  }

  /** Two strictly sorted lists with the same elements are the same list. */
  lemma {:induction false} StrictlySortedUnique<T(!new)>(le: (T, T) -> bool, s: seq<T>, t: seq<T>)
    requires StrictlySorted(le, s) && StrictlySorted(le, t) && SameElements(s, t)
    ensures s == t
  {
    assert t != [] ==> t[0] in s;
    if s != [] {
      assert s[0] in t;
      assert t != [] && t[0] in s;
      assert s[0] == t[0];
      forall x
        ensures x in s[1..] <==> x in t[1..]
      {
        assert x in s <==> x == s[0] || x in s[1..];
        assert x in t <==> x == t[0] || x in t[1..];
        assert s[0] !in s[1..] && t[0] !in t[1..];
      }
      StrictlySortedUnique(le, s[1..], t[1..]);
    }
  }

  ghost predicate Antisymmetric<T(!new)>(le: (T, T) -> bool, s: seq<T>) {
    forall x, y :: x in s && y in s && le(x, y) && le(y, x) ==> x == y
  }

  lemma SortNoDup<T(!new)>(le: (T, T) -> bool, s: seq<T>)
    requires TotalPreorder(le) && NoDup(s)
    ensures NoDup(Sort(le, s))
  {
    SortMultiset(le, s);
    MultisetOfNoDup(s);
    NoDupOfMultiset(Sort(le, s));
  }

  lemma {:induction false} MultisetOfNoDup<T(!new)>(s: seq<T>)
    requires NoDup(s)
    ensures forall x :: multiset(s)[x] <= 1
  {
    if s != [] {
      assert s == [s[0]] + s[1..];
      MultisetOfNoDup(s[1..]);
      assert s[0] !in s[1..];
      assert multiset(s) == multiset{s[0]} + multiset(s[1..]);
    }
  }

  lemma {:induction false} NoDupOfMultiset<T(!new)>(s: seq<T>)
    requires forall x :: multiset(s)[x] <= 1
    ensures NoDup(s)
  {
    if s != [] {
      assert s == [s[0]] + s[1..];
      var m := multiset(s[1..]);
      assert multiset(s) == multiset{s[0]} + m;
      assert forall x :: m[x] <= multiset(s)[x];
      assert multiset(s)[s[0]] == 1 + m[s[0]];
      NoDupOfMultiset(s[1..]);
      assert s[0] !in s[1..];
    }
  }

  lemma SameMultiset<T(!new)>(s: seq<T>, t: seq<T>)
    requires NoDup(s) && NoDup(t) && SameElements(s, t)
    ensures multiset(s) == multiset(t)
  {
    MultisetOfNoDup(s);
    MultisetOfNoDup(t);
    forall x
      ensures multiset(s)[x] == multiset(t)[x]
    {
      assert x in multiset(s) <==> x in s;
      assert x in multiset(t) <==> x in t;
    }
  }

  /** A sort whose order separates the elements forgets the order of its input. */
  lemma SortUnique<T(!new)>(le: (T, T) -> bool, s: seq<T>, t: seq<T>)
    requires TotalPreorder(le) && NoDup(s) && NoDup(t) && SameElements(s, t)
    requires Antisymmetric(le, s)
    ensures Sort(le, s) == Sort(le, t)
  {
    SortSorted(le, s);
    SortSorted(le, t);
    SortNoDup(le, s);
    SortNoDup(le, t);
    SortMembers(le, s);
    SortMembers(le, t);
    var a, b := Sort(le, s), Sort(le, t);
    assert forall i :: 0 <= i < |a| ==> a[i] in s;
    assert forall i :: 0 <= i < |b| ==> b[i] in t && b[i] in s;
    StrictlySortedUnique(le, a, b);
  }

  /** The first element of a sorted list is a least one. */
  lemma SortHead<T(!new)>(le: (T, T) -> bool, s: seq<T>)
    requires TotalPreorder(le) && s != []
    ensures Sort(le, s) != [] && Sort(le, s)[0] in s
    ensures forall x :: x in s ==> le(Sort(le, s)[0], x)
  {
    SortSorted(le, s);
    SortMembers(le, s);
    var r := Sort(le, s);
    assert r[0] in r;
    forall x | x in s
      ensures le(r[0], x)
    {
      assert x in r;
    }
  }
}
