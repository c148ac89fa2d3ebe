/** Lists of records found and replaced by id: an array patched in place, and a table whose rows come back
    in no particular order. */
module Keyed {
  import opened Sequences

  type Key = string

  ghost predicate UniqueKeys<T>(key: T -> Key, s: seq<T>) {
    forall i, j :: 0 <= i < j < |s| ==> key(s[i]) != key(s[j])
  }

  function WithKey<T>(key: T -> Key, id: Key): T -> bool {
    (x: T) => key(x) == id
  }

  function WithoutKey<T>(key: T -> Key, id: Key): T -> bool {
    (x: T) => key(x) != id
  }

  function Lookup<T(!new)>(key: T -> Key, id: Key, s: seq<T>): Option<T> {
    Find(WithKey(key, id), s)
  }

  ghost predicate Fresh<T(!new)>(key: T -> Key, id: Key, s: seq<T>) {
    forall x :: x in s ==> key(x) != id
  }

  /** Object.assign on the first record with x's id: the record keeps its place. */
  function Put<T(!new)>(key: T -> Key, s: seq<T>, x: T): seq<T> {
    var i := FirstIndex(WithKey(key, key(x)), s);
    if i < |s| then s[i := x] else s
  }

  /** UPDATE ... WHERE id = ...: the new row version may end up anywhere; it is put last. */
  function Rewrite<T>(key: T -> Key, rows: seq<T>, x: T): seq<T> {
    Filter(WithoutKey(key, key(x)), rows) + [x]
  }

  lemma LookupIs<T(!new)>(key: T -> Key, s: seq<T>, x: T)
    requires UniqueKeys(key, s) && x in s
    ensures Lookup(key, key(x), s) == Some(x)
  {
    assert WithKey(key, key(x))(x);
  }

  lemma LookupFresh<T(!new)>(key: T -> Key, id: Key, s: seq<T>)
    ensures Lookup(key, id, s).None? <==> Fresh(key, id, s)
    ensures Lookup(key, id, s).Some? ==> Lookup(key, id, s).value in s && key(Lookup(key, id, s).value) == id
  {
    assert forall x :: WithKey(key, id)(x) <==> key(x) == id;
  }

  /** The same records in another order give the same lookups. */
  lemma LookupAgrees<T(!new)>(key: T -> Key, id: Key, s: seq<T>, t: seq<T>)
    requires UniqueKeys(key, s) && UniqueKeys(key, t) && SameElements(s, t)
    ensures Lookup(key, id, s) == Lookup(key, id, t)
  {
    LookupFresh(key, id, s);
    LookupFresh(key, id, t);
    if Lookup(key, id, s).Some? {
      LookupIs(key, t, Lookup(key, id, s).value);
    }
  }

  lemma PutMembers<T(!new)>(key: T -> Key, s: seq<T>, x: T)
    requires UniqueKeys(key, s) && Lookup(key, key(x), s).Some?
    ensures UniqueKeys(key, Put(key, s, x)) && |Put(key, s, x)| == |s|
    ensures forall i :: 0 <= i < |s| ==> Put(key, s, x)[i] == if key(s[i]) == key(x) then x else s[i]
    ensures forall y :: y in Put(key, s, x) <==> y == x || (y in s && key(y) != key(x))
  {
    var i := FirstIndex(WithKey(key, key(x)), s);
    var r := Put(key, s, x);
    assert forall j :: 0 <= j < |s| && j != i ==> r[j] == s[j];
    forall y
      ensures y in r <==> y == x || (y in s && key(y) != key(x))
    {
      if y in s && key(y) != key(x) {
        var j :| 0 <= j < |s| && s[j] == y;
        assert r[j] == y;
      }
      assert r[i] == x;
    }
  }

  lemma {:induction false} FilterUnique<T(!new)>(key: T -> Key, p: T -> bool, s: seq<T>)
    requires UniqueKeys(key, s)
    ensures UniqueKeys(key, Filter(p, s))
  {
    if s != [] {
      FilterUnique(key, p, s[1..]);
      FilterMembers(p, s[1..]);
      var f := Filter(p, s[1..]);
      assert forall j :: 0 <= j < |f| ==> f[j] in f && f[j] in s[1..];
    }
  }

  lemma RewriteMembers<T(!new)>(key: T -> Key, rows: seq<T>, x: T)
    requires UniqueKeys(key, rows)
    ensures UniqueKeys(key, Rewrite(key, rows, x))
    ensures forall y :: y in Rewrite(key, rows, x) <==> y == x || (y in rows && key(y) != key(x))
  {
    var p := WithoutKey(key, key(x));
    FilterMembers(p, rows);
    FilterUnique(key, p, rows);
    assert forall j :: 0 <= j < |Filter(p, rows)| ==> Filter(p, rows)[j] in Filter(p, rows);
  }

  lemma AppendUnique<T(!new)>(key: T -> Key, s: seq<T>, x: T)
    requires UniqueKeys(key, s) && Fresh(key, key(x), s)
    ensures UniqueKeys(key, s + [x])
  {
  }

  lemma UniqueKeysNoDup<T>(key: T -> Key, s: seq<T>)
    requires UniqueKeys(key, s)
    ensures NoDup(s)
  {
  }
}
