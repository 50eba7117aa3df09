/** Sorting lists, and listing maps in the order of their keys. */
module Sorting {
  import opened TextOrder

  /** A strict order in which some elements may be alike. */
  ghost predicate IsOrder<T(!new)>(before: (T, T) -> bool) {
    && (forall a, b :: before(a, b) ==> !before(b, a))
    && (forall a, b, c :: !before(b, a) && !before(c, b) ==> !before(c, a))
  }

  ghost predicate Sorted<T>(list: seq<T>, before: (T, T) -> bool) {
    forall i, j | 0 <= i < j < |list| :: !before(list[j], list[i])
  }

  /** Puts x behind every element it does not come before. */
  function Insert<T>(list: seq<T>, x: T, before: (T, T) -> bool): (r: seq<T>)
    ensures multiset(r) == multiset(list) + multiset{x}
  {
    if list == [] then [x]
    else
      var last := list[|list| - 1];
      assert list == list[..|list| - 1] + [last];
      if before(x, last) then Insert(list[..|list| - 1], x, before) + [last] else list + [x]
  }

  /** The stable sort. */
  function Sort<T>(list: seq<T>, before: (T, T) -> bool): (r: seq<T>)
    ensures multiset(r) == multiset(list)
  {
    if list == [] then []
    else
      assert list == list[..|list| - 1] + [list[|list| - 1]];
      Insert(Sort(list[..|list| - 1], before), list[|list| - 1], before)
  }

  lemma {:induction false} InsertSorted<T(!new)>(list: seq<T>, x: T, before: (T, T) -> bool)
    requires IsOrder(before) && Sorted(list, before)
    ensures Sorted(Insert(list, x, before), before)
  {
    if list != [] {
      var last, front := list[|list| - 1], list[..|list| - 1];
      var r := Insert(front, x, before);
      if before(x, last) {
        InsertSorted(front, x, before);
        forall k | 0 <= k < |r| ensures !before(last, r[k]) {
          assert r[k] in multiset(r);
          assert r[k] == x || r[k] in multiset(front);
        }
      }
    }
  }

  lemma {:induction false} SortSorted<T(!new)>(list: seq<T>, before: (T, T) -> bool)
    requires IsOrder(before)
    ensures Sorted(Sort(list, before), before)
  {
    if list != [] {
      SortSorted(list[..|list| - 1], before);
      InsertSorted(Sort(list[..|list| - 1], before), list[|list| - 1], before);
    }
  }

  lemma SameElements<T>(a: seq<T>, b: seq<T>, x: T)
    requires multiset(a) == multiset(b)
    ensures x in a <==> x in b
  {
    assert x in a <==> x in multiset(a);
    assert x in b <==> x in multiset(b);
  }

  // ---------- keys ----------

  ghost predicate Ascending<T>(list: seq<T>, key: T -> string) {
    forall i, j | 0 <= i < j < |list| :: Less(key(list[i]), key(list[j]))
  }

  ghost predicate KeysApart<T>(list: seq<T>, key: T -> string) {
    forall i, j | 0 <= i < j < |list| :: key(list[i]) != key(list[j])
  }

  function ByKey<T>(key: T -> string): (T, T) -> bool {
    (a: T, b: T) => Less(key(a), key(b))
  }

  lemma ByKeyOrder<T(!new)>(key: T -> string)
    ensures IsOrder(ByKey(key))
  {
    forall a, b ensures ByKey(key)(a, b) ==> !ByKey(key)(b, a) { LessTotal(key(a), key(b)); }
    forall a, b, c | !ByKey(key)(b, a) && !ByKey(key)(c, b) ensures !ByKey(key)(c, a) {
      LessTotal(key(a), key(b));
      LessTotal(key(b), key(c));
      LessTotal(key(a), key(c));
      if key(a) != key(b) && key(b) != key(c) { LessTransitive(key(a), key(b), key(c)); }
    }
  }

  lemma {:induction false} InsertApart<T>(list: seq<T>, x: T, before: (T, T) -> bool, key: T -> string)
    requires KeysApart(list, key) && forall i | 0 <= i < |list| :: key(list[i]) != key(x)
    ensures KeysApart(Insert(list, x, before), key)
  {
    if list != [] && before(x, list[|list| - 1]) {
      var front := list[..|list| - 1];
      var r := Insert(front, x, before);
      InsertApart(front, x, before, key);
      forall k | 0 <= k < |r| ensures key(r[k]) != key(list[|list| - 1]) {
        assert r[k] in multiset(r);
        assert r[k] == x || r[k] in multiset(front);
      }
    }
  }

  lemma {:induction false} SortApart<T>(list: seq<T>, before: (T, T) -> bool, key: T -> string)
    requires KeysApart(list, key)
    ensures KeysApart(Sort(list, before), key)
  {
    if list != [] {
      var front := list[..|list| - 1];
      SortApart(front, before, key);
      forall k | 0 <= k < |Sort(front, before)| ensures key(Sort(front, before)[k]) != key(list[|list| - 1]) {
        SameElements(Sort(front, before), front, Sort(front, before)[k]);
      }
      InsertApart(Sort(front, before), list[|list| - 1], before, key);
    }
  }

  /** Sorting by key puts elements with keys of their own in ascending order. */
  lemma SortAscends<T(!new)>(list: seq<T>, key: T -> string)
    requires KeysApart(list, key)
    ensures Ascending(Sort(list, ByKey(key)), key)
  {
    var r := Sort(list, ByKey(key));
    ByKeyOrder(key);
    SortSorted(list, ByKey(key));
    SortApart(list, ByKey(key), key);
    forall i, j | 0 <= i < j < |r| ensures Less(key(r[i]), key(r[j])) {
      assert !ByKey(key)(r[j], r[i]);
      LessTotal(key(r[i]), key(r[j]));
    }
  }

  lemma EmptyAlike<T(!new)>(a: seq<T>, b: seq<T>)
    requires forall x :: x in a <==> x in b
    ensures a == [] <==> b == []
  {
    if a != [] { assert a[0] in a; }
    if b != [] { assert b[0] in b; }
  }

  /** Ascending lists of the same elements are equal. */
  lemma {:induction false} AscendingEqual<T(!new)>(a: seq<T>, b: seq<T>, key: T -> string)
    requires Ascending(a, key) && Ascending(b, key) && forall x :: x in a <==> x in b
    ensures a == b
  {
    EmptyAlike(a, b);
    if a != [] {
      assert a[0] in b;
      assert b[0] in a;
      AscendsFrom(a, key, b[0]);
      AscendsFrom(b, key, a[0]);
      LessTotal(key(a[0]), key(b[0]));
      assert a == [a[0]] + a[1..] && b == [b[0]] + b[1..];
      forall x ensures x in a[1..] <==> x in b[1..] {
        AscendsPast(a, key);
        AscendsPast(b, key);
        assert x in a <==> x in b;
      }
      AscendingEqual(a[1..], b[1..], key);
    }
  }

  lemma AscendsFrom<T>(a: seq<T>, key: T -> string, x: T)
    requires Ascending(a, key) && x in a
    ensures x == a[0] || Less(key(a[0]), key(x))
  {
  }

  lemma AscendsPast<T>(a: seq<T>, key: T -> string)
    requires Ascending(a, key) && a != []
    ensures a[0] !in a[1..]
  {
    LessTotal(key(a[0]), key(a[0]));
  }

  // ---------- maps ----------

  /** The values of a map whose values know their keys, by key. */
  method ListByKey<T(!new)>(m: map<string, T>, key: T -> string) returns (list: seq<T>)
    requires forall k | k in m :: key(m[k]) == k
    ensures Ascending(list, key)
    ensures forall x :: x in list <==> key(x) in m && m[key(x)] == x
  {
    var values: seq<T> := [];
    var rest := m.Keys;
    while rest != {}
      invariant rest <= m.Keys && KeysApart(values, key)
      invariant forall x :: x in values <==> key(x) in m.Keys - rest && m[key(x)] == x
      decreases |rest|
    {
      var k :| k in rest;
      values := values + [m[k]];
      rest := rest - {k};
    }
    SortAscends(values, key);
    list := Sort(values, ByKey(key));
    forall x ensures x in list <==> x in values { SameElements(list, values, x); }
  }
}
