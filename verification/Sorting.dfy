/** A stable sort by a given order, and why its result depends only on what is sorted. */
module Sorting {
  type Order<!T> = (T, T) -> bool

  ghost predicate IsOrder<T(!new)>(le: Order<T>) {
    && (forall a, b :: le(a, b) || le(b, a))
    && (forall a, b, c :: le(a, b) && le(b, c) ==> le(a, c))
  }

  ghost predicate Ordered<T>(le: Order<T>, s: seq<T>) {
    forall i, k :: 0 <= i < k < |s| ==> le(s[i], s[k])
  }

  /** `x` goes before the elements it ties with: it came first. */
  function Insert<T>(le: Order<T>, x: T, s: seq<T>): seq<T> {
    if s == [] || le(x, s[0]) then [x] + s else [s[0]] + Insert(le, x, s[1..])
  }

  function Sort<T>(le: Order<T>, s: seq<T>): seq<T> {
    if s == [] then [] else Insert(le, s[0], Sort(le, s[1..]))
  }

  lemma {:induction false} InsertKeeps<T>(le: Order<T>, x: T, s: seq<T>)
    ensures multiset(Insert(le, x, s)) == multiset{x} + multiset(s)
    ensures Insert(le, x, s) != []
  {
    if !(s == [] || le(x, s[0])) {
      InsertKeeps(le, x, s[1..]);
      assert s == [s[0]] + s[1..];
    }
  }

  lemma {:induction false} InsertOrdered<T(!new)>(le: Order<T>, x: T, s: seq<T>)
    requires IsOrder(le) && Ordered(le, s)
    ensures Ordered(le, Insert(le, x, s))
  {
    InsertKeeps(le, x, s);
    if s != [] && !le(x, s[0]) {
      InsertOrdered(le, x, s[1..]);
      InsertKeeps(le, x, s[1..]);
      var t := Insert(le, x, s[1..]);
      forall k | 0 <= k < |t| ensures le(s[0], t[k]) {
        assert t[k] in multiset(t);
        assert t[k] == x || t[k] in multiset(s[1..]);
      }
    }
  }

  lemma {:induction false} SortIsOrderedPermutation<T(!new)>(le: Order<T>, s: seq<T>)
    requires IsOrder(le)
    ensures Ordered(le, Sort(le, s)) && multiset(Sort(le, s)) == multiset(s) && |Sort(le, s)| == |s|
  {
    if s != [] {
      SortIsOrderedPermutation(le, s[1..]);
      InsertOrdered(le, s[0], Sort(le, s[1..]));
      InsertKeeps(le, s[0], Sort(le, s[1..]));
      assert s == [s[0]] + s[1..];
    }
    assert |Sort(le, s)| == |multiset(Sort(le, s))|;
  }

  lemma TailMultiset<T>(s: seq<T>)
    requires s != []
    ensures multiset(s[1..]) == multiset(s) - multiset{s[0]}
    ensures forall x :: x in s[1..] ==> x in s
  {
    assert s == [s[0]] + s[1..];
  }

  /** The first of an ordered arrangement is below every element of it. */
  lemma HeadIsLeast<T(!new)>(le: Order<T>, s: seq<T>, x: T)
    requires Ordered(le, s) && x in s && x != s[0]
    ensures le(s[0], x)
  {
    var k :| 0 <= k < |s| && s[k] == x;
  }

  lemma SameHead<T(!new)>(le: Order<T>, s: seq<T>, t: seq<T>)
    requires Ordered(le, s) && Ordered(le, t) && multiset(s) == multiset(t) && s != [] && t != []
    requires forall a, b :: a in s && b in s && le(a, b) && le(b, a) ==> a == b
    ensures s[0] == t[0]
  {
    assert s[0] in multiset(t) && t[0] in multiset(s);
    if s[0] != t[0] {
      HeadIsLeast(le, s, t[0]);
      HeadIsLeast(le, t, s[0]);
    }
  }

  /** Where no two elements tie, the ordered arrangement is unique. */
  lemma {:induction false} OrderedIsUnique<T(!new)>(le: Order<T>, s: seq<T>, t: seq<T>)
    requires Ordered(le, s) && Ordered(le, t) && multiset(s) == multiset(t)
    requires forall a, b :: a in s && b in s && le(a, b) && le(b, a) ==> a == b
    ensures s == t
  {
    assert |s| == |multiset(s)| && |t| == |multiset(t)|;
    if s != [] {
      SameHead(le, s, t);
      TailMultiset(s);
      TailMultiset(t);
      OrderedIsUnique(le, s[1..], t[1..]);
    }
  }

  /** Sorting forgets the order of its input unless elements tie. */
  lemma SortForgetsInputOrder<T(!new)>(le: Order<T>, s: seq<T>, t: seq<T>)
    requires IsOrder(le) && multiset(s) == multiset(t)
    requires forall a, b :: a in s && b in s && le(a, b) && le(b, a) ==> a == b
    ensures Sort(le, s) == Sort(le, t)
  {
    SortIsOrderedPermutation(le, s);
    SortIsOrderedPermutation(le, t);
    forall a | a in Sort(le, s) ensures a in s {
      assert a in multiset(Sort(le, s));
    }
    OrderedIsUnique(le, Sort(le, s), Sort(le, t));
  }
}
