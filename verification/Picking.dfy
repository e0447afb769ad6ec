/** Taking elements from a ranked pool, those of a domain not seen yet first. Generic in what is
    picked: `dom` gives an element's domain, `id` its identity. */
module Picking {
  import opened Options
  import opened Sets
  import opened Sorting

  /** The first element of a new domain, or the length of the pool. */
  function FirstNew<T, D(==)>(dom: T -> D, pool: seq<T>, occupied: set<D>): (i: nat)
    ensures i <= |pool|
  {
    if pool == [] || dom(pool[0]) !in occupied then 0 else 1 + FirstNew(dom, pool[1..], occupied)
  }

  lemma {:induction false} FirstNewMeans<T, D>(dom: T -> D, pool: seq<T>, occupied: set<D>)
    ensures var i := FirstNew(dom, pool, occupied);
            && (forall k :: 0 <= k < i ==> dom(pool[k]) in occupied)
            && (i < |pool| ==> dom(pool[i]) !in occupied)
  {
    if pool != [] && dom(pool[0]) in occupied {
      FirstNewMeans(dom, pool[1..], occupied);
      assert forall k :: 0 < k < |pool| ==> pool[k] == pool[1..][k - 1];
    }
  }

  /** The best element of a new domain, or else the best element. */
  function Preferred<T, D(==)>(dom: T -> D, pool: seq<T>, occupied: set<D>): (i: nat)
    requires pool != []
    ensures i < |pool|
  {
    if FirstNew(dom, pool, occupied) < |pool| then FirstNew(dom, pool, occupied) else 0
  }

  lemma PreferredMeans<T, D>(dom: T -> D, pool: seq<T>, occupied: set<D>)
    requires pool != []
    ensures var i := Preferred(dom, pool, occupied);
            if dom(pool[i]) in occupied then i == 0 && forall k :: 0 <= k < |pool| ==> dom(pool[k]) in occupied
            else forall k :: 0 <= k < i ==> dom(pool[k]) in occupied
  {
    FirstNewMeans(dom, pool, occupied);
  }

  /** An element of a new domain with none before it is the preferred one. */
  lemma PreferredIs<T, D>(dom: T -> D, pool: seq<T>, occupied: set<D>, i: nat)
    requires pool != [] && i <= |pool| && forall k :: 0 <= k < i ==> dom(pool[k]) in occupied
    requires i < |pool| ==> dom(pool[i]) !in occupied
    ensures Preferred(dom, pool, occupied) == if i < |pool| then i else 0
  {
    FirstNewMeans(dom, pool, occupied);
  }

  function Without<T>(pool: seq<T>, i: nat): seq<T>
    requires i < |pool|
  {
    pool[..i] + pool[i + 1..]
  }

  datatype Taken<T, D> = Taken(picks: seq<T>, rest: seq<T>, occupied: set<D>)

  function Take<T, D(==)>(dom: T -> D, pool: seq<T>, occupied: set<D>, need: int): Taken<T, D>
    decreases |pool|
  {
    if need <= 0 || pool == [] then Taken([], pool, occupied)
    else
      var i := Preferred(dom, pool, occupied);
      Prepend([pool[i]], Take(dom, Without(pool, i), occupied + {dom(pool[i])}, need - 1))
  }

  /** As `Take`, but passing over elements whose identity was chosen before. */
  function Fill<T, D(==), I(==)>(dom: T -> D, id: T -> I, pool: seq<T>, occupied: set<D>, excluded: set<I>, need: int)
    : Taken<T, D>
    decreases |pool|
  {
    if need <= 0 || pool == [] then Taken([], pool, occupied)
    else
      var i := Preferred(dom, pool, occupied);
      if id(pool[i]) in excluded then Fill(dom, id, Without(pool, i), occupied, excluded, need)
      else
        Prepend([pool[i]], Fill(dom, id, Without(pool, i), occupied + {dom(pool[i])}, excluded + {id(pool[i])},
                                need - 1))
  }

  function Prepend<T, D>(chosen: seq<T>, t: Taken<T, D>): Taken<T, D> {
    t.(picks := chosen + t.picks)
  }

  function Images<T(==), D(==)>(f: T -> D, s: seq<T>): set<D> {
    set x | x in s :: f(x)
  }

  /** The three parts of a choice: what is required, then the rest from a preferred pool and
      from another one. */
  datatype Parts<T> = Parts(required: seq<T>, preferred: seq<T>, other: seq<T>)

  function FillBoth<T(==), D(==), I(==)>(dom: T -> D, id: T -> I, first: Taken<T, D>, a: seq<T>, b: seq<T>,
                                         excluded: set<I>, need: int): Parts<T>
  {
    var second := Fill(dom, id, a, first.occupied, excluded, need);
    var third := Fill(dom, id, b, second.occupied, excluded + Images(id, second.picks), need - |second.picks|);
    Parts(first.picks, second.picks, third.picks)
  }

  // ------------------------------------------------------------ the loops

  lemma Regroup<T, D>(chosen: seq<T>, x: T, more: Taken<T, D>)
    ensures Prepend(chosen, Prepend([x], more)) == Prepend(chosen + [x], more)
  {
    assert chosen + ([x] + more.picks) == (chosen + [x]) + more.picks;
  }

  lemma TakeTurn<T, D>(dom: T -> D, chosen: seq<T>, pool: seq<T>, occupied: set<D>, need: int)
    requires pool != [] && need > 0
    ensures var i := Preferred(dom, pool, occupied);
            var after := Take(dom, Without(pool, i), occupied + {dom(pool[i])}, need - 1);
            Prepend(chosen, Take(dom, pool, occupied, need)) == Prepend(chosen + [pool[i]], after)
  {
    var i := Preferred(dom, pool, occupied);
    Regroup(chosen, pool[i], Take(dom, Without(pool, i), occupied + {dom(pool[i])}, need - 1));
  }

  lemma FillTurn<T, D, I>(dom: T -> D, id: T -> I, chosen: seq<T>, pool: seq<T>, occupied: set<D>, excluded: set<I>,
                          need: int)
    requires pool != [] && need > 0
    ensures var i := Preferred(dom, pool, occupied);
            var after := if id(pool[i]) in excluded
                         then Prepend(chosen, Fill(dom, id, Without(pool, i), occupied, excluded, need))
                         else Prepend(chosen + [pool[i]], Fill(dom, id, Without(pool, i), occupied + {dom(pool[i])},
                                                               excluded + {id(pool[i])}, need - 1));
            Prepend(chosen, Fill(dom, id, pool, occupied, excluded, need)) == after
  {
    var i := Preferred(dom, pool, occupied);
    if id(pool[i]) !in excluded {
      Regroup(chosen, pool[i], Fill(dom, id, Without(pool, i), occupied + {dom(pool[i])}, excluded + {id(pool[i])},
                                    need - 1));
    }
  }

  method PopPreferred<T, D(==)>(dom: T -> D, pool: seq<T>, occupied: set<D>) returns (item: Option<T>, rest: seq<T>)
    ensures pool == [] ==> item == None && rest == []
    ensures pool != [] ==> var i := Preferred(dom, pool, occupied); item == Some(pool[i]) && rest == Without(pool, i)
  {
    for i := 0 to |pool|
      invariant forall k :: 0 <= k < i ==> dom(pool[k]) in occupied
    {
      if dom(pool[i]) !in occupied {
        PreferredIs(dom, pool, occupied, i);
        return Some(pool[i]), pool[..i] + pool[i + 1..];
      }
    }
    if pool == [] { return None, []; }
    PreferredIs(dom, pool, occupied, |pool|);
    return Some(pool[0]), pool[1..];
  }

  /** The first loop: `needed` elements, whoever they are; each also counts towards `total`. */
  method TakeLoop<T(==), D(==), I(==)>(dom: T -> D, id: T -> I, pool: seq<T>, occupied: set<D>, excluded: set<I>,
                                       needed: int, total: nat)
    returns (chosen: seq<T>, rest: seq<T>, occupied': set<D>, excluded': set<I>, left: nat)
    ensures Taken(chosen, rest, occupied') == Take(dom, pool, occupied, needed)
    ensures excluded' == excluded + Images(id, chosen)
    ensures left == if total >= |chosen| then total - |chosen| else 0
  {
    chosen, rest, occupied', excluded', left := [], pool, occupied, excluded, total;
    var need := needed;
    while need > 0 && rest != []
      invariant Take(dom, pool, occupied, needed) == Prepend(chosen, Take(dom, rest, occupied', need))
      invariant excluded' == excluded + Images(id, chosen)
      invariant left == if total >= |chosen| then total - |chosen| else 0
      decreases |rest|
    {
      TakeTurn(dom, chosen, rest, occupied', need);
      var item, shorter := PopPreferred(dom, rest, occupied');
      chosen := chosen + [item.value];
      rest := shorter;
      excluded' := excluded' + {id(item.value)};
      occupied' := occupied' + {dom(item.value)};
      need := need - 1;
      left := if left > 0 then left - 1 else 0;
    }
  }

  /** The inner loop of the second phase. */
  method FillLoop<T(==), D(==), I(==)>(dom: T -> D, id: T -> I, pool: seq<T>, occupied: set<D>, excluded: set<I>,
                                       needed: int)
    returns (chosen: seq<T>, occupied': set<D>, excluded': set<I>, left: int, ghost filled: Taken<T, D>)
    ensures filled == Fill(dom, id, pool, occupied, excluded, needed)
    ensures chosen == filled.picks && occupied' == filled.occupied && left == needed - |chosen|
    ensures excluded' == excluded + Images(id, chosen)
  {
    var rest := pool;
    chosen, occupied', excluded', left := [], occupied, excluded, needed;
    filled := Fill(dom, id, pool, occupied, excluded, needed);
    while left > 0 && rest != []
      invariant filled == Prepend(chosen, Fill(dom, id, rest, occupied', excluded', left))
      invariant excluded' == excluded + Images(id, chosen) && left == needed - |chosen|
      decreases |rest|
    {
      FillTurn(dom, id, chosen, rest, occupied', excluded', left);
      var item, shorter := PopPreferred(dom, rest, occupied');
      rest := shorter;
      if id(item.value) in excluded' { continue; }
      chosen := chosen + [item.value];
      excluded' := excluded' + {id(item.value)};
      occupied' := occupied' + {dom(item.value)};
      left := left - 1;
    }
  }

  /** The second phase: both pools in the order preferred. */
  method FillBothLoop<T(==), D(==), I(==)>(dom: T -> D, id: T -> I, ghost first: Taken<T, D>, a: seq<T>, b: seq<T>,
                                           occupied: set<D>, excluded: set<I>, needed: int)
    returns (preferred: seq<T>, other: seq<T>)
    requires occupied == first.occupied
    ensures Parts(first.picks, preferred, other) == FillBoth(dom, id, first, a, b, excluded, needed)
  {
    var occupied1, excluded1, left;
    ghost var second, third;
    preferred, occupied1, excluded1, left, second := FillLoop(dom, id, a, occupied, excluded, needed);
    other, occupied1, excluded1, left, third := FillLoop(dom, id, b, occupied1, excluded1, left);
    FillBothIs(dom, id, first, a, b, excluded, needed, second, third);
  }

  lemma FillBothIs<T, D, I>(dom: T -> D, id: T -> I, first: Taken<T, D>, a: seq<T>, b: seq<T>, excluded: set<I>,
                            need: int, second: Taken<T, D>, third: Taken<T, D>)
    requires second == Fill(dom, id, a, first.occupied, excluded, need)
    requires third == Fill(dom, id, b, second.occupied, excluded + Images(id, second.picks), need - |second.picks|)
    ensures FillBoth(dom, id, first, a, b, excluded, need) == Parts(first.picks, second.picks, third.picks)
  {
  }

  // ------------------------------------------------------------ what is taken

  function Limit(need: int, size: nat): nat {
    if need <= 0 then 0 else if need < size then need else size
  }

  lemma WithoutParts<T>(pool: seq<T>, i: nat)
    requires i < |pool|
    ensures multiset(pool) == multiset{pool[i]} + multiset(Without(pool, i))
  {
    assert pool == pool[..i] + [pool[i]] + pool[i + 1..];
  }

  lemma WithoutImages<T, D>(f: T -> D, pool: seq<T>, i: nat)
    requires i < |pool|
    ensures Images(f, pool) == Images(f, Without(pool, i)) + {f(pool[i])}
  {
    WithoutParts(pool, i);
    forall x ensures x in pool <==> x == pool[i] || x in Without(pool, i) {
      assert x in multiset(pool) <==> x == pool[i] || x in multiset(Without(pool, i));
    }
  }

  lemma PrependImages<T, D>(f: T -> D, x: T, s: seq<T>)
    ensures Images(f, [x] + s) == Images(f, s) + {f(x)}
  {
  }

  /** Picks and the rest share out the pool. */
  ghost predicate Shares<T, D>(pool: seq<T>, t: Taken<T, D>) {
    multiset(t.picks) + multiset(t.rest) == multiset(pool)
  }

  lemma SharesStep<T, D>(pool: seq<T>, i: nat, more: Taken<T, D>)
    requires i < |pool| && Shares(Without(pool, i), more)
    ensures Shares(pool, Prepend([pool[i]], more))
  {
    WithoutParts(pool, i);
  }

  lemma {:induction false} TakeShares<T, D>(dom: T -> D, pool: seq<T>, occupied: set<D>, need: int,
                                          t: Taken<T, D>)
    requires t == Take(dom, pool, occupied, need)
    ensures Shares(pool, t)
    decreases |pool|
  {
    if need > 0 && pool != [] {
      var i := Preferred(dom, pool, occupied);
      var more := Take(dom, Without(pool, i), occupied + {dom(pool[i])}, need - 1);
      TakeShares(dom, Without(pool, i), occupied + {dom(pool[i])}, need - 1, more);
      SharesStep(pool, i, more);
    }
  }

  /** As many are picked as are needed and there. */
  lemma {:induction false} TakeSize<T, D>(dom: T -> D, pool: seq<T>, occupied: set<D>, need: int)
    ensures |Take(dom, pool, occupied, need).picks| == Limit(need, |pool|)
    decreases |pool|
  {
    if need > 0 && pool != [] {
      var i := Preferred(dom, pool, occupied);
      TakeSize(dom, Without(pool, i), occupied + {dom(pool[i])}, need - 1);
    }
  }

  lemma {:induction false} TakeOccupies<T, D>(dom: T -> D, pool: seq<T>, occupied: set<D>, need: int)
    ensures var t := Take(dom, pool, occupied, need); t.occupied == occupied + Images(dom, t.picks)
    decreases |pool|
  {
    if need > 0 && pool != [] {
      var i := Preferred(dom, pool, occupied);
      TakeOccupies(dom, Without(pool, i), occupied + {dom(pool[i])}, need - 1);
      PrependImages(dom, pool[i], Take(dom, Without(pool, i), occupied + {dom(pool[i])}, need - 1).picks);
    }
  }

  /** `picks` cover as many domains outside `occupied` as there are picks, or all of the pool's. */
  ghost predicate Diverse<T, D>(dom: T -> D, pool: seq<T>, occupied: set<D>, picks: seq<T>) {
    |Images(dom, picks) - occupied| == Limit(|picks|, |Images(dom, pool) - occupied|)
  }

  lemma DiverseStep<T, D>(dom: T -> D, pool: seq<T>, occupied: set<D>, i: nat, more: seq<T>)
    requires i < |pool| && Diverse(dom, Without(pool, i), occupied + {dom(pool[i])}, more)
    requires dom(pool[i]) in occupied ==>
      (forall x :: x in pool ==> dom(x) in occupied) && (forall x :: x in more ==> dom(x) in occupied)
    ensures Diverse(dom, pool, occupied, [pool[i]] + more)
  {
    PrependImages(dom, pool[i], more);
    WithoutImages(dom, pool, i);
    if dom(pool[i]) in occupied {
      NothingNew(dom, pool, occupied);
      NothingNew(dom, [pool[i]] + more, occupied);
    } else {
      OneMoreNew(Images(dom, more), occupied, dom(pool[i]));
      OneMoreNew(Images(dom, Without(pool, i)), occupied, dom(pool[i]));
    }
  }

  lemma PicksAreInPool<T, D>(dom: T -> D, pool: seq<T>, occupied: set<D>, need: int)
    ensures var t := Take(dom, pool, occupied, need);
            (forall x :: x in t.picks ==> x in pool) && (forall x :: x in t.rest ==> x in pool)
  {
    var t := Take(dom, pool, occupied, need);
    TakeShares(dom, pool, occupied, need, t);
    assert Shares(pool, t);
    forall x | x in t.picks ensures x in pool {
      assert x in multiset(t.picks);
      assert x in multiset(pool);
    }
    forall x | x in t.rest ensures x in pool {
      assert x in multiset(t.rest);
      assert x in multiset(pool);
    }
  }

  lemma WithoutIn<T>(pool: seq<T>, i: nat)
    requires i < |pool|
    ensures forall x :: x in Without(pool, i) ==> x in pool
  {
  }

  lemma KnownPicks<T, D>(dom: T -> D, pool: seq<T>, occupied: set<D>, need: int, more: Taken<T, D>)
    requires pool != []
    requires var i := Preferred(dom, pool, occupied);
             more == Take(dom, Without(pool, i), occupied + {dom(pool[i])}, need - 1)
    ensures dom(pool[Preferred(dom, pool, occupied)]) in occupied ==>
              (forall x :: x in pool ==> dom(x) in occupied) && (forall x :: x in more.picks ==> dom(x) in occupied)
  {
    var i := Preferred(dom, pool, occupied);
    PreferredMeans(dom, pool, occupied);
    PicksAreInPool(dom, Without(pool, i), occupied + {dom(pool[i])}, need - 1);
    WithoutIn(pool, i);
  }

  lemma {:induction false} TakeIsDiverse<T, D>(dom: T -> D, pool: seq<T>, occupied: set<D>, need: int, t: Taken<T, D>)
    requires t == Take(dom, pool, occupied, need)
    ensures Diverse(dom, pool, occupied, t.picks)
    decreases |pool|
  {
    if need > 0 && pool != [] {
      var i := Preferred(dom, pool, occupied);
      var more := Take(dom, Without(pool, i), occupied + {dom(pool[i])}, need - 1);
      TakeIsDiverse(dom, Without(pool, i), occupied + {dom(pool[i])}, need - 1, more);
      KnownPicks(dom, pool, occupied, need, more);
      DiverseStep(dom, pool, occupied, i, more.picks);
      assert t.picks == [pool[i]] + more.picks;
    } else {
      assert Images(dom, []) - occupied == {};
    }
  }

  lemma NothingNew<T, D>(dom: T -> D, s: seq<T>, occupied: set<D>)
    requires forall x :: x in s ==> dom(x) in occupied
    ensures Images(dom, s) - occupied == {}
  {
  }

  lemma OneMoreNew<D>(a: set<D>, occupied: set<D>, d: D)
    requires d !in occupied
    ensures |(a + {d}) - occupied| == |a - (occupied + {d})| + 1
  {
    assert (a + {d}) - occupied == (a - (occupied + {d})) + {d};
  }

  /** Any other choice of as many elements covers no more new domains. */
  lemma NoChoiceIsMoreDiverse<T, D>(dom: T -> D, pool: seq<T>, occupied: set<D>, need: int, other: seq<T>)
    requires multiset(other) <= multiset(pool) && |other| == |Take(dom, pool, occupied, need).picks|
    ensures |Images(dom, other) - occupied| <= |Images(dom, Take(dom, pool, occupied, need).picks) - occupied|
  {
    TakeIsDiverse(dom, pool, occupied, need, Take(dom, pool, occupied, need));
    forall x | x in other ensures x in pool {
      assert x in multiset(other);
    }
    SubsetSize(Images(dom, other) - occupied, Images(dom, pool) - occupied);
    SubsetSize(Images(dom, other) - occupied, Images(dom, other));
    ImagesSize(dom, other);
  }

  lemma {:induction false} ImagesSize<T, D>(f: T -> D, s: seq<T>)
    ensures |Images(f, s)| <= |s|
  {
    if s != [] {
      ImagesSize(f, s[1..]);
      assert s == [s[0]] + s[1..];
      PrependImages(f, s[0], s[1..]);
    }
  }

  lemma WithoutOrdered<T(!new)>(le: Order<T>, pool: seq<T>, i: nat)
    requires i < |pool| && Ordered(le, pool)
    ensures Ordered(le, Without(pool, i))
  {
  }

  /** Nothing left behind outranks a pick, unless its domain was covered by another copy: of a
      domain the best ranked go first, and no uncovered domain offers better. */
  ghost predicate BestKept<T(!new), D>(le: Order<T>, dom: T -> D, t: Taken<T, D>) {
    forall x, y :: x in t.picks && y in t.rest && (dom(y) == dom(x) || dom(y) !in t.occupied) ==> le(x, y)
  }

  lemma BestKeptStep<T(!new), D>(le: Order<T>, dom: T -> D, pool: seq<T>, occupied: set<D>, more: Taken<T, D>)
    requires pool != [] && Ordered(le, pool) && BestKept(le, dom, more) && occupied <= more.occupied
    requires forall y :: y in more.rest ==> y in Without(pool, Preferred(dom, pool, occupied))
    ensures BestKept(le, dom, Prepend([pool[Preferred(dom, pool, occupied)]], more))
  {
    var x0 := pool[Preferred(dom, pool, occupied)];
    forall y | y in more.rest && (dom(y) == dom(x0) || dom(y) !in more.occupied) ensures le(x0, y) {
      PreferredFirst(le, dom, pool, occupied, y);
    }
  }

  lemma {:induction false} TakeKeepsBest<T(!new), D>(le: Order<T>, dom: T -> D, pool: seq<T>, occupied: set<D>,
                                                     need: int, t: Taken<T, D>)
    requires Ordered(le, pool) && t == Take(dom, pool, occupied, need)
    ensures BestKept(le, dom, t)
    decreases |pool|
  {
    if need > 0 && pool != [] {
      var i := Preferred(dom, pool, occupied);
      var (left, seen) := (Without(pool, i), occupied + {dom(pool[i])});
      var more := Take(dom, left, seen, need - 1);
      WithoutOrdered(le, pool, i);
      TakeKeepsBest(le, dom, left, seen, need - 1, more);
      TakeOccupies(dom, left, seen, need - 1);
      PicksAreInPool(dom, left, seen, need - 1);
      BestKeptStep(le, dom, pool, occupied, more);
      assert t == Prepend([pool[i]], more);
    }
  }

  lemma PreferredFirst<T(!new), D>(le: Order<T>, dom: T -> D, pool: seq<T>, occupied: set<D>, y: T)
    requires pool != [] && Ordered(le, pool) && y in Without(pool, Preferred(dom, pool, occupied))
    requires dom(y) == dom(pool[Preferred(dom, pool, occupied)]) || dom(y) !in occupied
    ensures le(pool[Preferred(dom, pool, occupied)], y)
  {
    var i := Preferred(dom, pool, occupied);
    PreferredMeans(dom, pool, occupied);
    var k :| 0 <= k < |Without(pool, i)| && Without(pool, i)[k] == y;
    assert y == pool[if k < i then k else k + 1];
  }

  // ------------------------------------------------------------ distinct elements

  ghost predicate DistinctBy<T, I(!new)>(id: T -> I, s: seq<T>) {
    forall i, k :: 0 <= i < k < |s| ==> id(s[i]) != id(s[k])
  }

  /** Among elements of distinct identity, none chosen before, nothing is passed over. */
  lemma {:induction false} FillIsTake<T, D, I(!new)>(dom: T -> D, id: T -> I, pool: seq<T>, occupied: set<D>,
                                                     excluded: set<I>, need: int)
    requires DistinctBy(id, pool) && forall x :: x in pool ==> id(x) !in excluded
    ensures Fill(dom, id, pool, occupied, excluded, need) == Take(dom, pool, occupied, need)
    decreases |pool|
  {
    if need > 0 && pool != [] {
      var i := Preferred(dom, pool, occupied);
      forall x | x in Without(pool, i) ensures id(x) !in excluded + {id(pool[i])} {
        var k :| 0 <= k < |Without(pool, i)| && Without(pool, i)[k] == x;
        assert x == pool[if k < i then k else k + 1];
      }
      FillIsTake(dom, id, Without(pool, i), occupied + {dom(pool[i])}, excluded + {id(pool[i])}, need - 1);
    }
  }

  lemma {:induction false} DistinctByMeans<T, I(!new)>(id: T -> I, s: seq<T>)
    requires DistinctBy(id, s)
    ensures forall x :: multiset(s)[x] <= 1
    ensures forall x, y :: x in s && y in s && id(x) == id(y) ==> x == y
  {
    if s != [] {
      DistinctByMeans(id, s[1..]);
      assert s == [s[0]] + s[1..];
    }
  }

  lemma DistinctByFrom<T, I(!new)>(id: T -> I, s: seq<T>)
    requires forall x :: x in s ==> multiset(s)[x] <= 1
    requires forall x, y :: x in s && y in s && id(x) == id(y) ==> x == y
    ensures DistinctBy(id, s)
  {
    forall i, k | 0 <= i < k < |s| ensures id(s[i]) != id(s[k]) {
      assert s == s[..i] + [s[i]] + s[i + 1..k] + [s[k]] + s[k + 1..];
      assert s[i] == s[k] ==> multiset(s)[s[i]] >= 2;
    }
  }

  /** Any selection of distinct elements, in any order, is distinct. */
  lemma SelectionDistinct<T, I(!new)>(id: T -> I, s: seq<T>, t: seq<T>)
    requires DistinctBy(id, s) && multiset(t) <= multiset(s)
    ensures DistinctBy(id, t)
    ensures forall x :: x in t ==> x in s
  {
    DistinctByMeans(id, s);
    forall x | x in t ensures x in s && multiset(t)[x] <= 1 {
      assert x in multiset(t);
      assert multiset(t)[x] <= multiset(s)[x];
    }
    DistinctByFrom(id, t);
  }

  // ------------------------------------------------------------ the parts of a choice

  /** Two pools of different elements, none of which is excluded. */
  ghost predicate Apart<T(!new), I(!new)>(id: T -> I, excluded: set<I>, a: seq<T>, b: seq<T>) {
    && DistinctBy(id, a) && DistinctBy(id, b)
    && (forall x :: x in a ==> id(x) !in excluded) && (forall x :: x in b ==> id(x) !in excluded)
    && (forall x, y :: x in a && y in b ==> id(x) != id(y))
  }

  lemma SplitDistinct<T(!new), I(!new)>(id: T -> I, s: seq<T>, t: seq<T>)
    requires DistinctBy(id, s + t)
    ensures DistinctBy(id, s) && DistinctBy(id, t)
    ensures forall x, y :: x in s && y in t ==> id(x) != id(y)
  {
    forall i, k | 0 <= i < k < |s| ensures id(s[i]) != id(s[k]) {
      assert (s + t)[i] == s[i] && (s + t)[k] == s[k];
    }
    forall i, k | 0 <= i < k < |t| ensures id(t[i]) != id(t[k]) {
      assert (s + t)[|s| + i] == t[i] && (s + t)[|s| + k] == t[k];
    }
    forall x, y | x in s && y in t ensures id(x) != id(y) {
      var i :| 0 <= i < |s| && s[i] == x;
      var k :| 0 <= k < |t| && t[k] == y;
      assert (s + t)[i] == x && (s + t)[|s| + k] == y;
    }
  }

  /** Picks and rest of a pool are apart and make it up. */
  ghost predicate Splits<T(!new), I(!new)>(id: T -> I, pool: seq<T>, need: int, picks: seq<T>, rest: seq<T>) {
    && Apart(id, {}, picks, rest)
    && (forall x :: x in picks || x in rest <==> x in pool)
    && |picks| == Limit(need, |pool|) && |picks| + |rest| == |pool|
  }

  lemma TakeSplits<T(!new), D, I(!new)>(dom: T -> D, id: T -> I, pool: seq<T>, occupied: set<D>, need: int,
                                        t: Taken<T, D>)
    requires DistinctBy(id, pool) && t == Take(dom, pool, occupied, need)
    ensures Splits(id, pool, need, t.picks, t.rest)
  {
    TakeShares(dom, pool, occupied, need, t);
    TakeSize(dom, pool, occupied, need);
    assert Shares(pool, t);
    SharedSplits(id, pool, t.picks, t.rest);
  }

  lemma SharedSplits<T(!new), I(!new)>(id: T -> I, pool: seq<T>, picks: seq<T>, rest: seq<T>)
    requires DistinctBy(id, pool) && multiset(picks) + multiset(rest) == multiset(pool)
    ensures Apart(id, {}, picks, rest)
    ensures forall x :: x in picks || x in rest <==> x in pool
    ensures |picks| + |rest| == |pool|
  {
    assert multiset(picks + rest) == multiset(pool);
    assert |picks + rest| == |multiset(picks + rest)| == |multiset(pool)| == |pool|;
    SelectionDistinct(id, pool, picks + rest);
    SplitDistinct(id, picks, rest);
    forall x ensures x in picks || x in rest <==> x in pool {
      assert x in pool <==> x in multiset(picks + rest);
    }
  }

  /** The second phase: all distinct, the second pool used only when the first is used up. */
  ghost predicate Filled<T(!new), I(!new)>(id: T -> I, p: Parts<T>, a: seq<T>, b: seq<T>, need: int) {
    && Apart(id, {}, p.preferred, p.other)
    && (forall x :: x in p.preferred ==> x in a) && (forall x :: x in p.other ==> x in b)
    && |p.preferred| == Limit(need, |a|) && |p.other| == Limit(need - |p.preferred|, |b|)
    && (p.other != [] ==> forall x :: x in a ==> x in p.preferred)
  }

  /** The check against earlier choices never strikes: the second phase is two greedy passes, the
      second one with what is `left` over what is `seen` after the first. */
  lemma FillBothTakes<T(!new), D, I(!new)>(dom: T -> D, id: T -> I, first: Taken<T, D>, a: seq<T>, b: seq<T>,
                                           excluded: set<I>, need: int, second: Taken<T, D>, seen: set<D>, left: int,
                                           third: Taken<T, D>)
    requires Apart(id, excluded, a, b)
    requires second == Take(dom, a, first.occupied, need)
    requires seen == second.occupied && left == need - |second.picks| && third == Take(dom, b, seen, left)
    ensures FillBoth(dom, id, first, a, b, excluded, need) == Parts(first.picks, second.picks, third.picks)
  {
    FillsAs(dom, id, a, first.occupied, excluded, need, second);
    ApartFromPicks(dom, id, a, b, first.occupied, excluded, need, second);
    FillsAs(dom, id, b, seen, excluded + Images(id, second.picks), left, third);
    FillBothIs(dom, id, first, a, b, excluded, need, second, third);
  }

  lemma FillsAs<T(!new), D, I(!new)>(dom: T -> D, id: T -> I, pool: seq<T>, occupied: set<D>, excluded: set<I>,
                                     need: int, t: Taken<T, D>)
    requires DistinctBy(id, pool) && (forall x :: x in pool ==> id(x) !in excluded)
    requires t == Take(dom, pool, occupied, need)
    ensures t == Fill(dom, id, pool, occupied, excluded, need)
  {
    FillIsTake(dom, id, pool, occupied, excluded, need);
  }

  /** What one pool gave does not exclude anything of the other. */
  lemma ApartFromPicks<T(!new), D, I(!new)>(dom: T -> D, id: T -> I, a: seq<T>, b: seq<T>, occupied: set<D>,
                                            excluded: set<I>, need: int, t: Taken<T, D>)
    requires Apart(id, excluded, a, b) && t == Take(dom, a, occupied, need)
    ensures forall x :: x in b ==> id(x) !in excluded + Images(id, t.picks)
  {
    PicksAreInPool(dom, a, occupied, need);
  }

  lemma SplitsFill<T(!new), I(!new)>(id: T -> I, required: seq<T>, a: seq<T>, b: seq<T>, need: int,
                               picks: seq<T>, rest: seq<T>, more: seq<T>, left: seq<T>)
    requires Apart(id, {}, a, b) && Splits(id, a, need, picks, rest) && Splits(id, b, need - |picks|, more, left)
    ensures Filled(id, Parts(required, picks, more), a, b, need)
  {
    if more != [] {
      assert rest == [];
    }
  }

  lemma FillBothFills<T(!new), D, I(!new)>(dom: T -> D, id: T -> I, first: Taken<T, D>, a: seq<T>, b: seq<T>,
                                           excluded: set<I>, need: int, p: Parts<T>)
    requires Apart(id, excluded, a, b) && p == FillBoth(dom, id, first, a, b, excluded, need)
    ensures Filled(id, p, a, b, need) && p.required == first.picks
  {
    var second := Take(dom, a, first.occupied, need);
    var (seen, left) := (second.occupied, need - |second.picks|);
    var third := Take(dom, b, seen, left);
    FillBothTakes(dom, id, first, a, b, excluded, need, second, seen, left, third);
    TakeSplits(dom, id, a, first.occupied, need, second);
    TakeSplits(dom, id, b, seen, left, third);
    SplitsFill(id, first.picks, a, b, need, second.picks, second.rest, third.picks, third.rest);
  }

  lemma ThreeDistinct<T(!new), I(!new)>(id: T -> I, a: seq<T>, b: seq<T>, c: seq<T>)
    requires DistinctBy(id, a) && Apart(id, Images(id, a), b, c)
    ensures DistinctBy(id, a + b + c)
  {
    forall i, k | 0 <= i < k < |a + b + c| ensures id((a + b + c)[i]) != id((a + b + c)[k]) {
      assert i < |a| ==> id(a[i]) in Images(id, a);
    }
  }

  /** What is left of a pool is apart from another pool and from what was picked. */
  lemma RestApart<T(!new), I(!new)>(id: T -> I, excluded: set<I>, pool: seq<T>, other: seq<T>, need: int,
                                    picks: seq<T>, rest: seq<T>)
    requires Apart(id, excluded, pool, other) && Splits(id, pool, need, picks, rest)
    ensures Apart(id, excluded + Images(id, picks), rest, other) && Apart(id, excluded + Images(id, picks), other, rest)
  {
  }

  lemma FilledDistinct<T(!new), I(!new)>(id: T -> I, excluded: set<I>, p: Parts<T>, a: seq<T>, b: seq<T>, need: int)
    requires Filled(id, p, a, b, need) && Apart(id, excluded + Images(id, p.required), a, b)
             && DistinctBy(id, p.required)
    ensures DistinctBy(id, p.required + p.preferred + p.other)
  {
    ThreeDistinct(id, p.required, p.preferred, p.other);
  }
}
