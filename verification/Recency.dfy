/** A bounded list of cursors by recency: the value that the map and the linked list represent together. */
module Recency {
  const CAPACITY := 4096

  datatype Entry<K> = Entry(route: K, lastID: string)

  /** Most recently used first. */
  type Cache<K> = seq<Entry<K>>

  function Find<K(==)>(cache: Cache<K>, route: K): (i: nat)
    ensures i <= |cache|
    ensures i < |cache| ==> cache[i].route == route
    ensures forall k :: 0 <= k < i ==> cache[k].route != route
  {
    if cache == [] || cache[0].route == route then 0
    else
      var i := 1 + Find(cache[1..], route);
      assert forall k :: 0 < k < i ==> cache[k] == cache[1..][k - 1];
      i
  }

  predicate Has<K(==)>(cache: Cache<K>, route: K) {
    Find(cache, route) < |cache|
  }

  /** A route without a cursor starts below every ID. */
  function LastOf<K(==)>(cache: Cache<K>, route: K): string {
    if Has(cache, route) then cache[Find(cache, route)].lastID else ""
  }

  function Cut<T>(s: seq<T>, p: nat): seq<T>
    requires p < |s|
  {
    s[..p] + s[p + 1..]
  }

  lemma {:induction false} CutAt<T>(s: seq<T>, p: nat, i: nat)
    requires p < |s| && i < |s| - 1
    ensures |Cut(s, p)| == |s| - 1
    ensures Cut(s, p)[i] == s[if i < p then i else i + 1]
  {
  }

  /** The other cursors, the last one dropped if a new cursor needs its room. */
  function Others<K(==)>(cache: Cache<K>, route: K): Cache<K> {
    var i := Find(cache, route);
    if i < |cache| then Cut(cache, i)
    else if |cache| >= CAPACITY then cache[..|cache| - 1]
    else cache
  }

  /** The cache after id was picked for the route: its cursor in front. */
  function Touched<K(==)>(cache: Cache<K>, route: K, id: string): Cache<K> {
    [Entry(route, id)] + Others(cache, route)
  }

  predicate NoRepeats<K(==)>(cache: Cache<K>) {
    forall i, j :: 0 <= i < j < |cache| ==> cache[i].route != cache[j].route
  }

  /** Where the entry at position i of the others stands in the cache. */
  function Origin<K(==)>(cache: Cache<K>, route: K, i: nat): nat {
    if i < Find(cache, route) then i else i + 1
  }

  lemma {:induction false} OthersAt<K>(cache: Cache<K>, route: K, i: nat)
    requires NoRepeats(cache) && i < |Others(cache, route)|
    ensures Origin(cache, route, i) < |cache|
    ensures Others(cache, route)[i] == cache[Origin(cache, route, i)]
    ensures cache[Origin(cache, route, i)].route != route
  {
    var p := Find(cache, route);
    if p < |cache| {
      CutAt(cache, p, i);
      var q := Origin(cache, route, i);
      assert if q < p then cache[q].route != cache[p].route else cache[p].route != cache[q].route;
    }
  }

  lemma {:induction false} OthersSize<K>(cache: Cache<K>, route: K)
    requires |cache| <= CAPACITY
    ensures |Others(cache, route)| < CAPACITY
  {
  }

  lemma {:induction false} TouchedSize<K>(cache: Cache<K>, route: K, id: string)
    requires |cache| <= CAPACITY
    ensures |Touched(cache, route, id)| <= CAPACITY
  {
    OthersSize(cache, route);
  }

  /** Capacity and absence of repeats survive a pick. */
  lemma {:induction false} TouchedShape<K>(cache: Cache<K>, route: K, id: string)
    requires NoRepeats(cache) && |cache| <= CAPACITY
    ensures NoRepeats(Touched(cache, route, id)) && 0 < |Touched(cache, route, id)| <= CAPACITY
  {
    OthersSize(cache, route);
    var others := Others(cache, route);
    forall i, j | 0 <= i < j < |others| ensures others[i].route != others[j].route { OthersPair(cache, route, i, j); }
    forall i | 0 <= i < |others| ensures others[i].route != route { OthersAt(cache, route, i); }
    FrontShape(Entry(route, id), others);
  }

  lemma {:induction false} OthersPair<K>(cache: Cache<K>, route: K, i: nat, j: nat)
    requires NoRepeats(cache) && i < j < |Others(cache, route)|
    ensures Others(cache, route)[i].route != Others(cache, route)[j].route
  {
    OthersAt(cache, route, i);
    OthersAt(cache, route, j);
    var a, b := Origin(cache, route, i), Origin(cache, route, j);
    assert a < b;
  }

  lemma {:induction false} FrontShape<K>(e: Entry<K>, others: Cache<K>)
    requires NoRepeats(others) && forall i :: 0 <= i < |others| ==> others[i].route != e.route
    ensures NoRepeats([e] + others)
  {
  }

  /** The touched cache is the entry in front and then entries of the cache in their order. */
  lemma {:induction false} TouchedFrom<K>(cache: Cache<K>, route: K, id: string, i: nat)
    requires NoRepeats(cache) && 0 < i < |Touched(cache, route, id)|
    ensures Origin(cache, route, i - 1) < |cache|
    ensures Touched(cache, route, id)[i] == cache[Origin(cache, route, i - 1)]
    ensures Touched(cache, route, id)[i].route != route
  {
    OthersAt(cache, route, i - 1);
  }

  lemma {:induction false} AtPosition<K>(cache: Cache<K>, i: nat)
    requires NoRepeats(cache) && i < |cache|
    ensures Find(cache, cache[i].route) == i
  {
    var f := Find(cache, cache[i].route);
    assert f <= i;
  }

  /** A pick for another route keeps a cursor unless it stands last in a full table and the other route is new. */
  lemma {:induction false} TouchedKeeps<K>(cache: Cache<K>, other: K, id: string, route: K)
    requires NoRepeats(cache) && |cache| <= CAPACITY && Has(cache, route) && other != route
    requires Has(cache, other) || Find(cache, route) < CAPACITY - 1
    ensures Has(Touched(cache, other, id), route) && LastOf(Touched(cache, other, id), route) == LastOf(cache, route)
  {
    var i, p := Find(cache, route), Find(cache, other);
    var after := Touched(cache, other, id);
    var j := if i < p then i else i - 1;
    assert i != p;
    if p < |cache| { CutAt(cache, p, j); }
    assert after[j + 1] == Others(cache, other)[j] == cache[i];
    TouchedShape(cache, other, id);
    AtPosition(after, j + 1);
  }

  lemma {:induction false} SameLast<K>(one: Cache<K>, two: Cache<K>, route: K)
    requires NoRepeats(one) && Has(two, route) && forall e :: e in two ==> e in one
    ensures LastOf(two, route) == LastOf(one, route)
  {
    assert two[Find(two, route)] in one;
  }

  lemma {:induction false} TouchedLast<K>(cache: Cache<K>, other: K, id: string, route: K)
    requires NoRepeats(cache) && Has(Touched(cache, other, id), route)
    ensures LastOf(Touched(cache, other, id), route) == if other == route then id else LastOf(cache, route)
  {
    var after := Touched(cache, other, id);
    var i := Find(after, route);
    if other != route {
      TouchedFrom(cache, other, id, i);
      AtPosition(cache, Origin(cache, other, i - 1));
    } else {
      assert after[0].route == route;
    }
  }

  // ---------------------------------------------------------------------------------- map and list

  /** The map and the list hold the same routes, and the list none twice. */
  ghost predicate Agree<K>(cursors: map<K, string>, recent: seq<K>) {
    && |recent| == |cursors|
    && Distinct(recent)
    && (forall i :: 0 <= i < |recent| ==> recent[i] in cursors)
  }

  lemma {:induction false} AllListed<K>(cursors: map<K, string>, recent: seq<K>, route: K)
    requires Agree(cursors, recent) && route in cursors
    ensures route in recent
  {
    if route !in recent { DistinctFit(recent, cursors.Keys - {route}); }
  }

  lemma {:induction false} DistinctFit<K>(list: seq<K>, u: set<K>)
    requires Distinct(list) && forall i :: 0 <= i < |list| ==> list[i] in u
    ensures |list| <= |u|
  {
    if list != [] {
      DistinctFit(list[..|list| - 1], u - {list[|list| - 1]});
    }
  }

  predicate Distinct<K(==)>(recent: seq<K>) {
    forall i, j :: 0 <= i < j < |recent| ==> recent[i] != recent[j]
  }

  /** What they represent. */
  function Entries<K(==)>(cursors: map<K, string>, recent: seq<K>): (cache: Cache<K>)
    requires forall i :: 0 <= i < |recent| ==> recent[i] in cursors
    ensures |cache| == |recent|
    ensures forall i :: 0 <= i < |recent| ==> cache[i] == Entry(recent[i], cursors[recent[i]])
  {
    seq(|recent|, i requires 0 <= i < |recent| => Entry(recent[i], cursors[recent[i]]))
  }

  /** The list without the route. */
  function Without<K(==)>(recent: seq<K>, route: K): seq<K> {
    if recent == [] then [] else if recent[0] == route then recent[1..] else [recent[0]] + Without(recent[1..], route)
  }

  lemma {:induction false} WithoutAt<K>(recent: seq<K>, i: nat)
    requires i < |recent| && forall k :: 0 <= k < i ==> recent[k] != recent[i]
    ensures Without(recent, recent[i]) == Cut(recent, i)
  {
    if i > 0 {
      WithoutAt(recent[1..], i - 1);
    }
  }

  lemma {:induction false} FindIn<K>(cursors: map<K, string>, recent: seq<K>, route: K)
    requires Agree(cursors, recent)
    ensures Has(Entries(cursors, recent), route) <==> route in cursors
    ensures route in cursors ==> recent[Find(Entries(cursors, recent), route)] == route
  {
    if route in cursors {
      AllListed(cursors, recent, route);
      var i :| 0 <= i < |recent| && recent[i] == route;
      assert Entries(cursors, recent)[i].route == route;
    }
  }

  /** Cutting out position i. */
  lemma {:induction false} CutAgrees<K>(cursors: map<K, string>, recent: seq<K>, i: nat)
    requires Agree(cursors, recent) && i < |recent|
    ensures Agree(cursors - {recent[i]}, Cut(recent, i))
  {
    var route, rest := recent[i], Cut(recent, i);
    assert cursors == (cursors - {route})[route := cursors[route]];
    forall k | 0 <= k < |rest| ensures rest[k] == recent[if k < i then k else k + 1] && rest[k] in cursors - {route} {
    }
  }

  lemma {:induction false} CutEntries<K>(cursors: map<K, string>, recent: seq<K>, i: nat)
    requires Agree(cursors, recent) && i < |recent|
    requires Agree(cursors - {recent[i]}, Cut(recent, i))
    ensures Entries(cursors - {recent[i]}, Cut(recent, i)) ==
            Cut(Entries(cursors, recent), i)
  {
  }

  /** Putting a route in front that is not there. */
  lemma {:induction false} FrontAgrees<K>(cursors: map<K, string>, recent: seq<K>, route: K, id: string)
    requires Agree(cursors, recent) && route !in cursors
    ensures Agree(cursors[route := id], [route] + recent)
    ensures Entries(cursors[route := id], [route] + recent) == [Entry(route, id)] + Entries(cursors, recent)
  {
    var list := [route] + recent;
    assert forall i :: 0 < i < |list| ==> list[i] == recent[i - 1];
    assert list[0] == route;
  }

  /** Moving a route to the front is cutting it out and putting it there. */
  lemma {:induction false} MoveTouches<K>(cursors: map<K, string>, recent: seq<K>, route: K, id: string)
    requires Agree(cursors, recent) && route in cursors
    ensures Agree(cursors[route := id], [route] + Without(recent, route))
    ensures Entries(cursors[route := id], [route] + Without(recent, route)) ==
            Touched(Entries(cursors, recent), route, id)
  {
    FindIn(cursors, recent, route);
    var i := Find(Entries(cursors, recent), route);
    WithoutAt(recent, i);
    CutAgrees(cursors, recent, i);
    CutEntries(cursors, recent, i);
    FrontAgrees(cursors - {route}, Without(recent, route), route, id);
    assert (cursors - {route})[route := id] == cursors[route := id];
  }

  /** Adding a route to a full table drops the last one. */
  lemma {:induction false} ReplaceTouches<K>(cursors: map<K, string>, recent: seq<K>, route: K, id: string)
    requires Agree(cursors, recent) && route !in cursors && |recent| >= CAPACITY
    ensures
      var rest, oldest := recent[..|recent| - 1], recent[|recent| - 1];
      && Agree((cursors - {oldest})[route := id], [route] + rest)
      && Entries((cursors - {oldest})[route := id], [route] + rest) == Touched(Entries(cursors, recent), route, id)
  {
    var n := |recent| - 1;
    assert Cut(recent, n) == recent[..n];
    FindIn(cursors, recent, route);
    CutAgrees(cursors, recent, n);
    CutEntries(cursors, recent, n);
    FrontAgrees(cursors - {recent[n]}, recent[..n], route, id);
    assert Cut(Entries(cursors, recent), n) == Entries(cursors, recent)[..n];
  }

  /** Adding a route where there is room. */
  lemma {:induction false} AddTouches<K>(cursors: map<K, string>, recent: seq<K>, route: K, id: string)
    requires Agree(cursors, recent) && route !in cursors && |recent| < CAPACITY
    ensures Agree(cursors[route := id], [route] + recent)
    ensures Entries(cursors[route := id], [route] + recent) == Touched(Entries(cursors, recent), route, id)
  {
    FindIn(cursors, recent, route);
    FrontAgrees(cursors, recent, route, id);
  }

  // ------------------------------------------------------------------------------- removing several

  /** The list without the routes that are gone. */
  function Filter<K(==)>(list: seq<K>, gone: set<K>): seq<K> {
    if list == [] then []
    else
      var front, last := Filter(list[..|list| - 1], gone), list[|list| - 1];
      if last in gone then front else front + [last]
  }

  lemma {:induction false} FilterMember<K>(list: seq<K>, gone: set<K>, x: K)
    ensures x in Filter(list, gone) <==> x in list && x !in gone
  {
    if list != [] {
      FilterMember(list[..|list| - 1], gone, x);
      assert list == list[..|list| - 1] + [list[|list| - 1]];
    }
  }

  lemma {:induction false} FilterNone<K>(list: seq<K>)
    ensures Filter(list, {}) == list
  {
    if list != [] {
      FilterNone(list[..|list| - 1]);
      assert list == list[..|list| - 1] + [list[|list| - 1]];
    }
  }

  lemma {:induction false} WithoutAbsent<K>(list: seq<K>, x: K)
    requires x !in list
    ensures Without(list + [x], x) == list
  {
    if list != [] {
      WithoutAbsent(list[1..], x);
      assert (list + [x])[1..] == list[1..] + [x];
    }
  }

  lemma {:induction false} WithoutFront<K>(list: seq<K>, x: K, y: K)
    requires x in list
    ensures Without(list + [y], x) == Without(list, x) + [y]
  {
    assert (list + [y])[1..] == list[1..] + [y];
    if list[0] != x {
      WithoutFront(list[1..], x, y);
    }
  }

  /** One more route gone. */
  lemma {:induction false} FilterOneMore<K>(list: seq<K>, gone: set<K>, x: K)
    requires Distinct(list) && x in list && x !in gone
    ensures Filter(list, gone + {x}) == Without(Filter(list, gone), x)
  {
    var front, last := list[..|list| - 1], list[|list| - 1];
    assert list == front + [last];
    FilterMember(front, gone, x);
    if last == x {
      FilterSame(front, gone, x);
      WithoutAbsent(Filter(front, gone), x);
    } else {
      FilterOneMore(front, gone, x);
      if last !in gone { WithoutFront(Filter(front, gone), x, last); }
    }
  }

  lemma {:induction false} FilterSame<K>(list: seq<K>, gone: set<K>, x: K)
    requires x !in list
    ensures Filter(list, gone + {x}) == Filter(list, gone)
  {
    if list != [] {
      FilterSame(list[..|list| - 1], gone, x);
      assert list[|list| - 1] in list;
    }
  }

  /** Removing a route from both. */
  lemma {:induction false} DropAgrees<K>(cursors: map<K, string>, recent: seq<K>, route: K)
    requires Agree(cursors, recent) && route in cursors
    ensures Agree(cursors - {route}, Without(recent, route))
  {
    FindIn(cursors, recent, route);
    var i := Find(Entries(cursors, recent), route);
    WithoutAt(recent, i);
    CutAgrees(cursors, recent, i);
  }

  lemma {:induction false} DropOneMore<K>(cursors: map<K, string>, recent: seq<K>, gone: set<K>, route: K)
    requires Agree(cursors, recent) && Agree(cursors - gone, Filter(recent, gone)) && route in cursors && route !in gone
    ensures Filter(recent, gone + {route}) == Without(Filter(recent, gone), route)
    ensures cursors - (gone + {route}) == cursors - gone - {route}
    ensures Agree(cursors - gone - {route}, Without(Filter(recent, gone), route))
    ensures |Without(Filter(recent, gone), route)| <= |Filter(recent, gone)|
  {
    AllListed(cursors, recent, route);
    FilterOneMore(recent, gone, route);
    DropAgrees(cursors - gone, Filter(recent, gone), route);
  }
}
