/** The cursor table as it is kept: a map from routes to cursors and a list of the same cursors by recency. */
module Cursors {
  import opened Text
  import opened ModelAccess
  import opened Recency
  import opened Rotation
  import opened RoundRobin

  /** A credential offered by the host. Its groups are what the classification rules make of it. */
  datatype Candidate = Candidate(id: string, provider: string, priority: int, status: string, groups: set<string>)

  function Offers(candidates: seq<Candidate>, priority: int): seq<string> {
    if candidates == [] then []
    else
      var front, last := Offers(candidates[..|candidates| - 1], priority), candidates[|candidates| - 1];
      if last.priority == priority then front + [last.id] else front
  }

  lemma {:induction false} OffersMembers(candidates: seq<Candidate>, priority: int)
    ensures forall id :: id in Offers(candidates, priority) <==>
                         exists c :: c in candidates && c.priority == priority && c.id == id
  {
    if candidates != [] {
      var front, last := candidates[..|candidates| - 1], candidates[|candidates| - 1];
      OffersMembers(front, priority);
      assert candidates == front + [last];
    }
  }

  lemma {:induction false} AboveStays(last: string, x: string, y: string)
    requires Less(last, x) && !Less(y, x)
    ensures Less(last, y)
  {
    LessTotal(x, y);
    if x != y { LessTransitive(last, x, y); }
  }

  lemma {:induction false} SplitIsFirst(ids: seq<string>, last: string, i: nat)
    requires i <= |ids|
    requires forall k :: 0 <= k < i ==> !Less(last, ids[k])
    requires i < |ids| ==> Less(last, ids[i])
    ensures i == FirstAbove(ids, last)
  {
    if i > 0 { SplitIsFirst(ids[1..], last, i - 1); }
  }

  /** The first position whose ID is above last, by bisection. */
  method Search(ids: seq<string>, last: string) returns (index: nat)
    requires Ascending(ids)
    ensures index == FirstAbove(ids, last)
  {
    var low, high := 0, |ids|;
    while low < high
      invariant 0 <= low <= high <= |ids|
      invariant forall k :: 0 <= k < low ==> !Less(last, ids[k])
      invariant forall k :: high <= k < |ids| ==> Less(last, ids[k])
    {
      var mid := (low + high) / 2;
      if Less(last, ids[mid]) {
        forall k | mid <= k < |ids| ensures Less(last, ids[k]) {
          if k > mid { AboveStays(last, ids[mid], ids[k]); }
        }
        high := mid;
      } else {
        forall k | 0 <= k <= mid ensures !Less(last, ids[k]) {
          if k < mid && Less(last, ids[k]) { AboveStays(last, ids[k], ids[mid]); }
        }
        low := mid + 1;
      }
    }
    index := low;
    SplitIsFirst(ids, last, index);
  }

  /** The next ID offered at this priority. */
  method NextID(candidates: seq<Candidate>, priority: int, last: string) returns (id: string)
    requires Offers(candidates, priority) != []
    ensures id == Next(Sorted(Offers(candidates, priority)), last)
  {
    var ids: seq<string> := [];
    for i := 0 to |candidates|
      invariant ids == Offers(candidates[..i], priority)
    {
      assert candidates[..i + 1][..i] == candidates[..i];
      if candidates[i].priority == priority {
        ids := ids + [candidates[i].id];
      }
    }
    assert candidates[..|candidates|] == candidates;
    ids := SortStrings(ids);
    var index := Search(ids, last);
    if index == |ids| {
      index := 0;
    }
    id := ids[index];
  }

  /** Whether a cursor is kept. */
  method StillAllowed(constraints: map<nat, Access>, route: Route) returns (allowed: bool)
    ensures allowed == Keeps(constraints, route)
  {
    if route.scope !in constraints {
      return false;
    }
    var access := constraints[route.scope];
    var left := Split(route.providers, '\0');
    while left != []
      invariant Keeps(constraints, route) == SomeAllows(access, left, route.model)
      decreases |left|
    {
      if AllowsModel(access, left[0], route.model) {
        return true;
      }
      left := left[1..];
    }
    allowed := false;
  }

  /** Removing the routes not kept from map and list is pruning what they represent. */
  lemma {:induction false} FilterIsPruned(cursors: map<Route, string>, recent: seq<Route>, constraints: map<nat,
          Access>, gone: set<Route>)
    requires forall i :: 0 <= i < |recent| ==> recent[i] in cursors
    requires forall r :: r in cursors ==> (r in gone <==> !Keeps(constraints, r))
    requires forall i :: 0 <= i < |Filter(recent, gone)| ==> Filter(recent, gone)[i] in cursors - gone
    ensures Entries(cursors - gone, Filter(recent, gone)) == Pruned(Entries(cursors, recent), constraints)
  {
    if recent != [] {
      var front := recent[..|recent| - 1];
      assert Entries(cursors, recent)[..|recent| - 1] == Entries(cursors, front);
      forall i | 0 <= i < |Filter(front, gone)| ensures Filter(front, gone)[i] in cursors - gone {
        assert Filter(front, gone)[i] == Filter(recent, gone)[i];
      }
      FilterIsPruned(cursors, front, constraints, gone);
    }
  }

  class NativeRoundRobin {
    var cursors: map<Route, string>
    var recent: seq<Route>

    ghost predicate Valid()
      reads this
    {
      Agree(cursors, recent) && |recent| <= CAPACITY
    }

    ghost function Contents(): Cache<Route>
      reads this
      requires Valid()
    {
      Entries(cursors, recent)
    }

    constructor ()
      ensures Valid() && Contents() == []
    {
      cursors := map[];
      recent := [];
    }

    /** Picks the next ID offered at this priority and leaves it in the route's cursor. */
    method PickNativeRoundRobin(route: Route, candidates: seq<Candidate>, priority: int) returns (id: string)
      requires Valid() && Offers(candidates, priority) != []
      modifies this
      ensures Valid()
      ensures id == Picked(old(Contents()), route, Offers(candidates, priority))
      ensures Contents() == Touched(old(Contents()), route, id)
    {
      FindIn(cursors, recent, route);
      id := NextID(candidates, priority, if route in cursors then cursors[route] else "");
      Touch(route, id);
    }

    /** Moves the route's cursor to the front, making it first if there is none, and sets it. */
    method Touch(route: Route, id: string)
      requires Valid()
      modifies this
      ensures Valid() && Contents() == Touched(old(Contents()), route, id)
    {
      var table, list := cursors, recent;
      if route in table {
        MoveTouches(table, list, route, id);
        list := Without(list, route);
      } else if |table| >= CAPACITY {
        ReplaceTouches(table, list, route, id);
        table := table - {list[|list| - 1]};
        list := list[..|list| - 1];
      } else {
        AddTouches(table, list, route, id);
      }
      assert Entries(table[route := id], [route] + list) == Touched(Contents(), route, id);
      TouchedSize(Contents(), route, id);
      cursors, recent := table[route := id], [route] + list;
    }

    /**
     Discards the cursors of scopes that no longer rotate and of models no longer authorised; the rest keep
     their order.
     */
    method PruneNativeRoundRobin(constraints: map<nat, Access>)
      requires Valid()
      modifies this
      ensures Valid() && Contents() == Pruned(old(Contents()), constraints)
    {
      hide Keeps;
      ghost var before, list := cursors, recent;
      ghost var gone: set<Route> := {};
      var left := cursors.Keys;
      FilterNone(recent);
      while left != {}
        invariant Agree(cursors, recent) && |recent| <= CAPACITY
        invariant left <= before.Keys && gone <= before.Keys - left
        invariant cursors == before - gone && recent == Filter(list, gone)
        invariant forall r :: r in before && r !in left ==> (r in gone <==> !Keeps(constraints, r))
        decreases left
      {
        var route :| route in left;
        var allowed := StillAllowed(constraints, route);
        if !allowed {
          DropOneMore(before, list, gone, route);
          gone := gone + {route};
          cursors := cursors - {route};
          recent := Without(recent, route);
        }
        left := left - {route};
      }
      FilterIsPruned(before, list, constraints, gone);
    }

    method ClearNativeRoundRobin()
      modifies this
      ensures Valid() && Contents() == []
    {
      cursors := map[];
      recent := [];
    }
  }
}
