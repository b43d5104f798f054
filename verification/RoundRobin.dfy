/**
 The cursors behind rotation: one per route, in a table of bounded size that drops the least recently
 used. Within a run, what the table holds is decided by the order of use alone.
 */
module RoundRobin {
  import opened Options
  import opened Text
  import opened ModelAccess
  import opened Recency
  import opened Rotation

  /** Which requests share a cursor. Providers are canonical, sorted, without repeats, and joined with NUL. */
  datatype Route = Route(scope: nat, providers: string, model: string)

  function Picked(cache: Cache<Route>, route: Route, ids: seq<string>): string
    requires ids != []
  {
    SortedIsAscending(ids);
    Next(Sorted(ids), LastOf(cache, route))
  }

  /** Whether one of the providers may serve the model. */
  predicate SomeAllows(access: Access, providers: seq<string>, model: string) {
    if providers == [] then false
    else AllowsModel(access, providers[0], model) || SomeAllows(access, providers[1..], model)
  }

  /** A cursor is kept while its scope rotates and some provider of its route may still serve its model. */
  predicate Keeps(constraints: map<nat, Access>, route: Route) {
    route.scope in constraints && SomeAllows(constraints[route.scope], Split(route.providers, '\0'), route.model)
  }

  function Pruned(cache: Cache<Route>, constraints: map<nat, Access>): Cache<Route> {
    if cache == [] then []
    else
      var front, last := Pruned(cache[..|cache| - 1], constraints), cache[|cache| - 1];
      if Keeps(constraints, last.route) then front + [last] else front
  }

  // ------------------------------------------------------------------------------------------- runs

  datatype Op = Pick(route: Route, ids: seq<string>) | Prune(constraints: map<nat, Access>) | Clear

  predicate Offered(ops: seq<Op>) {
    forall i :: 0 <= i < |ops| && ops[i].Pick? ==> ops[i].ids != []
  }

  function Step(cache: Cache<Route>, op: Op): Cache<Route>
    requires op.Pick? ==> op.ids != []
  {
    match op
    case Pick(route, ids) => Touched(cache, route, Picked(cache, route, ids))
    case Prune(constraints) => Pruned(cache, constraints)
    case Clear => []
  }

  function Run(cache: Cache<Route>, ops: seq<Op>): Cache<Route>
    requires Offered(ops)
  {
    if ops == [] then cache else Step(Run(cache, ops[..|ops| - 1]), ops[|ops| - 1])
  }

  lemma {:induction false} PrunedMembers(cache: Cache<Route>, constraints: map<nat, Access>)
    requires NoRepeats(cache)
    ensures NoRepeats(Pruned(cache, constraints)) && |Pruned(cache, constraints)| <= |cache|
    ensures forall e :: e in Pruned(cache, constraints) <==> e in cache && Keeps(constraints, e.route)
  {
    if cache != [] {
      var front, last := cache[..|cache| - 1], cache[|cache| - 1];
      PrunedMembers(front, constraints);
      assert cache == front + [last];
      forall i | 0 <= i < |Pruned(front, constraints)| ensures Pruned(front, constraints)[i].route != last.route {
        assert Pruned(front, constraints)[i] in front;
      }
    }
  }

  /** In every run the table stays within its capacity and holds no route twice. */
  lemma {:induction false} RunShape(ops: seq<Op>)
    requires Offered(ops)
    ensures NoRepeats(Run([], ops)) && |Run([], ops)| <= CAPACITY
  {
    if ops != [] {
      var front, op := ops[..|ops| - 1], ops[|ops| - 1];
      RunShape(front);
      match op {
        case Pick(route, ids) => TouchedShape(Run([], front), route, Picked(Run([], front), route, ids));
        case Prune(constraints) => PrunedMembers(Run([], front), constraints);
        case Clear =>
      }
    }
  }

  // ---------------------------------------------------------------------------------------- recency

  /** What the last pick for the route answered. */
  function LastAnswer(ops: seq<Op>, route: Route): Option<string>
    requires Offered(ops)
  {
    if ops == [] then None
    else
      var front, op := ops[..|ops| - 1], ops[|ops| - 1];
      if op.Pick? && op.route == route then Some(Picked(Run([], front), route, op.ids)) else LastAnswer(front, route)
  }

  /** The routes picked after the last pick for the given one. */
  function Since(ops: seq<Op>, route: Route): set<Route> {
    if ops == [] then {}
    else
      var front, op := ops[..|ops| - 1], ops[|ops| - 1];
      if !op.Pick? then Since(front, route)
      else if op.route == route then {}
      else Since(front, route) + {op.route}
  }

  ghost predicate Answered(cache: Cache<Route>, ops: seq<Op>)
    requires Offered(ops)
  {
    forall i :: 0 <= i < |cache| ==> LastAnswer(ops, cache[i].route) == Some(cache[i].lastID)
  }

  /** Whatever stands before an entry was used after it. */
  ghost predicate ByRecency(cache: Cache<Route>, ops: seq<Op>) {
    forall i, j :: 0 <= i < j < |cache| ==> cache[i].route in Since(ops, cache[j].route)
  }

  lemma {:induction false} PrunedRecency(cache: Cache<Route>, constraints: map<nat, Access>, ops: seq<Op>)
    requires NoRepeats(cache) && ByRecency(cache, ops)
    ensures ByRecency(Pruned(cache, constraints), ops)
  {
    if cache != [] {
      var front, last := cache[..|cache| - 1], cache[|cache| - 1];
      PrunedRecency(front, constraints, ops);
      PrunedMembers(front, constraints);
      forall i | 0 <= i < |Pruned(front, constraints)|
        ensures Pruned(front, constraints)[i].route in Since(ops, last.route)
      {
        assert Pruned(front, constraints)[i] in front;
      }
    }
  }

  lemma {:induction false} TouchedRecency(cache: Cache<Route>, front: seq<Op>, route: Route, ids: seq<string>)
    requires Offered(front) && ids != [] && NoRepeats(cache) && ByRecency(cache, front)
    ensures ByRecency(Touched(cache, route, Picked(cache, route, ids)), front + [Pick(route, ids)])
  {
    var ops := front + [Pick(route, ids)];
    assert ops[..|ops| - 1] == front;
    var after := Touched(cache, route, Picked(cache, route, ids));
    assert forall q :: q != route ==> Since(ops, q) == Since(front, q) + {route};
    forall i, j | 0 <= i < j < |after| ensures after[i].route in Since(ops, after[j].route) {
      TouchedFrom(cache, route, Picked(cache, route, ids), j);
      if i > 0 { TouchedFrom(cache, route, Picked(cache, route, ids), i); }
    }
  }

  /** In every run the table is in order of use, and each cursor holds the last answer given for its route. */
  lemma {:induction false} RunRecency(ops: seq<Op>)
    requires Offered(ops)
    ensures Answered(Run([], ops), ops) && ByRecency(Run([], ops), ops)
  {
    if ops != [] {
      var front, op := ops[..|ops| - 1], ops[|ops| - 1];
      RunRecency(front);
      RunShape(front);
      var cache := Run([], front);
      assert ops == front + [op];
      match op {
        case Pick(route, ids) =>
          TouchedRecency(cache, front, route, ids);
          TouchedAnswers(cache, front, route, ids);
        case Prune(constraints) =>
          PrunedRecency(cache, constraints, front);
          PrunedMembers(cache, constraints);
          forall i | 0 <= i < |Pruned(cache, constraints)|
            ensures LastAnswer(front, Pruned(cache, constraints)[i].route) == Some(Pruned(cache, constraints)[i].lastID)
          {
            assert Pruned(cache, constraints)[i] in cache;
          }
          assert forall q :: Since(ops, q) == Since(front, q);
        case Clear =>
      }
    }
  }

  lemma {:induction false} TouchedAnswers(cache: Cache<Route>, front: seq<Op>, route: Route, ids: seq<string>)
    requires Offered(front) && ids != [] && NoRepeats(cache) && Answered(cache, front) && cache == Run([], front)
    ensures Answered(Touched(cache, route, Picked(cache, route, ids)), front + [Pick(route, ids)])
  {
    var ops := front + [Pick(route, ids)];
    assert ops[..|ops| - 1] == front;
    var after := Touched(cache, route, Picked(cache, route, ids));
    forall i | 0 <= i < |after| ensures LastAnswer(ops, after[i].route) == Some(after[i].lastID) {
      if i > 0 { TouchedFrom(cache, route, Picked(cache, route, ids), i); }
    }
  }

  // -------------------------------------------------------------------------------------- retention

  /** The route was picked, and nothing since has cleared the table or withdrawn the route. */
  predicate Undropped(ops: seq<Op>, route: Route) {
    if ops == [] then false
    else
      var front, op := ops[..|ops| - 1], ops[|ops| - 1];
      match op
      case Pick(q, _) => q == route || Undropped(front, route)
      case Prune(constraints) => Keeps(constraints, route) && Undropped(front, route)
      case Clear => false
  }

  lemma {:induction false} RoutesFit(cache: Cache<Route>, u: set<Route>)
    requires NoRepeats(cache) && forall i :: 0 <= i < |cache| ==> cache[i].route in u
    ensures |cache| <= |u|
  {
    if cache != [] {
      RoutesFit(cache[..|cache| - 1], u - {cache[|cache| - 1].route});
    }
  }

  /**
   Eviction takes only the least recently used: a cursor that was not withdrawn is still there as long
   as fewer than CAPACITY other routes were used since, and it holds the last answer given.
   */
  lemma {:induction false} Retained(ops: seq<Op>, route: Route)
    requires Offered(ops) && Undropped(ops, route) && |Since(ops, route)| < CAPACITY
    ensures Has(Run([], ops), route)
    ensures LastAnswer(ops, route) == Some(LastOf(Run([], ops), route))
  {
    var front, op := ops[..|ops| - 1], ops[|ops| - 1];
    var cache := Run([], front);
    RunShape(front);
    RunRecency(front);
    RunShape(ops);
    RunRecency(ops);
    match op {
      case Pick(q, ids) =>
        if q != route {
          SubsetFits(Since(front, route), Since(ops, route));
          Retained(front, route);
          if !Has(cache, q) { NewcomerFits(cache, front, q, Find(cache, route)); }
          TouchedKeeps(cache, q, Picked(cache, q, ids), route);
        } else {
          assert Run([], ops)[0].route == route;
        }
      case Prune(constraints) =>
        Retained(front, route);
        PrunedMembers(cache, constraints);
        assert cache[Find(cache, route)] in Run([], ops);
      case Clear =>
    }
  }

  lemma {:induction false} SubsetFits(a: set<Route>, b: set<Route>)
    requires a <= b
    ensures |a| <= |b|
  {
    if a != {} {
      var x :| x in a;
      SubsetFits(a - {x}, b - {x});
    }
  }

  /** A route not in the table, together with all in front of a cursor, were used since that cursor. */
  lemma {:induction false} NewcomerFits(cache: Cache<Route>, front: seq<Op>, other: Route, i: nat)
    requires NoRepeats(cache) && ByRecency(cache, front) && i < |cache| && !Has(cache, other)
    ensures i + 1 <= |Since(front, cache[i].route) + {other}|
  {
    var u := Since(front, cache[i].route);
    RoutesFit(cache[..i], u - {other});
  }

  // ------------------------------------------------------------------------------ fairness in a run

  /** The sorted pools offered to the route's picks, and the answers given, in order. */
  function PoolsOf(ops: seq<Op>, route: Route): (pools: seq<seq<string>>)
    requires Offered(ops)
    ensures Pools(pools)
  {
    if ops == [] then []
    else
      var front, op := PoolsOf(ops[..|ops| - 1], route), ops[|ops| - 1];
      if op.Pick? && op.route == route then
        SortedIsAscending(op.ids);
        front + [Sorted(op.ids)]
      else front
  }

  function AnswersOf(cache: Cache<Route>, ops: seq<Op>, route: Route): (answers: seq<string>)
    requires Offered(ops)
    ensures |answers| == |PoolsOf(ops, route)|
  {
    if ops == [] then []
    else
      var front, op := ops[..|ops| - 1], ops[|ops| - 1];
      if op.Pick? && op.route == route then AnswersOf(cache, front, route) + [Picked(Run(cache, front), route, op.ids)]
      else AnswersOf(cache, front, route)
  }

  /** The cursor is there all along. */
  predicate Kept(cache: Cache<Route>, ops: seq<Op>, route: Route)
    requires Offered(ops)
  {
    Has(Run(cache, ops), route) && (ops != [] ==> Kept(cache, ops[..|ops| - 1], route))
  }

  /**
   While a route's cursor stays in the table, the answers for it are a single rotation through the
   pools offered for it, whatever happens to other routes in between.
   */
  lemma {:induction false} AnswersAreChain(cache: Cache<Route>, ops: seq<Op>, route: Route)
    requires Offered(ops) && NoRepeats(cache) && |cache| <= CAPACITY && Kept(cache, ops, route)
    ensures AnswersOf(cache, ops, route) == Chain(PoolsOf(ops, route), LastOf(cache, route))
    ensures NoRepeats(Run(cache, ops)) && |Run(cache, ops)| <= CAPACITY
    ensures
      var answers := AnswersOf(cache, ops, route);
      LastOf(Run(cache, ops), route) == Last(answers, LastOf(cache, route), |answers|)
  {
    if ops != [] {
      var front, op := ops[..|ops| - 1], ops[|ops| - 1];
      var now := Run(cache, front);
      AnswersAreChain(cache, front, route);
      match op {
        case Pick(q, ids) =>
          TouchedShape(now, q, Picked(now, q, ids));
          TouchedLast(now, q, Picked(now, q, ids), route);
          if q == route {
            var pools := PoolsOf(ops, route);
            assert pools[..|pools| - 1] == PoolsOf(front, route);
          }
        case Prune(constraints) =>
          PrunedMembers(now, constraints);
          SameLast(now, Run(cache, ops), route);
        case Clear =>
      }
    }
  }

  /** So no credential is answered twice without every credential that stayed on offer being answered in between. */
  lemma {:induction false} FairInRun(cache: Cache<Route>, ops: seq<Op>, route: Route, c: string, i: nat, j: nat)
    requires Offered(ops) && NoRepeats(cache) && |cache| <= CAPACITY && Kept(cache, ops, route)
    requires i < j < |AnswersOf(cache, ops, route)|
    requires forall k :: i < k <= j ==> c in PoolsOf(ops, route)[k]
    requires AnswersOf(cache, ops, route)[i] == AnswersOf(cache, ops, route)[j] != c
    ensures exists k :: i < k < j && AnswersOf(cache, ops, route)[k] == c
  {
    AnswersAreChain(cache, ops, route);
    NoneTwiceBetween(PoolsOf(ops, route), LastOf(cache, route), c, i, j);
  }
}
