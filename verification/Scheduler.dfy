/** The host's question which credential to use, answered inside the boundary of the caller's binding. */
module Scheduler {
  import opened Options
  import opened Text
  import opened Ledger
  import opened Quota
  import opened ModelAccess
  import opened Recency
  import opened Rotation
  import opened RoundRobin
  import opened Cursors
  import AuthIDs

  datatype CallerScope = Absent | Malformed | Caller(scope: nat)

  datatype Request = Request(
    provider: string, providers: seq<string>, model: string, caller: CallerScope, group: string,
    candidates: seq<Candidate>)

  /** What the store resolves for a scope with an enabled binding. */
  datatype Constraint = Constraint(group: string, authIDs: seq<string>, roundRobin: bool, access: Access,
                                   limits: Limits)

  datatype Refusal = BadMetadata | ModelNotAllowed | OverQuota(decision: Decision) | NoCredential

  /** Deferred leaves the choice to the host. */
  datatype Answer = Deferred | Chosen(id: string) | Refused(reason: Refusal)

  function Underscored(c: char): char {
    if c == '-' || c == ' ' then '_' else c
  }

  const UNUSABLE := {"disabled", "expired", "revoked", "invalid", "unavailable", "cooldown", "cooling_down",
                     "quota_exhausted", "exhausted", "blocked"}

  predicate Usable(status: string) {
    var s := ToLower(Trim(status));
    seq(|s|, i requires 0 <= i < |s| => Underscored(s[i])) !in UNUSABLE
  }

  /** The status is this word, but for white space around it, letter case, and '-' or ' ' in place of '_'. */
  predicate Spells(status: string, word: string) {
    var s := Trim(status);
    && |s| == |word|
    && forall i :: 0 <= i < |s| ==> word[i] == if s[i] == '-' || s[i] == ' ' then '_' else LowerChar(s[i])
  }

  lemma {:induction false} UsableExactly(status: string)
    ensures Usable(status) <==>
              forall word :: Spells(status, word) ==>
                word !in {"disabled", "expired", "revoked", "invalid", "unavailable", "cooldown", "cooling_down",
                          "quota_exhausted", "exhausted", "blocked"}
  {
    var s := ToLower(Trim(status));
    var plain := seq(|s|, i requires 0 <= i < |s| => Underscored(s[i]));
    hide Trim;
    assert Spells(status, plain);
    forall word | Spells(status, word) ensures word == plain {
      assert forall i :: 0 <= i < |word| ==> word[i] == plain[i];
    }
  }

  function Unique(s: seq<string>): seq<string> {
    if s == [] then []
    else
      var front, last := Unique(s[..|s| - 1]), s[|s| - 1];
      if last in front then front else front + [last]
  }

  function NonBlank(s: seq<string>): seq<string> {
    if s == [] then []
    else
      var front, last := NonBlank(s[..|s| - 1]), ToLower(Trim(s[|s| - 1]));
      if last == "" then front else front + [last]
  }

  function RequestProviders(req: Request): seq<string> {
    Unique(NonBlank([req.provider] + req.providers))
  }

  predicate RequestModelAllowed(access: Access, req: Request) {
    var providers := RequestProviders(req);
    if providers == [] then AllowsModel(access, "", req.model) else SomeAllows(access, providers, req.model)
  }

  /** What a request names as provider, in all its fields. */
  ghost predicate Names(req: Request, provider: string) {
    provider != "" && exists p :: p in [req.provider] + req.providers && ToLower(Trim(p)) == provider
  }

  lemma {:induction false} NonBlankMembers(s: seq<string>)
    ensures forall x :: x in NonBlank(s) <==> x != "" && exists p :: p in s && ToLower(Trim(p)) == x
  {
    if s != [] {
      var front, last := s[..|s| - 1], s[|s| - 1];
      NonBlankMembers(front);
      hide Trim, ToLower;
      assert s == front + [last];
    }
  }

  lemma {:induction false} SomeAllowsExactly(access: Access, providers: seq<string>, model: string)
    ensures SomeAllows(access, providers, model) <==> exists p :: p in providers && AllowsModel(access, p, model)
  {
    hide AllowsModel;
    if providers != [] {
      SomeAllowsExactly(access, providers[1..], model);
      assert providers == [providers[0]] + providers[1..];
    }
  }

  /** A request is allowed if one provider it names may serve the model, or any when it names none. */
  lemma {:induction false} RequestAllowedExactly(access: Access, req: Request)
    ensures RequestModelAllowed(access, req) <==>
              if exists p :: Names(req, p) then exists p :: Names(req, p) && AllowsModel(access, p, req.model)
              else AllowsModel(access, "", req.model)
  {
    var all := [req.provider] + req.providers;
    NonBlankMembers(all);
    UniqueMembers(NonBlank(all));
    SomeAllowsExactly(access, RequestProviders(req), req.model);
    assert forall p :: p in RequestProviders(req) <==> Names(req, p);
    assert RequestProviders(req) == [] || RequestProviders(req)[0] in RequestProviders(req);
    hide Names, RequestProviders, AllowsModel, SomeAllows;
  }

  function CanonicalProviders(req: Request): seq<string> {
    var providers := RequestProviders(req);
    seq(|providers|, i requires 0 <= i < |providers| => CanonicalProvider(providers[i]))
  }

  function RouteOf(scope: nat, req: Request): Route {
    Route(scope, Join(Sorted(Unique(CanonicalProviders(req))), '\0'), CanonicalModel(req.model))
  }

  lemma {:induction false} UniqueMembers(s: seq<string>)
    ensures forall x :: x in Unique(s) <==> x in s
    ensures forall i, j :: 0 <= i < j < |Unique(s)| ==> Unique(s)[i] != Unique(s)[j]
  {
    if s != [] {
      UniqueMembers(s[..|s| - 1]);
      assert s == s[..|s| - 1] + [s[|s| - 1]];
    }
  }

  lemma {:induction false} SortedUnique(s: seq<string>)
    ensures Increasing(Sorted(Unique(s))) && forall x :: x in Sorted(Unique(s)) <==> x in s
  {
    UniqueMembers(s);
    SortedIsAscending(Unique(s));
    AuthIDs.DistinctCounts(Unique(s));
    AuthIDs.DistinctAscendingIsIncreasing(Sorted(Unique(s)));
    AuthIDs.SameMultisetMembers(Sorted(Unique(s)), Unique(s));
  }

  ghost predicate SameProviders(left: seq<string>, right: seq<string>) {
    forall p :: p in left <==> p in right
  }

  /** No provider, or only blank ones: joining cannot tell these apart. */
  predicate Unnamed(providers: seq<string>) {
    forall p :: p in providers ==> p == ""
  }

  /**
   Requests share a cursor exactly when they agree in scope, canonical model and set of canonical
   providers, or where one names no provider and the other only one that is canonically blank.
   */
  lemma {:induction false} RouteIgnoresOrder(scope: nat, left: Request, right: Request)
    requires forall p :: p in CanonicalProviders(left) + CanonicalProviders(right) ==> '\0' !in p
    ensures RouteOf(scope, left) == RouteOf(scope, right) <==>
      && CanonicalModel(left.model) == CanonicalModel(right.model)
      && (|| SameProviders(CanonicalProviders(left), CanonicalProviders(right))
          || (Unnamed(CanonicalProviders(left)) && Unnamed(CanonicalProviders(right))))
  {
    var l, r := CanonicalProviders(left), CanonicalProviders(right);
    SortedUnique(l);
    SortedUnique(r);
    if SameProviders(l, r) {
      IncreasingUnique(Sorted(Unique(l)), Sorted(Unique(r)));
    }
    JoinedExactly(Sorted(Unique(l)), Sorted(Unique(r)));
    assert SameProviders(l, Sorted(Unique(l))) && SameProviders(r, Sorted(Unique(r)));
    assert Unnamed(l) <==> Unnamed(Sorted(Unique(l)));
    assert Unnamed(r) <==> Unnamed(Sorted(Unique(r)));
    hide CanonicalProviders, CanonicalModel, Sorted, Unique, Join;
  }

  /**
   Pruning keeps a request's cursor just while its scope rotates and one of the canonical providers it named may
   still serve its model, or any provider may if it named none.
   */
  lemma {:induction false} KeptExactly(constraints: map<nat, Access>, scope: nat, req: Request)
    requires forall p :: p in CanonicalProviders(req) ==> '\0' !in p
    ensures
      var providers, model := CanonicalProviders(req), CanonicalModel(req.model);
      Keeps(constraints, RouteOf(scope, req)) <==>
        && scope in constraints
        && if providers == [] then AllowsModel(constraints[scope], "", model)
           else exists p :: p in providers && AllowsModel(constraints[scope], p, model)
  {
    var providers, sorted := CanonicalProviders(req), Sorted(Unique(CanonicalProviders(req)));
    SortedUnique(providers);
    assert providers != [] ==> providers[0] in sorted;
    assert sorted != [] ==> sorted[0] in providers;
    assert Split("", '\0') == [""];
    if sorted != [] { SplitJoin(sorted, '\0'); }
    assert Split(RouteOf(scope, req).providers, '\0') == if providers == [] then [""] else sorted;
    hide CanonicalProviders, CanonicalModel, AllowsModel, Split, Join, Sorted, Unique, SomeAllows;
    if scope in constraints {
      SomeAllowsExactly(constraints[scope], if providers == [] then [""] else sorted, CanonicalModel(req.model));
    }
  }

  /** One that shows the exception: a provider that is the channel prefix alone, and none at all. */
  lemma {:induction false} PrefixAloneIsNone(scope: nat, named: Request, unnamed: Request)
    requires named.provider == CHANNEL && unnamed.provider == "" && named.providers == [] == unnamed.providers
    requires named.model == unnamed.model
    ensures CanonicalProviders(named) == [""] && CanonicalProviders(unnamed) == []
    ensures RouteOf(scope, named) == RouteOf(scope, unnamed)
  {
    PrefixIsClean(named.provider);
    TrimIsTrimmed(unnamed.provider);
    assert ToLower(unnamed.provider) == "";
    hide *;
    OneProvider(named);
    OneProvider(unnamed);
    NoneOrBlank(scope, named, unnamed);
  }

  lemma {:induction false} NoneOrBlank(scope: nat, named: Request, unnamed: Request)
    requires CanonicalProviders(named) == [""] && CanonicalProviders(unnamed) == [] && named.model == unnamed.model
    ensures RouteOf(scope, named) == RouteOf(scope, unnamed)
  {
    hide CanonicalProviders, CanonicalModel;
    RouteIgnoresOrder(scope, named, unnamed);
  }

  lemma {:induction false} PrefixIsClean(channel: string)
    requires channel == CHANNEL
    ensures ToLower(Trim(channel)) == channel && channel != "" && CanonicalProvider(channel) == ""
  {
    TrimIsTrimmed(channel);
    assert ToLower(channel) == channel;
  }

  lemma {:induction false} OneProvider(req: Request)
    requires req.providers == []
    ensures
      var cleaned := ToLower(Trim(req.provider));
      CanonicalProviders(req) == if cleaned == "" then [] else [CanonicalProvider(cleaned)]
  {
    hide Trim, ToLower, CanonicalProvider;
    var list := [req.provider] + req.providers;
    var cleaned := ToLower(Trim(req.provider));
    assert list[..0] == [] && NonBlank(list[..0]) == [];
    assert NonBlank(list) == if cleaned == "" then [] else [cleaned];
    if cleaned != "" {
      assert [cleaned][..0] == [] && Unique([cleaned][..0]) == [];
    }
  }

  lemma {:induction false} JoinedExactly(left: seq<string>, right: seq<string>)
    requires Increasing(left) && Increasing(right)
    requires forall p :: p in left || p in right ==> '\0' !in p
    ensures Join(left, '\0') == Join(right, '\0') <==> left == right || (Unnamed(left) && Unnamed(right))
  {
    UnnamedExactly(left);
    UnnamedExactly(right);
    if left != [] { SplitJoin(left, '\0'); }
    if right != [] { SplitJoin(right, '\0'); }
    assert Split("", '\0') == [""];
  }

  lemma {:induction false} UnnamedExactly(s: seq<string>)
    requires Increasing(s)
    ensures Unnamed(s) <==> s == [] || s == [""]
  {
    assert |s| > 1 ==> s[0] in s && s[1] in s && Less(s[0], s[1]);
    assert |s| == 1 ==> s[0] in s;
  }

  /** What narrows the candidates: a binding's policy, or for an unbound request the group in its metadata. */
  datatype Boundary = Boundary(access: Option<Access>, authIDs: seq<string>, group: string)

  predicate Unrestricted(b: Boundary) {
    b.group == "" && b.authIDs == []
  }

  predicate Eligible(b: Boundary, model: string, c: Candidate) {
    && Usable(c.status)
    && (b.access.Some? ==> AllowsModel(b.access.value, c.provider, model))
    && if b.authIDs != [] then c.id in b.authIDs else b.group in c.groups
  }

  function Matched(b: Boundary, model: string, candidates: seq<Candidate>): (r: seq<Candidate>)
    ensures forall c :: c in r <==> c in candidates && Eligible(b, model, c)
  {
    if candidates == [] then []
    else
      var front, last := Matched(b, model, candidates[..|candidates| - 1]), candidates[|candidates| - 1];
      assert candidates == candidates[..|candidates| - 1] + [last];
      if Eligible(b, model, last) then front + [last] else front
  }

  /** Highest priority, and among those the lowest ID. */
  predicate IsBest(matched: seq<Candidate>, best: Candidate) {
    && best in matched
    && forall c :: c in matched ==>
         c.priority < best.priority || (c.priority == best.priority && (c.id == best.id || Less(best.id, c.id)))
  }

  method Best(matched: seq<Candidate>) returns (best: Candidate)
    requires matched != []
    ensures IsBest(matched, best)
  {
    best := matched[0];
    for i := 1 to |matched|
      invariant IsBest(matched[..i], best)
    {
      var c := matched[i];
      assert matched[..i + 1] == matched[..i] + [c];
      LessTotal(best.id, c.id);
      if c.priority > best.priority || (c.priority == best.priority && Less(c.id, best.id)) {
        forall d | d in matched[..i] && d.priority == best.priority == c.priority && Less(best.id, d.id)
          ensures Less(c.id, d.id)
        {
          LessTransitive(c.id, best.id, d.id);
        }
        best := c;
      }
    }
    assert matched[..|matched|] == matched;
  }

  /** A credential the boundary allows, of the highest priority among those it allows. */
  predicate Allowable(b: Boundary, req: Request, id: string) {
    exists c :: c in req.candidates && c.id == id && Eligible(b, req.model, c)
      && forall d :: d in req.candidates && Eligible(b, req.model, d) ==> d.priority <= c.priority
  }

  method FilterCandidates(b: Boundary, model: string, candidates: seq<Candidate>) returns (matched: seq<Candidate>)
    ensures matched == Matched(b, model, candidates)
  {
    matched := [];
    for i := 0 to |candidates|
      invariant matched == Matched(b, model, candidates[..i])
    {
      assert candidates[..i + 1][..i] == candidates[..i];
      if Eligible(b, model, candidates[i]) {
        matched := matched + [candidates[i]];
      }
    }
    assert candidates[..|candidates|] == candidates;
  }

  /** The lowest of the allowable IDs. */
  ghost predicate LeastTop(b: Boundary, req: Request, id: string) {
    Allowable(b, req, id) && forall x :: Allowable(b, req, x) ==> x == id || Less(id, x)
  }

  /** The lowest allowable ID above the last one; the lowest of all if there is none above. */
  ghost predicate NextTop(b: Boundary, req: Request, last: string, id: string) {
    && Allowable(b, req, id)
    && if Less(last, id) then forall x :: Allowable(b, req, x) && Less(last, x) ==> x == id || Less(id, x)
       else forall x :: Allowable(b, req, x) ==> !Less(last, x) && (x == id || Less(id, x))
  }

  /** The best candidate's priority is that of all allowable ones. */
  lemma {:induction false} AllowableExactly(b: Boundary, req: Request, best: Candidate)
    requires IsBest(Matched(b, req.model, req.candidates), best)
    ensures forall x :: Allowable(b, req, x) <==> x in Offers(Matched(b, req.model, req.candidates), best.priority)
  {
    var matched := Matched(b, req.model, req.candidates);
    OffersMembers(matched, best.priority);
    forall x ensures Allowable(b, req, x) <==> x in Offers(matched, best.priority) {
      if Allowable(b, req, x) {
        var c :| c in req.candidates && c.id == x && Eligible(b, req.model, c)
          && forall d :: d in req.candidates && Eligible(b, req.model, d) ==> d.priority <= c.priority;
        assert c in matched && best in matched;
      }
      if x in Offers(matched, best.priority) {
        var c :| c in matched && c.priority == best.priority && c.id == x;
      }
    }
  }

  lemma {:induction false} BestIsLeast(b: Boundary, req: Request, best: Candidate)
    requires IsBest(Matched(b, req.model, req.candidates), best)
    ensures LeastTop(b, req, best.id)
  {
    var matched := Matched(b, req.model, req.candidates);
    AllowableExactly(b, req, best);
    OffersMembers(matched, best.priority);
    hide Allowable, Matched, Offers;
    assert best.id in Offers(matched, best.priority);
  }

  /** Rotation takes the next of all allowable IDs, not only of some. */
  lemma {:induction false} PickedIsNext(b: Boundary, req: Request, best: Candidate, cache: Cache<Route>, route: Route)
    requires IsBest(Matched(b, req.model, req.candidates), best)
    ensures Offers(Matched(b, req.model, req.candidates), best.priority) != []
    ensures NextTop(b, req, LastOf(cache, route),
                    Picked(cache, route, Offers(Matched(b, req.model, req.candidates), best.priority)))
  {
    var ids := Offers(Matched(b, req.model, req.candidates), best.priority);
    AllowableExactly(b, req, best);
    BestIsLeast(b, req, best);
    assert best.id in ids;
    SortedIsAscending(ids);
    AuthIDs.SameMultisetMembers(Sorted(ids), ids);
    hide Allowable, Matched, Offers, Sorted, LastOf;
    NextIsLeastAbove(Sorted(ids), LastOf(cache, route));
  }

  lemma {:induction false} NextIsLeastAbove(pool: seq<string>, last: string)
    requires Pool(pool)
    ensures
      var id := Next(pool, last);
      && id in pool
      && if Less(last, id) then forall x :: x in pool && Less(last, x) ==> x == id || Less(id, x)
         else forall x :: x in pool ==> !Less(last, x) && (x == id || Less(id, x))
  {
    var i, id := FirstAbove(pool, last), Next(pool, last);
    forall x | x in pool && (i == |pool| || Less(last, x)) ensures x == id || Less(id, x) {
      var j :| 0 <= j < |pool| && pool[j] == x;
      if j != (if i == |pool| then 0 else i) { NotBelow(x, id); }
    }
    forall x | x in pool && i == |pool| ensures !Less(last, x) {
      var j :| 0 <= j < |pool| && pool[j] == x;
    }
  }

  /** An ID that a pick may answer is allowable: rotation stays within the candidates of highest priority. */
  lemma {:induction false} RotationAllowable(b: Boundary, req: Request, best: Candidate, cache: Cache<Route>,
          route: Route)
    requires IsBest(Matched(b, req.model, req.candidates), best)
    ensures Offers(Matched(b, req.model, req.candidates), best.priority) != []
    ensures Allowable(b, req, Picked(cache, route, Offers(Matched(b, req.model, req.candidates), best.priority)))
  {
    PickedIsNext(b, req, best, cache, route);
  }

  // ------------------------------------------------------------------------- what an answer promises

  /** A call decided inside a boundary, with what it answered; or one of the two things that drop cursors. */
  datatype Event =
    | Asked(req: Request, boundary: Boundary, rotates: bool, answer: Answer)
    | Withdrawn(constraints: map<nat, Access>)
    | Cleared

  /** A rotating call that chose a credential. */
  predicate Picks(event: Event) {
    event.Asked? && event.rotates && event.answer.Chosen? && event.req.caller.Caller?
  }

  predicate PicksFor(event: Event, route: Route) {
    Picks(event) && RouteOf(event.req.caller.scope, event.req) == route
  }

  /** What PickScheduler promises of its answer. */
  ghost predicate Answers(cache: Cache<Route>, event: Event) {
    event.Asked? && event.answer.Chosen? ==>
      if event.rotates then
        && event.req.caller.Caller?
        && var last := LastOf(cache, RouteOf(event.req.caller.scope, event.req));
           NextTop(event.boundary, event.req, last, event.answer.id)
      else LeastTop(event.boundary, event.req, event.answer.id)
  }

  function CursorsAfter(cache: Cache<Route>, event: Event): Cache<Route> {
    match event
    case Asked(req, _, _, answer) =>
      if Picks(event) then Touched(cache, RouteOf(req.caller.scope, req), answer.id) else cache
    case Withdrawn(constraints) => Pruned(cache, constraints)
    case Cleared => []
  }

  class App {
    var enabled: bool
    /** Constraints of the enabled bindings, by scope. */
    var constraints: map<nat, Constraint>
    const quota: NativeQuota
    const rotation: NativeRoundRobin

    constructor (quota: NativeQuota)
      ensures this.quota == quota && enabled && constraints == map[] && fresh(rotation) && rotation.Valid()
    {
      enabled := true;
      constraints := map[];
      this.quota := quota;
      rotation := new NativeRoundRobin();
    }

    predicate Bound(req: Request)
      reads this
    {
      enabled && req.caller.Caller? && req.caller.scope in constraints
    }

    function BoundaryOf(req: Request): Boundary
      reads this
    {
      if Bound(req) then
        var c := constraints[req.caller.scope];
        Boundary(Some(c.access), c.authIDs, if c.authIDs == [] then c.group else "")
      else Boundary(None, [], req.group)
    }

    /** A request and its answer, as an event. */
    function Call(req: Request, answer: Answer): Event
      reads this
    {
      Asked(req, BoundaryOf(req), Bound(req) && constraints[req.caller.scope].roundRobin, answer)
    }

    /** The request is decided here: its scope is bound, or it names a group and there are candidates. */
    predicate Handles(req: Request)
      reads this
    {
      enabled && !req.caller.Malformed? && (Bound(req) || (req.group != "" && req.candidates != []))
    }

    /** A request of a bound scope whose model is allowed and whose quota is not used up. */
    predicate Passes(req: Request, sampledAt: int, admittedAt: int)
      requires Bound(req)
      reads this, quota, quota.usage, quota.limiter
    {
      var c := constraints[req.caller.scope];
      var id := Native(c.limits.scope);
      && RequestModelAllowed(c.access, req)
      && Gate(Some(c.limits), quota.usage.AccountOf(id), quota.limiter.BucketOf(id), sampledAt, admittedAt)
         == Decision.Allowed
    }

    /**
     Isolation. A request of a bound scope is never left to the host; whatever is chosen is an offered,
     usable candidate that the binding's policy allows, of the highest priority among such, whatever
     the cursors hold. A request refused for its model uses up no allowance and moves no cursor.
     */
    method PickScheduler(req: Request, sampledAt: int, admittedAt: int) returns (r: Answer)
      requires rotation.Valid()
      modifies quota.limiter, rotation
      ensures rotation.Valid()
      ensures !enabled ==> r == Deferred
      ensures r == Refused(BadMetadata) <==> enabled && req.caller.Malformed?
      ensures Bound(req) ==> !r.Deferred?
      ensures r.Chosen? ==> Allowable(BoundaryOf(req), req, r.id)
      ensures r.Chosen? && Bound(req) ==>
        var k := constraints[req.caller.scope];
        exists c :: c in req.candidates && c.id == r.id && Usable(c.status)
          && AllowsModel(k.access, c.provider, req.model)
          && (c.id in k.authIDs || (k.authIDs == [] && k.group in c.groups))
      ensures r.Chosen? && !Bound(req) ==>
        exists c :: c in req.candidates && c.id == r.id && Usable(c.status) && req.group in c.groups
      ensures r == Refused(NoCredential) && Bound(req) ==>
        var k := constraints[req.caller.scope];
        || (k.authIDs == [] && k.group == "")
        || forall c :: c in req.candidates && Usable(c.status) && AllowsModel(k.access, c.provider, req.model) ==>
             c.id !in k.authIDs && !(k.authIDs == [] && k.group in c.groups)
      ensures Answers(old(rotation.Contents()), Call(req, r))
      ensures rotation.Contents() == CursorsAfter(old(rotation.Contents()), Call(req, r))
      ensures r == Refused(ModelNotAllowed) <==>
                Bound(req) && !RequestModelAllowed(constraints[req.caller.scope].access, req)
      ensures Bound(req) && r != Refused(ModelNotAllowed) ==>
        var limits := constraints[req.caller.scope].limits;
        var decision := Gate(Some(limits), quota.usage.AccountOf(Native(limits.scope)),
                             old(quota.limiter.BucketOf(Native(limits.scope))), sampledAt, admittedAt);
        if decision == Decision.Allowed then r.Chosen? || r == Refused(NoCredential)
        else r == Refused(OverQuota(decision))
      ensures enabled && !req.caller.Malformed? && !Bound(req) ==>
                (r.Deferred? <==> req.group == "" || req.candidates == [])
      ensures r == Refused(ModelNotAllowed) || !Bound(req) ==> quota.limiter.buckets == old(quota.limiter.buckets)
      ensures r == Refused(NoCredential) <==>
        && Handles(req) && (Bound(req) ==> old(Passes(req, sampledAt, admittedAt)))
        && (|| (Bound(req) && Unrestricted(BoundaryOf(req)))
            || Matched(BoundaryOf(req), req.model, req.candidates) == [])
    {
      if !enabled {
        return Deferred;
      }
      if req.caller.Malformed? {
        return Refused(BadMetadata);
      }
      var boundary := BoundaryOf(req);
      var bound := req.caller.Caller? && req.caller.scope in constraints;
      if bound {
        var c := constraints[req.caller.scope];
        if !RequestModelAllowed(c.access, req) {
          return Refused(ModelNotAllowed);
        }
        var decision := quota.CheckNativeKeyQuota(Some(c.limits), sampledAt, admittedAt);
        if decision != Decision.Allowed {
          return Refused(OverQuota(decision));
        }
        if Unrestricted(boundary) {
          return Refused(NoCredential);
        }
      } else if req.group == "" {
        return Deferred;
      }
      if req.candidates == [] {
        return if bound then Refused(NoCredential) else Deferred;
      }
      r := Choose(req, boundary, bound && constraints[req.caller.scope].roundRobin);
    }

    method Choose(req: Request, boundary: Boundary, rotates: bool) returns (r: Answer)
      requires rotation.Valid() && (rotates ==> req.caller.Caller?)
      modifies rotation
      ensures rotation.Valid()
      ensures r.Chosen? || r == Refused(NoCredential)
      ensures r.Chosen? <==> Matched(boundary, req.model, req.candidates) != []
      ensures r.Chosen? ==>
        if rotates then NextTop(boundary, req, LastOf(old(rotation.Contents()), RouteOf(req.caller.scope, req)), r.id)
        else LeastTop(boundary, req, r.id)
      ensures r.Chosen? && rotates ==>
        rotation.Contents() == Touched(old(rotation.Contents()), RouteOf(req.caller.scope, req), r.id)
      ensures !r.Chosen? || !rotates ==> rotation.Contents() == old(rotation.Contents())
    {
      var matched := FilterCandidates(boundary, req.model, req.candidates);
      if matched == [] {
        return Refused(NoCredential);
      }
      var best := Best(matched);
      if rotates {
        ghost var cache := rotation.Contents();
        PickedIsNext(boundary, req, best, cache, RouteOf(req.caller.scope, req));
        var id := rotation.PickNativeRoundRobin(RouteOf(req.caller.scope, req), matched, best.priority);
        return Chosen(id);
      }
      BestIsLeast(boundary, req, best);
      return Chosen(best.id);
    }
  }
}
