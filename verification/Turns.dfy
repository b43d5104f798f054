/**
 Fair turns as callers see them: whatever the candidates, the policies and the other requests between,
 a rotating binding gives no credential a second turn before every one that stayed on offer had its first.
 The runs are of calls to PickScheduler, prunings and clearings; each call is known by its answer alone.
 */
module Turns {
  import opened Text
  import opened ModelAccess
  import opened Recency
  import opened Rotation
  import opened RoundRobin
  import opened Cursors
  import opened Scheduler

  function CursorsAt(cache: Cache<Route>, events: seq<Event>, i: nat): Cache<Route>
    requires i <= |events|
  {
    if i == 0 then cache else CursorsAfter(CursorsAt(cache, events, i - 1), events[i - 1])
  }

  ghost predicate AnswersAll(cache: Cache<Route>, events: seq<Event>) {
    forall i :: 0 <= i < |events| ==> Answers(CursorsAt(cache, events, i), events[i])
  }

  lemma {:induction false} StaysInShape(cache: Cache<Route>, events: seq<Event>, i: nat)
    requires NoRepeats(cache) && |cache| <= CAPACITY && i <= |events|
    ensures NoRepeats(CursorsAt(cache, events, i)) && |CursorsAt(cache, events, i)| <= CAPACITY
  {
    if i > 0 {
      var before, event := CursorsAt(cache, events, i - 1), events[i - 1];
      StaysInShape(cache, events, i - 1);
      match event {
        case Asked(req, _, _, answer) =>
          if Picks(event) { TouchedShape(before, RouteOf(req.caller.scope, req), answer.id); }
        case Withdrawn(constraints) => PrunedMembers(before, constraints);
        case Cleared =>
      }
    }
  }

  /** What an event leaves in a cursor that stays: the answer if it was for this route, else what was there. */
  lemma {:induction false} LastAfter(cache: Cache<Route>, event: Event, route: Route)
    requires NoRepeats(cache) && Has(CursorsAfter(cache, event), route)
    ensures LastOf(CursorsAfter(cache, event), route) ==
            if PicksFor(event, route) then event.answer.id else LastOf(cache, route)
  {
    match event {
      case Asked(req, _, _, answer) =>
        if Picks(event) { TouchedLast(cache, RouteOf(req.caller.scope, req), answer.id, route); }
      case Withdrawn(constraints) =>
        PrunedMembers(cache, constraints);
        SameLast(cache, CursorsAfter(cache, event), route);
      case Cleared =>
    }
  }

  /** A pick moves ahead in the round that ends with a credential that is on offer and not taken. */
  lemma {:induction false} NextTopAhead(b: Boundary, req: Request, last: string, id: string, c: string)
    requires NextTop(b, req, last, id) && Allowable(b, req, c) && last != c && id != c
    ensures Ahead(c, last, id)
  {
    hide Allowable;
    LessTotal(last, c);
    LessTotal(last, id);
    if Less(last, id) && Less(id, c) { LessTransitive(last, id, c); LessAsymmetric(last, c); }
    if Less(c, id) && Less(last, c) { LessAsymmetric(c, id); }
    if Less(c, last) { LessAsymmetric(c, last); }
    if Less(id, c) { LessAsymmetric(id, c); }
  }

  /** The cursor stands at the first answer, or further on in the round that ends with c. */
  predicate Along(cache: Cache<Route>, route: Route, first: string, c: string) {
    var last := LastOf(cache, route);
    last != c && (last == first || Ahead(c, first, last))
  }

  lemma {:induction false} AlongNext(cache: Cache<Route>, event: Event, route: Route, first: string, c: string)
    requires NoRepeats(cache) && Has(CursorsAfter(cache, event), route) && Answers(cache, event)
    requires Along(cache, route, first, c)
    requires PicksFor(event, route) ==> Allowable(event.boundary, event.req, c) && event.answer.id != c
    ensures Along(CursorsAfter(cache, event), route, first, c)
  {
    LastAfter(cache, event, route);
    hide CursorsAfter, NoRepeats, Has, LastOf, Allowable, Ahead, RouteOf;
    if PicksFor(event, route) {
      var last := LastOf(cache, route);
      NextTopAhead(event.boundary, event.req, last, event.answer.id, c);
      if last != first { AheadTransitive(c, first, last, event.answer.id); }
    }
  }

  lemma {:induction false} AlongFirst(cache: Cache<Route>, event: Event, route: Route, first: string, c: string)
    requires NoRepeats(cache) && Has(CursorsAfter(cache, event), route)
    requires PicksFor(event, route) && event.answer.id == first != c
    ensures Along(CursorsAfter(cache, event), route, first, c)
  {
    LastAfter(cache, event, route);
  }

  lemma {:induction false} EventAt(cache: Cache<Route>, events: seq<Event>, i: nat)
    requires AnswersAll(cache, events) && i < |events|
    ensures CursorsAt(cache, events, i + 1) == CursorsAfter(CursorsAt(cache, events, i), events[i])
    ensures Answers(CursorsAt(cache, events, i), events[i])
  {
    hide Answers, CursorsAfter;
  }

  /** Between the two the cursor stays, and c is on offer and not taken. */
  ghost predicate Steady(cache: Cache<Route>, events: seq<Event>, route: Route, c: string, i: nat, j: nat)
    requires j <= |events|
  {
    && (forall k :: i < k <= j ==> Has(CursorsAt(cache, events, k), route))
    && (forall k :: i < k < j && PicksFor(events[k], route) ==>
          Allowable(events[k].boundary, events[k].req, c) && events[k].answer.id != c)
  }

  lemma {:induction false} SteadyBefore(cache: Cache<Route>, events: seq<Event>, route: Route, c: string, i: nat,
          j: nat)
    requires i < j <= |events| && Steady(cache, events, route, c, i, j)
    ensures Has(CursorsAt(cache, events, j), route) && Steady(cache, events, route, c, i, j - 1)
    ensures i < j - 1 && PicksFor(events[j - 1], route) ==>
              Allowable(events[j - 1].boundary, events[j - 1].req, c) && events[j - 1].answer.id != c
  {
    hide CursorsAt, Has, Allowable, PicksFor;
  }

  /** From an answer on, as long as c is on offer and not taken, the cursor moves ahead through one round. */
  lemma {:induction false} CursorAlong(cache: Cache<Route>, events: seq<Event>, route: Route, first: string, c: string,
          i: nat, j: nat)
    requires NoRepeats(cache) && |cache| <= CAPACITY && AnswersAll(cache, events)
    requires i < j <= |events| && PicksFor(events[i], route) && events[i].answer.id == first != c
    requires Steady(cache, events, route, c, i, j)
    ensures Along(CursorsAt(cache, events, j), route, first, c)
    decreases j
  {
    hide *;
    var before, event := CursorsAt(cache, events, j - 1), events[j - 1];
    EventAt(cache, events, j - 1);
    StaysInShape(cache, events, j - 1);
    SteadyBefore(cache, events, route, c, i, j);
    if j - 1 == i {
      AlongFirst(before, event, route, first, c);
    } else {
      CursorAlong(cache, events, route, first, c, i, j - 1);
      AlongNext(before, event, route, first, c);
    }
  }

  /**
   While a route's cursor stays, no credential is answered twice for it without every credential that was
   on offer to all calls in between being answered in between.
   */
  lemma {:induction false} NoSecondTurn(cache: Cache<Route>, events: seq<Event>, route: Route, c: string, i: nat,
          j: nat)
    requires NoRepeats(cache) && |cache| <= CAPACITY && AnswersAll(cache, events)
    requires i < j < |events| && PicksFor(events[i], route) && PicksFor(events[j], route)
    requires forall k :: i < k <= j ==> Has(CursorsAt(cache, events, k), route)
    requires forall k :: i < k <= j && PicksFor(events[k], route) ==> Allowable(events[k].boundary, events[k].req, c)
    requires events[i].answer.id == events[j].answer.id != c
    ensures exists k :: i < k < j && PicksFor(events[k], route) && events[k].answer.id == c
  {
    EventAt(cache, events, j);
    hide CursorsAt, NoRepeats, Has, LastOf, NextTop, LeastTop, Allowable, Ahead, RouteOf;
    if forall k :: i < k < j && PicksFor(events[k], route) ==> events[k].answer.id != c {
      CursorAlong(cache, events, route, events[i].answer.id, c, i, j);
      var last, event := LastOf(CursorsAt(cache, events, j), route), events[j];
      NextTopAhead(event.boundary, event.req, last, event.answer.id, c);
      if last != events[i].answer.id { AheadTransitive(c, events[i].answer.id, last, event.answer.id); }
      AheadStrict(c, events[i].answer.id);
      assert false;
    }
  }
}
