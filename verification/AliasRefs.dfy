/**
 Keys refer to a shared table of aliases. Rules typed into a key are moved to the table and replaced by
 references; references are expanded to rules again. Going there and back loses nothing.
 */
module AliasRefs {
  import opened Options
  import opened Text

  datatype Target = Target(provider: string, model: string, group: string)

  /** Billing mode and prices. */
  datatype Terms = Terms(billing: string, prices: seq<int>)

  datatype Mapping = Mapping(alias: string, targets: seq<Target>, terms: Terms)

  /** A reference with the prices that this key overrides. */
  datatype Ref = Ref(alias: string, overrides: map<nat, int>)

  datatype Rule = Rule(alias: string, target: Target, terms: Terms)

  /** The table is looked up by lower-case name. */
  type Table = map<string, Mapping>

  predicate Keyed(table: Table) {
    forall k :: k in table ==> ToLower(table[k].alias) == k
  }

  /** Equal but for letter case. */
  predicate Same(a: Target, b: Target) {
    ToLower(a.provider) == ToLower(b.provider) && ToLower(a.model) == ToLower(b.model) &&
      ToLower(a.group) == ToLower(b.group)
  }

  predicate Holds(targets: seq<Target>, t: Target) {
    exists i :: 0 <= i < |targets| && Same(targets[i], t)
  }

  function WithTarget(targets: seq<Target>, t: Target): seq<Target> {
    if Holds(targets, t) then targets else targets + [t]
  }

  /** One rule moved to the table. */
  function Moved(table: Table, m: Rule): Table {
    var k := ToLower(m.alias);
    if k in table then table[k := table[k].(targets := WithTarget(table[k].targets, m.target))]
    else table[k := Mapping(m.alias, [m.target], m.terms)]
  }

  function Migrated(table: Table, models: seq<Rule>): Table {
    if models == [] then table else Moved(Migrated(table, models[..|models| - 1]), models[|models| - 1])
  }

  function Names(models: seq<Rule>): set<string> {
    set i | 0 <= i < |models| :: ToLower(models[i].alias)
  }

  function RefNames(refs: seq<Ref>): set<string> {
    set i | 0 <= i < |refs| :: ToLower(refs[i].alias)
  }

  /** The references still wanted, each name once. */
  function Kept(refs: seq<Ref>, wanted: set<string>): seq<Ref> {
    if refs == [] then []
    else
      var front, last := Kept(refs[..|refs| - 1], wanted), refs[|refs| - 1];
      if ToLower(last.alias) in wanted && ToLower(last.alias) !in RefNames(front) then front + [last] else front
  }

  /** Then one for every name that has none. */
  function Extended(refs: seq<Ref>, models: seq<Rule>): seq<Ref> {
    if models == [] then refs
    else
      var front, last := Extended(refs, models[..|models| - 1]), models[|models| - 1];
      if ToLower(last.alias) in RefNames(front) then front else front + [Ref(last.alias, map[])]
  }

  function Reconciled(refs: seq<Ref>, models: seq<Rule>): seq<Ref> {
    Extended(Kept(refs, Names(models)), models)
  }

  /** Moving a key's rules to the table: without rules its references stay as they are. */
  function MigratedKey(table: Table, refs: seq<Ref>, models: seq<Rule>): (Table, seq<Ref>) {
    if models == [] then (table, refs) else (Migrated(table, models), Reconciled(refs, models))
  }

  predicate Targeted(table: Table) {
    forall k :: k in table ==> table[k].targets != []
  }

  predicate AllKnown(table: Table, refs: seq<Ref>) {
    forall i :: 0 <= i < |refs| ==> ToLower(refs[i].alias) in table
  }

  function PlaceOf(refs: seq<Ref>, name: string): (i: nat)
    ensures i <= |refs|
    ensures i < |refs| ==> ToLower(refs[i].alias) == name
    ensures forall k :: 0 <= k < i ==> ToLower(refs[k].alias) != name
  {
    if refs == [] || ToLower(refs[0].alias) == name then 0
    else
      var i := 1 + PlaceOf(refs[1..], name);
      assert forall k :: 0 < k < i ==> refs[k] == refs[1..][k - 1];
      i
  }

  /** A later reference to the same alias only fills in prices that the first one does not override. */
  function Filled(first: Ref, later: Ref): Ref {
    first.(overrides := later.overrides + first.overrides)
  }

  function WithRef(refs: seq<Ref>, ref: Ref): seq<Ref> {
    var i := PlaceOf(refs, ToLower(ref.alias));
    if i < |refs| then refs[i := Filled(refs[i], ref)] else refs + [ref]
  }

  /** Each alias once, where it was named first. */
  function Healed(refs: seq<Ref>): seq<Ref> {
    if refs == [] then [] else WithRef(Healed(refs[..|refs| - 1]), refs[|refs| - 1])
  }

  /** Saving a key: its rules are moved, then the table and the references are checked and healed. */
  function Saved(table: Table, refs: seq<Ref>, models: seq<Rule>): Option<(Table, seq<Ref>)> {
    var (next, reconciled) := MigratedKey(table, refs, models);
    if !Targeted(next) || !AllKnown(next, reconciled) then None else Some((next, Healed(reconciled)))
  }

  function Overridden(terms: Terms, overrides: map<nat, int>): Terms {
    Terms(terms.billing,
          seq(|terms.prices|, i requires 0 <= i < |terms.prices| =>
            if i in overrides then overrides[i] else terms.prices[i]))
  }

  /** One reference as rules, one for each target. */
  function RulesOf(table: Table, ref: Ref): (rules: seq<Rule>)
    ensures |rules| == if ToLower(ref.alias) in table then |table[ToLower(ref.alias)].targets| else 0
    ensures forall i :: 0 <= i < |rules| ==>
      var a := table[ToLower(ref.alias)];
      rules[i] == Rule(a.alias, a.targets[i], Overridden(a.terms, ref.overrides))
  {
    if ToLower(ref.alias) !in table then []
    else
      var a := table[ToLower(ref.alias)];
      seq(|a.targets|, i requires 0 <= i < |a.targets| =>
        Rule(a.alias, a.targets[i], Overridden(a.terms, ref.overrides)))
  }

  function Expanded(table: Table, refs: seq<Ref>): seq<Rule> {
    if refs == [] then [] else Expanded(table, refs[..|refs| - 1]) + RulesOf(table, refs[|refs| - 1])
  }

  // ------------------------------------------------------------------------------------- the methods

  method ResolveAliasRefsToModels(refs: seq<Ref>, table: Table) returns (out: seq<Rule>)
    ensures out == Expanded(table, refs)
  {
    hide RulesOf, Overridden;
    out := [];
    for i := 0 to |refs|
      invariant out == Expanded(table, refs[..i])
    {
      assert refs[..i + 1][..i] == refs[..i];
      var k := ToLower(refs[i].alias);
      if k in table {
        var a := table[k];
        ghost var before, rules := out, RulesOf(table, refs[i]);
        for j := 0 to |a.targets|
          invariant out == before + rules[..j]
        {
          out := out + [Rule(a.alias, a.targets[j], Overridden(a.terms, refs[i].overrides))];
        }
      }
    }
    assert refs[..|refs|] == refs;
  }

  method MergeAliasTarget(a: Mapping, t: Target) returns (r: Mapping)
    ensures r == a.(targets := WithTarget(a.targets, t))
  {
    for i := 0 to |a.targets|
      invariant forall j :: 0 <= j < i ==> !Same(a.targets[j], t)
    {
      if Same(a.targets[i], t) {
        return a;
      }
    }
    return a.(targets := a.targets + [t]);
  }

  /** Moves a key's rules to the table and reconciles its references with them. */
  method MigrateModelsToAliases(table: Table, refs: seq<Ref>, models: seq<Rule>) returns (next: Table,
          reconciled: seq<Ref>)
    ensures (next, reconciled) == MigratedKey(table, refs, models)
  {
    if models == [] {
      return table, refs;
    }
    var names: set<string> := {};
    for i := 0 to |models|
      invariant names == Names(models[..i])
    {
      NamesNext(models, i);
      names := names + {ToLower(models[i].alias)};
    }
    assert models[..|models|] == models;
    var seen: set<string> := {};
    reconciled := [];
    for i := 0 to |refs|
      invariant reconciled == Kept(refs[..i], names) && seen == RefNames(reconciled)
    {
      assert refs[..i + 1][..i] == refs[..i];
      var k := ToLower(refs[i].alias);
      if k in names && k !in seen {
        RefNamesPlus(reconciled, refs[i]);
        seen := seen + {k};
        reconciled := reconciled + [refs[i]];
      }
    }
    assert refs[..|refs|] == refs;
    next := table;
    ghost var kept := reconciled;
    for i := 0 to |models|
      invariant next == Migrated(table, models[..i])
      invariant reconciled == Extended(kept, models[..i]) && seen == RefNames(reconciled)
    {
      assert models[..i + 1][..i] == models[..i];
      var m := models[i];
      var k := ToLower(m.alias);
      if k in next {
        var a := MergeAliasTarget(next[k], m.target);
        next := next[k := a];
      } else {
        next := next[k := Mapping(m.alias, [m.target], m.terms)];
      }
      if k !in seen {
        RefNamesPlus(reconciled, Ref(m.alias, map[]));
        seen := seen + {k};
        reconciled := reconciled + [Ref(m.alias, map[])];
      }
    }
  }

  /** The loop over a key's references in normalizeConfig; None at an unknown alias. */
  method HealRefs(refs: seq<Ref>, table: Table) returns (r: Option<seq<Ref>>)
    ensures r == if AllKnown(table, refs) then Some(Healed(refs)) else None
  {
    var healed: seq<Ref>, seen: map<string, nat> := [], map[];
    for n := 0 to |refs|
      invariant AllKnown(table, refs[..n])
      invariant healed == Healed(refs[..n]) && Places(seen, healed)
    {
      assert refs[..n + 1][..n] == refs[..n];
      assert refs[..n + 1] == refs[..n] + [refs[n]];
      var ref := refs[n];
      var k := ToLower(ref.alias);
      if k !in table {
        return None;
      }
      if k in seen {
        var i := seen[k];
        PlacesFilled(seen, healed, i, ref);
        var first := healed[i];
        healed := healed[i := first.(overrides := ref.overrides + first.overrides)];
      } else {
        PlacesAdded(seen, healed, ref);
        seen := seen[k := |healed|];
        healed := healed + [ref];
      }
    }
    assert refs[..|refs|] == refs;
    return Some(healed);
  }

  /** The map of the loop gives the place of every name there is. */
  ghost predicate Places(seen: map<string, nat>, refs: seq<Ref>) {
    forall name {:trigger PlaceOf(refs, name)} ::
      (name in seen <==> PlaceOf(refs, name) < |refs|) && (name in seen ==> seen[name] == PlaceOf(refs, name))
  }

  lemma {:induction false} PlacesFilled(seen: map<string, nat>, refs: seq<Ref>, i: nat, ref: Ref)
    requires Places(seen, refs) && ToLower(ref.alias) in seen && i == seen[ToLower(ref.alias)]
    ensures i < |refs| && WithRef(refs, ref) == refs[i := Filled(refs[i], ref)]
    ensures Places(seen, WithRef(refs, ref))
  {
    assert PlaceOf(refs, ToLower(ref.alias)) == i;
    FilledPlaces(refs, i, ref);
    var next := WithRef(refs, ref);
    forall name
      ensures (name in seen <==> PlaceOf(next, name) < |next|) && (name in seen ==> seen[name] == PlaceOf(next, name))
    {
      assert PlaceOf(next, name) == PlaceOf(refs, name);
    }
  }

  lemma {:induction false} PlacesAdded(seen: map<string, nat>, refs: seq<Ref>, ref: Ref)
    requires Places(seen, refs) && ToLower(ref.alias) !in seen
    ensures WithRef(refs, ref) == refs + [ref]
    ensures Places(seen[ToLower(ref.alias) := |refs|], WithRef(refs, ref))
  {
    assert PlaceOf(refs, ToLower(ref.alias)) == |refs|;
    AddedPlaces(refs, ref);
    var next := seen[ToLower(ref.alias) := |refs|];
    forall name ensures
      (name in next <==> PlaceOf(refs + [ref], name) < |refs| + 1) &&
      (name in next ==> next[name] == PlaceOf(refs + [ref], name))
    {
      assert PlaceOf(refs, name) <= |refs|;
    }
  }

  lemma {:induction false} PlaceIs(refs: seq<Ref>, name: string, i: nat)
    requires i < |refs| && ToLower(refs[i].alias) == name && forall k :: 0 <= k < i ==> ToLower(refs[k].alias) != name
    ensures PlaceOf(refs, name) == i
  {
  }

  lemma {:induction false} FilledPlaces(refs: seq<Ref>, i: nat, ref: Ref)
    requires i < |refs|
    ensures forall name :: PlaceOf(refs[i := Filled(refs[i], ref)], name) == PlaceOf(refs, name)
  {
    var next := refs[i := Filled(refs[i], ref)];
    forall name ensures PlaceOf(next, name) == PlaceOf(refs, name) {
      var p, q := PlaceOf(refs, name), PlaceOf(next, name);
      assert forall k :: 0 <= k < |refs| ==> next[k].alias == refs[k].alias;
      if p < |refs| { PlaceIs(next, name, p); }
    }
  }

  function PlaceThen(refs: seq<Ref>, ref: Ref, name: string): nat {
    if name == ToLower(ref.alias) then |refs|
    else if PlaceOf(refs, name) < |refs| then PlaceOf(refs, name)
    else |refs| + 1
  }

  lemma {:induction false} AddedPlaces(refs: seq<Ref>, ref: Ref)
    requires PlaceOf(refs, ToLower(ref.alias)) == |refs|
    ensures forall name :: PlaceOf(refs + [ref], name) == PlaceThen(refs, ref, name)
  {
    var next := refs + [ref];
    forall name ensures PlaceOf(next, name) == PlaceThen(refs, ref, name) {
      var p := PlaceOf(refs, name);
      if p < |refs| { PlaceIs(next, name, p); }
      else if name == ToLower(ref.alias) { PlaceIs(next, name, |refs|); }
    }
  }

  /** Migration and normalisation of one key, as every save runs them. */
  method SaveKey(table: Table, refs: seq<Ref>, models: seq<Rule>) returns (r: Option<(Table, seq<Ref>)>)
    ensures r == Saved(table, refs, models)
  {
    var next, reconciled := MigrateModelsToAliases(table, refs, models);
    if !Targeted(next) {
      return None;
    }
    var healed := HealRefs(reconciled, next);
    return if healed.None? then None else Some((next, healed.value));
  }

  lemma {:induction false} NamesNext(models: seq<Rule>, i: nat)
    requires i < |models|
    ensures Names(models[..i + 1]) == Names(models[..i]) + {ToLower(models[i].alias)}
  {
    var a, b := models[..i + 1], models[..i];
    assert a == b + [models[i]];
    forall x | x in Names(b) + {ToLower(models[i].alias)} ensures x in Names(a) {
      if x in Names(b) {
        var j :| 0 <= j < |b| && x == ToLower(b[j].alias);
        assert a[j] == b[j];
      } else {
        assert a[i] == models[i];
      }
    }
  }

  lemma {:induction false} RefNamesPlus(refs: seq<Ref>, ref: Ref)
    ensures RefNames(refs + [ref]) == RefNames(refs) + {ToLower(ref.alias)}
  {
    var all := refs + [ref];
    forall x | x in RefNames(refs) + {ToLower(ref.alias)} ensures x in RefNames(all) {
      if x in RefNames(refs) {
        var j :| 0 <= j < |refs| && x == ToLower(refs[j].alias);
        assert all[j] == refs[j];
      } else {
        assert all[|refs|] == ref;
      }
    }
  }

  // -------------------------------------------------------------------------------- nothing is lost

  lemma {:induction false} MigratedHolds(table: Table, models: seq<Rule>, i: nat)
    requires Keyed(table) && i < |models|
    ensures Keyed(Migrated(table, models))
    ensures ToLower(models[i].alias) in Migrated(table, models)
    ensures Holds(Migrated(table, models)[ToLower(models[i].alias)].targets, models[i].target)
  {
    var front, last := models[..|models| - 1], models[|models| - 1];
    MigratedKeyed(table, front);
    var before := Migrated(table, front);
    if i < |front| {
      MigratedHolds(table, front, i);
      assert front[i] == models[i];
      MovedHolds(before, last, ToLower(models[i].alias), models[i].target);
    } else {
      MovedTakes(before, last);
    }
  }

  lemma {:induction false} MigratedKeyed(table: Table, models: seq<Rule>)
    requires Keyed(table)
    ensures Keyed(Migrated(table, models))
  {
    if models != [] { MigratedKeyed(table, models[..|models| - 1]); }
  }

  /** Moving a rule keeps every target there is. */
  lemma {:induction false} MovedHolds(table: Table, m: Rule, k: string, t: Target)
    requires k in table && Holds(table[k].targets, t)
    ensures k in Moved(table, m) && Holds(Moved(table, m)[k].targets, t)
  {
    var i :| 0 <= i < |table[k].targets| && Same(table[k].targets[i], t);
    assert Moved(table, m)[k].targets[i] == table[k].targets[i];
  }

  lemma {:induction false} MovedTakes(table: Table, m: Rule)
    ensures ToLower(m.alias) in Moved(table, m) && Holds(Moved(table, m)[ToLower(m.alias)].targets, m.target)
  {
    var targets := Moved(table, m)[ToLower(m.alias)].targets;
    if !(ToLower(m.alias) in table && Holds(table[ToLower(m.alias)].targets, m.target)) {
      assert targets[|targets| - 1] == m.target;
    }
  }

  lemma {:induction false} ExtendedHas(refs: seq<Ref>, models: seq<Rule>)
    ensures RefNames(refs) <= RefNames(Extended(refs, models))
    ensures forall i :: 0 <= i < |models| ==> ToLower(models[i].alias) in RefNames(Extended(refs, models))
  {
    if models != [] {
      var front, last := models[..|models| - 1], models[|models| - 1];
      ExtendedHas(refs, front);
      RefNamesPlus(Extended(refs, front), Ref(last.alias, map[]));
      assert forall i :: 0 <= i < |front| ==> front[i] == models[i];
    }
  }

  /** Some expanded rule has the name and, but for case, the target. */
  predicate Offers(rules: seq<Rule>, name: string, t: Target) {
    exists j :: 0 <= j < |rules| && ToLower(rules[j].alias) == name && Same(rules[j].target, t)
  }

  lemma {:induction false} ExpandedOffers(table: Table, refs: seq<Ref>, name: string, t: Target)
    requires Keyed(table) && name in RefNames(refs) && name in table && Holds(table[name].targets, t)
    ensures Offers(Expanded(table, refs), name, t)
  {
    hide Same, RulesOf;
    var front, last := refs[..|refs| - 1], refs[|refs| - 1];
    var before := Expanded(table, front);
    if name in RefNames(front) {
      ExpandedOffers(table, front, name, t);
      var j :| 0 <= j < |before| && ToLower(before[j].alias) == name && Same(before[j].target, t);
      assert Expanded(table, refs)[j] == before[j];
    } else {
      assert refs == front + [last];
      RefNamesPlus(front, last);
      var i :| 0 <= i < |table[name].targets| && Same(table[name].targets[i], t);
      assert Expanded(table, refs)[|before| + i] == RulesOf(table, last)[i];
    }
  }

  /** Whatever list of rules is saved, expanding the key afterwards offers every one of its alias and target pairs. */
  lemma {:induction false} NoTargetLost(table: Table, refs: seq<Ref>, models: seq<Rule>, i: nat)
    requires Keyed(table) && Targeted(table) && i < |models|
    ensures
      var saved := Saved(table, refs, models);
      && saved.Some? && Keyed(saved.value.0)
      && Offers(Expanded(saved.value.0, saved.value.1), ToLower(models[i].alias), models[i].target)
  {
    MigratedHolds(table, models, i);
    MigratedTargeted(table, models);
    ReconciledKnown(table, refs, models);
    HealedAlready(Reconciled(refs, models));
    ExtendedHas(Kept(refs, Names(models)), models);
    ExpandedOffers(Migrated(table, models), Reconciled(refs, models), ToLower(models[i].alias), models[i].target);
  }

  lemma {:induction false} MigratedTargeted(table: Table, models: seq<Rule>)
    requires Targeted(table)
    ensures Targeted(Migrated(table, models)) && table.Keys <= Migrated(table, models).Keys
    ensures forall i :: 0 <= i < |models| ==> ToLower(models[i].alias) in Migrated(table, models)
  {
    if models != [] {
      var front := models[..|models| - 1];
      MigratedTargeted(table, front);
      assert forall i :: 0 <= i < |front| ==> front[i] == models[i];
    }
  }

  /** Reconciled references name each alias once, and only aliases of the rules. */
  lemma {:induction false} ReconciledKnown(table: Table, refs: seq<Ref>, models: seq<Rule>)
    requires Targeted(table)
    ensures NamedOnce(Reconciled(refs, models)) && AllKnown(Migrated(table, models), Reconciled(refs, models))
  {
    MigratedTargeted(table, models);
    KeptOnce(refs, Names(models));
    ExtendedOnce(Kept(refs, Names(models)), models);
    KeptNames(refs, Names(models));
    var reconciled := Reconciled(refs, models);
    forall i | 0 <= i < |reconciled| ensures ToLower(reconciled[i].alias) in Migrated(table, models) {
      assert ToLower(reconciled[i].alias) in RefNames(reconciled);
    }
  }

  lemma {:induction false} KeptOnce(refs: seq<Ref>, wanted: set<string>)
    ensures NamedOnce(Kept(refs, wanted))
  {
    if refs != [] {
      KeptOnce(refs[..|refs| - 1], wanted);
      OnceMore(Kept(refs[..|refs| - 1], wanted), refs[|refs| - 1]);
    }
  }

  lemma {:induction false} OnceMore(refs: seq<Ref>, ref: Ref)
    requires NamedOnce(refs)
    ensures ToLower(ref.alias) !in RefNames(refs) ==> NamedOnce(refs + [ref])
  {
    assert forall i :: 0 <= i < |refs| ==> ToLower(refs[i].alias) in RefNames(refs);
  }

  lemma {:induction false} ExtendedOnce(refs: seq<Ref>, models: seq<Rule>)
    requires NamedOnce(refs)
    ensures NamedOnce(Extended(refs, models)) && RefNames(Extended(refs, models)) == RefNames(refs) + Names(models)
  {
    if models == [] {
      assert Names(models) == {};
    } else {
      var front, last := models[..|models| - 1], models[|models| - 1];
      ExtendedOnce(refs, front);
      OnceMore(Extended(refs, front), Ref(last.alias, map[]));
      RefNamesPlus(Extended(refs, front), Ref(last.alias, map[]));
      NamesConcat(front, [last]);
      assert models == front + [last] && Names([last]) == {ToLower(last.alias)} by { OneName(last); }
    }
  }

  lemma {:induction false} OneName(m: Rule)
    ensures Names([m]) == {ToLower(m.alias)}
  {
    assert [m][0] == m;
  }

  lemma {:induction false} HealedAlready(refs: seq<Ref>)
    requires NamedOnce(refs)
    ensures Healed(refs) == refs
  {
    if refs != [] {
      var front, last := refs[..|refs| - 1], refs[|refs| - 1];
      OnceFront(refs);
      HealedAlready(front);
      assert WithRef(front, last) == front + [last] == refs;
    }
  }

  lemma {:induction false} OnceFront(refs: seq<Ref>)
    requires NamedOnce(refs) && refs != []
    ensures
      var front := refs[..|refs| - 1];
      NamedOnce(front) && PlaceOf(front, ToLower(refs[|refs| - 1].alias)) == |front|
  {
    var front, last := refs[..|refs| - 1], |refs| - 1;
    assert forall k :: 0 <= k < last ==> ToLower(front[k].alias) != ToLower(refs[last].alias);
  }

  // ---- what healing keeps

  lemma {:induction false} HealedOnce(refs: seq<Ref>)
    ensures NamedOnce(Healed(refs)) && RefNames(Healed(refs)) == RefNames(refs)
  {
    if refs == [] {
    } else {
      var front, last := refs[..|refs| - 1], refs[|refs| - 1];
      HealedOnce(front);
      WithRefOnce(Healed(front), last);
      assert refs == front + [last];
      RefNamesPlus(front, last);
    }
  }

  lemma {:induction false} WithRefOnce(refs: seq<Ref>, ref: Ref)
    requires NamedOnce(refs)
    ensures NamedOnce(WithRef(refs, ref)) && RefNames(WithRef(refs, ref)) == RefNames(refs) + {ToLower(ref.alias)}
  {
    var i := PlaceOf(refs, ToLower(ref.alias));
    var next := WithRef(refs, ref);
    if i < |refs| {
      forall x ensures x in RefNames(next) <==> x in RefNames(refs) {
        if k :| 0 <= k < |refs| && ToLower(refs[k].alias) == x { assert ToLower(next[k].alias) == x; }
        if k :| 0 <= k < |next| && ToLower(next[k].alias) == x { assert ToLower(refs[k].alias) == x; }
      }
    } else {
      RefNamesPlus(refs, ref);
    }
  }

  /** The price that the first reference to override it gives. */
  function FirstPrice(refs: seq<Ref>, name: string, price: nat): Option<int> {
    if refs == [] then None
    else
      var earlier, last := FirstPrice(refs[..|refs| - 1], name, price), refs[|refs| - 1];
      if earlier.Some? then earlier
      else if ToLower(last.alias) == name && price in last.overrides then Some(last.overrides[price]) else None
  }

  function PriceOf(refs: seq<Ref>, name: string, price: nat): Option<int> {
    var i := PlaceOf(refs, name);
    if i < |refs| && price in refs[i].overrides then Some(refs[i].overrides[price]) else None
  }

  /** Healing loses no override: each alias ends with the first one given for every price. */
  lemma {:induction false} HealedPrices(refs: seq<Ref>, name: string, price: nat)
    ensures PriceOf(Healed(refs), name, price) == FirstPrice(refs, name, price)
  {
    if refs != [] {
      var front, last := refs[..|refs| - 1], refs[|refs| - 1];
      HealedPrices(front, name, price);
      var i := PlaceOf(Healed(front), ToLower(last.alias));
      if i < |Healed(front)| { FilledPlaces(Healed(front), i, last); } else { AddedPlaces(Healed(front), last); }
    }
  }

  // ------------------------------------------------------------------------------------- round trip

  /** Rules taken from the table, as they stand in it. */
  predicate Derived(table: Table, models: seq<Rule>) {
    forall j :: 0 <= j < |models| ==>
      var k := ToLower(models[j].alias);
      k in table && models[j].target in table[k].targets
  }

  lemma {:induction false} ExpandedDerived(table: Table, refs: seq<Ref>)
    requires Keyed(table)
    ensures Derived(table, Expanded(table, refs))
  {
    if refs != [] { ExpandedDerived(table, refs[..|refs| - 1]); }
  }

  lemma {:induction false} DerivedMigrates(table: Table, models: seq<Rule>)
    requires Derived(table, models)
    ensures Migrated(table, models) == table
  {
    if models != [] {
      var front, last := models[..|models| - 1], models[|models| - 1];
      assert forall j :: 0 <= j < |front| ==> front[j] == models[j];
      DerivedMigrates(table, front);
      var k := ToLower(last.alias);
      var i :| 0 <= i < |table[k].targets| && table[k].targets[i] == last.target;
      assert Same(table[k].targets[i], last.target);
    }
  }

  predicate Usable(table: Table, ref: Ref) {
    ToLower(ref.alias) in table && table[ToLower(ref.alias)].targets != []
  }

  lemma {:induction false} ExpandedNames(table: Table, refs: seq<Ref>)
    requires Keyed(table)
    ensures forall i :: 0 <= i < |refs| && Usable(table, refs[i]) ==>
              ToLower(refs[i].alias) in Names(Expanded(table, refs))
    ensures forall name :: name in Names(Expanded(table, refs)) ==>
              name in RefNames(refs) && name in table && table[name].targets != []
  {
    if refs != [] {
      var front, last := refs[..|refs| - 1], refs[|refs| - 1];
      ExpandedNames(table, front);
      var before, rules := Expanded(table, front), RulesOf(table, last);
      assert refs == front + [last];
      RefNamesPlus(front, last);
      NamesConcat(before, rules);
      if Usable(table, last) { assert rules[0].alias == table[ToLower(last.alias)].alias; }
      assert forall i :: 0 <= i < |front| ==> front[i] == refs[i];
    }
  }

  lemma {:induction false} NamesConcat(a: seq<Rule>, b: seq<Rule>)
    ensures Names(a + b) == Names(a) + Names(b)
  {
    var all := a + b;
    forall x | x in Names(a) + Names(b) ensures x in Names(all) {
      if x in Names(a) {
        var j :| 0 <= j < |a| && x == ToLower(a[j].alias);
        assert all[j] == a[j];
      } else {
        var j :| 0 <= j < |b| && x == ToLower(b[j].alias);
        assert all[|a| + j] == b[j];
      }
    }
  }

  lemma {:induction false} KeptNames(refs: seq<Ref>, wanted: set<string>)
    ensures RefNames(Kept(refs, wanted)) == RefNames(refs) * wanted
  {
    if refs != [] {
      var front, last := refs[..|refs| - 1], refs[|refs| - 1];
      KeptNames(front, wanted);
      assert refs == front + [last];
      RefNamesPlus(front, last);
      RefNamesPlus(Kept(front, wanted), last);
    }
  }

  lemma {:induction false} NothingToExtend(refs: seq<Ref>, models: seq<Rule>)
    requires forall j :: 0 <= j < |models| ==> ToLower(models[j].alias) in RefNames(refs)
    ensures Extended(refs, models) == refs
  {
    if models != [] {
      assert forall j :: 0 <= j < |models| - 1 ==> models[..|models| - 1][j] == models[j];
      NothingToExtend(refs, models[..|models| - 1]);
    }
  }

  predicate NamedOnce(refs: seq<Ref>) {
    forall i, j :: 0 <= i < j < |refs| ==> ToLower(refs[i].alias) != ToLower(refs[j].alias)
  }

  lemma {:induction false} KeptAll(refs: seq<Ref>, wanted: set<string>)
    ensures |Kept(refs, wanted)| <= |refs|
    ensures Kept(refs, wanted) == refs <==>
              NamedOnce(refs) && forall i :: 0 <= i < |refs| ==> ToLower(refs[i].alias) in wanted
  {
    if refs != [] {
      var front, last := refs[..|refs| - 1], refs[|refs| - 1];
      KeptAll(front, wanted);
      assert refs == front + [last];
      assert forall i :: 0 <= i < |front| ==> front[i] == refs[i];
      assert Kept(refs, wanted) == refs <==>
        Kept(front, wanted) == front && ToLower(last.alias) in wanted && ToLower(last.alias) !in RefNames(front);
      assert ToLower(last.alias) in RefNames(front) <==>
        exists i :: 0 <= i < |front| && ToLower(front[i].alias) == ToLower(last.alias);
    }
  }

  /**
   Saving a key with the rules its own references expand to leaves table and references exactly as they
   are, overrides included, if and only if the references name each alias once and all of them are known.
   */
  lemma {:induction false} RoundTrip(table: Table, refs: seq<Ref>)
    requires Keyed(table) && Targeted(table)
    ensures Saved(table, refs, Expanded(table, refs)) == Some((table, refs)) <==>
              NamedOnce(refs) && AllKnown(table, refs)
  {
    var models := Expanded(table, refs);
    ExpandedNames(table, refs);
    if models == [] {
      assert Names(models) == {};
      assert refs != [] ==> !Usable(table, refs[0]);
    } else {
      ReconcilesExactly(table, refs);
    }
  }

  lemma {:induction false} ReconcilesExactly(table: Table, refs: seq<Ref>)
    requires Keyed(table) && Targeted(table) && Expanded(table, refs) != []
    ensures Saved(table, refs, Expanded(table, refs)) == Some((table, refs)) <==>
              NamedOnce(refs) && AllKnown(table, refs)
  {
    var models := Expanded(table, refs);
    var names := Names(models);
    ExpandedDerived(table, refs);
    DerivedMigrates(table, models);
    ExpandedNames(table, refs);
    KeptNames(refs, names);
    NothingToExtend(Kept(refs, names), models);
    KeptAll(refs, names);
    ReconciledKnown(table, refs, models);
    HealedAlready(Reconciled(refs, models));
    assert Saved(table, refs, models) == Some((table, Kept(refs, names)));
    assert forall i :: 0 <= i < |refs| ==> (Usable(table, refs[i]) <==> ToLower(refs[i].alias) in table);
    assert forall i :: 0 <= i < |refs| ==> ToLower(refs[i].alias) in RefNames(refs);
  }

  /** So every key that was ever saved goes through the round trip unchanged. */
  lemma {:induction false} SavedRoundTrips(table: Table, refs: seq<Ref>, models: seq<Rule>)
    requires Keyed(table) && Targeted(table) && Saved(table, refs, models).Some?
    ensures
      var (next, stored) := Saved(table, refs, models).value;
      Saved(next, stored, Expanded(next, stored)) == Some((next, stored))
  {
    var (next, reconciled) := MigratedKey(table, refs, models);
    MigratedKeyed(table, models);
    HealedOnce(reconciled);
    var stored := Healed(reconciled);
    forall i | 0 <= i < |stored| ensures ToLower(stored[i].alias) in next {
      assert ToLower(stored[i].alias) in RefNames(stored);
    }
    RoundTrip(next, stored);
  }

  // ---------------------------------------------------------------------- what expanded rules carry

  /** The rule for one target of the alias that a reference names, each price the reference's if it overrides it. */
  ghost predicate RuleFor(table: Table, ref: Ref, r: Rule) {
    && ToLower(ref.alias) in table
    && var a := table[ToLower(ref.alias)];
       && r.alias == a.alias && r.target in a.targets && r.terms.billing == a.terms.billing
       && |r.terms.prices| == |a.terms.prices|
       && (forall p :: 0 <= p < |r.terms.prices| && p in ref.overrides ==> r.terms.prices[p] == ref.overrides[p])
       && (forall p :: 0 <= p < |r.terms.prices| && p !in ref.overrides ==> r.terms.prices[p] == a.terms.prices[p])
  }

  lemma {:induction false} RulesOfExactly(table: Table, ref: Ref)
    ensures forall r :: r in RulesOf(table, ref) <==> RuleFor(table, ref, r)
  {
    if ToLower(ref.alias) in table {
      var a := table[ToLower(ref.alias)];
      var terms := Overridden(a.terms, ref.overrides);
      forall r ensures r in RulesOf(table, ref) <==> RuleFor(table, ref, r) {
        assert RuleFor(table, ref, r) ==> r.terms.prices == terms.prices;
        if RuleFor(table, ref, r) {
          var i :| 0 <= i < |a.targets| && a.targets[i] == r.target;
          assert RulesOf(table, ref)[i] == r;
        }
      }
    }
  }

  function TargetCount(table: Table, refs: seq<Ref>): nat {
    if refs == [] then 0
    else
      var name := ToLower(refs[|refs| - 1].alias);
      TargetCount(table, refs[..|refs| - 1]) + if name in table then |table[name].targets| else 0
  }

  /** Expanding a key gives exactly those rules of its references, one for each target. */
  lemma {:induction false} ExpandedExactly(table: Table, refs: seq<Ref>)
    ensures forall r :: r in Expanded(table, refs) <==> exists ref :: ref in refs && RuleFor(table, ref, r)
    ensures |Expanded(table, refs)| == TargetCount(table, refs)
  {
    if refs != [] {
      var front, last := refs[..|refs| - 1], refs[|refs| - 1];
      ExpandedExactly(table, front);
      RulesOfExactly(table, last);
      hide RuleFor, RulesOf;
      assert refs == front + [last];
    }
  }

  // ----------------------------------------------------------------------- what moved rules leave

  /** The rules for a name, in order. */
  function RulesFor(models: seq<Rule>, name: string): (r: seq<Rule>)
    ensures r != [] <==> exists i :: 0 <= i < |models| && ToLower(models[i].alias) == name
  {
    if models == [] then []
    else
      var front, last := RulesFor(models[..|models| - 1], name), models[|models| - 1];
      if ToLower(last.alias) == name then front + [last] else front
  }

  function Collected(base: seq<Target>, rules: seq<Rule>): seq<Target> {
    if rules == [] then base else WithTarget(Collected(base, rules[..|rules| - 1]), rules[|rules| - 1].target)
  }

  /**
   The table after rules were moved to it: a known alias keeps name and terms and collects the targets of its rules,
   an unknown one has name and terms of the first rule for it, and nothing else changes.
   */
  lemma {:induction false} MigratedExactly(table: Table, models: seq<Rule>, name: string)
    ensures
      var after, rules := Migrated(table, models), RulesFor(models, name);
      && (name in after <==> name in table || rules != [])
      && (name in table ==> after[name] == table[name].(targets := Collected(table[name].targets, rules)))
      && (name !in table && rules != [] ==>
            after[name] == Mapping(rules[0].alias, Collected([], rules), rules[0].terms))
  {
    if models != [] {
      var front, last := models[..|models| - 1], models[|models| - 1];
      MigratedExactly(table, front, name);
      if ToLower(last.alias) == name {
        CollectedNext(if name in table then table[name].targets else [], RulesFor(front, name), last);
      }
    }
  }

  lemma {:induction false} CollectedNext(base: seq<Target>, rules: seq<Rule>, last: Rule)
    ensures Collected(base, rules + [last]) == WithTarget(Collected(base, rules), last.target)
    ensures Collected([], [last]) == [last.target]
  {
    assert (rules + [last])[..|rules|] == rules && [last][..0] == [];
  }

  /** Those past the base: none is there before but for letter case, and each is a rule's. */
  ghost predicate New(after: seq<Target>, base: nat, rules: seq<Rule>) {
    && (forall j :: base <= j < |after| ==> !Holds(after[..j], after[j]))
    && (forall j :: base <= j < |after| ==> exists r :: r in rules && r.target == after[j])
  }

  /** Targets from before stay in place; each rule's is there but for letter case; what was added is the first such. */
  lemma {:induction false} CollectedExactly(base: seq<Target>, rules: seq<Rule>)
    ensures base <= Collected(base, rules) && New(Collected(base, rules), |base|, rules)
    ensures forall r :: r in rules ==> Holds(Collected(base, rules), r.target)
  {
    if rules != [] {
      var front, last := rules[..|rules| - 1], rules[|rules| - 1];
      var before, after := Collected(base, front), Collected(base, rules);
      CollectedExactly(base, front);
      assert rules == front + [last] && after == WithTarget(before, last.target) && before <= after;
      hide *;
      forall r | r in rules ensures Holds(after, r.target) {
        if r in front { HoldsMore(before, after, r.target); } else { WithTargetHolds(before, r.target); }
      }
      NewNext(before, |base|, front, last);
    }
  }

  lemma {:induction false} NewNext(before: seq<Target>, base: nat, rules: seq<Rule>, last: Rule)
    requires base <= |before| && New(before, base, rules)
    ensures New(WithTarget(before, last.target), base, rules + [last])
  {
    var after, all := WithTarget(before, last.target), rules + [last];
    assert Holds(before, last.target) || after == before + [last.target];
    hide Holds, Same, WithTarget;
    forall j | base <= j < |after|
      ensures !Holds(after[..j], after[j])
      ensures exists r :: r in all && r.target == after[j]
    {
      if j < |before| {
        assert after[..j] == before[..j] && after[j] == before[j];
        var r :| r in rules && r.target == before[j];
        assert r in all;
      } else {
        assert after[..j] == before && last in all;
      }
    }
  }

  lemma {:induction false} WithTargetHolds(targets: seq<Target>, t: Target)
    ensures Holds(WithTarget(targets, t), t)
  {
    assert !Holds(targets, t) ==> WithTarget(targets, t)[|targets|] == t;
  }

  lemma {:induction false} HoldsMore(before: seq<Target>, after: seq<Target>, t: Target)
    requires before <= after && Holds(before, t)
    ensures Holds(after, t)
  {
    var i :| 0 <= i < |before| && Same(before[i], t);
    assert after[i] == before[i];
  }

  /** The references to a name, in order. */
  function RefsFor(refs: seq<Ref>, name: string): (r: seq<Ref>)
    ensures r != [] <==> name in RefNames(refs)
  {
    if refs == [] then []
    else
      var front, last := RefsFor(refs[..|refs| - 1], name), refs[|refs| - 1];
      assert refs == refs[..|refs| - 1] + [last];
      RefNamesPlus(refs[..|refs| - 1], last);
      if ToLower(last.alias) == name then front + [last] else front
  }

  lemma {:induction false} RefsForNext(refs: seq<Ref>, ref: Ref, name: string)
    ensures RefsFor(refs + [ref], name) ==
            if ToLower(ref.alias) == name then RefsFor(refs, name) + [ref] else RefsFor(refs, name)
  {
    assert (refs + [ref])[..|refs|] == refs;
  }

  lemma {:induction false} KeptExactly(refs: seq<Ref>, wanted: set<string>, name: string)
    ensures RefsFor(Kept(refs, wanted), name) ==
            if name in wanted && RefsFor(refs, name) != [] then [RefsFor(refs, name)[0]] else []
  {
    if refs != [] {
      var front, last := Kept(refs[..|refs| - 1], wanted), refs[|refs| - 1];
      KeptExactly(refs[..|refs| - 1], wanted, name);
      RefsForNext(front, last, name);
      hide RefNames;
    }
  }

  lemma {:induction false} ExtendedExactly(refs: seq<Ref>, models: seq<Rule>, name: string)
    ensures RefsFor(Extended(refs, models), name) ==
            if RefsFor(refs, name) != [] || RulesFor(models, name) == [] then RefsFor(refs, name)
            else [Ref(RulesFor(models, name)[0].alias, map[])]
  {
    if models != [] {
      var front, last := models[..|models| - 1], models[|models| - 1];
      ExtendedExactly(refs, front, name);
      RefsForNext(Extended(refs, front), Ref(last.alias, map[]), name);
      hide RefNames;
    }
  }

  /**
   A key whose rules were moved refers once to each alias of its rules and to no other: with its first reference to
   the alias, overrides and all, if it had one, and else without overrides under the name in the first rule.
   */
  lemma {:induction false} ReconciledExactly(refs: seq<Ref>, models: seq<Rule>, name: string)
    ensures
      var before, rules := RefsFor(refs, name), RulesFor(models, name);
      RefsFor(Reconciled(refs, models), name) ==
        if rules == [] then [] else if before != [] then [before[0]] else [Ref(rules[0].alias, map[])]
  {
    KeptExactly(refs, Names(models), name);
    ExtendedExactly(Kept(refs, Names(models)), models, name);
    hide Kept, Extended, RefsFor, RefNames;
  }

  /** A save with an empty list of rules drops no reference. */
  lemma {:induction false} EmptyListKeepsReferences(table: Table, refs: seq<Ref>)
    requires Saved(table, refs, []).Some?
    ensures Saved(table, refs, []).value.0 == table
    ensures RefNames(Saved(table, refs, []).value.1) == RefNames(refs)
  {
    HealedOnce(refs);
  }
}
