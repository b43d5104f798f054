/** Native key bindings: which credentials a caller scope may use, and its other policy fields. */
module Bindings {
  import opened Options

  /** A caller scope stands for the digest of one API key; 0 is the empty scope of a blank key. */
  type Scope = nat
  const NO_SCOPE: Scope := 0

  /** Instants; 0 is the zero time. */
  type Time = nat
  const NEVER: Time := 0

  /** A group is either a built-in tier name or a classify group, prefix removed. */
  datatype Group = Tier(name: string) | Classify(suffix: string)

  /** Auth-ID lists are carried in normal form (module AuthIDs). */
  datatype Restriction = ByGroup(group: Group) | ByAuths(ids: seq<string>)

  /** IDs typed by an operator, and the digest-based IDs that batches derive from a scope. */
  datatype BindingID = Typed(text: string) | ForScope(scope: Scope)

  /** Display text: typed, or derived from the key behind a scope. */
  datatype Label = Text(text: string) | KeyName(scope: Scope) | KeyPreview(scope: Scope)

  /** One provider and model pair of an allow-list. */
  datatype Allowed = Allowed(provider: string, model: string)

  /** The stored policy. The indexes that answer requests are functions of it (module ModelAccess). */
  datatype ModelPolicy = AllModels | OnlyModels(models: seq<Allowed>)

  datatype Settings = Settings(
    name: Label, enabled: bool, roundRobin: bool, keyPreview: Label,
    modelAccess: ModelPolicy, rpm: nat, dailyUSD: nat, weeklyUSD: nat)

  datatype Binding = Binding(
    id: BindingID, scope: Scope, settings: Settings, restriction: Restriction,
    createdAt: Time, updatedAt: Time)

  /** Live bindings by scope; the second index, by ID, is determined by this one. */
  type Bindings = map<Scope, Binding>

  function Get(live: Bindings, scope: Scope): Option<Binding> {
    if scope in live then Some(live[scope]) else None
  }

  function RestrictionOf(binding: Option<Binding>): Option<Restriction> {
    if binding.Some? then Some(binding.value.restriction) else None
  }

  /** The digest of everything except the update time. Distinct contents have distinct digests. */
  function Fingerprint(binding: Option<Binding>): Option<Binding> {
    if binding.Some? then Some(binding.value.(updatedAt := NEVER)) else None
  }

  const NO_RESTRICTION := ByGroup(Tier(""))

  /** The digest of everything except the update time and the restriction. */
  function PolicyFingerprint(binding: Binding): Binding {
    binding.(updatedAt := NEVER, restriction := NO_RESTRICTION)
  }

  /** Restrictions that survive normalisation. */
  predicate Acceptable(restriction: Restriction) {
    match restriction
    case ByGroup(Tier(name)) => name != ""
    case ByGroup(Classify(suffix)) => suffix != ""
    case ByAuths(ids) => ids != []
  }

  /** Each binding sits under its own scope and passes normalisation. */
  predicate Keyed(live: Bindings) {
    forall s :: s in live ==> s != NO_SCOPE && live[s].scope == s && Acceptable(live[s].restriction)
  }

  predicate UniqueIDs(live: Bindings) {
    forall s, t :: s in live && t in live && live[s].id == live[t].id ==> s == t
  }

  predicate Dated(live: Bindings) {
    forall s :: s in live ==> live[s].createdAt != NEVER
  }

  predicate WellFormed(live: Bindings) {
    Keyed(live) && UniqueIDs(live) && Dated(live)
  }

  /** Equal in everything but update times. */
  ghost predicate Alike(left: Bindings, right: Bindings) {
    forall s {:trigger Get(left, s)} {:trigger Get(right, s)} :: Fingerprint(Get(left, s)) == Fingerprint(Get(right, s))
  }
}
