/** Which provider and model pairs a binding authorises. */
module ModelAccess {
  import opened Options
  import opened Bindings
  import opened Text

  /** Position of the last c in s, or -1. */
  function LastIndex(s: string, c: char): (i: int)
    ensures -1 <= i < |s|
    ensures i >= 0 ==> s[i] == c
    ensures forall k :: i < k < |s| ==> s[k] != c
  {
    if s == "" then -1
    else if s[|s| - 1] == c then |s| - 1
    else LastIndex(s[..|s| - 1], c)
  }

  /** Lower case, trimmed, and without one trailing suffix in parentheses, provided something is left on both sides. */
  function CanonicalModel(raw: string): string {
    var model := ToLower(Trim(raw));
    if model == "" || model[|model| - 1] != ')' then model
    else
      var open := LastIndex(model, '(');
      if open <= 0 || Trim(model[open + 1..|model| - 1]) == "" then model
      else
        var base := Trim(model[..open]);
        if base == "" then model else base
  }

  const CHANNEL := "openai-compatible-"

  function CanonicalProvider(raw: string): string {
    var provider := ToLower(Trim(raw));
    if CHANNEL <= provider then provider[|CHANNEL|..] else provider
  }

  /** The index key; it canonicalises its arguments, which usually are canonical already. */
  function ModelKey(provider: string, model: string): string {
    CanonicalProvider(provider) + "\0" + CanonicalModel(model)
  }

  /** A stored list and the two indexes that answer requests. */
  datatype Access = Access(all: bool, models: seq<Allowed>, index: set<string>, anyProvider: set<string>)

  const OPEN := Access(true, [], {}, {})
  const CLOSED := Access(false, [], {}, {})

  function Canonical(a: Allowed): Allowed {
    Allowed(CanonicalProvider(a.provider), CanonicalModel(a.model))
  }

  function KeyOf(a: Allowed): string {
    ModelKey(Canonical(a).provider, Canonical(a).model)
  }

  /** An entry in canonical form with its index key. */
  datatype Row = Row(entry: Allowed, key: string)

  function RowOf(a: Allowed): Row {
    Row(Canonical(a), KeyOf(a))
  }

  function Rows(models: seq<Allowed>): (rows: seq<Row>)
    ensures |rows| == |models| && forall i :: 0 <= i < |models| ==> rows[i] == RowOf(models[i])
  {
    seq(|models|, i requires 0 <= i < |models| => RowOf(models[i]))
  }

  predicate Named(row: Row) {
    row.entry.provider != "" && row.entry.model != ""
  }

  predicate AllNamed(rows: seq<Row>) {
    forall i :: 0 <= i < |rows| ==> Named(rows[i])
  }

  /** An entry whose key is already there is dropped, and does not reach the provider-less index either. */
  function WithRow(access: Access, row: Row): Access {
    if row.key in access.index then access
    else Access(false, access.models + [row.entry], access.index + {row.key}, access.anyProvider + {row.entry.model})
  }

  function Built(rows: seq<Row>): Access {
    if rows == [] then CLOSED else WithRow(Built(rows[..|rows| - 1]), rows[|rows| - 1])
  }

  // ------------------------------------------------------------------------ the order of the stored list

  predicate EntryLess(a: Allowed, b: Allowed) {
    if a.provider != b.provider then Less(a.provider, b.provider) else Less(a.model, b.model)
  }

  function InsertEntry(list: seq<Allowed>, a: Allowed): seq<Allowed> {
    if list == [] || !EntryLess(a, list[|list| - 1]) then list + [a]
    else InsertEntry(list[..|list| - 1], a) + [list[|list| - 1]]
  }

  function SortedEntries(list: seq<Allowed>): seq<Allowed> {
    if list == [] then [] else InsertEntry(SortedEntries(list[..|list| - 1]), list[|list| - 1])
  }

  predicate AscendingEntries(list: seq<Allowed>) {
    forall i, j :: 0 <= i < j < |list| ==> !EntryLess(list[j], list[i])
  }

  lemma {:induction false} EntryLessTransitive(a: Allowed, b: Allowed, c: Allowed)
    requires !EntryLess(b, a) && !EntryLess(c, b)
    ensures !EntryLess(c, a)
  {
    if EntryLess(c, a) {
      LessTotal(a.provider, b.provider);
      LessTotal(b.provider, c.provider);
      LessTotal(a.model, b.model);
      LessTotal(b.model, c.model);
      if a.provider == c.provider {
        if a.provider != b.provider {
          LessAsymmetric(a.provider, b.provider);
        } else if a.model == b.model || b.model == c.model {
        } else {
          LessTransitive(a.model, b.model, c.model);
          LessAsymmetric(a.model, c.model);
        }
      } else if a.provider == b.provider || b.provider == c.provider {
      } else {
        LessTransitive(a.provider, b.provider, c.provider);
        LessAsymmetric(a.provider, c.provider);
      }
    }
  }

  lemma {:induction false} EntryLessAsymmetric(a: Allowed, b: Allowed)
    requires EntryLess(a, b)
    ensures !EntryLess(b, a)
  {
    if a.provider != b.provider { LessAsymmetric(a.provider, b.provider); } else { LessAsymmetric(a.model, b.model); }
  }

  lemma {:induction false} InsertEntryCounts(list: seq<Allowed>, a: Allowed)
    ensures multiset(InsertEntry(list, a)) == multiset(list) + multiset{a}
  {
    if list != [] && EntryLess(a, list[|list| - 1]) {
      var front, last := list[..|list| - 1], list[|list| - 1];
      InsertEntryCounts(front, a);
      assert multiset(list) == multiset(front) + multiset{last} by { assert list == front + [last]; }
    }
  }

  lemma {:induction false} InsertEntryAscends(list: seq<Allowed>, a: Allowed)
    requires AscendingEntries(list)
    ensures AscendingEntries(InsertEntry(list, a))
  {
    if list != [] {
      var front, last := list[..|list| - 1], list[|list| - 1];
      if EntryLess(a, last) {
        var next := InsertEntry(front, a);
        InsertEntryAscends(front, a);
        EntryLessAsymmetric(a, last);
        InsertEntryCounts(front, a);
        forall i | 0 <= i < |next| ensures !EntryLess(last, next[i]) {
          assert next[i] in multiset(next);
          assert next[i] == a || next[i] in front;
        }
      } else {
        forall i | 0 <= i < |list| ensures !EntryLess(a, list[i]) {
          if i < |front| { EntryLessTransitive(list[i], last, a); }
        }
      }
    }
  }

  lemma {:induction false} SortedEntriesAscend(list: seq<Allowed>)
    ensures AscendingEntries(SortedEntries(list))
  {
    if list != [] {
      SortedEntriesAscend(list[..|list| - 1]);
      InsertEntryAscends(SortedEntries(list[..|list| - 1]), list[|list| - 1]);
    }
  }

  lemma {:induction false} SortedEntriesCount(list: seq<Allowed>)
    ensures multiset(SortedEntries(list)) == multiset(list)
  {
    if list != [] {
      var front, last := list[..|list| - 1], list[|list| - 1];
      SortedEntriesCount(front);
      InsertEntryCounts(SortedEntries(front), last);
      AppendCounts(front, last);
      assert list == front + [last];
    }
  }

  lemma {:induction false} AppendCounts<T>(front: seq<T>, last: T)
    ensures multiset(front + [last]) == multiset(front) + multiset{last}
  {
  }

  lemma {:induction false} SortedAlready(list: seq<Allowed>)
    requires AscendingEntries(list)
    ensures SortedEntries(list) == list
  {
    if list != [] {
      var front := list[..|list| - 1];
      SortedAlready(front);
      assert list == front + [list[|list| - 1]];
    }
  }

  lemma {:induction false} SortedMembers(list: seq<Allowed>, a: Allowed)
    ensures a in SortedEntries(list) <==> a in list
  {
    SortedEntriesCount(list);
    assert a in multiset(SortedEntries(list)) <==> a in multiset(list);
  }

  /** What a list of typed names normalises to: the first entry of every key, sorted, with the two indexes. */
  function Indexed(rows: seq<Row>): Access {
    Built(rows).(models := SortedEntries(Built(rows).models))
  }

  lemma {:induction false} InsertedAt(list: seq<Allowed>, a: Allowed, i: nat)
    requires i <= |list| && (i > 0 ==> !EntryLess(a, list[i - 1]))
    requires forall k :: i <= k < |list| ==> EntryLess(a, list[k])
    ensures InsertEntry(list, a) == list[..i] + [a] + list[i..]
  {
    if i < |list| {
      var front := list[..|list| - 1];
      InsertedAt(front, a, i);
      assert front[..i] == list[..i] && front[i..] + [list[|list| - 1]] == list[i..];
    } else {
      assert list[..i] == list && list[i..] == [];
    }
  }

  method SortEntries(list: seq<Allowed>) returns (r: seq<Allowed>)
    ensures r == SortedEntries(list)
    ensures AscendingEntries(r) && multiset(r) == multiset(list)
  {
    hide InsertEntry, EntryLess, AscendingEntries;
    r := [];
    for n := 0 to |list|
      invariant r == SortedEntries(list[..n])
    {
      assert list[..n + 1][..n] == list[..n];
      var i := |r|;
      while i > 0 && EntryLess(list[n], r[i - 1])
        invariant 0 <= i <= |r|
        invariant forall k :: i <= k < |r| ==> EntryLess(list[n], r[k])
      {
        i := i - 1;
      }
      InsertedAt(r, list[n], i);
      r := r[..i] + [list[n]] + r[i..];
    }
    assert list[..|list|] == list;
    SortedEntriesAscend(list);
    SortedEntriesCount(list);
  }

  datatype Mode = All | Allowlist | Unknown

  /** No mode means an allow-list if there are entries, and everything if there are none. */
  function ModeOf(raw: string, models: seq<Allowed>): Mode {
    var mode := ToLower(Trim(raw));
    if mode == "" then (if models == [] then All else Allowlist)
    else if mode == "all" then All
    else if mode == "allowlist" then Allowlist
    else Unknown
  }

  lemma {:induction false} BuiltNext(rows: seq<Row>, i: nat)
    requires i < |rows|
    ensures Built(rows[..i + 1]) == WithRow(Built(rows[..i]), rows[i])
    ensures AllNamed(rows[..i + 1]) == (AllNamed(rows[..i]) && Named(rows[i]))
    ensures AllNamed(rows) ==> Named(rows[i])
  {
    assert rows[..i + 1][..i] == rows[..i];
    assert rows[..i + 1] == rows[..i] + [rows[i]];
    if AllNamed(rows[..i + 1]) {
      assert rows[..i + 1][i] == rows[i];
      assert forall k :: 0 <= k < i ==> rows[..i][k] == rows[..i + 1][k];
    }
  }

  lemma {:induction false} NotOpen(rows: seq<Row>)
    ensures !Built(rows).all
  {
    if rows != [] { NotOpen(rows[..|rows| - 1]); }
  }

  method NormalizeNativeModelAccess(rawMode: string, models: seq<Allowed>) returns (r: Option<Access>)
    ensures r == match ModeOf(rawMode, models)
                 case All => Some(OPEN)
                 case Unknown => None
                 case Allowlist => if AllNamed(Rows(models)) then Some(Indexed(Rows(models))) else None
  {
    var mode := ToLower(Trim(rawMode));
    if mode == "" {
      mode := if |models| > 0 then "allowlist" else "all";
    }
    if mode == "all" {
      return Some(OPEN);
    }
    if mode != "allowlist" {
      return None;
    }
    r := IndexModels(models);
  }

  /** Fails at the first entry without a provider or a model. */
  method IndexModels(models: seq<Allowed>) returns (r: Option<Access>)
    ensures r == if AllNamed(Rows(models)) then Some(Indexed(Rows(models))) else None
  {
    var seen: set<string>, anyProvider: set<string>, list: seq<Allowed> := {}, {}, [];
    ghost var rows := Rows(models);
    for i := 0 to |models|
      invariant AllNamed(rows[..i])
      invariant list == Built(rows[..i]).models && seen == Built(rows[..i]).index
      invariant anyProvider == Built(rows[..i]).anyProvider
    {
      var row := RowOf(models[i]);
      assert rows[i] == row;
      BuiltNext(rows, i);
      if row.entry.provider == "" || row.entry.model == "" {
        return None;
      }
      if row.key !in seen {
        seen := seen + {row.key};
        anyProvider := anyProvider + {row.entry.model};
        list := list + [row.entry];
      }
    }
    assert rows[..|models|] == rows;
    NotOpen(rows);
    list := SortEntries(list);
    return Some(Access(false, list, seen, anyProvider));
  }

  function AllowsModel(access: Access, provider: string, model: string): bool {
    if access.all then true
    else
      var m, p := CanonicalModel(model), CanonicalProvider(provider);
      if m == "" then false
      else if p == "" then m in access.anyProvider
      else ModelKey(p, m) in access.index
  }

  // ------------------------------------------------------------------------------- canonical names

  /** Providers share a canonical name just when they agree but for case, outer space and the channel's prefix. */
  lemma {:induction false} ProviderExactly(raw: string, name: string)
    ensures
      var s := ToLower(Trim(raw));
      CanonicalProvider(raw) == name <==>
        s == "openai-compatible-" + name || (s == name && !("openai-compatible-" <= name))
  {
    assert CHANNEL <= ToLower(Trim(raw)) ==>
        ToLower(Trim(raw)) == CHANNEL + ToLower(Trim(raw))[|CHANNEL|..];
  }

  /** The text is a name with a suffix in parentheses, neither of them blank. */
  predicate HasSuffix(s: string, base: string, inner: string) {
    s == base + "(" + inner + ")" && '(' !in inner && Trim(inner) != "" && Trim(base) != ""
  }

  /** A model name loses one such suffix if it has one, and is else only folded and trimmed. */
  lemma {:induction false} ModelExactly(raw: string)
    ensures
      var s := ToLower(Trim(raw));
      && (forall base, inner :: HasSuffix(s, base, inner) ==> CanonicalModel(raw) == Trim(base))
      && ((forall base, inner :: !HasSuffix(s, base, inner)) ==> CanonicalModel(raw) == s)
  {
    hide *;
    var s := ToLower(Trim(raw));
    forall base, inner | HasSuffix(s, base, inner) ensures CanonicalModel(raw) == Trim(base) {
      SuffixGoes(raw, base, inner);
    }
    if CanonicalModel(raw) != s {
      var base, inner := SuffixWas(raw);
    }
  }

  lemma {:induction false} SuffixGoes(raw: string, base: string, inner: string)
    requires HasSuffix(ToLower(Trim(raw)), base, inner)
    ensures CanonicalModel(raw) == Trim(base)
  {
    hide Trim, ToLower, LastIndex;
    SuffixOpens(base, inner);
    var s := ToLower(Trim(raw));
    assert s == Suffixed(base, inner) && s[|s| - 1] == ')';
    assert base != "" by { BlankTrims(base); }
  }

  lemma {:induction false} BlankTrims(s: string)
    ensures s == "" ==> Trim(s) == ""
  {
  }

  lemma {:induction false} SuffixWas(raw: string) returns (base: string, inner: string)
    requires CanonicalModel(raw) != ToLower(Trim(raw))
    ensures HasSuffix(ToLower(Trim(raw)), base, inner)
  {
    hide Trim, ToLower, LastIndex;
    var s := ToLower(Trim(raw));
    var open := LastIndex(s, '(');
    base, inner := s[..open], s[open + 1..|s| - 1];
    assert s == base + "(" + inner + ")";
  }

  /** A missing mode means an allow-list if there are names, and no restriction if there are none. */
  lemma {:induction false} ModeExactly(raw: string, models: seq<Allowed>)
    ensures
      var s, mode := ToLower(Trim(raw)), ModeOf(raw, models);
      && (mode.All? <==> s == "all" || (s == "" && models == []))
      && (mode.Allowlist? <==> s == "allowlist" || (s == "" && models != []))
  {
  }

  // -------------------------------------------------------------------------- index and linear scan

  predicate Plain(s: string) {
    '\0' !in s
  }

  /** The joined key decides both parts when the provider part has no separator. */
  lemma {:induction false} JoinInjective(p: string, m: string, q: string, n: string)
    requires Plain(p) && Plain(q) && p + "\0" + m == q + "\0" + n
    ensures p == q && m == n
  {
    var joined := p + "\0" + m;
    assert joined == q + "\0" + n;
    assert joined[|p|] == '\0' && joined[|q|] == '\0';
    assert forall k :: 0 <= k < |p| ==> joined[k] == p[k];
    assert forall k :: 0 <= k < |q| ==> joined[k] == q[k];
    assert p == joined[..|p|] && q == joined[..|q|];
    assert m == joined[|p| + 1..] && n == joined[|q| + 1..];
  }

  /** Equal after canonicalising twice, as both the stored entries and the request are. */
  predicate Matches(a: Allowed, provider: string, model: string) {
    && CanonicalProvider(CanonicalProvider(a.provider)) == CanonicalProvider(CanonicalProvider(provider))
    && CanonicalModel(CanonicalModel(a.model)) == CanonicalModel(CanonicalModel(model))
  }

  lemma {:induction false} BuiltIndex(rows: seq<Row>, key: string)
    ensures key in Built(rows).index <==> exists i :: 0 <= i < |rows| && rows[i].key == key
  {
    if rows != [] {
      var front, last := rows[..|rows| - 1], rows[|rows| - 1];
      BuiltIndex(front, key);
      assert key in Built(rows).index <==> key in Built(front).index || key == last.key;
      assert forall i :: 0 <= i < |front| ==> front[i] == rows[i];
    }
  }

  predicate PlainProvider(raw: string) {
    Plain(CanonicalProvider(CanonicalProvider(raw)))
  }

  /** For a request that names its provider, the index answers what a scan of the list as typed would. */
  lemma {:induction false} AllowsIsScan(models: seq<Allowed>, provider: string, model: string)
    requires CanonicalProvider(provider) != "" && CanonicalModel(model) != "" && PlainProvider(provider)
    requires forall i :: 0 <= i < |models| ==> PlainProvider(models[i].provider)
    ensures AllowsModel(Indexed(Rows(models)), provider, model) <==>
            exists i :: 0 <= i < |models| && Matches(models[i], provider, model)
  {
    var key := ModelKey(CanonicalProvider(provider), CanonicalModel(model));
    BuiltIndex(Rows(models), key);
    NotOpen(Rows(models));
    forall i | 0 <= i < |models| ensures Rows(models)[i].key == key <==> Matches(models[i], provider, model) {
      KeyMatches(models[i], provider, model);
    }
  }

  lemma {:induction false} KeyMatches(a: Allowed, provider: string, model: string)
    requires PlainProvider(provider) && PlainProvider(a.provider)
    ensures KeyOf(a) == ModelKey(CanonicalProvider(provider), CanonicalModel(model)) <==> Matches(a, provider, model)
  {
    var p, q := CanonicalProvider(CanonicalProvider(a.provider)), CanonicalProvider(CanonicalProvider(provider));
    var m, n := CanonicalModel(CanonicalModel(a.model)), CanonicalModel(CanonicalModel(model));
    if p + "\0" + m == q + "\0" + n { JoinInjective(p, m, q, n); }
  }

  /** First with its key. */
  predicate First(rows: seq<Row>, i: nat)
    requires i < |rows|
  {
    forall k :: 0 <= k < i ==> rows[k].key != rows[i].key
  }

  lemma {:induction false} FirstOfFront(rows: seq<Row>)
    requires rows != []
    ensures
      var front := rows[..|rows| - 1];
      && (forall i :: 0 <= i < |front| ==> front[i] == rows[i] && First(front, i) == First(rows, i))
      && (rows[|rows| - 1].key in Built(front).index <==> !First(rows, |front|))
  {
    var front, last := rows[..|rows| - 1], rows[|rows| - 1];
    BuiltIndex(front, last.key);
    assert forall i :: 0 <= i < |front| ==> front[i] == rows[i];
  }

  /** For a request without a provider: some entry has that name, and no entry before it has its key. */
  lemma {:induction false} AnyProviderIsScan(rows: seq<Row>, model: string)
    ensures model in Built(rows).anyProvider <==>
              exists i :: 0 <= i < |rows| && rows[i].entry.model == model && First(rows, i)
  {
    if rows == [] {
      assert Built(rows).anyProvider == {};
    } else {
      AnyProviderNext(rows, model);
    }
    hide Built, First;
    if rows != [] {
      AnyProviderIsScan(rows[..|rows| - 1], model);
      FirstOfFront(rows);
    }
  }

  lemma {:induction false} AnyProviderNext(rows: seq<Row>, model: string)
    requires rows != []
    ensures
      var front, last := rows[..|rows| - 1], rows[|rows| - 1];
      model in Built(rows).anyProvider <==>
      model in Built(front).anyProvider || (First(rows, |front|) && last.entry.model == model)
  {
    FirstOfFront(rows);
  }

  // ----------------------------------------------------------------------------- normalising again

  /** The indexes are a function of the stored list. */
  function AccessOf(list: seq<Allowed>): Access {
    Access(false, list, set a | a in list :: ModelKey(a.provider, a.model), set a | a in list :: a.model)
  }

  lemma {:induction false} BuiltFromList(models: seq<Allowed>)
    ensures Built(Rows(models)) == AccessOf(Built(Rows(models)).models)
  {
    var rows := Rows(models);
    if rows != [] {
      var front := models[..|models| - 1];
      assert rows[..|rows| - 1] == Rows(front);
      BuiltFromList(front);
      var before, last := Built(Rows(front)), rows[|rows| - 1];
      assert last.key == ModelKey(last.entry.provider, last.entry.model);
      if last.key !in before.index {
        AccessOfAppend(before.models, last.entry);
      }
    }
  }

  lemma {:induction false} AccessOfAppend(list: seq<Allowed>, a: Allowed)
    ensures
      var next := AccessOf(list + [a]);
      && next.index == AccessOf(list).index + {ModelKey(a.provider, a.model)}
      && next.anyProvider == AccessOf(list).anyProvider + {a.model}
  {
    assert forall x :: x in list + [a] <==> x in list || x == a;
  }

  /** What a binding stores decides every answer: its indexes can be rebuilt from its list. */
  lemma {:induction false} StoredListDecides(models: seq<Allowed>)
    ensures Indexed(Rows(models)) == AccessOf(Indexed(Rows(models)).models)
  {
    BuiltFromList(models);
    var list := Built(Rows(models)).models;
    forall a ensures a in SortedEntries(list) <==> a in list { SortedMembers(list, a); }
  }

  /** Normalising a stored policy, as every load, edit and commit does; None if an entry has a blank part. */
  function Renormalised(policy: ModelPolicy): Option<ModelPolicy> {
    match policy
    case AllModels => Some(AllModels)
    case OnlyModels(models) =>
      if AllNamed(Rows(models)) then Some(OnlyModels(Indexed(Rows(models)).models)) else None
  }

  // Canonicalising only shortens, so a finite set that it maps onto itself consists of its fixpoints.

  lemma {:induction false} ModelShrinks(s: string)
    ensures Lower(CanonicalModel(s))
    ensures Lower(s) ==> CanonicalModel(s) == s || |CanonicalModel(s)| < |s|
  {
    var model := ToLower(Trim(s));
    LowerTwice(Trim(s));
    TrimShortens(s);
    if Lower(s) { TrimLower(s); }
    var open := LastIndex(model, '(');
    if open > 0 {
      PartLower(model, 0, open);
      assert model[0..open] == model[..open];
      TrimLower(model[..open]);
      TrimShortens(model[..open]);
    }
  }

  lemma {:induction false} ProviderShrinks(s: string)
    ensures Lower(CanonicalProvider(s))
    ensures Lower(s) ==> CanonicalProvider(s) == s || |CanonicalProvider(s)| < |s|
  {
    var provider := ToLower(Trim(s));
    LowerTwice(Trim(s));
    TrimShortens(s);
    if Lower(s) { TrimLower(s); }
    if CHANNEL <= provider {
      PartLower(provider, |CHANNEL|, |provider|);
      assert provider[|CHANNEL|..|provider|] == provider[|CHANNEL|..];
    }
  }

  predicate LowerEntry(a: Allowed) {
    Lower(a.provider) && Lower(a.model)
  }

  function Size(a: Allowed): nat {
    |a.provider| + |a.model|
  }

  lemma {:induction false} CanonicalShrinks(a: Allowed)
    ensures LowerEntry(Canonical(a))
    ensures LowerEntry(a) ==> Canonical(a) == a || Size(Canonical(a)) < Size(a)
  {
    ModelShrinks(a.model);
    ProviderShrinks(a.provider);
  }

  ghost predicate Hit<T>(names: set<T>, step: T -> T, a: T) {
    exists b :: b in names && step(b) == a
  }

  /** Every member is the image of a member under a step that only shortens. */
  ghost predicate Covered<T>(names: set<T>, step: T -> T, size: T -> nat) {
    && (forall a {:trigger Hit(names, step, a)} :: a in names ==> Hit(names, step, a))
    && (forall a {:trigger step(a)} :: a in names ==> step(a) == a || size(step(a)) < size(a))
  }

  lemma {:induction false} Climb<T>(names: set<T>, step: T -> T, size: T -> nat, a: T)
    requires Covered(names, step, size) && a in names
    ensures step(a) == a
    decreases |set b | b in names && size(b) > size(a)|
  {
    if step(a) != a {
      assert Hit(names, step, a);
      var b :| b in names && step(b) == a;
      var above, higher := set c | c in names && size(c) > size(a), set c | c in names && size(c) > size(b);
      assert b in above && b !in higher && higher <= above;
      SmallerSet(higher, above, b);
      Climb(names, step, size, b);
      assert false;
    }
  }

  /** For names in canonical form, the step of canonicalising once more. */
  ghost predicate CoveredNames(names: set<Allowed>) {
    && (forall a :: a in names ==> LowerEntry(a))
    && (forall a {:trigger Hit(names, Canonical, a)} :: a in names ==> Hit(names, Canonical, a))
  }

  lemma {:induction false} CoveredFixed(names: set<Allowed>, a: Allowed)
    requires CoveredNames(names) && a in names
    ensures Canonical(a) == a
  {
    forall b | b in names ensures Canonical(b) == b || Size(Canonical(b)) < Size(b) { CanonicalShrinks(b); }
    Climb(names, Canonical, Size, a);
  }

  lemma {:induction false} SmallerSet<T>(inner: set<T>, outer: set<T>, x: T)
    requires inner <= outer && x in outer && x !in inner
    ensures |inner| < |outer|
  {
    var rest := outer - inner;
    assert x in rest && outer == inner + rest && inner !! rest;
    assert |outer| == |inner| + |rest|;
  }

  // ---- which stored lists stay as they are

  lemma {:induction false} StoredFrom(models: seq<Allowed>, e: Allowed)
    requires e in Indexed(Rows(models)).models
    ensures exists i :: 0 <= i < |models| && Canonical(models[i]) == e
  {
    SortedMembers(Built(Rows(models)).models, e);
    BuiltEntry(models, e);
  }

  lemma {:induction false} BuiltEntry(models: seq<Allowed>, e: Allowed)
    requires e in Built(Rows(models)).models
    ensures exists i :: 0 <= i < |models| && Canonical(models[i]) == e
  {
    var front := models[..|models| - 1];
    assert Rows(models)[..|models| - 1] == Rows(front);
    if e in Built(Rows(front)).models {
      BuiltEntry(front, e);
      var i :| 0 <= i < |front| && Canonical(front[i]) == e;
      assert models[i] == front[i];
    } else {
      assert Canonical(models[|models| - 1]) == e;
    }
  }

  predicate DistinctKeys(list: seq<Allowed>) {
    forall i, j :: 0 <= i < j < |list| ==>
      ModelKey(list[i].provider, list[i].model) != ModelKey(list[j].provider, list[j].model)
  }

  lemma {:induction false} BuiltDistinct(models: seq<Allowed>)
    ensures DistinctKeys(Built(Rows(models)).models)
  {
    if models != [] {
      var front := models[..|models| - 1];
      assert Rows(models)[..|models| - 1] == Rows(front);
      BuiltDistinct(front);
      BuiltFromList(front);
      var last := Rows(models)[|models| - 1];
      if last.key !in Built(Rows(front)).index { DistinctAppend(Built(Rows(front)).models, last.entry); }
    }
  }

  lemma {:induction false} DistinctAppend(list: seq<Allowed>, a: Allowed)
    requires DistinctKeys(list) && ModelKey(a.provider, a.model) !in AccessOf(list).index
    ensures DistinctKeys(list + [a])
  {
    forall i | 0 <= i < |list| ensures ModelKey(list[i].provider, list[i].model) != ModelKey(a.provider, a.model) {
      assert list[i] in list;
    }
  }

  /** Sorting keeps the keys apart. */
  lemma {:induction false} SortedDistinct(list: seq<Allowed>)
    requires DistinctKeys(list)
    ensures DistinctKeys(SortedEntries(list))
  {
    var next := SortedEntries(list);
    SortedEntriesCount(list);
    forall i, j | 0 <= i < j < |next|
      ensures ModelKey(next[i].provider, next[i].model) != ModelKey(next[j].provider, next[j].model)
    {
      assert next[i] in multiset(next) && next[j] in multiset(next);
      assert next[i] in list && next[j] in list;
      var a :| 0 <= a < |list| && list[a] == next[i];
      var b :| 0 <= b < |list| && list[b] == next[j];
      if a == b {
        TwiceCounted(next, i, j);
        DistinctFrom(list, a);
        OnceCounted(list, a);
      }
    }
  }

  lemma {:induction false} DistinctFrom(list: seq<Allowed>, a: nat)
    requires DistinctKeys(list) && a < |list|
    ensures forall k :: 0 <= k < |list| && k != a ==> list[k] != list[a]
  {
    forall k | 0 <= k < |list| && k != a ensures list[k] != list[a] {
      var low, high := if k < a then k else a, if k < a then a else k;
      assert ModelKey(list[low].provider, list[low].model) != ModelKey(list[high].provider, list[high].model);
    }
  }

  lemma {:induction false} TwiceCounted<T>(list: seq<T>, i: nat, j: nat)
    requires i < j < |list| && list[i] == list[j]
    ensures multiset(list)[list[i]] >= 2
  {
    assert list == list[..j] + list[j..];
    assert list[i] == list[..j][i] && list[j] == list[j..][0];
    assert list[i] in multiset(list[..j]) && list[i] in multiset(list[j..]);
  }

  lemma {:induction false} OnceCounted<T>(list: seq<T>, a: nat)
    requires a < |list| && forall k :: 0 <= k < |list| && k != a ==> list[k] != list[a]
    ensures multiset(list)[list[a]] == 1
  {
    var left, right := list[..a], list[a + 1..];
    assert list == left + [list[a]] + right;
    assert list[a] !in left;
    assert list[a] !in right;
    CountsApart(left, list[a], right);
  }

  lemma {:induction false} CountsApart<T>(left: seq<T>, x: T, right: seq<T>)
    requires x !in left && x !in right
    ensures multiset(left + [x] + right)[x] == 1
  {
    assert x !in multiset(left) && x !in multiset(right);
    assert multiset(left + [x] + right) == multiset(left) + multiset{x} + multiset(right);
  }

  lemma {:induction false} BuiltOfDistinct(rows: seq<Row>)
    requires forall i, j :: 0 <= i < j < |rows| ==> rows[i].key != rows[j].key
    ensures |Built(rows).models| == |rows|
    ensures forall i :: 0 <= i < |rows| ==> Built(rows).models[i] == rows[i].entry
  {
    if rows != [] {
      var front, last := rows[..|rows| - 1], rows[|rows| - 1];
      BuiltOfDistinct(front);
      BuiltIndex(front, last.key);
    }
  }

  lemma {:induction false} FixedRow(a: Allowed)
    requires Canonical(a) == a
    ensures RowOf(a) == Row(a, ModelKey(a.provider, a.model))
  {
  }

  /** Entries that are canonical already, with keys of their own, are taken over one by one. */
  lemma {:induction false} BuiltOfFixed(list: seq<Allowed>)
    requires DistinctKeys(list) && forall i :: 0 <= i < |list| ==> Canonical(list[i]) == list[i]
    ensures Built(Rows(list)).models == list
  {
    var rows := Rows(list);
    forall i | 0 <= i < |list| ensures rows[i] == Row(list[i], ModelKey(list[i].provider, list[i].model)) {
      FixedRow(list[i]);
    }
    BuiltOfDistinct(rows);
  }

  /**
   A stored list is left alone by the next normalisation if and only if every entry of it is its own
   canonical form.
   */
  lemma {:induction false} StoredStaysExactly(models: seq<Allowed>)
    requires AllNamed(Rows(models))
    ensures
      var list := Indexed(Rows(models)).models;
      Renormalised(OnlyModels(list)) == Some(OnlyModels(list)) <==> forall e :: e in list ==> Canonical(e) == e
  {
    var list := Indexed(Rows(models)).models;
    if forall e :: e in list ==> Canonical(e) == e {
      BuiltDistinct(models);
      SortedDistinct(Built(Rows(models)).models);
      SortedEntriesAscend(Built(Rows(models)).models);
      BuiltOfFixed(list);
      SortedAlready(list);
      StoredNamed(models);
    } else if Renormalised(OnlyModels(list)) == Some(OnlyModels(list)) {
      KeptListFixed(list);
    }
  }

  lemma {:induction false} KeptListFixed(list: seq<Allowed>)
    requires Indexed(Rows(list)).models == list
    ensures forall e :: e in list ==> Canonical(e) == e
  {
    var names := set e | e in list;
    forall e | e in names ensures LowerEntry(e) && Hit(names, Canonical, e) {
      StoredFrom(list, e);
      var i :| 0 <= i < |list| && Canonical(list[i]) == e;
      CanonicalShrinks(list[i]);
      assert list[i] in names;
    }
    forall e | e in list ensures Canonical(e) == e { CoveredFixed(names, e); }
  }

  lemma {:induction false} StoredNamed(models: seq<Allowed>)
    requires AllNamed(Rows(models))
    ensures
      var list := Indexed(Rows(models)).models;
      (forall e :: e in list ==> Canonical(e) == e) ==> AllNamed(Rows(list))
  {
    var list := Indexed(Rows(models)).models;
    if forall e :: e in list ==> Canonical(e) == e {
      forall k | 0 <= k < |list| ensures Named(Rows(list)[k]) {
        StoredFrom(models, list[k]);
        var i :| 0 <= i < |models| && Canonical(models[i]) == list[k];
        assert Named(Rows(models)[i]);
      }
    }
  }

  // ---- which answers stay as they are

  lemma {:induction false} PlainStays(s: string)
    requires Plain(s)
    ensures Plain(CanonicalProvider(s))
  {
    TrimShortens(s);
    var trimmed := Trim(s);
    assert forall i :: 0 <= i < |trimmed| ==> trimmed[i] in trimmed;
    assert Plain(ToLower(trimmed));
  }

  predicate PlainEntry(a: Allowed) {
    Plain(a.provider)
  }

  /** The key of a list entry is that of a stored entry, and stored entries have keys of list entries. */
  lemma {:induction false} KeysOfStored(models: seq<Allowed>, key: string)
    ensures
      var list := Indexed(Rows(models)).models;
      && (key in Indexed(Rows(models)).index <==> exists i :: 0 <= i < |models| && KeyOf(models[i]) == key)
      && (key in Indexed(Rows(models)).index <==> exists e :: e in list && ModelKey(e.provider, e.model) == key)
  {
    BuiltIndex(Rows(models), key);
    StoredListDecides(models);
    assert forall i :: 0 <= i < |models| ==> Rows(models)[i].key == KeyOf(models[i]);
  }

  /** The form that an entry has after two normalisations is complete and canonical. */
  predicate Lasting(a: Allowed) {
    var k := Canonical(Canonical(a));
    k.provider != "" && k.model != "" && Canonical(k) == k
  }

  ghost predicate SameNamedAnswers(left: Access, right: Access) {
    forall provider, model :: CanonicalProvider(provider) != "" ==>
      AllowsModel(left, provider, model) == AllowsModel(right, provider, model)
  }

  lemma {:induction false} LastingKeeps(models: seq<Allowed>)
    requires AllNamed(Rows(models)) && forall i :: 0 <= i < |models| ==> Lasting(models[i])
    ensures
      var list := Indexed(Rows(models)).models;
      AllNamed(Rows(list)) && Indexed(Rows(list)).index == Indexed(Rows(models)).index
  {
    var list := Indexed(Rows(models)).models;
    forall n | 0 <= n < |list|
      ensures Named(Rows(list)[n]) && Rows(list)[n].key == ModelKey(list[n].provider, list[n].model)
    {
      LastingEntry(models, list[n]);
    }
    forall key ensures key in Indexed(Rows(list)).index <==> key in Indexed(Rows(models)).index {
      KeysOfStored(models, key);
      SameRowKeys(list, key);
    }
  }

  lemma {:induction false} SameRowKeys(list: seq<Allowed>, key: string)
    requires forall n :: 0 <= n < |list| ==> Rows(list)[n].key == ModelKey(list[n].provider, list[n].model)
    ensures key in Built(Rows(list)).index <==> exists e :: e in list && ModelKey(e.provider, e.model) == key
  {
    BuiltIndex(Rows(list), key);
    assert forall n :: 0 <= n < |list| ==> list[n] in list;
  }

  lemma {:induction false} LastingEntry(models: seq<Allowed>, e: Allowed)
    requires forall i :: 0 <= i < |models| ==> Lasting(models[i])
    requires e in Indexed(Rows(models)).models
    ensures Named(RowOf(e)) && RowOf(e).key == ModelKey(e.provider, e.model)
  {
    StoredFrom(models, e);
    var i :| 0 <= i < |models| && Canonical(models[i]) == e;
    assert Lasting(models[i]);
  }

  /** A request for the name that was typed meets the key of its entry. */
  lemma {:induction false} AskedByName(models: seq<Allowed>, i: nat)
    requires i < |models| && AllNamed(Rows(models))
    ensures CanonicalProvider(models[i].provider) != ""
    ensures forall access: Access :: !access.all ==>
      (AllowsModel(access, models[i].provider, models[i].model) <==> KeyOf(models[i]) in access.index)
  {
    assert Named(Rows(models)[i]);
  }

  lemma {:induction false} SameKeyPair(a: Allowed, b: Allowed)
    requires PlainEntry(a) && PlainEntry(b) && ModelKey(a.provider, a.model) == ModelKey(b.provider, b.model)
    ensures Canonical(a) == Canonical(b)
  {
    PlainStays(a.provider);
    PlainStays(b.provider);
    JoinInjective(CanonicalProvider(a.provider), CanonicalModel(a.model), CanonicalProvider(b.provider),
      CanonicalModel(b.model));
  }

  lemma {:induction false} KeptIsCovered(models: seq<Allowed>)
    requires AllNamed(Rows(models)) && forall i :: 0 <= i < |models| ==> PlainEntry(models[i])
    requires SameNamedAnswers(Indexed(Rows(models)), Indexed(Rows(Indexed(Rows(models)).models)))
    ensures CoveredNames(set e | e in Indexed(Rows(models)).models :: Canonical(e))
  {
    var list := Indexed(Rows(models)).models;
    var keys := set e | e in list :: Canonical(e);
    forall k | k in keys ensures LowerEntry(k) && Hit(keys, Canonical, k) {
      var e :| e in list && Canonical(e) == k;
      CanonicalShrinks(e);
      StoredFrom(models, e);
      var i :| 0 <= i < |models| && Canonical(models[i]) == e;
      var e2 := KeptKey(models, i);
      var j :| 0 <= j < |models| && Canonical(models[j]) == e2;
      PlainStays(models[i].provider);
      PlainStays(models[j].provider);
      PlainStays(e2.provider);
      SameKeyPair(Canonical(e2), e);
      assert Canonical(e2) in keys;
    }
  }

  /** Some stored entry gets this key in the second normalisation. */
  lemma {:induction false} KeptKey(models: seq<Allowed>, i: nat) returns (e: Allowed)
    requires AllNamed(Rows(models)) && i < |models|
    requires SameNamedAnswers(Indexed(Rows(models)), Indexed(Rows(Indexed(Rows(models)).models)))
    ensures e in Indexed(Rows(models)).models && KeyOf(e) == KeyOf(models[i])
    ensures exists j :: 0 <= j < |models| && Canonical(models[j]) == e
  {
    var list := Indexed(Rows(models)).models;
    var key := KeyOf(models[i]);
    NotOpen(Rows(models));
    NotOpen(Rows(list));
    AskedByName(models, i);
    KeysOfStored(models, key);
    KeysOfStored(list, key);
    assert AllowsModel(Indexed(Rows(models)), models[i].provider, models[i].model);
    assert AllowsModel(Indexed(Rows(list)), models[i].provider, models[i].model);
    var n :| 0 <= n < |list| && KeyOf(list[n]) == key;
    e := list[n];
    StoredFrom(models, e);
  }

  /**
   Normalising a stored list again is accepted and leaves every answer to requests that name a provider
   as it was, if and only if each typed name has, after two rounds, a form that is complete and canonical.
   */
  lemma {:induction false} NormalisingAgainKeepsExactly(models: seq<Allowed>)
    requires AllNamed(Rows(models)) && forall i :: 0 <= i < |models| ==> PlainEntry(models[i])
    ensures
      var list := Indexed(Rows(models)).models;
      AllNamed(Rows(list)) && SameNamedAnswers(Indexed(Rows(models)), Indexed(Rows(list))) <==>
      forall i :: 0 <= i < |models| ==> Lasting(models[i])
  {
    hide *;
    var list := Indexed(Rows(models)).models;
    if forall i :: 0 <= i < |models| ==> Lasting(models[i]) {
      LastingKeeps(models);
      SameIndex(Rows(models), Rows(list));
    } else if AllNamed(Rows(list)) && SameNamedAnswers(Indexed(Rows(models)), Indexed(Rows(list))) {
      KeptIsCovered(models);
      forall i | 0 <= i < |models| ensures Lasting(models[i]) { KeptLasts(models, i); }
    }
  }

  lemma {:induction false} SameIndex(rows: seq<Row>, others: seq<Row>)
    requires Indexed(others).index == Indexed(rows).index
    ensures SameNamedAnswers(Indexed(rows), Indexed(others))
  {
    NotOpen(rows);
    NotOpen(others);
  }

  /** Every typed name's twice canonical form is that of a stored entry. */
  lemma {:induction false} StoredTwin(models: seq<Allowed>, i: nat) returns (n: nat)
    requires i < |models| && forall i :: 0 <= i < |models| ==> PlainEntry(models[i])
    ensures
      var list := Indexed(Rows(models)).models;
      n < |list| && Canonical(list[n]) == Canonical(Canonical(models[i]))
  {
    var list := Indexed(Rows(models)).models;
    KeysOfStored(models, KeyOf(models[i]));
    var e :| e in list && ModelKey(e.provider, e.model) == KeyOf(models[i]);
    StoredFrom(models, e);
    var j :| 0 <= j < |models| && Canonical(models[j]) == e;
    PlainStays(models[i].provider);
    PlainStays(models[j].provider);
    SameKeyPair(Canonical(models[i]), e);
    n :| 0 <= n < |list| && list[n] == e;
  }

  lemma {:induction false} KeptLasts(models: seq<Allowed>, i: nat)
    requires AllNamed(Rows(models)) && forall i :: 0 <= i < |models| ==> PlainEntry(models[i])
    requires AllNamed(Rows(Indexed(Rows(models)).models))
    requires CoveredNames(set e | e in Indexed(Rows(models)).models :: Canonical(e)) && i < |models|
    ensures Lasting(models[i])
  {
    var list := Indexed(Rows(models)).models;
    var n := StoredTwin(models, i);
    var e := list[n];
    assert Named(Rows(list)[n]);
    CoveredFixed(set e | e in list :: Canonical(e), Canonical(e));
  }

  // ---- which stored lists are accepted again

  lemma {:induction false} ModelStaysNamed(s: string)
    requires CanonicalModel(s) != ""
    ensures CanonicalModel(CanonicalModel(s)) != ""
  {
    hide TrimLeft, TrimRight;
    TrimIsTrimmed(s);
    var model := ToLower(Trim(s));
    assert Trimmed(model);
    TrimIsTrimmed(model[..if LastIndex(model, '(') > 0 then LastIndex(model, '(') else 0]);
    TrimIsTrimmed(CanonicalModel(s));
  }

  /**
   A stored list is rejected by the next normalisation if and only if two rounds leave nothing of some
   typed provider.
   */
  lemma {:induction false} RejectedAgainExactly(models: seq<Allowed>)
    requires AllNamed(Rows(models)) && forall i :: 0 <= i < |models| ==> PlainEntry(models[i])
    ensures
      Renormalised(OnlyModels(Indexed(Rows(models)).models)).None? <==>
      exists i :: 0 <= i < |models| && CanonicalProvider(CanonicalProvider(models[i].provider)) == ""
  {
    var list := Indexed(Rows(models)).models;
    if i :| 0 <= i < |models| && CanonicalProvider(CanonicalProvider(models[i].provider)) == "" {
      var n := StoredTwin(models, i);
      assert !Named(Rows(list)[n]);
    } else {
      forall n | 0 <= n < |list| ensures Named(Rows(list)[n]) { StoredKeepsName(models, n); }
    }
  }

  lemma {:induction false} StoredKeepsName(models: seq<Allowed>, n: nat)
    requires AllNamed(Rows(models)) && n < |Indexed(Rows(models)).models|
    requires forall i :: 0 <= i < |models| ==> CanonicalProvider(CanonicalProvider(models[i].provider)) != ""
    ensures Named(Rows(Indexed(Rows(models)).models)[n])
  {
    var list := Indexed(Rows(models)).models;
    StoredFrom(models, list[n]);
    var i :| 0 <= i < |models| && Canonical(models[i]) == list[n];
    assert Named(Rows(models)[i]);
    ModelStaysNamed(models[i].model);
  }

  // ---- requests that name no provider

  ghost predicate SameOpenAnswers(left: Access, right: Access) {
    forall model :: AllowsModel(left, "", model) == AllowsModel(right, "", model)
  }

  lemma {:induction false} NoProvider(access: Access, model: string)
    requires !access.all
    ensures AllowsModel(access, "", model) <==>
              CanonicalModel(model) != "" && CanonicalModel(model) in access.anyProvider
  {
  }

  lemma {:induction false} FirstWithKey(rows: seq<Row>, i: nat) returns (j: nat)
    requires i < |rows|
    ensures j <= i && rows[j].key == rows[i].key && First(rows, j)
    decreases i
  {
    if First(rows, i) {
      j := i;
    } else {
      var k :| 0 <= k < i && rows[k].key == rows[i].key;
      j := FirstWithKey(rows, k);
    }
  }

  /** Names in the second provider-less index are canonical forms of names in the first. */
  lemma {:induction false} NameFromStored(list: seq<Allowed>, m: string)
    requires m in Indexed(Rows(list)).anyProvider
    ensures exists e :: e in list && CanonicalModel(e.model) == m
  {
    AnyProviderIsScan(Rows(list), m);
    var i :| 0 <= i < |list| && Rows(list)[i].entry.model == m && First(Rows(list), i);
    assert list[i] in list;
  }

  /** A stored name that is canonical reaches the second index, under its own entry or one with the same key. */
  lemma {:induction false} FixedNameStays(list: seq<Allowed>, n: nat)
    requires n < |list| && forall e :: e in list ==> PlainEntry(e) && CanonicalModel(e.model) == e.model
    ensures list[n].model in Indexed(Rows(list)).anyProvider
  {
    var j := FirstWithKey(Rows(list), n);
    assert list[j] in list && list[n] in list;
    PlainStays(list[j].provider);
    PlainStays(list[n].provider);
    SameKeyPair(Canonical(list[j]), Canonical(list[n]));
    AnyProviderIsScan(Rows(list), list[n].model);
  }

  /**
   Where a stored list is accepted again, answers to requests that name no provider stay as they were if
   and only if every stored model name is canonical.
   */
  lemma {:induction false} OpenAnswersStayExactly(models: seq<Allowed>)
    requires AllNamed(Rows(models)) && forall i :: 0 <= i < |models| ==> PlainEntry(models[i])
    ensures
      var list := Indexed(Rows(models)).models;
      SameOpenAnswers(Indexed(Rows(models)), Indexed(Rows(list))) <==>
      forall e :: e in list ==> CanonicalModel(e.model) == e.model
  {
    var list := Indexed(Rows(models)).models;
    var first, second := Indexed(Rows(models)), Indexed(Rows(list));
    NotOpen(Rows(models));
    NotOpen(Rows(list));
    StoredListDecides(models);
    if forall e :: e in list ==> CanonicalModel(e.model) == e.model {
      FixedNames(models);
      forall model ensures AllowsModel(first, "", model) == AllowsModel(second, "", model) {
        NoProvider(first, model);
        NoProvider(second, model);
      }
    } else if SameOpenAnswers(first, second) {
      KeptNames(models);
    }
  }

  lemma {:induction false} StoredPlain(models: seq<Allowed>)
    requires forall i :: 0 <= i < |models| ==> PlainEntry(models[i])
    ensures forall e :: e in Indexed(Rows(models)).models ==> PlainEntry(e)
  {
    forall e | e in Indexed(Rows(models)).models ensures PlainEntry(e) {
      StoredFrom(models, e);
      var i :| 0 <= i < |models| && Canonical(models[i]) == e;
      PlainStays(models[i].provider);
    }
  }

  lemma {:induction false} FixedNames(models: seq<Allowed>)
    requires forall i :: 0 <= i < |models| ==> PlainEntry(models[i])
    requires forall e :: e in Indexed(Rows(models)).models ==> CanonicalModel(e.model) == e.model
    ensures Indexed(Rows(Indexed(Rows(models)).models)).anyProvider == Indexed(Rows(models)).anyProvider
  {
    var list := Indexed(Rows(models)).models;
    StoredListDecides(models);
    StoredPlain(models);
    hide Indexed, Rows, PlainEntry, CanonicalModel;
    forall m ensures m in Indexed(Rows(list)).anyProvider <==> m in Indexed(Rows(models)).anyProvider {
      if m in Indexed(Rows(list)).anyProvider { NameFromStored(list, m); }
      if e :| e in list && e.model == m {
        var n :| 0 <= n < |list| && list[n] == e;
        FixedNameStays(list, n);
      }
    }
  }

  lemma {:induction false} KeptNames(models: seq<Allowed>)
    requires AllNamed(Rows(models))
    requires SameOpenAnswers(Indexed(Rows(models)), Indexed(Rows(Indexed(Rows(models)).models)))
    ensures forall e :: e in Indexed(Rows(models)).models ==> CanonicalModel(e.model) == e.model
  {
    var list := Indexed(Rows(models)).models;
    var names := NamesAlone(list);
    forall a | a in names ensures LowerEntry(a) && Hit(names, Canonical, a) {
      var e :| e in list && Allowed("", e.model) == a;
      KeptName(models, e);
      NameHit(list, e);
    }
    forall e | e in list ensures CanonicalModel(e.model) == e.model { NameFixed(names, e.model); }
  }

  function NamesAlone(list: seq<Allowed>): set<Allowed> {
    set e | e in list :: Allowed("", e.model)
  }

  lemma {:induction false} NameFixed(names: set<Allowed>, m: string)
    requires CoveredNames(names) && Allowed("", m) in names
    ensures CanonicalModel(m) == m
  {
    CoveredFixed(names, Allowed("", m));
  }

  lemma {:induction false} NameHit(list: seq<Allowed>, e: Allowed)
    requires exists d :: d in list && CanonicalModel(d.model) == e.model
    ensures LowerEntry(Allowed("", e.model)) && Hit(NamesAlone(list), Canonical, Allowed("", e.model))
  {
    var d :| d in list && CanonicalModel(d.model) == e.model;
    CanonicalShrinks(Allowed("", d.model));
    assert Allowed("", d.model) in NamesAlone(list);
    assert CanonicalProvider("") == "";
    assert Canonical(Allowed("", d.model)) == Allowed("", e.model);
  }

  lemma {:induction false} KeptName(models: seq<Allowed>, e: Allowed)
    requires AllNamed(Rows(models)) && e in Indexed(Rows(models)).models
    requires SameOpenAnswers(Indexed(Rows(models)), Indexed(Rows(Indexed(Rows(models)).models)))
    ensures exists d :: d in Indexed(Rows(models)).models && CanonicalModel(d.model) == e.model
  {
    var list := Indexed(Rows(models)).models;
    StoredFrom(models, e);
    var i :| 0 <= i < |models| && Canonical(models[i]) == e;
    assert Named(Rows(models)[i]);
    NotOpen(Rows(models));
    NotOpen(Rows(list));
    StoredListDecides(models);
    NoProvider(Indexed(Rows(models)), models[i].model);
    NoProvider(Indexed(Rows(list)), models[i].model);
    assert AllowsModel(Indexed(Rows(models)), "", models[i].model) ==
      AllowsModel(Indexed(Rows(list)), "", models[i].model);
    NameFromStored(list, e.model);
  }

  // ---- a name that is lost, and one that is refused

  /**
   A list of one entry still authorises that entry's own name after a second normalisation just when its key
   survives.
   */
  lemma {:induction false} OwnNameSurvives(a: Allowed)
    requires Canonical(a).provider != "" && Canonical(a).model != ""
    ensures AllowsModel(Indexed(Rows([a])), a.provider, a.model)
    ensures AllowsModel(Indexed(Rows(Indexed(Rows([a])).models)), a.provider, a.model) <==>
              KeyOf(Canonical(a)) == KeyOf(a)
  {
    OneRow(a);
    OneRow(Canonical(a));
  }

  lemma {:induction false} OneRow(a: Allowed)
    ensures Indexed(Rows([a])) == Access(false, [Canonical(a)], {KeyOf(a)}, {Canonical(a).model})
  {
    assert Rows([a]) == [RowOf(a)];
    OneBuilt(RowOf(a));
  }

  lemma {:induction false} OneBuilt(row: Row)
    ensures Indexed([row]) == Access(false, [row.entry], {row.key}, {row.entry.model})
  {
    var rows := [row];
    assert rows[..0] == [];
    assert Built(rows) == WithRow(CLOSED, row) == Access(false, [row.entry], {row.key}, {row.entry.model});
    OneSorted([row.entry]);
  }

  lemma {:induction false} OneSorted(list: seq<Allowed>)
    requires |list| == 1
    ensures SortedEntries(list) == list
  {
    assert list[..0] == [] && SortedEntries(list[..0]) == [];
  }

  /** What canonicalising does to a plain name with a suffix in parentheses. */
  lemma {:induction false} StripsSuffix(base: string, inner: string)
    requires base != "" && Trimmed(base) && ToLower(base) == base
    requires Inner(inner)
    ensures CanonicalModel(Suffixed(base, inner)) == base
  {
    SuffixedIsPlain(base, inner);
    TrimIsTrimmed(Suffixed(base, inner));
    TrimIsTrimmed(base);
    SuffixOpens(base, inner);
  }

  lemma {:induction false} SuffixOpens(base: string, inner: string)
    requires '(' !in inner
    ensures
      var s := Suffixed(base, inner);
      LastIndex(s, '(') == |base| && s[..|base|] == base && s[|base| + 1..|s| - 1] == inner
  {
    var s := Suffixed(base, inner);
    assert s[|base|] == '(';
    assert forall k :: |base| < k < |s| ==> s[k] == (inner + ")")[k - |base| - 1];
  }

  function Suffixed(base: string, inner: string): string {
    base + "(" + inner + ")"
  }

  predicate Inner(inner: string) {
    Trim(inner) != "" && ToLower(inner) == inner && '(' !in inner
  }

  /**
   A name with three suffixes: the first normalisation authorises it, the second no longer does. The
   stored form has lost one suffix, so its key loses the one that the key of a request keeps.
   */
  lemma {:induction false} ThirdSuffixIsRevoked(provider: string, base: string, x: string, y: string, z: string)
    requires CanonicalProvider(provider) != ""
    requires base != "" && Trimmed(base) && ToLower(base) == base && Inner(x) && Inner(y) && Inner(z)
    ensures
      var typed := Allowed(provider, Suffixed(Suffixed(Suffixed(base, x), y), z));
      && AllowsModel(Indexed(Rows([typed])), typed.provider, typed.model)
      && !AllowsModel(Indexed(Rows(Indexed(Rows([typed])).models)), typed.provider, typed.model)
  {
    var one := Suffixed(base, x);
    var two := Suffixed(one, y);
    var three := Suffixed(two, z);
    StripsSuffix(base, x);
    SuffixedIsPlain(base, x);
    StripsSuffix(one, y);
    SuffixedIsPlain(one, y);
    StripsSuffix(two, z);
    OwnNameSurvives(Allowed(provider, three));
    var p := CanonicalProvider(CanonicalProvider(provider));
    ProviderShrinks(CanonicalProvider(provider));
    ProviderShrinks(p);
    assert |p + "\0" + one| != |CanonicalProvider(p) + "\0" + base|;
  }

  /** A shorter name, under the same provider or what canonicalising leaves of it, does not answer for a longer one. */
  lemma {:induction false} ShorterRefuses(list: seq<Allowed>, typed: Allowed)
    requires |list| == 1 && Canonical(typed).provider != "" && LowerEntry(list[0])
    requires |list[0].provider| <= |CanonicalProvider(CanonicalProvider(typed.provider))|
    requires |list[0].model| < |CanonicalModel(CanonicalModel(typed.model))|
    ensures !AllowsModel(AccessOf(list), typed.provider, typed.model)
  {
    ShorterKey(list[0], typed);
    OnlyKey(list);
    AskedByKey(AccessOf(list), typed);
  }

  lemma {:induction false} ShorterKey(e: Allowed, typed: Allowed)
    requires LowerEntry(e)
    requires |e.provider| <= |CanonicalProvider(CanonicalProvider(typed.provider))|
    requires |e.model| < |CanonicalModel(CanonicalModel(typed.model))|
    ensures |ModelKey(e.provider, e.model)| < |KeyOf(typed)|
  {
    ModelShrinks(e.model);
    ProviderShrinks(e.provider);
    KeyLength(e.provider, e.model);
    KeyLength(Canonical(typed).provider, Canonical(typed).model);
  }

  lemma {:induction false} OnlyKey(list: seq<Allowed>)
    requires |list| == 1
    ensures forall key :: key in AccessOf(list).index ==> key == ModelKey(list[0].provider, list[0].model)
  {
  }

  lemma {:induction false} AskedByKey(access: Access, typed: Allowed)
    requires !access.all && Canonical(typed).provider != ""
    ensures AllowsModel(access, typed.provider, typed.model) ==> KeyOf(typed) in access.index
  {
  }

  lemma {:induction false} KeyLength(provider: string, model: string)
    ensures |ModelKey(provider, model)| == |CanonicalProvider(provider)| + 1 + |CanonicalModel(model)|
  {
  }

  /** The name with three suffixes stays refused however often its list is normalised after that. */
  lemma {:induction false} ThirdSuffixStaysRevoked(typed: Allowed, base: string, x: string, y: string, z: string)
    requires CanonicalProvider(typed.provider) != ""
    requires base != "" && Trimmed(base) && ToLower(base) == base && Inner(x) && Inner(y) && Inner(z)
    requires typed.model == Suffixed(Suffixed(Suffixed(base, x), y), z)
    ensures
      var stored := Indexed(Rows([typed])).models;
      var again := Indexed(Rows(stored)).models;
      && !AllowsModel(AccessOf(Indexed(Rows(again)).models), typed.provider, typed.model)
      && !AllowsModel(AccessOf(again), typed.provider, typed.model)
  {
    var one := Suffixed(base, x);
    var two := Suffixed(one, y);
    StripsSuffix(base, x);
    SuffixedIsPlain(base, x);
    StripsSuffix(one, y);
    SuffixedIsPlain(one, y);
    StripsSuffix(two, z);
    var once, twice := Canonical(typed), Canonical(Canonical(typed));
    OneRow(typed);
    OneRow(once);
    OneRow(twice);
    ThirdSuffixIsRevoked(typed.provider, base, x, y, z);
    StoredListDecides([once]);
    CanonicalShrinks(once);
    CanonicalShrinks(twice);
    ProviderShrinks(twice.provider);
    ShorterRefuses([Canonical(twice)], typed);
  }

  lemma {:induction false} SuffixedIsPlain(base: string, inner: string)
    requires base != "" && Trimmed(base) && ToLower(base) == base && Inner(inner)
    ensures Suffixed(base, inner) != "" && Trimmed(Suffixed(base, inner))
    ensures ToLower(Suffixed(base, inner)) == Suffixed(base, inner)
  {
    assert ToLower(Suffixed(base, inner)) == Suffixed(base, inner);
  }
}
