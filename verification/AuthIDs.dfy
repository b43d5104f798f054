/**
 Exact auth-ID lists and their redundant copy in the binding's group string.
 A Go string is a sequence of bytes: `Bytes` says so of the characters used here.
 */
module AuthIDs {
  import opened Options
  import opened Text

  const FAIL_CLOSED_GROUP := "@access-guard/direct-auth-ids"
  const PERSISTED_PREFIX := FAIL_CLOSED_GROUP + "/v1/"
  const CLASSIFY_PREFIX := "classify:"

  predicate Bytes(s: string) {
    forall i :: 0 <= i < |s| ==> s[i] < '\U{0100}'
  }

  /** The trimmed, non-blank IDs in first-occurrence order. */
  function Kept(ids: seq<string>): seq<string> {
    if ids == [] then []
    else
      var before := Kept(ids[..|ids| - 1]);
      var id := Trim(ids[|ids| - 1]);
      if id == "" || id in before then before else before + [id]
  }

  /** The normal form of an auth-ID list: trimmed, without blanks or repeats, sorted. */
  function Normal(ids: seq<string>): seq<string> {
    Sorted(Kept(ids))
  }

  predicate Names(ids: seq<string>, id: string) {
    id != "" && exists k :: 0 <= k < |ids| && Trim(ids[k]) == id
  }

  lemma {:induction false} KeptMembers(ids: seq<string>)
    ensures forall id :: id in Kept(ids) <==> Names(ids, id)
    ensures forall i, j :: 0 <= i < j < |Kept(ids)| ==> Kept(ids)[i] != Kept(ids)[j]
  {
    if ids != [] {
      var front, last := ids[..|ids| - 1], Trim(ids[|ids| - 1]);
      KeptMembers(front);
      forall id ensures Names(ids, id) <==> Names(front, id) || (id == last && id != "") {
        if Names(front, id) {
          var k :| 0 <= k < |front| && Trim(front[k]) == id;
          assert Trim(ids[k]) == id;
        }
        if id == last && id != "" { assert Trim(ids[|ids| - 1]) == id; }
        if Names(ids, id) && id != last {
          var k :| 0 <= k < |ids| && Trim(ids[k]) == id;
          assert Trim(front[k]) == id;
        }
      }
    }
  }

  lemma {:induction false} SameMultisetMembers(s: seq<string>, t: seq<string>)
    requires multiset(s) == multiset(t)
    ensures forall x :: x in s <==> x in t
  {
    forall x ensures x in s <==> x in t {
      assert x in s <==> x in multiset(s);
    }
  }

  lemma {:induction false} DistinctCounts(s: seq<string>)
    requires forall i, j :: 0 <= i < j < |s| ==> s[i] != s[j]
    ensures forall x :: multiset(s)[x] <= 1
  {
    if s != [] {
      var front := s[..|s| - 1];
      DistinctCounts(front);
      assert s == front + [s[|s| - 1]];
      assert s[|s| - 1] !in front;
    }
  }

  lemma {:induction false} DistinctAscendingIsIncreasing(s: seq<string>)
    requires Ascending(s) && forall x :: multiset(s)[x] <= 1
    ensures Increasing(s)
  {
    forall i, j | 0 <= i < j < |s| ensures Less(s[i], s[j]) {
      var front, back, x := s[..j], s[j..], s[i];
      assert s == front + back;
      assert multiset(s)[x] == multiset(front)[x] + multiset(back)[x];
      assert x == front[i] && x in front && back[0] == s[j];
      NotBelow(s[j], s[i]);
    }
  }

  /** The normal form is strictly increasing and holds exactly the trimmed, non-blank inputs. */
  lemma {:induction false} NormalForm(ids: seq<string>)
    ensures Increasing(Normal(ids))
    ensures forall id :: id in Normal(ids) <==> Names(ids, id)
  {
    KeptMembers(ids);
    SortedIsAscending(Kept(ids));
    DistinctCounts(Kept(ids));
    DistinctAscendingIsIncreasing(Normal(ids));
    SameMultisetMembers(Normal(ids), Kept(ids));
  }

  /** Lists that name the same IDs, in whatever order and however often, share one normal form. */
  lemma {:induction false} NormalDependsOnMembersOnly(left: seq<string>, right: seq<string>)
    ensures Normal(left) == Normal(right) <==> forall id :: Names(left, id) <==> Names(right, id)
  {
    NormalForm(left);
    NormalForm(right);
    if forall id :: Names(left, id) <==> Names(right, id) {
      IncreasingUnique(Normal(left), Normal(right));
    }
  }

  lemma {:induction false} NormalIdempotent(ids: seq<string>)
    ensures Normal(Normal(ids)) == Normal(ids)
    ensures forall id :: id in Normal(ids) ==> id != "" && Trimmed(id) && Trim(id) == id
  {
    NormalForm(ids);
    forall id | id in Normal(ids) ensures id != "" && Trimmed(id) && Trim(id) == id {
      var k :| 0 <= k < |ids| && Trim(ids[k]) == id;
      TrimIsTrimmed(ids[k]);
      TrimIsTrimmed(id);
    }
    forall id ensures Names(Normal(ids), id) <==> Names(ids, id) {
      if Names(ids, id) {
        var k :| 0 <= k < |Normal(ids)| && Normal(ids)[k] == id;
        assert Trim(Normal(ids)[k]) == id;
      }
    }
    NormalDependsOnMembersOnly(Normal(ids), ids);
  }

  method NormalizeAuthIDs(ids: seq<string>) returns (normalized: seq<string>)
    ensures normalized == Normal(ids)
  {
    var seen: set<string> := {};
    var kept: seq<string> := [];
    for n := 0 to |ids|
      invariant kept == Kept(ids[..n])
      invariant seen == set id | id in kept
    {
      assert ids[..n + 1][..n] == ids[..n];
      var id := Trim(ids[n]);
      if id != "" && id !in seen {
        seen := seen + {id};
        kept := kept + [id];
      }
    }
    assert ids[..|ids|] == ids;
    normalized := SortStrings(kept);
  }

  function Digit(n: nat): char
    requires n < 16
  {
    if n < 10 then '0' + n as char else 'a' + (n - 10) as char
  }

  function DigitValue(c: char): Option<nat> {
    if '0' <= c <= '9' then Some((c - '0') as int)
    else if 'a' <= c <= 'f' then Some((c - 'a') as int + 10)
    else if 'A' <= c <= 'F' then Some((c - 'A') as int + 10)
    else None
  }

  /** hex.EncodeToString: lower-case base16, section 8 of RFC 4648. */
  function Hex(s: string): string
    requires Bytes(s)
  {
    if s == "" then ""
    else
      var b := s[0] as int;
      [Digit(b / 16), Digit(b % 16)] + Hex(s[1..])
  }

  /** hex.DecodeString: fails on an odd length or a character that is no digit. */
  function Unhex(t: string): Option<string> {
    if t == "" then Some("")
    else if |t| == 1 then None
    else
      match (DigitValue(t[0]), DigitValue(t[1]), Unhex(t[2..]))
      case (Some(high), Some(low), Some(rest)) =>
        if high < 16 && low < 16 then Some([(16 * high + low) as char] + rest) else None
      case _ => None
  }

  predicate HexText(t: string) {
    forall i :: 0 <= i < |t| ==> '0' <= t[i] <= '9' || 'a' <= t[i] <= 'f'
  }

  lemma {:induction false} DigitRoundTrip(n: nat)
    requires n < 16
    ensures DigitValue(Digit(n)) == Some(n)
    ensures '0' <= Digit(n) <= '9' || 'a' <= Digit(n) <= 'f'
  {
  }

  /** One byte back from its two digits. */
  lemma {:induction false} UnhexByte(c: char, t: string, rest: string)
    requires (c as int) < 256 && Unhex(t) == Some(rest)
    ensures Unhex([Digit(c as int / 16), Digit(c as int % 16)] + t) == Some([c] + rest)
  {
    var high, low := c as int / 16, c as int % 16;
    var text := [Digit(high), Digit(low)] + t;
    DigitRoundTrip(high);
    DigitRoundTrip(low);
    assert text[2..] == t;
    assert (16 * high + low) as char == c;
  }

  lemma {:induction false} HexIsText(s: string)
    requires Bytes(s)
    ensures HexText(Hex(s)) && |Hex(s)| == 2 * |s|
  {
    if s != "" {
      HexIsText(s[1..]);
      DigitRoundTrip(s[0] as int / 16);
      DigitRoundTrip(s[0] as int % 16);
    }
  }

  lemma {:induction false} HexRoundTrip(s: string)
    requires Bytes(s)
    ensures Unhex(Hex(s)) == Some(s) && HexText(Hex(s)) && (s != "" ==> Hex(s) != "")
  {
    HexIsText(s);
    assert s == "" ==> Unhex(Hex(s)) == Some(s);
    assert s != "" ==> Hex(s) == [Digit(s[0] as int / 16), Digit(s[0] as int % 16)] + Hex(s[1..]);
    hide Unhex, Hex, HexText, Digit;
    if s != "" {
      HexRoundTrip(s[1..]);
      UnhexByte(s[0], Hex(s[1..]), s[1..]);
      assert [s[0]] + s[1..] == s;
    }
  }

  predicate ByteIDs(ids: seq<string>) {
    forall k :: 0 <= k < |ids| ==> Bytes(ids[k])
  }

  function HexAll(ids: seq<string>): seq<string>
    requires ByteIDs(ids)
  {
    seq(|ids|, i requires 0 <= i < |ids| => Hex(ids[i]))
  }

  /** All parts decoded, or None when one is blank or not base16. */
  function UnhexAll(parts: seq<string>): Option<seq<string>> {
    if parts == [] then Some([])
    else
      var last := parts[|parts| - 1];
      match (UnhexAll(parts[..|parts| - 1]), Unhex(last))
      case (Some(ids), Some(id)) => if last == "" || id == "" then None else Some(ids + [id])
      case _ => None
  }


  lemma {:induction false} NormalKeepsBytes(ids: seq<string>)
    requires ByteIDs(ids)
    ensures ByteIDs(Normal(ids))
  {
    NormalForm(ids);
    forall n | 0 <= n < |Normal(ids)| ensures Bytes(Normal(ids)[n]) {
      assert Normal(ids)[n] in Normal(ids);
      var k :| 0 <= k < |ids| && Trim(ids[k]) == Normal(ids)[n];
      TrimKeepsBytes(ids[k]);
    }
  }

  lemma {:induction false} TrimKeepsBytes(s: string)
    requires Bytes(s)
    ensures Bytes(Trim(s))
  {
    TrimLeftSuffix(s);
    TrimRightPrefix(TrimLeft(s));
  }

  lemma {:induction false} TrimLeftSuffix(s: string)
    ensures |TrimLeft(s)| <= |s| && TrimLeft(s) == s[|s| - |TrimLeft(s)|..]
  {
    if s != "" && IsSpace(s[0]) { TrimLeftSuffix(s[1..]); }
  }

  lemma {:induction false} TrimRightPrefix(s: string)
    ensures TrimRight(s) <= s
  {
    if s != "" && IsSpace(s[|s| - 1]) { TrimRightPrefix(s[..|s| - 1]); }
  }

  function Encode(ids: seq<string>): string
    requires ByteIDs(Normal(ids))
  {
    if Normal(ids) == [] then FAIL_CLOSED_GROUP else PERSISTED_PREFIX + Join(HexAll(Normal(ids)), '.')
  }

  function Decode(group: string): Option<seq<string>> {
    var text := ToLower(Trim(group));
    if !(PERSISTED_PREFIX <= text) then None
    else
      var payload := text[|PERSISTED_PREFIX|..];
      if payload == "" then None
      else
        match UnhexAll(Split(payload, '.'))
        case None => None
        case Some(ids) => if Normal(ids) == [] then None else Some(Normal(ids))
  }

  lemma {:induction false} UnhexHexAll(ids: seq<string>)
    requires ByteIDs(ids) && "" !in ids
    ensures UnhexAll(HexAll(ids)) == Some(ids)
  {
    if ids != [] {
      var front, last := ids[..|ids| - 1], ids[|ids| - 1];
      assert ids == front + [last];
      assert last in ids && "" !in front;
      UnhexHexAll(front);
      HexRoundTrip(last);
      UnhexAllNext(HexAll(front), Hex(last), front, last);
      assert HexAll(ids) == HexAll(front) + [Hex(last)];
    }
  }

  lemma {:induction false} UnhexAllNext(parts: seq<string>, part: string, ids: seq<string>, id: string)
    requires UnhexAll(parts) == Some(ids) && Unhex(part) == Some(id) && part != "" && id != ""
    ensures UnhexAll(parts + [part]) == Some(ids + [id])
  {
    assert (parts + [part])[..|parts|] == parts;
  }

  lemma {:induction false} JoinedHexText(parts: seq<string>)
    requires parts != [] && forall k :: 0 <= k < |parts| ==> parts[k] != "" && HexText(parts[k])
    ensures Join(parts, '.') != "" && !IsSpace(Join(parts, '.')[|Join(parts, '.')| - 1])
    ensures forall i :: 0 <= i < |Join(parts, '.')| ==> LowerChar(Join(parts, '.')[i]) == Join(parts, '.')[i]
  {
    assert parts[0] != "" && HexText(parts[0]);
    if |parts| > 1 { JoinedHexText(parts[1..]); }
  }

  /** An encoded group is lower-case and has no white space at its ends. */
  lemma {:induction false} EncodedIsStable(ids: seq<string>)
    requires ByteIDs(Normal(ids))
    ensures ToLower(Encode(ids)) == Encode(ids) && Trim(Encode(ids)) == Encode(ids)
  {
    if Normal(ids) != [] {
      HexParts(Normal(ids)) by { NormalIdempotent(ids); }
      JoinedHexText(HexAll(Normal(ids)));
      PrefixedIsStable(Join(HexAll(Normal(ids)), '.'));
    } else {
      TrimIsTrimmed(FAIL_CLOSED_GROUP);
      GroupIsLower();
    }
  }

  lemma {:induction false} GroupIsLower()
    ensures ToLower(FAIL_CLOSED_GROUP) == FAIL_CLOSED_GROUP && ToLower(PERSISTED_PREFIX) == PERSISTED_PREFIX
  {
    forall i | 0 <= i < |FAIL_CLOSED_GROUP| ensures LowerChar(FAIL_CLOSED_GROUP[i]) == FAIL_CLOSED_GROUP[i] {
      var code := FAIL_CLOSED_GROUP[i] as int;
      assert code < 65 || code > 90;
    }
    LowerBoth(FAIL_CLOSED_GROUP, "/v1/");
  }

  lemma {:induction false} LowerBoth(a: string, b: string)
    ensures ToLower(a + b) == ToLower(a) + ToLower(b)
  {
  }

  lemma {:induction false} PrefixedIsStable(text: string)
    requires text != "" && !IsSpace(text[|text| - 1])
    requires forall i :: 0 <= i < |text| ==> LowerChar(text[i]) == text[i]
    ensures ToLower(PERSISTED_PREFIX + text) == PERSISTED_PREFIX + text
    ensures Trim(PERSISTED_PREFIX + text) == PERSISTED_PREFIX + text
  {
    var group := PERSISTED_PREFIX + text;
    GroupIsLower();
    LowerBoth(PERSISTED_PREFIX, text);
    assert ToLower(text) == text;
    assert group[0] == PERSISTED_PREFIX[0] && group[|group| - 1] == text[|text| - 1];
    TrimIsTrimmed(group);
  }

  lemma {:induction false} HexParts(ids: seq<string>)
    requires ByteIDs(ids) && "" !in ids
    ensures forall k :: 0 <= k < |ids| ==> HexAll(ids)[k] != "" && HexText(HexAll(ids)[k]) && '.' !in HexAll(ids)[k]
  {
    forall k | 0 <= k < |ids| ensures HexAll(ids)[k] != "" && HexText(HexAll(ids)[k]) && '.' !in HexAll(ids)[k] {
      assert ids[k] in ids;
      HexRoundTrip(ids[k]);
    }
  }

  /** Decoding an encoded list gives back its normal form, also after the group was lower-cased. */
  lemma {:induction false} EncodingRoundTrip(ids: seq<string>)
    requires ByteIDs(Normal(ids)) && Normal(ids) != []
    ensures Decode(Encode(ids)) == Some(Normal(ids))
    ensures Decode(ToLower(Encode(ids))) == Some(Normal(ids))
  {
    var normal := Normal(ids);
    EncodedIsStable(ids);
    NormalIdempotent(ids);
    HexParts(normal);
    SplitJoin(HexAll(normal), '.');
    UnhexHexAll(normal);
    JoinedHexText(HexAll(normal));
    var group := Encode(ids);
    assert group[|PERSISTED_PREFIX|..] == Join(HexAll(normal), '.');
  }

  /** Two lists share an encoding exactly when they share a normal form. */
  lemma {:induction false} EncodingInjective(left: seq<string>, right: seq<string>)
    requires ByteIDs(Normal(left)) && ByteIDs(Normal(right))
    ensures Encode(left) == Encode(right) <==> Normal(left) == Normal(right)
  {
    if Normal(left) != [] { EncodingRoundTrip(left); }
    if Normal(right) != [] { EncodingRoundTrip(right); }
    FailClosedIsNoList();
  }

  lemma {:induction false} FailClosedIsNoList()
    ensures Decode(FAIL_CLOSED_GROUP) == None
  {
  }

  method EncodeAuthIDsGroup(ids: seq<string>) returns (group: string)
    requires ByteIDs(ids)
    ensures ByteIDs(Normal(ids)) && group == Encode(ids)
  {
    NormalKeepsBytes(ids);
    var normal := NormalizeAuthIDs(ids);
    var parts: seq<string> := [];
    for n := 0 to |normal|
      invariant parts == HexAll(normal)[..n]
    {
      parts := parts + [Hex(normal[n])];
    }
    if |parts| == 0 {
      return FAIL_CLOSED_GROUP;
    }
    assert parts == HexAll(normal);
    group := PERSISTED_PREFIX + Join(parts, '.');
  }

  method DecodeAuthIDsGroup(group: string) returns (r: Option<seq<string>>)
    ensures r == Decode(group)
  {
    var text := ToLower(Trim(group));
    if !(PERSISTED_PREFIX <= text) {
      return None;
    }
    var payload := text[|PERSISTED_PREFIX|..];
    if payload == "" {
      return None;
    }
    var parts := Split(payload, '.');
    var ids: seq<string> := [];
    for n := 0 to |parts|
      invariant UnhexAll(parts[..n]) == Some(ids)
    {
      assert parts[..n + 1][..n] == parts[..n];
      var id := Unhex(parts[n]);
      if parts[n] == "" || id.None? || id.value == "" {
        UnhexAllStops(parts, n + 1);
        return None;
      }
      ids := ids + [id.value];
    }
    assert parts[..|parts|] == parts;
    var normal := NormalizeAuthIDs(ids);
    return if normal == [] then None else Some(normal);
  }

  lemma {:induction false} UnhexAllStops(parts: seq<string>, n: nat)
    requires n <= |parts| && UnhexAll(parts[..n]).None?
    ensures UnhexAll(parts).None?
    decreases |parts| - n
  {
    if n < |parts| {
      assert parts[..n + 1][..n] == parts[..n];
      UnhexAllStops(parts, n + 1);
    } else {
      assert parts[..n] == parts;
    }
  }

  lemma {:induction false} UnhexedBytes(t: string)
    ensures Unhex(t).Some? ==> Bytes(Unhex(t).value)
  {
    if |t| >= 2 { UnhexedBytes(t[2..]); }
  }

  lemma {:induction false} UnhexedAllBytes(parts: seq<string>)
    ensures UnhexAll(parts).Some? ==> ByteIDs(UnhexAll(parts).value)
  {
    if parts != [] {
      UnhexedAllBytes(parts[..|parts| - 1]);
      UnhexedBytes(parts[|parts| - 1]);
    }
  }

  lemma {:induction false} DecodedIsNormal(group: string)
    ensures Decode(group).Some? ==> ByteIDs(Decode(group).value) && Normal(Decode(group).value) == Decode(group).value
  {
    if Decode(group).Some? {
      var parts := Split(ToLower(Trim(group))[|PERSISTED_PREFIX|..], '.');
      UnhexedAllBytes(parts);
      NormalKeepsBytes(UnhexAll(parts).value);
      NormalIdempotent(UnhexAll(parts).value);
    }
  }

  /** The two persisted fields that restrict a binding's credentials. */
  datatype Stored = Stored(group: string, authIDs: seq<string>)

  predicate IsAuthIDsGroup(group: string) {
    var text := ToLower(Trim(group));
    text == FAIL_CLOSED_GROUP || PERSISTED_PREFIX <= text
  }

  /** The restriction part of binding normalisation; None is a rejected binding. */
  function Normalize(stored: Stored): (r: Option<Stored>)
    requires ByteIDs(stored.authIDs)
  {
    NormalKeepsBytes(stored.authIDs);
    NormalIdempotent(stored.authIDs);
    var group := ToLower(Trim(stored.group));
    DecodedIsNormal(group);
    var given := Normal(stored.authIDs);
    var recovered := Decode(group);
    var ids := if given == [] && recovered.Some? then recovered.value else given;
    if ids != [] then
      if group != "" && !IsAuthIDsGroup(group) then None else Some(Stored(Encode(ids), ids))
    else if group == "" then None
    else if CLASSIFY_PREFIX <= group then
      var suffix := Trim(group[|CLASSIFY_PREFIX|..]);
      if suffix == "" then None else Some(Stored(CLASSIFY_PREFIX + suffix, []))
    else Some(Stored(group, []))
  }

  /** Loading an encoded group without its list. */
  lemma {:induction false} LoadEncoded(ids: seq<string>)
    requires ByteIDs(ids) && ids != [] && Normal(ids) == ids
    ensures Normalize(Stored(Encode(ids), [])) == Some(Stored(Encode(ids), ids))
  {
    EncodedIsStable(ids);
    EncodingRoundTrip(ids);
    assert Normal([]) == [];
  }

  lemma {:induction false} NormalizedList(stored: Stored)
    requires ByteIDs(stored.authIDs) && Normalize(stored).Some? && Normalize(stored).value.authIDs != []
    ensures
      var saved := Normalize(stored).value;
      ByteIDs(saved.authIDs) && Normal(saved.authIDs) == saved.authIDs && saved.group == Encode(saved.authIDs)
  {
    NormalIdempotent(stored.authIDs);
    DecodedIsNormal(ToLower(Trim(stored.group)));
    NormalKeepsBytes(stored.authIDs);
  }

  /**
   An older release lower-cases the group and drops the auth_ids field when it rewrites the file.
   Loading that file restores the very restriction that was saved.
   */
  lemma {:induction false} LegacyRewriteRecovers(stored: Stored)
    requires ByteIDs(stored.authIDs) && Normalize(stored).Some? && Normalize(stored).value.authIDs != []
    ensures Normalize(Stored(ToLower(Normalize(stored).value.group), [])) == Normalize(stored)
  {
    var saved := Normalize(stored).value;
    NormalizedList(stored);
    EncodedIsStable(saved.authIDs);
    LoadEncoded(saved.authIDs);
  }

  /** Normalising a normalised restriction changes nothing. */
  lemma {:induction false} NormalizeIdempotent(stored: Stored)
    requires ByteIDs(stored.authIDs) && Normalize(stored).Some?
    ensures ByteIDs(Normalize(stored).value.authIDs) && Normalize(Normalize(stored).value) == Normalize(stored)
  {
    var saved := Normalize(stored).value;
    if saved.authIDs != [] {
      ListIdempotent(stored);
    } else {
      GroupStable(stored.group);
      GroupIdempotent(stored);
    }
  }

  lemma {:induction false} ListIdempotent(stored: Stored)
    requires ByteIDs(stored.authIDs) && Normalize(stored).Some? && Normalize(stored).value.authIDs != []
    ensures ByteIDs(Normalize(stored).value.authIDs) && Normalize(Normalize(stored).value) == Normalize(stored)
  {
    var saved := Normalize(stored).value;
    NormalIdempotent(stored.authIDs);
    DecodedIsNormal(ToLower(Trim(stored.group)));
    NormalKeepsBytes(stored.authIDs);
    EncodedIsStable(saved.authIDs);
  }

  lemma {:induction false} GroupStable(raw: string)
    ensures var group := ToLower(Trim(raw)); ToLower(Trim(group)) == group && Lower(group) && Trimmed(group)
  {
    var group := ToLower(Trim(raw));
    TrimIsTrimmed(raw);
    assert Trimmed(group);
    TrimIsTrimmed(group);
    LowerTwice(Trim(raw));
  }

  /** A classify group keeps its trimmed suffix. */
  lemma {:induction false} ClassifyStable(group: string)
    requires Lower(group) && Trimmed(group) && CLASSIFY_PREFIX <= group && Trim(group[|CLASSIFY_PREFIX|..]) != ""
    ensures
      var suffix := Trim(group[|CLASSIFY_PREFIX|..]);
      var saved := CLASSIFY_PREFIX + suffix;
      && ToLower(Trim(saved)) == saved && saved[|CLASSIFY_PREFIX|..] == suffix && Trim(suffix) == suffix
      && Decode(saved) == None && CLASSIFY_PREFIX <= saved
  {
    hide Decode, TrimLeft, TrimRight;
    var rest := group[|CLASSIFY_PREFIX|..];
    var suffix := Trim(rest);
    var saved := CLASSIFY_PREFIX + suffix;
    PartLower(group, |CLASSIFY_PREFIX|, |group|);
    assert group[|CLASSIFY_PREFIX|..|group|] == rest;
    TrimLower(rest);
    TrimIsTrimmed(rest);
    TrimIsTrimmed(suffix);
    assert saved[0] == 'c' && saved[|saved| - 1] == suffix[|suffix| - 1];
    TrimIsTrimmed(saved);
    PrefixedLower(suffix);
    NotPersisted(saved);
  }

  lemma {:induction false} NotPersisted(group: string)
    requires ToLower(Trim(group)) == group && CLASSIFY_PREFIX <= group
    ensures Decode(group) == None
  {
    assert group[0] == CLASSIFY_PREFIX[0] == 'c' && PERSISTED_PREFIX[0] == '@';
    assert !(PERSISTED_PREFIX <= group);
  }

  lemma {:induction false} PrefixedLower(suffix: string)
    requires Lower(suffix)
    ensures ToLower(CLASSIFY_PREFIX + suffix) == CLASSIFY_PREFIX + suffix
  {
    var saved := CLASSIFY_PREFIX + suffix;
    forall i | 0 <= i < |saved| ensures LowerChar(saved[i]) == saved[i] {
      var k := i - |CLASSIFY_PREFIX|;
      if k >= 0 { assert saved[i] == suffix[k] == ToLower(suffix)[k]; }
    }
  }

  lemma {:induction false} GroupIdempotent(stored: Stored)
    requires ByteIDs(stored.authIDs) && Normalize(stored).Some? && Normalize(stored).value.authIDs == []
    requires var group := ToLower(Trim(stored.group)); ToLower(Trim(group)) == group && Lower(group) && Trimmed(group)
    ensures Normalize(Normalize(stored).value) == Normalize(stored)
  {
    var group := ToLower(Trim(stored.group));
    assert Normal([]) == [];
    DecodedIsNormal(group);
    if CLASSIFY_PREFIX <= group { ClassifyStable(group); }
  }
}
