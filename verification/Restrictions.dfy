/**
 What the persisted form of a restriction means, read from the text: which groups hold a list of auth IDs, and which
 group and list make a restriction.
 */
module Restrictions {
  import opened Options
  import opened Text
  import opened AuthIDs
  import opened Bindings

  // ---------------------------------------------------------------------------------- base16

  lemma {:induction false} DigitExactly(c: char, n: nat)
    requires n < 16
    ensures DigitValue(c) == Some(n) <==> LowerChar(c) == Digit(n)
    ensures DigitValue(c).Some? ==> DigitValue(c).value < 16
  {
  }

  /** A text is decoded to s just if it is s in base16, in whatever letter case. */
  lemma {:induction false} UnhexExactly(t: string, s: string)
    ensures Unhex(t) == Some(s) <==> Bytes(s) && ToLower(t) == Hex(s)
  {
    if Bytes(s) { HexIsText(s); }
    UnhexedBytes(t);
    if |t| >= 2 && s != "" && Bytes(s) {
      var b := s[0] as int;
      UnhexExactly(t[2..], s[1..]);
      DigitExactly(t[0], b / 16);
      DigitExactly(t[1], b % 16);
      PairExactly(t, s);
      PairsEqual(t, s);
    }
  }

  lemma {:induction false} PairsEqual(t: string, s: string)
    requires |t| >= 2 && s != "" && Bytes(s)
    ensures ToLower(t) == Hex(s) <==>
            && LowerChar(t[0]) == Digit(s[0] as int / 16) && LowerChar(t[1]) == Digit(s[0] as int % 16)
            && ToLower(t[2..]) == Hex(s[1..])
  {
    var b := s[0] as int;
    var first, second := [Digit(b / 16), Digit(b % 16)], [LowerChar(t[0]), LowerChar(t[1])];
    assert Hex(s) == first + Hex(s[1..]);
    assert ToLower(t) == second + ToLower(t[2..]);
    hide *;
    HeadsEqual(first, Hex(s[1..]), second, ToLower(t[2..]));
  }

  lemma {:induction false} HeadsEqual(a: string, rest: string, b: string, tail: string)
    requires |a| == |b| == 2
    ensures b + tail == a + rest <==> b[0] == a[0] && b[1] == a[1] && tail == rest
  {
    if b + tail == a + rest {
      assert tail == (b + tail)[2..] == (a + rest)[2..] == rest;
      assert b[0] == (b + tail)[0] && b[1] == (b + tail)[1];
    }
  }

  lemma {:induction false} PairExactly(t: string, s: string)
    requires |t| >= 2 && s != "" && Bytes(s)
    ensures Unhex(t) == Some(s) <==>
            && DigitValue(t[0]) == Some(s[0] as int / 16) && DigitValue(t[1]) == Some(s[0] as int % 16)
            && Unhex(t[2..]) == Some(s[1..])
  {
    DigitExactly(t[0], 0);
    DigitExactly(t[1], 0);
    assert s == [s[0]] + s[1..];
    match (DigitValue(t[0]), DigitValue(t[1]), Unhex(t[2..])) {
      case (Some(high), Some(low), Some(rest)) =>
        assert Unhex(t) == Some([(16 * high + low) as char] + rest);
        assert ((16 * high + low) as char) as int == 16 * high + low;
      case _ =>
    }
  }

  // ------------------------------------------------------------------------- groups that hold a list

  /** But for case and outer space the group is the prefix and the list's base16 texts, joined by dots. */
  ghost predicate HoldsList(group: string, list: seq<string>) {
    && list != [] && ByteIDs(list) && "" !in list
    && ToLower(Trim(group)) == PERSISTED_PREFIX + Join(HexAll(list), '.')
  }

  lemma {:induction false} PartsExactly(parts: seq<string>, list: seq<string>)
    requires forall k :: 0 <= k < |parts| ==> Lower(parts[k])
    ensures UnhexAll(parts) == Some(list) <==> ByteIDs(list) && "" !in list && parts == HexAll(list)
  {
    if parts == [] {
      if list != [] && ByteIDs(list) { assert |HexAll(list)| > 0; }
    } else if list != [] {
      var front, last := parts[..|parts| - 1], parts[|parts| - 1];
      var ids, id := list[..|list| - 1], list[|list| - 1];
      PartsExactly(front, ids);
      UnhexExactly(last, id);
      assert parts == front + [last] && list == ids + [id];
      PartsNext(front, last, ids, id);
      assert "" !in list <==> "" !in ids && id != "";
      hide UnhexAll, Hex, HexAll, ByteIDs, Bytes;
    }
  }

  lemma {:induction false} PartsNext(front: seq<string>, last: string, ids: seq<string>, id: string)
    ensures UnhexAll(front + [last]) == Some(ids + [id]) <==>
            UnhexAll(front) == Some(ids) && Unhex(last) == Some(id) && last != "" && id != ""
    ensures ByteIDs(ids + [id]) <==> ByteIDs(ids) && Bytes(id)
    ensures ByteIDs(ids) && Bytes(id) ==>
            (front + [last] == HexAll(ids + [id]) <==> front == HexAll(ids) && last == Hex(id))
    ensures Bytes(id) && id != "" ==> Hex(id) != ""
  {
    var parts, list := front + [last], ids + [id];
    assert parts[..|front|] == front && list[..|ids|] == ids;
    assert list[|ids|] == id && forall k :: 0 <= k < |ids| ==> list[k] == ids[k];
    if ByteIDs(ids) && Bytes(id) {
      assert HexAll(list) == HexAll(ids) + [Hex(id)];
      assert (HexAll(ids) + [Hex(id)])[..|ids|] == HexAll(ids);
      HexIsText(id);
    }
  }

  /** A group is decoded to the normal form of the list it holds, and to none if it holds none or only blank IDs. */
  lemma {:induction false} DecodeExactly(group: string)
    ensures forall list :: HoldsList(group, list) ==>
              Decode(group) == if Normal(list) == [] then None else Some(Normal(list))
    ensures Decode(group).Some? ==> exists list :: HoldsList(group, list)
  {
    var text := ToLower(Trim(group));
    if PERSISTED_PREFIX <= text {
      var payload := text[|PERSISTED_PREFIX|..];
      assert text == PERSISTED_PREFIX + payload;
      LowerTwice(Trim(group));
      PartLower(text, |PERSISTED_PREFIX|, |text|);
      assert text[|PERSISTED_PREFIX|..|text|] == payload;
      forall list ensures HoldsList(group, list) <==> payload != "" && UnhexAll(Split(payload, '.')) == Some(list) {
        PayloadExactly(payload, list);
        if list != [] && ByteIDs(list) {
          var joined := Join(HexAll(list), '.');
          assert (PERSISTED_PREFIX + joined)[|PERSISTED_PREFIX|..] == joined;
        }
      }
    }
  }

  lemma {:induction false} PayloadExactly(payload: string, list: seq<string>)
    requires Lower(payload)
    ensures payload != "" && UnhexAll(Split(payload, '.')) == Some(list) <==>
            list != [] && ByteIDs(list) && "" !in list && payload == Join(HexAll(list), '.')
  {
    var parts := Split(payload, '.');
    SplitExactly(payload, '.');
    LowerChars(payload);
    forall k | 0 <= k < |parts| ensures Lower(parts[k]) {
      LowerChars(parts[k]);
    }
    PartsExactly(parts, list);
    if list != [] && ByteIDs(list) && "" !in list {
      HexParts(list);
      SplitJoin(HexAll(list), '.');
      JoinedHexText(HexAll(list));
    }
  }

  // ------------------------------------------------------------------------------ loading a binding

  /** The group stands for a list of auth IDs, whether or not it still holds one. */
  predicate Marks(group: string) {
    group == "@access-guard/direct-auth-ids" || PERSISTED_PREFIX <= group
  }

  ghost predicate Recovers(group: string) {
    exists list :: HoldsList(group, list) && Normal(list) != []
  }

  /**
   When a binding's restriction is rejected: a list of IDs beside a group of another kind, neither list nor group, or
   a classification group without a name.
   */
  lemma {:induction false} RejectedExactly(stored: Stored)
    requires ByteIDs(stored.authIDs)
    ensures
      var group, given := ToLower(Trim(stored.group)), Normal(stored.authIDs);
      Normalize(stored) == None <==>
        if given != [] then group != "" && !Marks(group)
        else group == "" || (CLASSIFY_PREFIX <= group && Trim(group[|CLASSIFY_PREFIX|..]) == "")
  {
    var group := ToLower(Trim(stored.group));
    GroupStable(stored.group);
    DecodedIsNormal(group);
    hide Encode, UnhexAll, Normal;
    assert PERSISTED_PREFIX[0] == '@' && CLASSIFY_PREFIX[0] == 'c';
  }

  /** Whatever is accepted: IDs in normal form under the group that encodes them, or no IDs. */
  lemma {:induction false} AcceptedIsEncoded(stored: Stored)
    requires ByteIDs(stored.authIDs) && Normalize(stored).Some? && Normalize(stored).value.authIDs != []
    ensures
      var saved := Normalize(stored).value;
      ByteIDs(Normal(saved.authIDs)) && saved.group == Encode(saved.authIDs)
  {
    NormalizedList(stored);
  }

  /** IDs that are given are kept, whatever the group holds; else those that the group holds. */
  lemma {:induction false} AcceptedIDsExactly(stored: Stored)
    requires ByteIDs(stored.authIDs) && Normalize(stored).Some?
    ensures
      var saved, group, given := Normalize(stored).value, ToLower(Trim(stored.group)), Normal(stored.authIDs);
      && (given != [] ==> saved.authIDs == given)
      && (given == [] ==> forall list :: HoldsList(group, list) ==> saved.authIDs == Normal(list))
      && (given == [] && !Recovers(group) ==> saved.authIDs == [])
  {
    var group := ToLower(Trim(stored.group));
    DecodeExactly(group);
    hide HoldsList, Decode, Encode, Normal;
  }

  /**
   Without IDs the group stays, a classification group with its name trimmed. So a marker whose list is lost stays a
   marker, and names no credential.
   */
  lemma {:induction false} AcceptedGroupExactly(stored: Stored)
    requires ByteIDs(stored.authIDs) && Normalize(stored).Some? && Normalize(stored).value.authIDs == []
    ensures
      var saved, group := Normalize(stored).value, ToLower(Trim(stored.group));
      && saved.group == (if CLASSIFY_PREFIX <= group then CLASSIFY_PREFIX + Trim(group[|CLASSIFY_PREFIX|..]) else group)
      && (Marks(group) ==> Marks(saved.group))
  {
    DecodedIsNormal(ToLower(Trim(stored.group)));
    assert PERSISTED_PREFIX[0] == '@' && CLASSIFY_PREFIX[0] == 'c';
    hide Decode, Encode;
  }

  /** No IDs are encoded as the bare marker. */
  lemma {:induction false} NoneIsBareMarker(ids: seq<string>)
    requires forall i :: 0 <= i < |ids| ==> Trim(ids[i]) == ""
    ensures ByteIDs(Normal(ids)) && Encode(ids) == "@access-guard/direct-auth-ids"
  {
    NormalForm(ids);
    var first := if Normal(ids) == [] then "" else Normal(ids)[0];
    assert first in Normal(ids) ==> Names(ids, first);
  }

  // ------------------------------------------------------------------------- the policy's restrictions

  /** How a restriction is written to be normalised: IDs beside no group, or a group without IDs. */
  function Written(r: Restriction): Stored {
    match r
    case ByAuths(ids) => Stored("", ids)
    case ByGroup(Tier(name)) => Stored(name, [])
    case ByGroup(Classify(suffix)) => Stored(CLASSIFY_PREFIX + suffix, [])
  }

  /** In the form in which bindings and the log carry it. */
  predicate Carried(r: Restriction) {
    match r
    case ByAuths(ids) => ByteIDs(ids) && Normal(ids) == ids
    case ByGroup(Tier(name)) =>
      Lower(name) && Trimmed(name) && !(CLASSIFY_PREFIX <= name) && !(PERSISTED_PREFIX <= name)
    case ByGroup(Classify(suffix)) => Lower(suffix) && Trimmed(suffix)
  }

  /** Normalisation accepts a restriction just if it names a credential, a tier or a classification group. */
  lemma {:induction false} AcceptableExactly(r: Restriction)
    requires Carried(r)
    ensures ByteIDs(Written(r).authIDs)
    ensures Acceptable(r) <==> Normalize(Written(r)).Some?
    ensures Acceptable(r) && r.ByGroup? ==> Normalize(Written(r)) == Some(Written(r))
    ensures Acceptable(r) && r.ByAuths? ==> Normalize(Written(r)).value.authIDs == r.ids
  {
    assert Normal([]) == [];
    match r
    case ByAuths(ids) => assert Decode("") == None;
    case ByGroup(Tier(name)) =>
      TrimIsTrimmed(name);
      assert Decode(name) == None;
    case ByGroup(Classify(suffix)) => ClassifyWritten(suffix);
  }

  lemma {:induction false} ClassifyWritten(suffix: string)
    requires Lower(suffix) && Trimmed(suffix)
    ensures
      var group := ToLower(Trim(CLASSIFY_PREFIX + suffix));
      && group == CLASSIFY_PREFIX + suffix && Trim(suffix) == suffix && Decode(group) == None
      && group[|CLASSIFY_PREFIX|..] == suffix
  {
    var group := CLASSIFY_PREFIX + suffix;
    PrefixedLower(suffix);
    TrimIsTrimmed(suffix);
    assert group[0] == 'c' && group[|group| - 1] == if suffix == "" then ':' else suffix[|suffix| - 1];
    TrimIsTrimmed(group);
    NotPersisted(group);
  }
}
