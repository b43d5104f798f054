/** Byte strings with Go's order: the comparison behind sort.Strings, trimming and lower-casing. */
module Text {

  /** Go compares strings byte by byte; a proper prefix comes first. */
  predicate Less(a: string, b: string) {
    b != "" && (a == "" || a[0] < b[0] || (a[0] == b[0] && Less(a[1..], b[1..])))
  }

  /** They agree up to a place where the first one ends, or has the smaller byte. */
  predicate PartAt(a: string, b: string, i: nat) {
    i <= |a| && i < |b| && a[..i] == b[..i] && (i == |a| || a[i] < b[i])
  }

  lemma {:induction false} LessExactly(a: string, b: string)
    ensures Less(a, b) <==> exists i :: PartAt(a, b, i)
  {
    if a != "" && b != "" && a[0] == b[0] {
      LessExactly(a[1..], b[1..]);
      if i: nat :| PartAt(a[1..], b[1..], i) {
        assert a[..i + 1] == [a[0]] + a[1..][..i] == [b[0]] + b[1..][..i] == b[..i + 1];
        assert PartAt(a, b, i + 1);
      }
      if i: nat :| PartAt(a, b, i) && i > 0 {
        assert a[1..][..i - 1] == a[..i][1..] == b[..i][1..] == b[1..][..i - 1];
        assert PartAt(a[1..], b[1..], i - 1);
      }
      assert !PartAt(a, b, 0);
    } else {
      assert b != "" && (a == "" || a[0] < b[0]) ==> PartAt(a, b, 0);
      forall i: nat | i > 0 ensures !PartAt(a, b, i) {
        PartHead(a, b, i);
      }
    }
  }

  lemma {:induction false} PartHead(a: string, b: string, i: nat)
    requires i > 0
    ensures PartAt(a, b, i) ==> a != "" && b != "" && a[0] == b[0]
  {
    if PartAt(a, b, i) { assert a[0] == a[..i][0] == b[..i][0]; }
  }

  lemma {:induction false} LessTotal(a: string, b: string)
    ensures a == b || Less(a, b) || Less(b, a)
  {
    if a != "" && b != "" && a[0] == b[0] {
      LessTotal(a[1..], b[1..]);
      assert a[1..] == b[1..] ==> a == [a[0]] + a[1..] == [b[0]] + b[1..] == b;
    }
  }

  lemma {:induction false} LessAsymmetric(a: string, b: string)
    requires Less(a, b)
    ensures !Less(b, a) && a != b
  {
    if a != "" && a[0] == b[0] {
      LessAsymmetric(a[1..], b[1..]);
    }
  }

  lemma {:induction false} LessTransitive(a: string, b: string, c: string)
    requires Less(a, b) && Less(b, c)
    ensures Less(a, c)
  {
    if a != "" && a[0] == b[0] == c[0] {
      LessTransitive(a[1..], b[1..], c[1..]);
    }
  }

  predicate Increasing(s: seq<string>) {
    forall i, j :: 0 <= i < j < |s| ==> Less(s[i], s[j])
  }

  predicate Ascending(s: seq<string>) {
    forall i, j :: 0 <= i < j < |s| ==> !Less(s[j], s[i])
  }

  /** Position of the first element above x; sort.Search over an ascending slice. */
  function FirstAbove(s: seq<string>, x: string): (i: nat)
    ensures i <= |s|
    ensures i < |s| ==> Less(x, s[i])
    ensures forall k :: 0 <= k < i ==> !Less(x, s[k])
  {
    if s == [] || Less(x, s[0]) then 0
    else
      var i := 1 + FirstAbove(s[1..], x);
      assert forall k :: 0 < k < i ==> s[k] == s[1..][k - 1];
      i
  }

  function Insert(s: seq<string>, x: string): seq<string> {
    var i := FirstAbove(s, x);
    s[..i] + [x] + s[i..]
  }

  function Sorted(s: seq<string>): seq<string> {
    if s == [] then [] else Insert(Sorted(s[..|s| - 1]), s[|s| - 1])
  }

  lemma {:induction false} InsertKeepsOrder(s: seq<string>, x: string)
    requires Ascending(s)
    ensures Ascending(Insert(s, x))
    ensures multiset(Insert(s, x)) == multiset(s) + multiset{x}
  {
    hide Less, FirstAbove;
    var i := FirstAbove(s, x);
    assert s == s[..i] + s[i..];
    assert multiset(Insert(s, x)) == multiset(s[..i]) + multiset{x} + multiset(s[i..]);
    forall k | i <= k < |s| ensures !Less(s[k], x) {
      StaysAbove(s, x, i, k);
    }
  }

  lemma {:induction false} NotBelow(x: string, y: string)
    requires !Less(x, y)
    ensures y == x || Less(y, x)
  {
    LessTotal(x, y);
  }

  lemma {:induction false} StaysAbove(s: seq<string>, x: string, i: nat, k: nat)
    requires Ascending(s) && i <= k < |s| && Less(x, s[i])
    ensures !Less(s[k], x)
  {
    if Less(s[k], x) {
      LessTransitive(s[k], x, s[i]);
      LessAsymmetric(s[k], s[i]);
    }
  }

  lemma {:induction false} SortedIsAscending(s: seq<string>)
    ensures Ascending(Sorted(s))
    ensures multiset(Sorted(s)) == multiset(s)
  {
    if s != [] {
      SortedIsAscending(s[..|s| - 1]);
      InsertKeepsOrder(Sorted(s[..|s| - 1]), s[|s| - 1]);
      assert s == s[..|s| - 1] + [s[|s| - 1]];
    }
  }

  /** The standard library's sort.Strings. */
  method SortStrings(s: seq<string>) returns (r: seq<string>)
    ensures r == Sorted(s)
    ensures Ascending(r) && multiset(r) == multiset(s)
  {
    r := [];
    for n := 0 to |s|
      invariant r == Sorted(s[..n])
    {
      assert s[..n + 1][..n] == s[..n];
      var i := 0;
      while i < |r| && !Less(s[n], r[i])
        invariant 0 <= i <= |r|
        invariant forall k :: 0 <= k < i ==> !Less(s[n], r[k])
      {
        i := i + 1;
      }
      assert i == FirstAbove(r, s[n]);
      r := r[..i] + [s[n]] + r[i..];
    }
    assert s[..|s|] == s;
    SortedIsAscending(s);
  }

  /** Two increasing lists with the same members are the same list. */
  lemma {:induction false} IncreasingUnique(s: seq<string>, t: seq<string>)
    requires Increasing(s) && Increasing(t)
    requires forall x :: x in s <==> x in t
    ensures s == t
  {
    var first := if t == [] then "" else t[0];
    assert t != [] ==> first in t;
    if s != [] {
      assert s[0] in t && t[0] in s;
      HeadIsLeast(s, t[0]);
      HeadIsLeast(t, s[0]);
      if s[0] != t[0] { LessAsymmetric(s[0], t[0]); }
      forall x ensures x in s[1..] <==> x in t[1..] {
        TailMembers(s, x);
        TailMembers(t, x);
      }
      IncreasingUnique(s[1..], t[1..]);
      assert s == [s[0]] + s[1..] && t == [t[0]] + t[1..];
    }
  }

  lemma {:induction false} HeadIsLeast(s: seq<string>, x: string)
    requires Increasing(s) && x in s
    ensures s[0] == x || Less(s[0], x)
  {
    var i :| 0 <= i < |s| && s[i] == x;
  }

  lemma {:induction false} TailMembers(s: seq<string>, x: string)
    requires s != [] && Increasing(s)
    ensures x in s[1..] <==> x in s && x != s[0]
  {
    if x in s[1..] {
      var i :| 0 <= i < |s[1..]| && s[1..][i] == x;
      LessAsymmetric(s[0], s[i + 1]);
    }
    if x in s && x != s[0] {
      var i :| 0 <= i < |s| && s[i] == x;
      assert s[1..][i - 1] == x;
    }
  }

  /** strings.Join with a separator of one character. */
  function Join(parts: seq<string>, sep: char): string {
    if parts == [] then "" else if |parts| == 1 then parts[0] else parts[0] + [sep] + Join(parts[1..], sep)
  }

  function CharIndex(s: string, c: char): (i: nat)
    ensures i <= |s| && (i < |s| ==> s[i] == c) && forall k :: 0 <= k < i ==> s[k] != c
  {
    if s == "" || s[0] == c then 0 else 1 + CharIndex(s[1..], c)
  }

  /** strings.Split at a separator of one character. */
  function Split(s: string, sep: char): seq<string> {
    var i := CharIndex(s, sep);
    if i == |s| then [s] else [s[..i]] + Split(s[i + 1..], sep)
  }

  lemma {:induction false} SplitFirst(a: string, sep: char, rest: string)
    requires sep !in a
    ensures Split(a, sep) == [a] && Split(a + [sep] + rest, sep) == [a] + Split(rest, sep)
  {
    var text := a + [sep] + rest;
    assert text[|a|] == sep && text[..|a|] == a && text[|a| + 1..] == rest;
    assert forall k :: 0 <= k < |a| ==> text[k] == a[k] && a[k] in a;
    assert CharIndex(text, sep) == |a|;
  }

  lemma {:induction false} SplitJoin(parts: seq<string>, sep: char)
    requires parts != [] && forall k :: 0 <= k < |parts| ==> sep !in parts[k]
    ensures Split(Join(parts, sep), sep) == parts
  {
    var rest := if |parts| > 1 then Join(parts[1..], sep) else "";
    SplitFirst(parts[0], sep, rest);
    if |parts| > 1 {
      SplitJoin(parts[1..], sep);
    }
    assert parts == [parts[0]] + parts[1..];
    hide Split;
  }

  /** Splitting cuts at every separator and loses nothing else. */
  lemma {:induction false} SplitExactly(s: string, sep: char)
    ensures Join(Split(s, sep), sep) == s && Split(s, sep) != []
    ensures forall k :: 0 <= k < |Split(s, sep)| ==> sep !in Split(s, sep)[k]
    ensures forall k, c :: 0 <= k < |Split(s, sep)| && c in Split(s, sep)[k] ==> c in s
  {
    var i := CharIndex(s, sep);
    if i < |s| {
      var rest := Split(s[i + 1..], sep);
      SplitExactly(s[i + 1..], sep);
      assert s == s[..i] + [sep] + s[i + 1..] && ([s[..i]] + rest)[1..] == rest;
    }
  }

  function TotalLength(values: seq<string>): nat {
    if values == [] then 0 else TotalLength(values[..|values| - 1]) + |values[|values| - 1]|
  }

  predicate IsSpace(c: char) {
    c == ' ' || '\U{09}' <= c <= '\U{0D}'
  }

  function TrimLeft(s: string): string {
    if s != "" && IsSpace(s[0]) then TrimLeft(s[1..]) else s
  }

  function TrimRight(s: string): string {
    if s != "" && IsSpace(s[|s| - 1]) then TrimRight(s[..|s| - 1]) else s
  }

  /** strings.TrimSpace over ASCII white space. */
  function Trim(s: string): string {
    TrimRight(TrimLeft(s))
  }

  predicate Trimmed(s: string) {
    s != "" ==> !IsSpace(s[0]) && !IsSpace(s[|s| - 1])
  }

  lemma {:induction false} TrimRightKeepsHead(s: string)
    requires s != "" && !IsSpace(s[0])
    ensures TrimRight(s) != "" && TrimRight(s)[0] == s[0] && Trimmed(TrimRight(s))
  {
    if IsSpace(s[|s| - 1]) { TrimRightKeepsHead(s[..|s| - 1]); }
  }

  lemma {:induction false} TrimLeftHead(s: string)
    ensures TrimLeft(s) != "" ==> !IsSpace(TrimLeft(s)[0])
  {
    if s != "" && IsSpace(s[0]) { TrimLeftHead(s[1..]); }
  }

  lemma {:induction false} TrimIsTrimmed(s: string)
    ensures Trimmed(Trim(s))
    ensures Trimmed(s) ==> Trim(s) == s
  {
    TrimLeftHead(s);
    if TrimLeft(s) != "" { TrimRightKeepsHead(TrimLeft(s)); }
  }

  function LowerChar(c: char): char {
    if 'A' <= c <= 'Z' then c - 'A' + 'a' else c
  }

  function ToLower(s: string): (r: string)
    ensures |r| == |s|
    ensures forall i :: 0 <= i < |s| ==> r[i] == LowerChar(s[i])
  {
    seq(|s|, i requires 0 <= i < |s| => LowerChar(s[i]))
  }

  const SPACES := " \t\n\U{0B}\U{0C}\r"

  /** The ASCII capitals are the codes from 65 to 90; each small letter is 32 above its capital. */
  lemma {:induction false} LowerExactly(s: string, i: nat)
    requires i < |s|
    ensures |ToLower(s)| == |s|
    ensures ToLower(s)[i] as int == if 65 <= s[i] as int <= 90 then s[i] as int + 32 else s[i] as int
  {
  }

  lemma {:induction false} SpaceExactly(c: char)
    ensures IsSpace(c) <==> c in SPACES
  {
    assert SPACES[0] == ' ' && SPACES[1] == '\t' && SPACES[2] == '\n' && SPACES[3] == '\U{0B}' && SPACES[4] == '\U{0C}'
        && SPACES[5] == '\r';
  }

  predicate Blank(s: string) {
    forall i :: 0 <= i < |s| ==> IsSpace(s[i])
  }

  /** Trimming takes the space off both ends and nothing else. */
  lemma {:induction false} TrimExactly(s: string) returns (left: string, right: string)
    ensures s == left + Trim(s) + right && Blank(left) && Blank(right) && Trimmed(Trim(s))
  {
    var rest: string;
    left, rest := TrimLeftExactly(s);
    right := TrimRightExactly(rest);
    TrimIsTrimmed(s);
    assert left + (Trim(s) + right) == left + Trim(s) + right;
  }

  lemma {:induction false} TrimLeftExactly(s: string) returns (left: string, rest: string)
    ensures s == left + rest && rest == TrimLeft(s) && Blank(left)
  {
    left, rest := "", s;
    if s != "" && IsSpace(s[0]) {
      var more: string;
      more, rest := TrimLeftExactly(s[1..]);
      left := [s[0]] + more;
      Regroup(s, more, rest);
    }
  }

  lemma {:induction false} Regroup(s: string, more: string, rest: string)
    requires s != "" && s[1..] == more + rest
    ensures s == [s[0]] + more + rest
  {
    assert s == [s[0]] + s[1..];
    assert [s[0]] + (more + rest) == [s[0]] + more + rest;
  }

  lemma {:induction false} TrimRightExactly(s: string) returns (right: string)
    ensures s == TrimRight(s) + right && Blank(right)
  {
    right := "";
    if s != "" && IsSpace(s[|s| - 1]) {
      var more := TrimRightExactly(s[..|s| - 1]);
      right := more + [s[|s| - 1]];
      assert s == s[..|s| - 1] + [s[|s| - 1]] == (TrimRight(s) + more) + [s[|s| - 1]] == TrimRight(s) + right;
    }
  }

  predicate Lower(s: string) {
    ToLower(s) == s
  }

  lemma {:induction false} TrimShortens(s: string)
    ensures |Trim(s)| < |s| || Trim(s) == s
    ensures forall c :: c in Trim(s) ==> c in s
  {
    TrimLeftShortens(s);
    TrimRightShortens(TrimLeft(s));
  }

  lemma {:induction false} TrimLeftShortens(s: string)
    ensures |TrimLeft(s)| < |s| || TrimLeft(s) == s
    ensures forall c :: c in TrimLeft(s) ==> c in s
  {
    if s != "" && IsSpace(s[0]) { TrimLeftShortens(s[1..]); }
  }

  lemma {:induction false} TrimRightShortens(s: string)
    ensures |TrimRight(s)| < |s| || TrimRight(s) == s
    ensures forall c :: c in TrimRight(s) ==> c in s
  {
    if s != "" && IsSpace(s[|s| - 1]) { TrimRightShortens(s[..|s| - 1]); }
  }

  lemma {:induction false} LowerChars(s: string)
    ensures Lower(s) <==> forall c :: c in s ==> LowerChar(c) == c
  {
    if forall c :: c in s ==> LowerChar(c) == c {
      assert forall i :: 0 <= i < |s| ==> s[i] in s;
    } else {
      var c :| c in s && LowerChar(c) != c;
      var i :| 0 <= i < |s| && s[i] == c;
      assert ToLower(s)[i] != s[i];
    }
  }

  lemma {:induction false} LowerTwice(s: string)
    ensures Lower(ToLower(s))
  {
  }

  lemma {:induction false} TrimLower(s: string)
    requires Lower(s)
    ensures Lower(Trim(s))
  {
    LowerChars(s);
    LowerChars(Trim(s));
    TrimShortens(s);
  }

  lemma {:induction false} PartLower(s: string, i: nat, j: nat)
    requires Lower(s) && i <= j <= |s|
    ensures Lower(s[i..j])
  {
    forall k | 0 <= k < j - i ensures ToLower(s[i..j])[k] == s[i..j][k] {
      assert s[i..j][k] == s[i + k] == ToLower(s)[i + k];
    }
  }
}
