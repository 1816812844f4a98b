// String helpers shared by the model: prefix tests, trimming, searching,
// splitting and joining. Strings are sequences of characters; the model does
// not distinguish bytes from characters (see README, "Left out").
module Text {

  /** ASCII white space: space, tab, newline, vertical tab, form feed, carriage return. */
  predicate IsSpace(c: char) {
    c == ' ' || c == '\t' || c == '\n' || c == '\r' || c == '\U{000B}' || c == '\U{000C}'
  }

  predicate IsDigit(c: char) { '0' <= c <= '9' }

  predicate IsAsciiLetter(c: char) { ('a' <= c <= 'z') || ('A' <= c <= 'Z') }

  predicate StartsWith(s: string, p: string) {
    |p| <= |s| && s[..|p|] == p
  }

  predicate EndsWith(s: string, p: string) {
    |p| <= |s| && s[|s| - |p|..] == p
  }

  /** Go's strings.TrimPrefix and Python's removeprefix. */
  function TrimPrefix(s: string, p: string): (r: string)
    ensures StartsWith(s, p) ==> p + r == s
    ensures !StartsWith(s, p) ==> r == s
  {
    if StartsWith(s, p) then s[|p|..] else s
  }

  function TrimLeft(s: string): (r: string)
    ensures |r| <= |s|
    ensures r != [] ==> !IsSpace(r[0])
  {
    if s != [] && IsSpace(s[0]) then TrimLeft(s[1..]) else s
  }

  /** Trimming on the left removes a prefix of white space. */
  lemma {:induction false} TrimLeftDrops(s: string)
    ensures TrimLeft(s) == s[|s| - |TrimLeft(s)|..]
    ensures forall i :: 0 <= i < |s| - |TrimLeft(s)| ==> IsSpace(s[i])
    decreases |s|
  {
    if s != [] && IsSpace(s[0]) {
      TrimLeftDrops(s[1..]);
      assert s[1..][|s| - 1 - |TrimLeft(s)|..] == s[|s| - |TrimLeft(s)|..];
      assert forall i :: 1 <= i < |s| - |TrimLeft(s)| ==> s[1..][i - 1] == s[i];
    }
  }

  function TrimRight(s: string): (r: string)
    ensures |r| <= |s|
    ensures r != [] ==> !IsSpace(r[|r| - 1])
  {
    if s != [] && IsSpace(s[|s| - 1]) then TrimRight(s[..|s| - 1]) else s
  }

  /** Trimming on the right removes a suffix of white space. */
  lemma {:induction false} TrimRightDrops(s: string)
    ensures TrimRight(s) == s[..|TrimRight(s)|]
    ensures forall i :: |TrimRight(s)| <= i < |s| ==> IsSpace(s[i])
    decreases |s|
  {
    if s != [] && IsSpace(s[|s| - 1]) {
      TrimRightDrops(s[..|s| - 1]);
      assert s[..|s| - 1][..|TrimRight(s)|] == s[..|TrimRight(s)|];
    }
  }

  /** Go's strings.TrimSpace and Python's str.strip(). */
  function TrimSpace(s: string): (r: string)
    ensures |r| <= |s|
    ensures r != [] ==> !IsSpace(r[0]) && !IsSpace(r[|r| - 1])
  {
    var l := TrimLeft(s);
    TrimRightDrops(l);
    TrimRight(l)
  }

  /** Trimming leaves nothing exactly when the text is all white space. */
  lemma TrimSpaceBlank(s: string)
    ensures (forall i :: 0 <= i < |s| ==> IsSpace(s[i])) <==> TrimSpace(s) == []
  {
    var l := TrimLeft(s);
    var r := TrimRight(l);
    TrimLeftDrops(s);
    TrimRightDrops(l);
    assert r == [] ==> forall i :: 0 <= i < |s| ==> IsSpace(s[i]) by {
      if r == [] {
        assert l == [];
      }
    }
    assert r != [] ==> exists i :: 0 <= i < |s| && !IsSpace(s[i]) by {
      if r != [] { assert l[0] == s[|s| - |l|]; }
    }
  }

  /** `pat` occurs in `s` at position `i`. */
  predicate OccursAt(s: string, pat: string, i: int) {
    0 <= i && i + |pat| <= |s| && s[i..i + |pat|] == pat
  }

  /** Python's `pat in s` and Go's strings.Contains. */
  predicate Contains(s: string, pat: string) {
    exists i :: 0 <= i <= |s| - |pat| && OccursAt(s, pat, i)
  }

  /** A text that does not contain a one-character pattern holds no such character. */
  lemma CharAbsent(s: string, c: char)
    requires !Contains(s, [c])
    ensures c !in s
  {
    forall i | 0 <= i < |s| ensures s[i] != c {
      assert !OccursAt(s, [c], i);
      assert s[i..i + 1] == [s[i]];
    }
  }

  /** The first position of `pat` in `s`, or -1; Go's strings.Index. */
  function IndexOf(s: string, pat: string): (r: int)
    ensures r == -1 || 0 <= r <= |s| - |pat|
    ensures r >= 0 ==> OccursAt(s, pat, r)
    ensures forall i :: 0 <= i && (r < 0 || i < r) ==> !OccursAt(s, pat, i)
    ensures r < 0 <==> !Contains(s, pat)
    decreases |s|
  {
    if |s| < |pat| then -1
    else if s[..|pat|] == pat then (assert OccursAt(s, pat, 0); 0)
    else
      var k := IndexOf(s[1..], pat);
      OccursShift(s, pat);
      if k < 0 then -1
      else
        assert OccursAt(s, pat, k + 1);
        k + 1
  }

  /** An occurrence at `i >= 1` is an occurrence at `i - 1` in the tail. */
  lemma OccursShift(s: string, pat: string)
    requires s != []
    ensures forall i :: 1 <= i ==> (OccursAt(s, pat, i) <==> OccursAt(s[1..], pat, i - 1))
  {
    forall i | 1 <= i
      ensures OccursAt(s, pat, i) <==> OccursAt(s[1..], pat, i - 1)
    {
      if i + |pat| <= |s| {
        assert s[1..][i - 1..i - 1 + |pat|] == s[i..i + |pat|];
      }
    }
  }

  /** The first position of character `c` in `s`, or -1. */
  function IndexOfChar(s: string, c: char): (r: int)
    ensures -1 <= r < |s|
    ensures r >= 0 ==> s[r] == c && c !in s[..r]
    ensures r < 0 <==> c !in s
  {
    if s == [] then -1
    else if s[0] == c then 0
    else
      var k := IndexOfChar(s[1..], c);
      if k < 0 then -1 else (assert s[..k + 1] == [s[0]] + s[1..][..k]; k + 1)
  }

  /** Joining with a separator, as Go's strings.Join and Python's str.join. */
  function Join(parts: seq<string>, sep: string): (r: string)
    ensures parts == [] ==> r == []
    ensures |parts| == 1 ==> r == parts[0]
  {
    if parts == [] then []
    else if |parts| == 1 then parts[0]
    else parts[0] + sep + Join(parts[1..], sep)
  }

  /** Go's strings.Split and Python's str.split(sep) for a non-empty separator. */
  function Split(s: string, sep: string): (r: seq<string>)
    requires sep != []
    ensures |r| >= 1
    ensures forall k :: 0 <= k < |r| ==> !Contains(r[k], sep)
    decreases |s|
  {
    var i := IndexOf(s, sep);
    if i < 0 then [s]
    else
      var head := s[..i];
      assert !Contains(head, sep) by {
        forall j | OccursAt(head, sep, j) ensures false {
          assert s[j..j + |sep|] == head[j..j + |sep|];
          assert OccursAt(s, sep, j);
        }
      }
      [head] + Split(s[i + |sep|..], sep)
  }

  lemma {:induction false} JoinSplit(s: string, sep: string)
    requires sep != []
    ensures Join(Split(s, sep), sep) == s
    decreases |s|
  {
    if IndexOf(s, sep) >= 0 {
      JoinSplit(AfterSeparator(s, sep), sep);
      JoinSplitStep(s, sep);
    }
  }

  /** What follows the first separator. */
  function AfterSeparator(s: string, sep: string): (r: string)
    requires sep != [] && IndexOf(s, sep) >= 0
    ensures |r| < |s|
  {
    s[IndexOf(s, sep) + |sep|..]
  }

  /** The step of the induction: the text after the first separator splits and joins back. */
  lemma JoinSplitStep(s: string, sep: string)
    requires sep != [] && IndexOf(s, sep) >= 0
    requires Join(Split(AfterSeparator(s, sep), sep), sep) == AfterSeparator(s, sep)
    ensures Join(Split(s, sep), sep) == s
  {
    var i := IndexOf(s, sep);
    var tail := Split(AfterSeparator(s, sep), sep);
    SplitAtIndex(s, sep);
    JoinAtSeparator(s, sep, i, tail);
  }

  lemma SplitAtIndex(s: string, sep: string)
    requires sep != [] && IndexOf(s, sep) >= 0
    ensures Split(s, sep) == [s[..IndexOf(s, sep)]] + Split(AfterSeparator(s, sep), sep)
  {
  }

  /** A text cut at a separator is its head, the separator and what the tail joins to. */
  lemma JoinAtSeparator(s: string, sep: string, i: int, tail: seq<string>)
    requires 0 <= i && i + |sep| <= |s| && s[i..i + |sep|] == sep
    requires tail != [] && Join(tail, sep) == s[i + |sep|..]
    ensures Join([s[..i]] + tail, sep) == s
  {
    JoinCons(s[..i], tail, sep);
    CutInThree(s, i, i + |sep|);
  }

  lemma CutInThree(s: string, i: int, j: int)
    requires 0 <= i <= j <= |s|
    ensures s == s[..i] + s[i..j] + s[j..]
  {
    assert s[..i] + s[i..j] == s[..j];
    assert s[..j] + s[j..] == s;
  }

  lemma JoinCons(head: string, tail: seq<string>, sep: string)
    requires tail != []
    ensures Join([head] + tail, sep) == head + sep + Join(tail, sep)
  {
    var parts := [head] + tail;
    assert parts[0] == head && parts[1..] == tail;
  }

  /** Splitting a join gives back the parts, when no part holds the separator's first character. */
  lemma {:induction false} SplitJoin(parts: seq<string>, sep: string)
    requires sep != [] && parts != []
    requires forall k :: 0 <= k < |parts| ==> sep[0] !in parts[k]
    ensures Split(Join(parts, sep), sep) == parts
    decreases |parts|
  {
    var p := parts[0];
    if |parts| == 1 {
      assert !Contains(p, sep);
    } else {
      var rest := Join(parts[1..], sep);
      SplitJoin(parts[1..], sep);
      SplitAtFirstSeparator(p, sep, rest);
    }
  }

  /** Splitting `p + sep + rest` cuts at the separator after `p` when `p` holds none of its
      first character. */
  lemma SplitAtFirstSeparator(p: string, sep: string, rest: string)
    requires sep != [] && sep[0] !in p
    ensures Split(p + sep + rest, sep) == [p] + Split(rest, sep)
  {
    var s := p + sep + rest;
    forall i | 0 <= i < |p| ensures !OccursAt(s, sep, i) {
      assert s[i] == p[i];
    }
    assert s[|p|..|p| + |sep|] == sep;
    assert OccursAt(s, sep, |p|);
    assert IndexOf(s, sep) == |p|;
    assert s[..|p|] == p;
    assert s[|p| + |sep|..] == rest;
  }

  /** Replaces every occurrence of `c` with `with`, as Go's strings.ReplaceAll for a one-character pattern. */
  function ReplaceChar(s: string, c: char, with: string): (r: string)
    ensures c !in s ==> r == s
    ensures |with| == 1 ==> |r| == |s|
  {
    if s == [] then []
    else (if s[0] == c then with else [s[0]]) + ReplaceChar(s[1..], c, with)
  }

  /** Replacing distributes over concatenation. */
  lemma {:induction false} ReplaceCharAppend(a: string, b: string, c: char, with: string)
    ensures ReplaceChar(a + b, c, with) == ReplaceChar(a, c, with) + ReplaceChar(b, c, with)
    decreases |a|
  {
    if a != [] {
      assert (a + b)[0] == a[0] && (a + b)[1..] == a[1..] + b;
      ReplaceCharAppend(a[1..], b, c, with);
    } else {
      assert a + b == b;
    }
  }

  /** Python's str.split() with no argument: the maximal runs of non-space characters. */
  function Fields(s: string): (r: seq<string>)
    ensures forall k :: 0 <= k < |r| ==> r[k] != [] && NoSpace(r[k])
    ensures r == [] <==> AllSpace(s)
    decreases |s|
  {
    if s == [] then []
    else if IsSpace(s[0]) then
      assert AllSpace(s) <==> AllSpace(s[1..]) by {
        if AllSpace(s[1..]) {
          forall i | 0 <= i < |s| ensures IsSpace(s[i]) { if i > 0 { assert s[i] == s[1..][i - 1]; } }
        }
      }
      Fields(s[1..])
    else
      var w := Word(s);
      var rest := Fields(s[|w|..]);
      assert forall k :: 1 <= k < |rest| + 1 ==> ([w] + rest)[k] == rest[k - 1];
      [w] + rest
  }

  predicate NoSpace(s: string) {
    forall j :: 0 <= j < |s| ==> !IsSpace(s[j])
  }

  predicate AllSpace(s: string) {
    forall j :: 0 <= j < |s| ==> IsSpace(s[j])
  }

  /** The longest prefix of `s` holding no white space. */
  function Word(s: string): (r: string)
    ensures |r| <= |s| && r == s[..|r|]
    ensures NoSpace(r)
    ensures |r| < |s| ==> IsSpace(s[|r|])
    ensures s != [] && !IsSpace(s[0]) ==> r != []
  {
    if s == [] || IsSpace(s[0]) then [] else [s[0]] + Word(s[1..])
  }

  /** The word ends at the first white space, or at the end of the text. */
  lemma {:induction false} WordEndsAt(s: string, k: int)
    requires 0 <= k <= |s| && NoSpace(s[..k]) && (k < |s| ==> IsSpace(s[k]))
    ensures Word(s) == s[..k]
    decreases k
  {
    if k > 0 {
      assert s[..k][0] == s[0];
      var t := s[1..];
      assert t[..k - 1] == s[..k][1..];
      assert k - 1 < |t| ==> t[k - 1] == s[k];
      WordEndsAt(t, k - 1);
      assert s[..k] == [s[0]] + t[..k - 1];
    }
  }

  /** Decimal rendering of a natural number. */
  function NatToString(n: nat): (r: string)
    ensures r != [] && forall i :: 0 <= i < |r| ==> IsDigit(r[i])
    decreases n
  {
    var d := [(('0' as int) + n % 10) as char];
    if n < 10 then d else NatToString(n / 10) + d
  }

  /** Decimal rendering of an integer, with a leading '-' when negative. */
  function IntToString(n: int): (r: string)
    ensures r != []
  {
    if n < 0 then "-" + NatToString(-n) else NatToString(n)
  }

  function DigitsValue(s: string): (n: nat)
    requires forall i :: 0 <= i < |s| ==> IsDigit(s[i])
    decreases |s|
  {
    if s == [] then 0
    else
      var d := s[|s| - 1] as int - '0' as int;
      assert IsDigit(s[|s| - 1]);
      DigitsValue(s[..|s| - 1]) * 10 + d
  }

  lemma {:induction false} DigitsOfNatToString(n: nat)
    ensures DigitsValue(NatToString(n)) == n
    decreases n
  {
    var r := NatToString(n);
    if n >= 10 {
      DigitsOfNatToString(n / 10);
      assert r[..|r| - 1] == NatToString(n / 10);
    }
  }

  /** A lower-case hexadecimal digit. */
  predicate IsHexDigit(c: char) {
    ('0' <= c <= '9') || ('a' <= c <= 'f')
  }

  function HexChar(d: nat): (c: char)
    requires d < 16
    ensures IsHexDigit(c)
    ensures HexDigitValue(c) == d
  {
    if d < 10 then (48 + d) as char else (87 + d) as char
  }

  function HexDigitValue(c: char): (d: nat)
    requires IsHexDigit(c)
    ensures d < 16
  {
    if c <= '9' then c as int - 48 else c as int - 87
  }

  function Lower(c: char): char { if 'A' <= c <= 'Z' then (c as int + 32) as char else c }
  function Upper(c: char): char { if 'a' <= c <= 'z' then (c as int - 32) as char else c }

  /** `str.upper()` on ASCII letters. */
  function UpperText(s: string): (r: string)
    ensures |r| == |s| && forall i :: 0 <= i < |s| ==> r[i] == Upper(s[i])
  {
    seq(|s|, i requires 0 <= i < |s| => Upper(s[i]))
  }

  /** Upper-casing twice changes nothing more. */
  lemma UpperIdempotent(s: string)
    ensures UpperText(UpperText(s)) == UpperText(s)
  {
  }

  function LowerText(s: string): (r: string)
    ensures |r| == |s| && forall i :: 0 <= i < |s| ==> r[i] == Lower(s[i])
  {
    seq(|s|, i requires 0 <= i < |s| => Lower(s[i]))
  }
}
