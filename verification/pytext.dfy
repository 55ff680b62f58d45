/**
 * The parts of Python's `str` that the core relies on: substring search,
 * `split`/`join`, `strip`/`lstrip`, clamped slicing, ASCII `lower()`, `str(int)`
 * and the identifier pattern `^[A-Za-z0-9_-]{11}$` as `re.match` reads it.
 */
module PyText {
  import opened Common

  // ---------------------------------------------------------------------------
  // Substring search (`sub in s`, `s.find(sub)`, `s.startswith(p)`)

  predicate OccursAt(s: string, sub: string, i: nat) {
    i + |sub| <= |s| && s[i..i + |sub|] == sub
  }

  function IndexOfFrom(s: string, sub: string, k: nat): (r: Option<nat>)
    requires k <= |s|
    ensures r.Some? ==> k <= r.value && OccursAt(s, sub, r.value)
    ensures r.Some? ==> forall j :: k <= j < r.value ==> !OccursAt(s, sub, j)
    ensures r.None? ==> forall j :: k <= j <= |s| ==> !OccursAt(s, sub, j)
    decreases |s| - k
  {
    if OccursAt(s, sub, k) then Some(k)
    else if k == |s| then None
    else IndexOfFrom(s, sub, k + 1)
  }

  /** `s.find(sub)`: the first position where `sub` occurs. */
  function IndexOf(s: string, sub: string): (r: Option<nat>)
    ensures r.Some? ==> OccursAt(s, sub, r.value)
    ensures r.Some? ==> forall j :: 0 <= j < r.value ==> !OccursAt(s, sub, j)
    ensures r.None? ==> forall j :: 0 <= j <= |s| ==> !OccursAt(s, sub, j)
  {
    IndexOfFrom(s, sub, 0)
  }

  /** Python's `sub in s`. */
  predicate Contains(s: string, sub: string) {
    IndexOf(s, sub).Some?
  }

  predicate StartsWith(s: string, prefix: string) {
    |prefix| <= |s| && s[..|prefix|] == prefix
  }

  lemma ContainsIff(s: string, sub: string)
    ensures Contains(s, sub) <==> exists j :: 0 <= j <= |s| && OccursAt(s, sub, j)
  {
    if Contains(s, sub) {
      assert OccursAt(s, sub, IndexOf(s, sub).value);
    }
  }

  lemma StartsWithContains(s: string, prefix: string)
    requires StartsWith(s, prefix)
    ensures Contains(s, prefix)
  {
    assert OccursAt(s, prefix, 0);
    ContainsIff(s, prefix);
  }

  /** A one-character separator occurs exactly where the character does. */
  lemma OccursAtChar(s: string, c: char, j: nat)
    ensures OccursAt(s, [c], j) <==> (j < |s| && s[j] == c)
  {
    if j < |s| && s[j] == c {
      assert s[j..j + 1] == [c];
    }
  }

  /** An occurrence matches the searched text character by character. */
  lemma OccursAtChars(s: string, sub: string, j: nat)
    ensures OccursAt(s, sub, j) ==> forall k :: 0 <= k < |sub| ==> s[j + k] == sub[k]
  {
    if OccursAt(s, sub, j) {
      forall k | 0 <= k < |sub| ensures s[j + k] == sub[k] {
        assert s[j..j + |sub|][k] == s[j + k];
      }
    }
  }

  lemma ContainsChar(s: string, c: char)
    ensures Contains(s, [c]) <==> c in s
  {
    ContainsIff(s, [c]);
    if c in s {
      var j :| 0 <= j < |s| && s[j] == c;
      OccursAtChar(s, c, j);
    }
    if Contains(s, [c]) {
      var j :| 0 <= j <= |s| && OccursAt(s, [c], j);
      OccursAtChar(s, c, j);
    }
  }

  /** Every occurrence in a part of a string is an occurrence in the whole. */
  lemma OccursAtShift(a: string, b: string, sub: string, j: nat)
    requires OccursAt(b, sub, j)
    ensures OccursAt(a + b, sub, |a| + j)
  {
    assert (a + b)[|a| + j..|a| + j + |sub|] == b[j..j + |sub|];
  }

  lemma OccursAtPrefix(a: string, b: string, sub: string, j: nat)
    requires OccursAt(a, sub, j)
    ensures OccursAt(a + b, sub, j)
  {
    assert (a + b)[j..j + |sub|] == a[j..j + |sub|];
  }

  lemma OccursAtSlice(s: string, lo: nat, hi: nat, sub: string, j: nat)
    requires lo <= hi <= |s| && OccursAt(s[lo..hi], sub, j)
    ensures OccursAt(s, sub, lo + j)
  {
    var t := s[lo..hi];
    var u := s[lo + j..lo + j + |sub|];
    var v := t[j..j + |sub|];
    forall k | 0 <= k < |sub| ensures u[k] == v[k] {
      assert v[k] == t[j + k];
    }
    assert u == v;
  }

  /** A character absent from `a` is first found in `a + b` where it is first
   *  found in `b`, shifted by `|a|`. */
  lemma IndexOfCharConcat(a: string, b: string, c: char)
    requires c !in a
    ensures IndexOf(a + b, [c]) == (match IndexOf(b, [c]) case None => None case Some(i) => Some(|a| + i))
  {
    var r := IndexOf(a + b, [c]);
    match IndexOf(b, [c])
    case None =>
      if r.Some? {
        OccursAtChar(a + b, c, r.value);
        if r.value >= |a| {
          OccursAtChar(b, c, r.value - |a|);
        }
      }
    case Some(i) =>
      OccursAtChar(b, c, i);
      OccursAtChar(a + b, c, |a| + i);
      if r.Some? && r.value != |a| + i {
        OccursAtChar(a + b, c, r.value);
        if r.value < |a| {
        } else {
          OccursAtChar(b, c, r.value - |a|);
        }
      }
  }

  lemma IndexOfCharAbsent(s: string, c: char)
    requires c !in s
    ensures IndexOf(s, [c]) == None
  {
    ContainsChar(s, c);
  }

  lemma IndexOfCharHead(s: string, c: char)
    requires |s| > 0 && s[0] == c
    ensures IndexOf(s, [c]) == Some(0)
  {
    OccursAtChar(s, c, 0);
  }

  // ---------------------------------------------------------------------------
  // `s.split(sep)` and `sep.join(parts)`

  /** Python's `s.split(sep)` for a non-empty separator. */
  function Split(s: string, sep: string): (parts: seq<string>)
    requires |sep| > 0
    ensures 1 <= |parts|
    ensures Contains(s, sep) <==> 2 <= |parts|
    decreases |s|
  {
    match IndexOf(s, sep)
    case None => [s]
    case Some(i) => [s[..i]] + Split(s[i + |sep|..], sep)
  }

  /** Python's `sep.join(parts)`. */
  function Join(parts: seq<string>, sep: string): string {
    if |parts| == 0 then ""
    else if |parts| == 1 then parts[0]
    else parts[0] + sep + Join(parts[1..], sep)
  }

  /** A join is at least as long as its last part. */
  lemma {:induction false} JoinKeepsLast(parts: seq<string>, sep: string)
    requires |parts| > 0
    ensures |Join(parts, sep)| >= |parts[|parts| - 1]|
    decreases |parts|
  {
    if |parts| > 1 {
      JoinKeepsLast(parts[1..], sep);
    }
  }

  /** `split` and `join` with the same separator are inverse. */
  lemma {:induction false} JoinSplit(s: string, sep: string)
    requires |sep| > 0
    ensures Join(Split(s, sep), sep) == s
    decreases |s|
  {
    match IndexOf(s, sep)
    case None =>
    case Some(i) =>
      var rest := s[i + |sep|..];
      JoinSplit(rest, sep);
      var parts := Split(s, sep);
      assert parts == [s[..i]] + Split(rest, sep);
      assert parts[1..] == Split(rest, sep);
      assert Join(parts, sep) == s[..i] + sep + rest;
      assert s[i..i + |sep|] == sep;
      assert s == s[..i] + s[i..i + |sep|] + rest;
  }

  /** No part of a split contains the separator. */
  lemma {:induction false} SplitPartsFree(s: string, sep: string, k: nat)
    requires |sep| > 0 && k < |Split(s, sep)|
    ensures !Contains(Split(s, sep)[k], sep)
    decreases |s|
  {
    match IndexOf(s, sep)
    case None =>
    case Some(i) =>
      SplitCons(s, sep, i);
      if k == 0 {
        var p := s[..i];
        assert Split(s, sep)[0] == p;
        if Contains(p, sep) {
          var j := IndexOf(p, sep).value;
          OccursAtSlice(s, 0, i, sep, j);
        }
      } else {
        var rest := s[i + |sep|..];
        assert Split(s, sep)[k] == Split(rest, sep)[k - 1];
        SplitPartsFree(rest, sep, k - 1);
      }
  }

  /** A string without the separator splits into itself. */
  lemma SplitAbsent(s: string, sep: string)
    requires |sep| > 0 && !Contains(s, sep)
    ensures Split(s, sep) == [s]
  {
  }

  /** Splitting a string made of separator-free parts recovers the parts. */
  lemma {:induction false} SplitJoinChar(parts: seq<string>, c: char)
    requires |parts| >= 1
    requires forall k :: 0 <= k < |parts| ==> c !in parts[k]
    ensures Split(Join(parts, [c]), [c]) == parts
    decreases |parts|
  {
    if |parts| == 1 {
      IndexOfCharAbsent(parts[0], c);
    } else {
      var tail := Join(parts[1..], [c]);
      assert Join(parts, [c]) == parts[0] + ([c] + tail);
      IndexOfCharHead([c] + tail, c);
      IndexOfCharConcat(parts[0], [c] + tail, c);
      var s := Join(parts, [c]);
      assert IndexOf(s, [c]) == Some(|parts[0]|);
      assert s[..|parts[0]|] == parts[0];
      assert s[|parts[0]| + 1..] == tail;
      SplitJoinChar(parts[1..], c);
      assert parts == [parts[0]] + parts[1..];
    }
  }

  /** `s.split(sep)[-1]`: the text after the last separator. */
  function LastPart(s: string, sep: string): string
    requires |sep| > 0
  {
    var parts := Split(s, sep);
    parts[|parts| - 1]
  }

  /** After a one-character separator, a text without it is the last part. */
  lemma {:induction false} LastPartAfter(a: string, c: char, b: string)
    requires c !in b
    ensures LastPart(a + [c] + b, [c]) == b
    decreases |a|
  {
    var s := a + [c] + b;
    if c in a {
      ContainsChar(a, c);
      var i := IndexOf(a, [c]).value;
      FirstInPrefix(a, [c] + b, c, i);
      assert s == a + ([c] + b);
      assert s[i + 1..] == a[i + 1..] + [c] + b;
      LastPartCons(s, [c], i);
      LastPartAfter(a[i + 1..], c, b);
    } else {
      IndexOfCharHead([c] + b, c);
      IndexOfCharConcat(a, [c] + b, c);
      assert s == a + ([c] + b);
      LastPartCons(s, [c], |a|);
      assert s[|a| + 1..] == b;
      IndexOfCharAbsent(b, c);
    }
  }

  /** The first occurrence of a character in `a` is its first in `a + b`. */
  lemma FirstInPrefix(a: string, b: string, c: char, i: nat)
    requires IndexOf(a, [c]) == Some(i)
    ensures IndexOf(a + b, [c]) == Some(i)
  {
    OccursAtPrefix(a, b, [c], i);
    var r := IndexOf(a + b, [c]);
    if r != Some(i) {
      OccursAtChar(a + b, c, r.value);
      OccursAtChar(a, c, r.value);
    }
  }

  lemma LastPartCons(s: string, sep: string, i: nat)
    requires |sep| > 0 && IndexOf(s, sep) == Some(i)
    ensures LastPart(s, sep) == LastPart(s[i + |sep|..], sep)
  {
    var rest := s[i + |sep|..];
    SplitCons(s, sep, i);
    var parts, tail := Split(s, sep), Split(rest, sep);
    assert parts[|parts| - 1] == tail[|tail| - 1];
  }

  /** The first part is the text before the first separator. */
  lemma SplitHead(s: string, sep: string)
    requires |sep| > 0
    ensures Split(s, sep)[0] == (match IndexOf(s, sep) case None => s case Some(i) => s[..i])
  {
  }

  lemma SplitCons(s: string, sep: string, i: nat)
    requires |sep| > 0 && IndexOf(s, sep) == Some(i)
    ensures Split(s, sep) == [s[..i]] + Split(s[i + |sep|..], sep)
  {
  }

  // ---------------------------------------------------------------------------
  // `strip`, `lstrip`, `rstrip` with an explicit character set

  function LStrip(s: string, cs: set<char>): (r: string)
    ensures |r| <= |s| && r == s[|s| - |r|..]
    ensures r == [] || r[0] !in cs
    ensures forall i :: 0 <= i < |s| - |r| ==> s[i] in cs
  {
    if |s| > 0 && s[0] in cs then LStrip(s[1..], cs) else s
  }

  function RStrip(s: string, cs: set<char>): (r: string)
    ensures |r| <= |s| && r == s[..|r|]
    ensures r == [] || r[|r| - 1] !in cs
    ensures forall i :: |r| <= i < |s| ==> s[i] in cs
  {
    if |s| > 0 && s[|s| - 1] in cs then RStrip(s[..|s| - 1], cs) else s
  }

  /** `s.strip(chars)`: characters of the set removed from both ends. */
  function Strip(s: string, cs: set<char>): (r: string)
    ensures |r| <= |s|
    ensures r == [] || (r[0] !in cs && r[|r| - 1] !in cs)
    decreases |s|
  {
    if |s| > 0 && s[0] in cs then Strip(s[1..], cs)
    else if |s| > 0 && s[|s| - 1] in cs then Strip(s[..|s| - 1], cs)
    else s
  }

  /** Both ends at once are the left end first, then the right one. */
  lemma {:induction false} StripIsLeftThenRight(s: string, cs: set<char>)
    ensures Strip(s, cs) == RStrip(LStrip(s, cs), cs)
    decreases |s|
  {
    if |s| > 0 && s[0] in cs {
      StripIsLeftThenRight(s[1..], cs);
    } else if |s| > 0 && s[|s| - 1] in cs {
      StripIsLeftThenRight(s[..|s| - 1], cs);
      assert LStrip(s, cs) == s;
      assert LStrip(s[..|s| - 1], cs) == s[..|s| - 1] by {
        if |s| > 1 { assert s[..|s| - 1][0] == s[0]; }
      }
    }
  }

  /** Characters of the set after text that does not start or end with
   *  one are all stripped. */
  lemma {:induction false} StripTail(s: string, tail: string, cs: set<char>)
    requires |s| > 0 && s[0] !in cs && s[|s| - 1] !in cs
    requires forall i :: 0 <= i < |tail| ==> tail[i] in cs
    ensures Strip(s + tail, cs) == s
    decreases |tail|
  {
    var u := s + tail;
    if |tail| == 0 {
      assert u == s;
      StripNoop(s, cs);
    } else {
      assert u[0] == s[0];
      assert u[|u| - 1] == tail[|tail| - 1];
      assert u[..|u| - 1] == s + tail[..|tail| - 1];
      StripTail(s, tail[..|tail| - 1], cs);
    }
  }

  lemma StripNoop(s: string, cs: set<char>)
    requires s == [] || (s[0] !in cs && s[|s| - 1] !in cs)
    ensures Strip(s, cs) == s
  {
  }

  /** The characters Python's `str.isspace()` accepts; `str.strip()` with no
   *  argument removes these. */
  const Whitespace: set<char> := {
    ' ', '\t', '\n', '\r', '\U{0B}', '\U{0C}', '\U{1C}', '\U{1D}', '\U{1E}', '\U{1F}',
    '\U{85}', '\U{A0}', '\U{1680}', '\U{2000}', '\U{2001}', '\U{2002}', '\U{2003}',
    '\U{2004}', '\U{2005}', '\U{2006}', '\U{2007}', '\U{2008}', '\U{2009}', '\U{200A}',
    '\U{2028}', '\U{2029}', '\U{202F}', '\U{205F}', '\U{3000}'}

  // ---------------------------------------------------------------------------
  // Clamped slicing `s[:n]`, `s[n:]`, `s[a:b]`

  function Take(s: string, n: nat): (r: string)
    ensures |r| == if n < |s| then n else |s|
    ensures r == s[..|r|]
  {
    if n < |s| then s[..n] else s
  }

  function Drop(s: string, n: nat): (r: string)
    ensures |r| == if n < |s| then |s| - n else 0
    ensures r == s[|s| - |r|..]
  {
    if n < |s| then s[n..] else []
  }

  lemma TakeDrop(s: string, n: nat)
    ensures Take(s, n) + Drop(s, n) == s
  {
  }

  // ---------------------------------------------------------------------------
  // ASCII case folding (`str.lower()` on the characters that matter here)

  function LowerChar(c: char): (d: char)
    ensures 'A' <= c <= 'Z' ==> 'a' <= d <= 'z'
    ensures !('A' <= c <= 'Z') ==> d == c
  {
    if 'A' <= c <= 'Z' then (c as int + 32) as char else c
  }

  function Lower(s: string): (r: string)
    ensures |r| == |s|
    ensures forall i :: 0 <= i < |s| ==> r[i] == LowerChar(s[i])
  {
    if |s| == 0 then "" else [LowerChar(s[0])] + Lower(s[1..])
  }

  // ---------------------------------------------------------------------------
  // Decimal text: `str(n)` and its inverse

  predicate IsDigit(c: char) { '0' <= c <= '9' }

  function DigitChar(d: nat): (c: char)
    requires d < 10
    ensures IsDigit(c)
  {
    ('0' as int + d) as char
  }

  function DigitValue(c: char): (d: nat)
    requires IsDigit(c)
    ensures d < 10
  {
    c as int - '0' as int
  }

  /** `str(n)` for a natural number: no leading zeros, at least one digit. */
  function NatToString(n: nat): (r: string)
    ensures |r| >= 1
    ensures forall i :: 0 <= i < |r| ==> IsDigit(r[i])
    ensures |r| > 1 ==> r[0] != '0'
    decreases n
  {
    if n < 10 then [DigitChar(n)] else NatToString(n / 10) + [DigitChar(n % 10)]
  }

  /** `str(i)` for any integer. */
  function IntToString(i: int): (r: string)
    ensures |r| >= 1
  {
    if i < 0 then "-" + NatToString(-i) else NatToString(i)
  }

  /** The value of a string of decimal digits. */
  function ParseNat(s: string): (n: nat)
    requires forall i :: 0 <= i < |s| ==> IsDigit(s[i])
  {
    if |s| == 0 then 0 else ParseNat(s[..|s| - 1]) * 10 + DigitValue(s[|s| - 1])
  }

  lemma {:induction false} ParseNatToString(n: nat)
    ensures ParseNat(NatToString(n)) == n
    decreases n
  {
    if n >= 10 {
      ParseNatToString(n / 10);
      var s := NatToString(n);
      assert s[..|s| - 1] == NatToString(n / 10);
    }
  }

  /** Parsing ignores leading zeros. */
  lemma ParseNatLeadingZero(s: string)
    requires forall i :: 0 <= i < |s| ==> IsDigit(s[i])
    ensures ParseNat("0" + s) == ParseNat(s)
    decreases |s|
  {
    if |s| > 0 {
      assert ("0" + s)[..|"0" + s| - 1] == "0" + s[..|s| - 1];
      ParseNatLeadingZero(s[..|s| - 1]);
    }
  }

  // ---------------------------------------------------------------------------
  // The video-identifier pattern

  predicate IsIdChar(c: char) {
    ('a' <= c <= 'z') || ('A' <= c <= 'Z') || ('0' <= c <= '9') || c == '_' || c == '-'
  }

  predicate AllIdChars(s: string) {
    forall i :: 0 <= i < |s| ==> IsIdChar(s[i])
  }

  /** Exactly eleven characters from `[A-Za-z0-9_-]`: a well-formed identifier. */
  predicate IsVideoId(s: string) {
    |s| == 11 && AllIdChars(s)
  }

  /** `re.match(r'^[A-Za-z0-9_-]{11}$', s)`: Python's `$` also matches just
   *  before a final newline, so one trailing `\n` is accepted. */
  predicate MatchesIdPattern(s: string) {
    IsVideoId(s) || (|s| == 12 && s[11] == '\n' && IsVideoId(s[..11]))
  }

  /** `re.match(r'^[a-zA-Z0-9-_]+$', s)`: non-empty, same character class and
   *  the same trailing-newline allowance. */
  predicate MatchesIdCharsPattern(s: string) {
    (|s| > 0 && AllIdChars(s)) || (|s| > 1 && s[|s| - 1] == '\n' && AllIdChars(s[..|s| - 1]))
  }

  /** Anything longer than an identifier and its line break is not one. */
  lemma LongNotId(s: string)
    requires |s| > 12
    ensures !MatchesIdPattern(s)
  {
  }

  /** Where the string cannot end in a newline the pattern is the plain check. */
  lemma MatchesIdPatternNoNewline(s: string)
    requires s == [] || s[|s| - 1] != '\n'
    ensures MatchesIdPattern(s) <==> IsVideoId(s)
  {
  }
}
