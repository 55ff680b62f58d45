/**
 * A model of the two `urllib.parse` calls the validators make: `urlparse`
 * (scheme, network location, path, query, fragment, and the `hostname`
 * derived from the network location) and `parse_qs(query).get(name)[0]`.
 * It follows the generic URI syntax of RFC 3986 section 3 as Python's
 * `urlsplit` implements it; the splitting of `;params` off the last path
 * segment that `urlparse` adds for some schemes is not modelled.
 */
module Urls {
  import opened Common
  import opened PyText

  datatype UrlParts = UrlParts(scheme: string, netloc: string, path: string, query: string, fragment: string)

  /** Characters `urlsplit` strips from the front of the text (C0 controls and space). */
  const C0ControlOrSpace: set<char> := set i | 0 <= i <= 32 :: i as char

  /** Characters `urlsplit` deletes wherever they occur. */
  const UnsafeBytes: set<char> := {'\t', '\r', '\n'}

  predicate IsSchemeChar(c: char) {
    ('a' <= c <= 'z') || ('A' <= c <= 'Z') || ('0' <= c <= '9') || c == '+' || c == '-' || c == '.'
  }

  predicate IsAsciiLetter(c: char) {
    ('a' <= c <= 'z') || ('A' <= c <= 'Z')
  }

  function RemoveChars(s: string, cs: set<char>): (r: string)
    ensures |r| <= |s|
    ensures forall i :: 0 <= i < |r| ==> r[i] !in cs
    ensures (forall i :: 0 <= i < |s| ==> s[i] !in cs) ==> r == s
  {
    if |s| == 0 then ""
    else if s[0] in cs then RemoveChars(s[1..], cs)
    else [s[0]] + RemoveChars(s[1..], cs)
  }

  /** Splits off `scheme:` when the text before the first `:` is a letter
   *  followed by scheme characters; the scheme is lower-cased. */
  function SplitScheme(u: string): (r: (string, string))
    ensures r.0 == "" ==> r.1 == u
  {
    match IndexOf(u, ":")
    case None => ("", u)
    case Some(i) =>
      if i > 0 && IsAsciiLetter(u[0]) && (forall k :: 0 <= k < i ==> IsSchemeChar(u[k]))
      then (Lower(u[..i]), u[i + 1..])
      else ("", u)
  }

  function MinIndex(a: Option<nat>, b: Option<nat>): Option<nat> {
    match (a, b)
    case (None, _) => b
    case (_, None) => a
    case (Some(x), Some(y)) => if x <= y then a else b
  }

  /** After a leading `//`, the network location runs to the first `/`, `?` or `#`. */
  function SplitNetloc(u: string): (r: (string, string))
    requires StartsWith(u, "//")
    ensures '/' !in r.0 && '?' !in r.0 && '#' !in r.0
    ensures u == "//" + r.0 + r.1
    ensures r.1 == [] || r.1[0] in {'/', '?', '#'}
  {
    var rest := u[2..];
    var delim := MinIndex(MinIndex(IndexOf(rest, "/"), IndexOf(rest, "?")), IndexOf(rest, "#"));
    var cut := match delim case None => |rest| case Some(d) => d;
    FirstDelimiter(rest, cut, delim);
    (rest[..cut], rest[cut..])
  }

  lemma FirstDelimiter(rest: string, cut: nat, delim: Option<nat>)
    requires delim == MinIndex(MinIndex(IndexOf(rest, "/"), IndexOf(rest, "?")), IndexOf(rest, "#"))
    requires cut == match delim case None => |rest| case Some(d) => d
    ensures cut <= |rest|
    ensures forall k :: 0 <= k < cut ==> rest[k] !in {'/', '?', '#'}
    ensures cut < |rest| ==> rest[cut] in {'/', '?', '#'}
  {
    forall k | 0 <= k < cut ensures rest[k] !in {'/', '?', '#'} {
      OccursAtChar(rest, '/', k);
      OccursAtChar(rest, '?', k);
      OccursAtChar(rest, '#', k);
    }
    if delim.Some? {
      var d := delim.value;
      OccursAtChar(rest, '/', d);
      OccursAtChar(rest, '?', d);
      OccursAtChar(rest, '#', d);
    }
  }

  /** `text.split(c, 1)` when `c` occurs, else `(text, "")`. */
  function SplitOnce(s: string, c: char): (r: (string, string))
    ensures c !in r.0
    ensures c in s ==> s == r.0 + [c] + r.1
    ensures c !in s ==> r == (s, "")
  {
    ContainsChar(s, c);
    match IndexOf(s, [c])
    case None => (s, "")
    case Some(i) =>
      OccursAtChar(s, c, i);
      assert forall k :: 0 <= k < i ==> s[k] != c by {
        forall k | 0 <= k < i ensures s[k] != c { OccursAtChar(s, c, k); }
      }
      assert s == s[..i] + [c] + s[i + 1..];
      (s[..i], s[i + 1..])
  }

  /** `urlsplit(url)`; `None` stands for the `ValueError("Invalid IPv6 URL")`
   *  raised for a network location holding a square bracket. */
  function UrlSplit(url: string): (r: Option<UrlParts>)
    ensures r.Some? ==> '[' !in r.value.netloc && ']' !in r.value.netloc
    ensures r.Some? ==> '?' !in r.value.path && '#' !in r.value.path
    ensures r.Some? ==> '/' !in r.value.netloc
  {
    var u := RemoveChars(LStrip(url, C0ControlOrSpace), UnsafeBytes);
    var (scheme, afterScheme) := SplitScheme(u);
    SplitAfterScheme(scheme, afterScheme)
  }

  /** The part of `urlsplit` after the scheme: network location, then
   *  fragment, then query. */
  function SplitAfterScheme(scheme: string, afterScheme: string): (r: Option<UrlParts>)
    ensures r.Some? ==> '[' !in r.value.netloc && ']' !in r.value.netloc
    ensures r.Some? ==> '?' !in r.value.path && '#' !in r.value.path
    ensures r.Some? ==> '/' !in r.value.netloc
  {
    var (netloc, rest) := if StartsWith(afterScheme, "//") then SplitNetloc(afterScheme) else ("", afterScheme);
    if '[' in netloc || ']' in netloc then None
    else
      var (beforeFragment, fragment) := SplitOnce(rest, '#');
      var (path, query) := SplitOnce(beforeFragment, '?');
      Some(UrlParts(scheme, netloc, path, query, fragment))
  }

  /** The `hostname` property: the text after the last `@`, up to the first
   *  `:`, lower-cased; absent when that text is empty.  (Square brackets
   *  never reach here: `UrlSplit` refuses them.)  Only ASCII letters are
   *  folded; no other character lower-cases to one of the host names the
   *  validators compare against except U+212A, which none of them contains. */
  function Hostname(netloc: string): (r: Option<string>)
    ensures r.Some? ==> r.value != "" && ':' !in r.value && '@' !in r.value
  {
    var hostinfo := LastPart(netloc, "@");
    var host := Split(hostinfo, ":")[0];
    LastPartNoChar(netloc, '@');
    SplitHeadNoChar(hostinfo, ':');
    if host == "" then None else Some(Lower(host))
  }

  lemma LastPartNoChar(s: string, c: char)
    ensures c !in LastPart(s, [c])
  {
    var parts := Split(s, [c]);
    SplitPartsFree(s, [c], |parts| - 1);
    ContainsChar(parts[|parts| - 1], c);
  }

  lemma SplitHeadNoChar(s: string, c: char)
    ensures c !in Split(s, [c])[0]
  {
    SplitPartsFree(s, [c], 0);
    ContainsChar(Split(s, [c])[0], c);
  }

  /** A host name without `@`, `:` or upper-case letters is its own `hostname`. */
  lemma HostnamePlain(netloc: string)
    requires netloc != "" && '@' !in netloc && ':' !in netloc
    requires forall i :: 0 <= i < |netloc| ==> !('A' <= netloc[i] <= 'Z')
    ensures Hostname(netloc) == Some(netloc)
  {
    ContainsChar(netloc, '@');
    SplitAbsent(netloc, "@");
    assert LastPart(netloc, "@") == netloc;
    ContainsChar(netloc, ':');
    SplitAbsent(netloc, ":");
    assert Lower(netloc) == netloc;
  }

  // ---------------------------------------------------------------------------
  // `parse_qs`

  /** Without `@` or `:`, the host name is the lower-cased network location. */
  lemma HostnameFolds(netloc: string)
    requires netloc != "" && '@' !in netloc && ':' !in netloc
    ensures Hostname(netloc) == Some(Lower(netloc))
  {
    ContainsChar(netloc, '@');
    SplitAbsent(netloc, "@");
    assert LastPart(netloc, "@") == netloc;
    ContainsChar(netloc, ':');
    SplitAbsent(netloc, ":");
  }

  /** A port after the host is not part of the host name. */
  lemma HostnameDropsPort(host: string, port: string)
    requires host != "" && '@' !in host && ':' !in host && '@' !in port
    ensures Hostname(host + ":" + port) == Some(Lower(host))
  {
    var netloc := host + ":" + port;
    assert '@' !in netloc by {
      forall i | 0 <= i < |netloc| ensures netloc[i] != '@' {
        if i > |host| { assert netloc[i] == port[i - |host| - 1]; }
      }
    }
    ContainsChar(netloc, '@');
    SplitAbsent(netloc, "@");
    assert LastPart(netloc, "@") == netloc;
    IndexOfCharHead(":" + port, ':');
    IndexOfCharConcat(host, ":" + port, ':');
    assert netloc == host + (":" + port);
    SplitHead(netloc, ":");
    assert netloc[..|host|] == host;
  }

  predicate IsHexDigit(c: char) {
    ('0' <= c <= '9') || ('a' <= c <= 'f') || ('A' <= c <= 'F')
  }

  function HexValue(c: char): (v: nat)
    requires IsHexDigit(c)
    ensures v < 16
  {
    if '0' <= c <= '9' then c as int - '0' as int
    else if 'a' <= c <= 'f' then c as int - 'a' as int + 10
    else c as int - 'A' as int + 10
  }

  /** `s` holds no character of `cs`. */
  predicate Avoids(s: string, cs: set<char>) {
    forall i :: 0 <= i < |s| ==> s[i] !in cs
  }

  lemma AvoidsConcat(a: string, b: string, cs: set<char>)
    requires Avoids(a, cs) && Avoids(b, cs)
    ensures Avoids(a + b, cs)
  {
    forall i | 0 <= i < |a + b| ensures (a + b)[i] !in cs {
      if i >= |a| { assert (a + b)[i] == b[i - |a|]; }
    }
  }

  lemma AvoidsSubset(s: string, big: set<char>, small: set<char>)
    requires Avoids(s, big) && small <= big
    ensures Avoids(s, small)
  {
  }

  /** Index of the first character of `s` in `ds`, or `|s|`. */
  function FirstIn(s: string, ds: set<char>): (k: nat)
    ensures k <= |s|
  {
    if |s| == 0 || s[0] in ds then 0 else 1 + FirstIn(s[1..], ds)
  }

  lemma {:induction false} FirstInCut(x: string, y: string, ds: set<char>)
    requires Avoids(x, ds) && (y == [] || y[0] in ds)
    ensures FirstIn(x + y, ds) == |x|
    decreases |x|
  {
    if |x| == 0 {
      assert x + y == y;
    } else {
      assert (x + y)[0] == x[0];
      assert (x + y)[1..] == x[1..] + y;
      FirstInCut(x[1..], y, ds);
    }
  }

  /** Cutting a text at its first delimiter is unambiguous. */
  lemma CutUnique(a: string, b: string, c: string, d: string, ds: set<char>)
    requires a + b == c + d
    requires Avoids(a, ds) && Avoids(c, ds)
    requires (b == [] || b[0] in ds) && (d == [] || d[0] in ds)
    ensures a == c && b == d
  {
    FirstInCut(a, b, ds);
    FirstInCut(c, d, ds);
    assert a == (a + b)[..|a|];
    assert c == (c + d)[..|c|];
    assert b == (a + b)[|a|..];
    assert d == (c + d)[|c|..];
  }

  predicate IsLowerScheme(scheme: string) {
    && scheme != "" && IsAsciiLetter(scheme[0])
    && forall k :: 0 <= k < |scheme| ==> IsSchemeChar(scheme[k]) && !('A' <= scheme[k] <= 'Z')
  }

  lemma SplitSchemeCompose(scheme: string, tail: string)
    requires IsLowerScheme(scheme)
    ensures SplitScheme(scheme + ":" + tail) == (scheme, tail)
  {
    var u := scheme + ":" + tail;
    assert u == scheme + (":" + tail);
    assert ':' !in scheme by {
      forall k | 0 <= k < |scheme| ensures scheme[k] != ':' { assert IsSchemeChar(scheme[k]); }
    }
    IndexOfCharHead(":" + tail, ':');
    IndexOfCharConcat(scheme, ":" + tail, ':');
    assert u[..|scheme|] == scheme;
    assert Lower(scheme) == scheme;
    assert u[|scheme| + 1..] == tail;
  }

  lemma SplitNetlocCompose(netloc: string, rest: string)
    requires Avoids(netloc, {'/', '?', '#'})
    requires rest == [] || rest[0] in {'/', '?', '#'}
    ensures SplitNetloc("//" + netloc + rest) == (netloc, rest)
  {
    var after := "//" + netloc + rest;
    assert StartsWith(after, "//");
    NetlocCut(after, SplitNetloc(after), netloc, rest);
  }

  /** Two ways of writing `//netloc rest` with a delimiter-free network
   *  location are the same way. */
  lemma NetlocCut(after: string, cut: (string, string), netloc: string, rest: string)
    requires after == "//" + cut.0 + cut.1 && after == "//" + netloc + rest
    requires '/' !in cut.0 && '?' !in cut.0 && '#' !in cut.0
    requires cut.1 == [] || cut.1[0] in {'/', '?', '#'}
    requires Avoids(netloc, {'/', '?', '#'})
    requires rest == [] || rest[0] in {'/', '?', '#'}
    ensures cut == (netloc, rest)
  {
    assert cut.0 + cut.1 == after[2..] == netloc + rest;
    assert Avoids(cut.0, {'/', '?', '#'});
    CutUnique(cut.0, cut.1, netloc, rest, {'/', '?', '#'});
  }

  lemma SplitOnceCompose(a: string, c: char, b: string)
    requires c !in a
    ensures SplitOnce(a + [c] + b, c) == (a, b)
  {
    var s := a + [c] + b;
    assert s[|a|] == c;
    var (p, q) := SplitOnce(s, c);
    assert p + ([c] + q) == a + ([c] + b);
    assert Avoids(p, {c}) && Avoids(a, {c});
    CutUnique(p, [c] + q, a, [c] + b, {c});
    assert q == ([c] + q)[1..] == ([c] + b)[1..] == b;
  }

  /** Text that starts with a letter and holds no tab or line break is
   *  left as it is by the cleaning `urlsplit` does first. */
  lemma CleanNoop(url: string)
    requires url != [] && IsAsciiLetter(url[0]) && Avoids(url, UnsafeBytes)
    ensures RemoveChars(LStrip(url, C0ControlOrSpace), UnsafeBytes) == url
  {
    assert url[0] !in C0ControlOrSpace;
  }

  /** The hierarchical part `//netloc path?query` splits back into its parts. */
  lemma SplitAfterSchemeCompose(scheme: string, netloc: string, path: string, query: string)
    requires Avoids(netloc, {'/', '?', '#', '[', ']'})
    requires path == [] || path[0] == '/'
    requires Avoids(path, {'?', '#'}) && Avoids(query, {'#'})
    ensures SplitAfterScheme(scheme, "//" + netloc + path + (if query == "" then "" else "?" + query))
      == Some(UrlParts(scheme, netloc, path, query, ""))
  {
    var rest := path + (if query == "" then "" else "?" + query);
    var after := "//" + netloc + rest;
    assert "//" + netloc + path + (if query == "" then "" else "?" + query) == after;
    assert Avoids(netloc, {'/', '?', '#'});
    assert rest == [] || rest[0] in {'/', '?', '#'};
    SplitNetlocCompose(netloc, rest);
    assert StartsWith(after, "//");
    assert '[' !in netloc && ']' !in netloc;
    PathQuerySplit(path, query);
  }

  /** `path?query`, free of `#`, splits at its first `?` back into its parts. */
  lemma PathQuerySplit(path: string, query: string)
    requires Avoids(path, {'?', '#'}) && Avoids(query, {'#'})
    ensures var rest := path + (if query == "" then "" else "?" + query);
      SplitOnce(rest, '#') == (rest, "") && SplitOnce(rest, '?') == (path, query)
  {
    var tail := if query == "" then "" else "?" + query;
    var rest := path + tail;
    assert Avoids(path, {'#'});
    AvoidsConcat("?", query, {'#'});
    assert Avoids(tail, {'#'});
    AvoidsConcat(path, tail, {'#'});
    assert '#' !in rest;
    assert '?' !in path;
    if query == "" {
      assert rest == path;
    } else {
      assert rest == path + ['?'] + query;
      SplitOnceCompose(path, '?', query);
    }
  }

  lemma ComposedAvoidsUnsafe(scheme: string, netloc: string, path: string, query: string)
    requires IsLowerScheme(scheme)
    requires Avoids(netloc, UnsafeBytes) && Avoids(path, UnsafeBytes) && Avoids(query, UnsafeBytes)
    ensures Avoids(scheme + ":" + ("//" + netloc + path + (if query == "" then "" else "?" + query)), UnsafeBytes)
  {
    var tail := if query == "" then "" else "?" + query;
    var rest := path + tail;
    var after := "//" + netloc + rest;
    assert after == "//" + netloc + path + tail;
    assert Avoids(scheme, UnsafeBytes) by {
      forall k | 0 <= k < |scheme| ensures scheme[k] !in UnsafeBytes { assert IsSchemeChar(scheme[k]); }
    }
    AvoidsConcat("?", query, UnsafeBytes);
    AvoidsConcat(path, tail, UnsafeBytes);
    AvoidsConcat(netloc, rest, UnsafeBytes);
    AvoidsConcat("//", netloc + rest, UnsafeBytes);
    assert after == "//" + (netloc + rest);
    AvoidsConcat(":", after, UnsafeBytes);
    AvoidsConcat(scheme, ":" + after, UnsafeBytes);
    assert scheme + ":" + after == scheme + (":" + after);
  }

  /** A URL written out as `scheme://netloc path?query` splits back into
   *  exactly those parts (the `?query` is absent when the query is empty). */
  lemma UrlSplitCompose(scheme: string, netloc: string, path: string, query: string)
    requires IsLowerScheme(scheme)
    requires Avoids(netloc, {'/', '?', '#', '[', ']'} + UnsafeBytes)
    requires path == [] || path[0] == '/'
    requires Avoids(path, {'?', '#'} + UnsafeBytes)
    requires Avoids(query, {'#'} + UnsafeBytes)
    ensures UrlSplit(scheme + "://" + netloc + path + (if query == "" then "" else "?" + query))
      == Some(UrlParts(scheme, netloc, path, query, ""))
  {
    var tail := if query == "" then "" else "?" + query;
    var after := "//" + netloc + path + tail;
    assert scheme + "://" + netloc + path + tail == scheme + ":" + after;
    ComposedAvoidsUnsafe(scheme, netloc, path, query);
    UrlSplitSchemed(scheme + ":" + after, scheme, after);
    SplitAfterSchemeCompose(scheme, netloc, path, query);
  }

  lemma UrlSplitSchemed(url: string, scheme: string, after: string)
    requires IsLowerScheme(scheme) && url == scheme + ":" + after && Avoids(url, UnsafeBytes)
    ensures UrlSplit(url) == SplitAfterScheme(scheme, after)
  {
    assert url[0] == scheme[0];
    CleanNoop(url);
    SplitSchemeCompose(scheme, after);
  }

  /** `unquote`: `%XX` becomes the byte `XX`.  A byte below 0x80 is that
   *  ASCII character; a byte from 0x80 up is part of a UTF-8 sequence whose
   *  decoding is non-ASCII in every case, written here as U+FFFD per byte. */
  function Unquote(s: string): (r: string)
    ensures '%' !in s ==> r == s
    ensures |r| <= |s| && (|s| > 0 ==> |r| > 0)
  {
    if |s| == 0 then ""
    else if |s| >= 3 && s[0] == '%' && IsHexDigit(s[1]) && IsHexDigit(s[2]) then
      var b := HexValue(s[1]) * 16 + HexValue(s[2]);
      [if b < 128 then b as char else '\U{FFFD}'] + Unquote(s[3..])
    else [s[0]] + Unquote(s[1..])
  }

  /** `value.replace('+', ' ')`. */
  function PlusToSpace(s: string): (r: string)
    ensures |r| == |s|
    ensures '+' !in s ==> r == s
  {
    if |s| == 0 then "" else [if s[0] == '+' then ' ' else s[0]] + PlusToSpace(s[1..])
  }

  /** One `name=value` field of the query as `parse_qsl` keeps it: fields
   *  without `=` and fields with an empty value are dropped. */
  function QueryField(field: string): (r: Option<(string, string)>)
    ensures r.Some? ==> r.value.1 != "" && '=' in field
  {
    if '=' !in field then None
    else
      var (name, value) := SplitOnce(field, '=');
      if value == "" then None
      else Some((Unquote(PlusToSpace(name)), Unquote(PlusToSpace(value))))
  }

  /** The value of the first kept field named `name` among `fields`. */
  function FirstValue(fields: seq<string>, name: string): Option<string> {
    if |fields| == 0 then None
    else match QueryField(fields[0])
      case Some((n, v)) => if n == name then Some(v) else FirstValue(fields[1..], name)
      case None => FirstValue(fields[1..], name)
  }

  /** `parse_qs(query).get(name, [None])[0]`. */
  function QueryFirst(query: string, name: string): Option<string> {
    if query == "" then None else FirstValue(Split(query, "&"), name)
  }

  /** Text without `%` is left alone by `unquote`, even in front of an escape. */
  lemma {:induction false} UnquotePlainPrefix(a: string, b: string)
    requires '%' !in a
    ensures Unquote(a + b) == a + Unquote(b)
    decreases |a|
  {
    if |a| > 0 {
      assert (a + b)[0] == a[0];
      assert (a + b)[1..] == a[1..] + b;
      UnquotePlainPrefix(a[1..], b);
    } else {
      assert a + b == b;
    }
  }

  /** A query holding the single field `name=value`, both free of the
   *  characters `parse_qs` treats specially, yields that value. */
  lemma QueryFirstSingle(name: string, value: string)
    requires value != ""
    requires Avoids(name, {'&', '=', '+', '%'}) && Avoids(value, {'&', '+', '%'})
    ensures QueryFirst(name + "=" + value, name) == Some(value)
  {
    var field := name + "=" + value;
    assert field == name + ['='] + value;
    assert '&' !in field by {
      forall i | 0 <= i < |field| ensures field[i] != '&' {
        if i < |name| { assert field[i] == name[i]; }
        else if i > |name| { assert field[i] == value[i - |name| - 1]; }
      }
    }
    ContainsChar(field, '&');
    SplitAbsent(field, "&");
    assert '=' !in name;
    SplitOnceCompose(name, '=', value);
    assert '=' in field by { assert field[|name|] == '='; }
    assert '+' !in name && '%' !in name && '+' !in value && '%' !in value;
    assert QueryField(field) == Some((name, value));
    assert Split(field, "&")[1..] == [];
  }
}
