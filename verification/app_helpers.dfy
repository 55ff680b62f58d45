/**
 * File naming helpers of the `app` package (`app/utils/helpers.py`): the
 * file-name sanitiser, the path of a downloaded video and the duration
 * formatter.
 */
module AppHelpers {
  import opened Common
  import opened PyText
  import opened Urls
  import opened Files

  // ---------------------------------------------------------------------------
  // Character classes

  /** The class `[<>:"/\\|?*]`. */
  const ForbiddenChars: set<char> := {'<', '>', ':', '"', '/', '\\', '|', '?', '*'}

  predicate IsAscii(c: char) {
    c as int < 128
  }

  /** A character a sanitised name may hold. */
  predicate SafeChar(c: char) {
    c !in ForbiddenChars && IsAscii(c)
  }

  predicate AllSafe(s: string) {
    forall i :: 0 <= i < |s| ==> SafeChar(s[i])
  }

  /** No two underscores in a row. */
  predicate NoDoubleUnderscore(s: string) {
    forall j, i :: 0 < j < |s| && i == j - 1 ==> !(s[i] == '_' && s[j] == '_')
  }

  /** The characters `strip('. ')` removes. */
  const StripChars: set<char> := {'.', ' '}

  // ---------------------------------------------------------------------------
  // The stages of `sanitize_filename`

  /** `re.sub(r'[<>:"/\\|?*]', '_', s)`. */
  function ReplaceForbidden(s: string): (r: string)
    ensures |r| == |s|
    ensures forall i :: 0 <= i < |s| ==> r[i] == (if s[i] in ForbiddenChars then '_' else s[i])
  {
    if |s| == 0 then "" else [if s[0] in ForbiddenChars then '_' else s[0]] + ReplaceForbidden(s[1..])
  }

  /** `''.join(c if ord(c) < 128 else '_' for c in s)`: one underscore per character. */
  function ReplaceNonAscii(s: string): (r: string)
    ensures |r| == |s|
    ensures forall i :: 0 <= i < |s| ==> r[i] == (if IsAscii(s[i]) then s[i] else '_')
  {
    if |s| == 0 then "" else [if IsAscii(s[0]) then s[0] else '_'] + ReplaceNonAscii(s[1..])
  }

  /** `re.sub(r'_+', '_', s)`: every run of underscores becomes one. */
  function CollapseUnderscores(s: string): (r: string)
    ensures |r| <= |s|
    ensures |s| > 0 ==> |r| > 0 && r[0] == s[0]
    ensures NoDoubleUnderscore(r)
    ensures AllSafe(s) ==> AllSafe(r)
    decreases |s|
  {
    if |s| == 0 then ""
    else if s[0] == '_' then
      var rest := LStrip(s[1..], {'_'});
      SuffixKeeps(s, |s| - |rest|);
      var tail := CollapseUnderscores(rest);
      ConsKeeps('_', tail);
      "_" + tail
    else
      SuffixKeeps(s, 1);
      var tail := CollapseUnderscores(s[1..]);
      ConsKeeps(s[0], tail);
      [s[0]] + tail
  }

  /** A suffix of a text keeps its safe characters and its single underscores. */
  lemma SuffixKeeps(s: string, k: nat)
    requires k <= |s|
    ensures AllSafe(s) ==> AllSafe(s[k..])
    ensures NoDoubleUnderscore(s) ==> NoDoubleUnderscore(s[k..])
  {
    SubstringKeeps(s, k, |s| - k);
    assert s[k..k + (|s| - k)] == s[k..];
  }

  /** One character in front keeps a text free of double underscores unless
   *  an underscore meets another, and safe if the character is. */
  lemma ConsKeeps(c: char, x: string)
    ensures NoDoubleUnderscore(x) && (c != '_' || x == [] || x[0] != '_') ==> NoDoubleUnderscore([c] + x)
    ensures SafeChar(c) && AllSafe(x) ==> AllSafe([c] + x)
  {
    var t := [c] + x;
    if NoDoubleUnderscore(x) && (c != '_' || x == [] || x[0] != '_') {
      forall j, i | 0 < j < |t| && i == j - 1 ensures !(t[i] == '_' && t[j] == '_') {
        if i > 0 {
          assert t[i] == x[i - 1] && t[j] == x[j - 1];
        }
      }
    }
    if SafeChar(c) && AllSafe(x) {
      assert forall i :: 0 < i < |t| ==> t[i] == x[i - 1];
    }
  }

  /** The sanitised name before the length limit: forbidden and non-ASCII
   *  characters replaced, underscore runs collapsed, dots and spaces
   *  stripped from both ends. */
  function CleanName(s: string): (r: string)
    ensures AllSafe(r) && NoDoubleUnderscore(r)
    ensures r == [] || (r[0] !in StripChars && r[|r| - 1] !in StripChars)
  {
    var replaced := ReplaceNonAscii(ReplaceForbidden(s));
    assert AllSafe(replaced);
    var collapsed := CollapseUnderscores(replaced);
    StripKeeps(collapsed);
    Strip(collapsed, StripChars)
  }

  /** Stripping dots and spaces keeps a text safe and free of double underscores. */
  lemma {:induction false} StripKeeps(s: string)
    requires AllSafe(s) && NoDoubleUnderscore(s)
    ensures AllSafe(Strip(s, StripChars)) && NoDoubleUnderscore(Strip(s, StripChars))
    decreases |s|
  {
    if |s| > 0 && s[0] in StripChars {
      SubstringKeeps(s, 1, |s| - 1);
      assert s[1..1 + (|s| - 1)] == s[1..];
      StripKeeps(s[1..]);
    } else if |s| > 0 && s[|s| - 1] in StripChars {
      SubstringKeeps(s, 0, |s| - 1);
      assert s[0..|s| - 1] == s[..|s| - 1];
      StripKeeps(s[..|s| - 1]);
    }
  }

  /** A piece of a text keeps its safe characters and its single underscores. */
  lemma SubstringKeeps(s: string, lo: nat, n: nat)
    requires lo + n <= |s|
    ensures AllSafe(s) ==> AllSafe(s[lo..lo + n])
    ensures NoDoubleUnderscore(s) ==> NoDoubleUnderscore(s[lo..lo + n])
  {
    var t := s[lo..lo + n];
    assert forall i :: 0 <= i < n ==> t[i] == s[lo + i];
  }

  // ---------------------------------------------------------------------------
  // `os.path.splitext`

  /** The position of the last `c` in `s`. */
  function LastIndexOf(s: string, c: char): (r: Option<nat>)
    ensures r.None? ==> c !in s
    ensures r.Some? ==> r.value < |s| && s[r.value] == c
    ensures r.Some? ==> forall j :: r.value < j < |s| ==> s[j] != c
  {
    if |s| == 0 then None
    else if s[|s| - 1] == c then Some(|s| - 1)
    else LastIndexOf(s[..|s| - 1], c)
  }

  /** Some character strictly between `lo` and `hi` is not a dot. */
  predicate NonDotBetween(p: string, lo: int, hi: int) {
    exists k :: lo < k < hi && 0 <= k < |p| && p[k] != '.'
  }

  /** `os.path.splitext(p)` (POSIX): the extension runs from the last dot of
   *  the last path component, unless everything before that dot in the
   *  component is a dot too. */
  function SplitExt(p: string): (r: (string, string))
    ensures r.0 + r.1 == p
    ensures r.1 == [] || (r.1[0] == '.' && '.' !in r.1[1..] && '/' !in r.1)
  {
    var sep := match LastIndexOf(p, '/') case None => -1 case Some(i) => i;
    match LastIndexOf(p, '.')
    case None => (p, "")
    case Some(dot) =>
      if dot > sep && NonDotBetween(p, sep, dot) then
        TailAfterLast(p, dot, sep);
        (p[..dot], p[dot..])
      else (p, "")
  }

  lemma TailAfterLast(p: string, dot: nat, sep: int)
    requires sep < dot < |p| && p[dot] == '.'
    requires forall j :: dot < j < |p| ==> p[j] != '.'
    requires forall j :: sep < j < |p| && 0 <= j ==> p[j] != '/'
    ensures '.' !in p[dot + 1..] && '/' !in p[dot..]
  {
    var ext := p[dot..];
    forall j | 0 <= j < |ext| ensures ext[j] != '/' && (j > 0 ==> ext[j] != '.') {
      assert ext[j] == p[dot + j];
    }
    assert p[dot + 1..] == ext[1..];
  }

  /** The length limit: a cleaned name over 200 characters keeps the first
   *  196 characters of its stem, then `...`, then its extension. */
  function LimitLength(f: string): (r: string)
  {
    if |f| > 200 then
      var (name, ext) := SplitExt(f);
      Take(name, 196) + "..." + ext
    else f
  }

  /** `sanitize_filename`. */
  function SanitizeFilename(filename: string): (r: string)
    ensures AllSafe(r) && NoDoubleUnderscore(r)
  {
    var f := CleanName(filename);
    LimitKeeps(f);
    LimitLength(f)
  }

  /** Truncation only adds dots, so it keeps both properties of the cleaned name. */
  lemma LimitKeeps(f: string)
    requires AllSafe(f) && NoDoubleUnderscore(f)
    ensures AllSafe(LimitLength(f)) && NoDoubleUnderscore(LimitLength(f))
  {
    if |f| > 200 {
      var (name, ext) := SplitExt(f);
      var head := Take(name, 196);
      SubstringKeeps(f, 0, |head|);
      assert f[0..|head|] == head;
      SubstringKeeps(f, |name|, |ext|);
      assert f[|name|..|name| + |ext|] == ext;
      ConcatKeeps(head, "...");
      ConcatKeeps(head + "...", ext);
    }
  }

  /** Joining two texts keeps both properties when no underscore meets another at the seam. */
  lemma ConcatKeeps(a: string, b: string)
    requires AllSafe(a) && NoDoubleUnderscore(a) && AllSafe(b) && NoDoubleUnderscore(b)
    requires a == [] || b == [] || a[|a| - 1] != '_' || b[0] != '_'
    ensures AllSafe(a + b) && NoDoubleUnderscore(a + b)
  {
    var s := a + b;
    forall i | 0 <= i < |s| - 1 ensures !(s[i] == '_' && s[i + 1] == '_') {
      if i + 1 < |a| {
        assert s[i] == a[i] && s[i + 1] == a[i + 1];
      } else if i >= |a| {
        assert s[i] == b[i - |a|] && s[i + 1] == b[i + 1 - |a|];
      }
    }
  }

  // ---------------------------------------------------------------------------
  // What sanitising guarantees

  /** Collapsing removes underscores only: every other character stays, in order. */
  lemma {:induction false} CollapseKeepsText(s: string)
    ensures RemoveChars(CollapseUnderscores(s), {'_'}) == RemoveChars(s, {'_'})
    decreases |s|
  {
    if |s| > 0 {
      if s[0] == '_' {
        var rest := LStrip(s[1..], {'_'});
        CollapseKeepsText(rest);
        LStripUnderscores(s[1..]);
        assert ("_" + CollapseUnderscores(rest))[1..] == CollapseUnderscores(rest);
      } else {
        CollapseKeepsText(s[1..]);
        assert ([s[0]] + CollapseUnderscores(s[1..]))[1..] == CollapseUnderscores(s[1..]);
      }
    }
  }

  lemma {:induction false} LStripUnderscores(s: string)
    ensures RemoveChars(LStrip(s, {'_'}), {'_'}) == RemoveChars(s, {'_'})
    decreases |s|
  {
    if |s| > 0 && s[0] == '_' {
      LStripUnderscores(s[1..]);
    }
  }

  /** A text without two underscores in a row is left alone by collapsing. */
  lemma {:induction false} CollapseNoop(s: string)
    requires NoDoubleUnderscore(s)
    ensures CollapseUnderscores(s) == s
    decreases |s|
  {
    if |s| > 0 {
      var tail := s[1..];
      NoDoubleTail(s);
      CollapseNoop(tail);
      if s[0] == '_' {
        assert LStrip(tail, {'_'}) == tail;
        assert CollapseUnderscores(s) == "_" + tail;
      } else {
        assert CollapseUnderscores(s) == [s[0]] + tail;
      }
      assert s == [s[0]] + tail;
    }
  }

  /** Dropping the first character keeps a text free of double underscores,
   *  and a leading underscore is not followed by another. */
  lemma NoDoubleTail(s: string)
    requires |s| > 0 && NoDoubleUnderscore(s)
    ensures NoDoubleUnderscore(s[1..])
    ensures s[0] == '_' ==> s[1..] == [] || s[1..][0] != '_'
  {
    var t := s[1..];
    forall j, i | 0 < j < |t| && i == j - 1 ensures !(t[i] == '_' && t[j] == '_') {
      assert t[i] == s[i + 1] && t[j] == s[j + 1];
    }
    if |s| > 1 {
      assert t[0] == s[1];
    }
  }

  /** A name that is already clean is its own clean name. */
  lemma CleanNameNoop(f: string)
    requires AllSafe(f) && NoDoubleUnderscore(f)
    requires f == [] || (f[0] !in StripChars && f[|f| - 1] !in StripChars)
    ensures CleanName(f) == f
  {
    assert ReplaceForbidden(f) == f;
    assert ReplaceNonAscii(f) == f;
    CollapseNoop(f);
    StripNoop(f, StripChars);
  }

  /** Below the limit the sanitised name is the clean name, and sanitising it
   *  again changes nothing. */
  lemma SanitizeIdempotentUnlimited(filename: string)
    requires |CleanName(filename)| <= 200
    ensures SanitizeFilename(filename) == CleanName(filename)
    ensures SanitizeFilename(SanitizeFilename(filename)) == SanitizeFilename(filename)
  {
    var c := CleanName(filename);
    assert SanitizeFilename(filename) == c;
    CleanNameNoop(c);
    assert SanitizeFilename(c) == LimitLength(c);
  }

  /** Over the limit the length is that of the kept stem, the three dots and
   *  the whole extension: nothing bounds it by 200. */
  lemma SanitizeLimitedLength(filename: string)
    requires |CleanName(filename)| > 200
    ensures var (name, ext) := SplitExt(CleanName(filename));
      |SanitizeFilename(filename)| == (if |name| < 196 then |name| else 196) + 3 + |ext|
  {
  }

  predicate AllLower(t: string) {
    forall i :: 0 <= i < |t| ==> 'a' <= t[i] <= 'z'
  }

  lemma LowerIsClean(t: string)
    requires AllLower(t)
    ensures AllSafe(t) && NoDoubleUnderscore(t) && '.' !in t && '/' !in t
  {
  }

  /** `a.` followed by 199 or more letters is sanitised to more than 200
   *  characters: the stem is one letter, the extension everything after it. */
  lemma SanitizeLongExtension(t: string)
    requires |t| >= 199 && AllLower(t)
    ensures SanitizeFilename("a." + t) == "a" + "..." + "." + t
    ensures |SanitizeFilename("a." + t)| == |t| + 5 > 200
  {
    var f := "a." + t;
    LowerIsClean(t);
    ConcatKeeps("a.", t);
    assert f[|f| - 1] == t[|t| - 1];
    CleanNameNoop(f);
    LongExtensionSplit(t);
    assert SanitizeFilename(f) == LimitLength(f);
    assert Take("a", 196) == "a";
    assert LimitLength(f) == "a" + "..." + ("." + t);
  }

  lemma LongExtensionSplit(t: string)
    requires AllLower(t)
    ensures SplitExt("a." + t) == ("a", "." + t)
  {
    var f := "a." + t;
    assert forall j :: 1 < j < |f| ==> f[j] == t[j - 2];
    assert LastIndexOf(f, '.') == Some(1);
    assert LastIndexOf(f, '/') == None;
    assert f[0] != '.';
    assert NonDotBetween(f, -1, 1);
    assert f[..1] == "a" && f[1..] == "." + t;
  }

  /** A long name without a dot loses its tail to `...`, which a second pass
   *  strips again: sanitising is not idempotent over the limit. */
  lemma SanitizeNotIdempotent(t: string)
    requires |t| > 200 && AllLower(t)
    ensures SanitizeFilename(t) == t[..196] + "..."
    ensures SanitizeFilename(SanitizeFilename(t)) == t[..196]
  {
    LowerIsClean(t);
    CleanNameNoop(t);
    assert LastIndexOf(t, '.') == None;
    var r := t[..196] + "...";
    TruncatedClean(t[..196]);
  }

  /** Cleaning a stem of letters followed by `...` strips the dots. */
  lemma TruncatedClean(stem: string)
    requires |stem| == 196 && AllLower(stem)
    ensures CleanName(stem + "...") == stem
  {
    var r := stem + "...";
    LowerIsClean(stem);
    ConcatKeeps(stem, "...");
    assert ReplaceForbidden(r) == r;
    assert ReplaceNonAscii(r) == r;
    CollapseNoop(r);
    assert stem[0] !in StripChars && stem[195] !in StripChars;
    StripTail(stem, "...", StripChars);
  }

  // ---------------------------------------------------------------------------
  // `get_video_path`

  /** `f"{sanitize_filename(title)}_{video_id}.mp4"`. */
  function VideoFileName(videoId: string, title: string): string {
    SanitizeFilename(title) + IdSuffix(videoId)
  }

  /** The part of the file name after the title: `_{video_id}.mp4`. */
  function IdSuffix(videoId: string): string {
    "_" + videoId + ".mp4"
  }

  /** `get_video_path`: the file lies in `directory/temp` for a temporary
   *  file and directly in `directory` otherwise. */
  function GetVideoPath(videoId: string, title: string, directory: Path, temp: bool): (r: Path)
    ensures |r| > 0 && Name(r) == VideoFileName(videoId, title)
    ensures Parent(r) == if temp then directory + ["temp"] else directory
  {
    (if temp then directory + ["temp"] else directory) + [VideoFileName(videoId, title)]
  }

  /** The temporary and the final path of a video share their file name,
   *  whatever the two directories. */
  lemma TempAndFinalShareName(videoId: string, title: string, videoDir: Path, processedDir: Path)
    ensures Name(GetVideoPath(videoId, title, videoDir, true)) == Name(GetVideoPath(videoId, title, processedDir, false))
    ensures Parent(GetVideoPath(videoId, title, videoDir, true)) == videoDir + ["temp"]
  {
  }

  /** `n` ends with `_`, the identifier and `.mp4`. */
  predicate EndsWithId(n: string, videoId: string) {
    |n| >= 16 && n[|n| - 16] == '_' && n[|n| - 15..|n| - 4] == videoId && n[|n| - 4..] == ".mp4"
  }

  /** The file name is a single safe path component that ends with the identifier. */
  lemma VideoFileNameCarriesId(videoId: string, title: string)
    requires IsVideoId(videoId)
    ensures AllSafe(VideoFileName(videoId, title)) && '/' !in VideoFileName(videoId, title)
    ensures EndsWithId(VideoFileName(videoId, title), videoId)
  {
    var t := SanitizeFilename(title);
    var tail := IdSuffix(videoId);
    IdTailSafe(videoId);
    SafeSuffix(t, tail, videoId);
  }

  lemma SafeSuffix(t: string, tail: string, videoId: string)
    requires AllSafe(t) && AllSafe(tail) && EndsWithId(tail, videoId) && |tail| == 16
    ensures AllSafe(t + tail) && '/' !in t + tail && EndsWithId(t + tail, videoId)
  {
    var n := t + tail;
    forall i | 0 <= i < |n| ensures SafeChar(n[i]) {
      if i < |t| { assert n[i] == t[i]; } else { assert n[i] == tail[i - |t|]; }
    }
    assert n[|n| - 16] == tail[0];
    assert n[|n| - 15..|n| - 4] == tail[1..12];
    assert n[|n| - 4..] == tail[12..];
  }

  lemma IdTailSafe(videoId: string)
    requires IsVideoId(videoId)
    ensures AllSafe(IdSuffix(videoId)) && EndsWithId(IdSuffix(videoId), videoId) && |IdSuffix(videoId)| == 16
  {
    var tail := IdSuffix(videoId);
    forall i | 0 <= i < |tail| ensures SafeChar(tail[i]) {
      if 1 <= i < 12 { assert tail[i] == videoId[i - 1] && IsIdChar(videoId[i - 1]); }
    }
    assert tail[1..12] == videoId;
    assert tail[12..] == ".mp4";
  }

  // ---------------------------------------------------------------------------
  // `format_duration`

  /** Hours, minutes and seconds of a duration, with Python's floor division. */
  function DurationParts(seconds: int): (r: (int, int, int))
    ensures 0 <= r.1 < 60 && 0 <= r.2 < 60
    ensures r.0 * 3600 + r.1 * 60 + r.2 == seconds
    ensures seconds >= 0 ==> r.0 >= 0
  {
    var h := seconds / 3600;
    var m := (seconds % 3600) / 60;
    var s := seconds % 60;
    assert seconds % 3600 == m * 60 + s;
    (h, m, s)
  }

  /** `f"{n:02d}"` for `0 <= n < 100`. */
  function Pad2(n: nat): (r: string)
    requires n < 100
    ensures |r| == 2 && forall i :: 0 <= i < 2 ==> IsDigit(r[i])
  {
    if n < 10 then "0" + NatToString(n)
    else
      assert NatToString(n) == NatToString(n / 10) + [DigitChar(n % 10)];
      NatToString(n)
  }

  /** `format_duration`: `h:mm:ss` when there are whole hours, else `m:ss`. */
  function FormatDuration(seconds: int): string {
    var (h, m, s) := DurationParts(seconds);
    if h > 0 then IntToString(h) + ":" + Pad2(m) + ":" + Pad2(s)
    else NatToString(m) + ":" + Pad2(s)
  }

  /** The value of a `:`-separated clock text, base 60 from the left; `None`
   *  when a field is empty or not all digits. */
  function ParseClock(fields: seq<string>): Option<nat> {
    if |fields| == 0 then Some(0)
    else
      var last := fields[|fields| - 1];
      if DigitField(last) then
        match ParseClock(fields[..|fields| - 1])
        case Some(v) => Some(v * 60 + ParseNat(last))
        case None => None
      else None
  }

  /** A two-digit field is a digit field that reads back as its number. */
  lemma PaddedField(n: nat)
    requires n < 100
    ensures DigitField(Pad2(n)) && ParseNat(Pad2(n)) == n
  {
    ParsePad2(n);
  }

  lemma ParsePad2(n: nat)
    requires n < 100
    ensures ParseNat(Pad2(n)) == n
  {
    ParseNatToString(n);
    if n < 10 {
      ParseNatLeadingZero(NatToString(n));
    }
  }

  /** Reading the formatted text back as a clock gives the duration. */
  lemma FormatDurationRoundTrip(seconds: nat)
    ensures ParseClock(Split(FormatDuration(seconds), ":")) == Some(seconds)
  {
    if seconds >= 3600 {
      HoursRoundTrip(seconds);
    } else {
      MinutesRoundTrip(seconds);
    }
  }

  lemma HoursRoundTrip(seconds: nat)
    requires seconds >= 3600
    ensures ParseClock(Split(FormatDuration(seconds), ":")) == Some(seconds)
  {
    var p := DurationParts(seconds);
    HoursShown(seconds);
    HoursClock(p.0, p.1, p.2);
  }

  /** From one hour on, the text has three fields. */
  lemma HoursShown(seconds: nat)
    requires seconds >= 3600
    ensures var p := DurationParts(seconds);
      p.0 > 0 && FormatDuration(seconds) == NatToString(p.0) + ":" + Pad2(p.1) + ":" + Pad2(p.2)
  {
    var p := DurationParts(seconds);
    assert p.0 > 0 by {
      assert p.0 * 3600 + p.1 * 60 + p.2 == seconds;
    }
  }

  lemma MinutesRoundTrip(seconds: nat)
    requires seconds < 3600
    ensures ParseClock(Split(FormatDuration(seconds), ":")) == Some(seconds)
  {
    var p := DurationParts(seconds);
    MinutesShown(seconds);
    MinutesClock(p.1, p.2);
  }

  /** Below one hour, the text has two fields and no hours. */
  lemma MinutesShown(seconds: nat)
    requires seconds < 3600
    ensures var p := DurationParts(seconds);
      p.0 == 0 && FormatDuration(seconds) == NatToString(p.1) + ":" + Pad2(p.2)
  {
    var p := DurationParts(seconds);
    assert p.0 == 0 by {
      assert p.0 * 3600 + p.1 * 60 + p.2 == seconds;
    }
  }

  lemma HoursClock(h: nat, m: nat, s: nat)
    requires m < 60 && s < 60
    ensures ParseClock(Split(NatToString(h) + ":" + Pad2(m) + ":" + Pad2(s), ":")) == Some(h * 3600 + m * 60 + s)
  {
    PaddedField(m);
    PaddedField(s);
    ParseNatToString(h);
    ThreeFieldClock(NatToString(h), Pad2(m), Pad2(s));
  }

  lemma MinutesClock(m: nat, s: nat)
    requires s < 60
    ensures ParseClock(Split(NatToString(m) + ":" + Pad2(s), ":")) == Some(m * 60 + s)
  {
    PaddedField(s);
    ParseNatToString(m);
    TwoFieldClock(NatToString(m), Pad2(s));
  }

  /** `a:b:c` of digit fields reads as `a` hours, `b` minutes, `c` seconds. */
  lemma ThreeFieldClock(a: string, b: string, c: string)
    requires DigitField(a) && DigitField(b) && DigitField(c)
    ensures ParseClock(Split(a + ":" + b + ":" + c, ":")) == Some(ParseNat(a) * 3600 + ParseNat(b) * 60 + ParseNat(c))
  {
    var fields := [a, b, c];
    ClockFieldsJoin(fields);
    ClockFieldsSplit(fields);
    ParseClockThree(a, b, c);
  }

  /** `a:b` of digit fields reads as `a` minutes and `b` seconds. */
  lemma TwoFieldClock(a: string, b: string)
    requires DigitField(a) && DigitField(b)
    ensures ParseClock(Split(a + ":" + b, ":")) == Some(ParseNat(a) * 60 + ParseNat(b))
  {
    var fields := [a, b];
    ClockFieldsJoin(fields);
    ClockFieldsSplit(fields);
    ParseClockTwo(a, b);
  }

  predicate DigitField(f: string) {
    |f| > 0 && forall i :: 0 <= i < |f| ==> IsDigit(f[i])
  }

  lemma ParseClockTwo(a: string, b: string)
    requires DigitField(a) && DigitField(b)
    ensures ParseClock([a, b]) == Some(ParseNat(a) * 60 + ParseNat(b))
  {
    ParseClockLast([a], b);
    ParseClockLast([], a);
    assert [] + [a] == [a];
  }

  lemma ParseClockThree(a: string, b: string, c: string)
    requires DigitField(a) && DigitField(b) && DigitField(c)
    ensures ParseClock([a, b, c]) == Some((ParseNat(a) * 60 + ParseNat(b)) * 60 + ParseNat(c))
  {
    ParseClockTwo(a, b);
    ParseClockLast([a, b], c);
    assert [a, b] + [c] == [a, b, c];
  }

  /** One more digit field shifts the value by sixty and adds the field. */
  lemma ParseClockLast(fields: seq<string>, last: string)
    requires DigitField(last)
    ensures ParseClock(fields + [last])
      == match ParseClock(fields) case Some(v) => Some(v * 60 + ParseNat(last)) case None => None
  {
    var f := fields + [last];
    assert f[|f| - 1] == last;
    assert f[..|f| - 1] == fields;
  }

  /** Digit fields joined by `:` split back into themselves. */
  lemma ClockFieldsSplit(fields: seq<string>)
    requires 2 <= |fields| <= 3
    requires forall k :: 0 <= k < |fields| ==> forall i :: 0 <= i < |fields[k]| ==> IsDigit(fields[k][i])
    ensures Split(Join(fields, ":"), ":") == fields
  {
    forall k | 0 <= k < |fields| ensures ':' !in fields[k] {
      DigitsNoColon(fields[k]);
    }
    SplitJoinChar(fields, ':');
  }

  lemma DigitsNoColon(f: string)
    requires forall i :: 0 <= i < |f| ==> IsDigit(f[i])
    ensures ':' !in f
  {
  }

  /** Two or three fields joined by `:`, written out. */
  lemma ClockFieldsJoin(fields: seq<string>)
    requires 2 <= |fields| <= 3
    ensures |fields| == 3 ==> Join(fields, ":") == fields[0] + ":" + fields[1] + ":" + fields[2]
    ensures |fields| == 2 ==> Join(fields, ":") == fields[0] + ":" + fields[1]
  {
    if |fields| == 3 {
      assert fields[1..][1..] == [fields[2]];
    }
  }

  /** A negative duration prints as its remainder modulo one hour. */
  lemma NegativeDurationWraps(seconds: int)
    requires seconds < 0
    ensures FormatDuration(seconds) == FormatDuration(seconds % 3600)
  {
  }
}
