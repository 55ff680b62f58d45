/**
 * Input validation of the `app` package (`app/utils/validators.py`):
 * turning what the user typed into an eleven-character video identifier,
 * checking that a metadata record has its required keys, and checking the
 * shape of a spreadsheet identifier.
 */
module AppValidators {
  import opened Common
  import opened PyText
  import opened Urls

  /** Host names (after lower-casing and dropping the port) of full URLs. */
  const YoutubeHosts: seq<string> := ["www.youtube.com", "youtube.com", "m.youtube.com"]

  /** Host name of short links. */
  const ShortLinkHost: string := "youtu.be"

  const InvalidUrlMessage: string := "Invalid YouTube URL. Please provide a valid YouTube video URL."
  const NoIdMessage: string := "Could not extract valid video ID from URL"

  /** The text after the first `marker` of `path`, up to the next `marker`
   *  and then up to the first `?`: `path.split(marker)[1].split('?')[0]`. */
  function AfterMarker(path: string, marker: string): (r: string)
    requires |marker| > 0 && Contains(path, marker)
    ensures !Contains(r, marker) && '?' !in r
  {
    var between := Split(path, marker)[1];
    SplitPartsFree(path, marker, 1);
    var r := Split(between, "?")[0];
    SplitPartsFree(between, "?", 0);
    ContainsChar(r, '?');
    SplitHead(between, "?");
    AfterMarkerFree(between, marker);
    r
  }

  /** The part before the first `?` of a text without `marker` has no `marker` either. */
  lemma AfterMarkerFree(between: string, marker: string)
    requires |marker| > 0 && !Contains(between, marker)
    ensures !Contains(Split(between, "?")[0], marker)
  {
    SplitHead(between, "?");
    var r := Split(between, "?")[0];
    assert r == between[..|r|];
    forall j | 0 <= j <= |r| ensures !OccursAt(r, marker, j) {
      PrefixOccurrence(between, |r|, marker, j);
    }
    ContainsIff(r, marker);
  }

  lemma PrefixOccurrence(s: string, n: nat, sub: string, j: nat)
    ensures n <= |s| && OccursAt(s[..n], sub, j) ==> OccursAt(s, sub, j)
  {
    if n <= |s| && OccursAt(s[..n], sub, j) {
      assert s[j..j + |sub|] == s[..n][j..j + |sub|];
    }
  }

  /** The identifier candidate the parts of a URL carry, before the format
   *  check: `None` for an unknown host, an unknown path shape or a missing
   *  `v` parameter. */
  function CandidateId(parts: UrlParts): (r: Option<string>)
    ensures r.Some? ==> Hostname(parts.netloc).Some?
    ensures r.Some? ==> Hostname(parts.netloc).value in YoutubeHosts + [ShortLinkHost]
  {
    var host := Hostname(parts.netloc);
    var path := parts.path;
    if host.Some? && host.value in YoutubeHosts then
      if path == "/watch" || path == "/shorts" then QueryFirst(parts.query, "v")
      else if Contains(path, "/shorts/") then Some(AfterMarker(path, "/shorts/"))
      else if StartsWith(path, "/embed/") then
        StartsWithContains(path, "/embed/");
        Some(AfterMarker(path, "/embed/"))
      else if StartsWith(path, "/v/") then
        StartsWithContains(path, "/v/");
        Some(AfterMarker(path, "/v/"))
      else None
    else if host == Some(ShortLinkHost) then
      var v := LStrip(path, {'/'});
      Some(if '?' in v then Split(v, "?")[0] else v)
    else None
  }

  /** The final format check on the extracted candidate. */
  function AcceptCandidate(id: Option<string>): (r: Result<string>)
    ensures r.Ok? <==> id.Some? && MatchesIdPattern(id.value)
    ensures r.Ok? ==> r.value == id.value
    ensures r.Err? ==> r.error == Error(ValidationError, NoIdMessage)
  {
    if id.Some? && id.value != "" && MatchesIdPattern(id.value) then Ok(id.value)
    else Err(Error(ValidationError, NoIdMessage))
  }

  /** `validate_youtube_url`: a bare identifier (after stripping surrounding
   *  white space) is returned as it is; otherwise the URL must name a known
   *  host and carry a well-formed identifier where that host puts it. */
  function ValidateYoutubeUrl(url: string): (r: Result<string>)
    ensures r.Ok? ==> MatchesIdPattern(r.value)
    ensures r.Err? ==> r.error.kind == ValidationError
    ensures r.Err? ==> r.error.msg in {InvalidUrlMessage, NoIdMessage}
    ensures MatchesIdPattern(Strip(url, Whitespace)) ==> r == Ok(Strip(url, Whitespace))
  {
    var u := Strip(url, Whitespace);
    if MatchesIdPattern(u) then Ok(u)
    else match UrlSplit(u)
      case None => Err(Error(ValidationError, InvalidUrlMessage))
      case Some(parts) => AcceptCandidate(CandidateId(parts))
  }

  /** A stripped input can never end in a line break, so the direct-identifier
   *  test is exactly the eleven-character check. */
  lemma StrippedDirectId(url: string)
    ensures MatchesIdPattern(Strip(url, Whitespace)) <==> IsVideoId(Strip(url, Whitespace))
  {
    MatchesIdPatternNoNewline(Strip(url, Whitespace));
  }

  /** Only the four known hosts lead to an identifier other than a bare one. */
  lemma ValidateKnownHostsOnly(url: string)
    requires ValidateYoutubeUrl(url).Ok? && !MatchesIdPattern(Strip(url, Whitespace))
    ensures UrlSplit(Strip(url, Whitespace)).Some?
    ensures var host := Hostname(UrlSplit(Strip(url, Whitespace)).value.netloc);
      host.Some? && host.value in YoutubeHosts + [ShortLinkHost]
  {
    var u := Strip(url, Whitespace);
    assert ValidateYoutubeUrl(url) == match UrlSplit(u)
      case None => Err(Error(ValidationError, InvalidUrlMessage))
      case Some(parts) => AcceptCandidate(CandidateId(parts));
  }

  // ---------------------------------------------------------------------------
  // The URL shapes that carry an identifier

  predicate IsYoutubeHost(host: string) {
    host in YoutubeHosts
  }

  /** Characters with a meaning in URLs, none of which occurs in an identifier. */
  const UrlSpecials: set<char> := {'/', '?', '#', '[', ']', '&', '=', '+', '%', ':', '@', '\t', '\r', '\n'}

  lemma IdAvoids(id: string)
    requires AllIdChars(id)
    ensures Avoids(id, UrlSpecials)
  {
  }

  lemma IdCharNotSpace(c: char)
    requires IsIdChar(c)
    ensures c !in Whitespace
  {
  }

  predicate IsHostChar(c: char) {
    ('a' <= c <= 'z') || c == '.'
  }

  lemma HostCharsAvoid(host: string)
    requires forall i :: 0 <= i < |host| ==> IsHostChar(host[i])
    ensures Avoids(host, {'/', '?', '#', '[', ']'} + UnsafeBytes)
  {
  }

  lemma HostCharNotSpace(c: char)
    requires IsHostChar(c)
    ensures c !in Whitespace
  {
  }

  lemma KnownHostFacts(host: string)
    requires IsYoutubeHost(host) || host == ShortLinkHost
    ensures |host| >= 8 && IsPlainHost(host)
    ensures Hostname(host) == Some(host)
  {
    KnownHostChars(host);
    HostnamePlain(host);
  }

  lemma KnownHostChars(host: string)
    requires IsYoutubeHost(host) || host == ShortLinkHost
    ensures |host| >= 8 && IsPlainHost(host)
  {
    assert forall i :: 0 <= i < |host| ==> IsHostChar(host[i]);
  }

  /** `https://host path?query`, the query part absent when empty. */
  function HttpsUrl(host: string, path: string, query: string): string {
    "https://" + host + path + (if query == "" then "" else "?" + query)
  }

  /** The last character of `path?query` (of `path` when the query is empty)
   *  is not white space. */
  predicate EndsInText(path: string, query: string) {
    if query != "" then query[|query| - 1] !in Whitespace
    else path == [] || path[|path| - 1] !in Whitespace
  }

  /** A host name of lower-case letters and dots, starting with a letter. */
  predicate IsPlainHost(host: string) {
    host != "" && IsAsciiLetter(host[0]) && forall i :: 0 <= i < |host| ==> IsHostChar(host[i])
  }

  lemma HttpsUrlSplit(host: string, path: string, query: string)
    requires IsPlainHost(host)
    requires path == [] || path[0] == '/'
    requires Avoids(path, {'?', '#'} + UnsafeBytes) && Avoids(query, {'#'} + UnsafeBytes)
    ensures UrlSplit(HttpsUrl(host, path, query)) == Some(UrlParts("https", host, path, query, ""))
  {
    assert HttpsUrl(host, path, query) == "https" + "://" + host + path + (if query == "" then "" else "?" + query);
    assert IsLowerScheme("https");
    HostCharsAvoid(host);
    UrlSplitCompose("https", host, path, query);
  }

  lemma HttpsUrlUnstripped(host: string, path: string, query: string)
    requires IsPlainHost(host) && |host| >= 5
    requires EndsInText(path, query)
    ensures Strip(HttpsUrl(host, path, query), Whitespace) == HttpsUrl(host, path, query)
    ensures |HttpsUrl(host, path, query)| > 12
  {
    var url := HttpsUrl(host, path, query);
    assert url[|url| - 1] !in Whitespace by {
      if query != "" { assert url[|url| - 1] == query[|query| - 1]; }
      else if path != "" { assert url[|url| - 1] == path[|path| - 1]; }
      else { assert url[|url| - 1] == host[|host| - 1]; HostCharNotSpace(host[|host| - 1]); }
    }
    assert url[0] == 'h';
    StripNoop(url, Whitespace);
  }

  /** An `https` URL on a known host whose path and query are free of the
   *  delimiters that would move its parts is validated by looking at its
   *  candidate identifier. */
  lemma ValidateKnownHostUrl(host: string, path: string, query: string)
    requires IsYoutubeHost(host) || host == ShortLinkHost
    requires path == [] || path[0] == '/'
    requires Avoids(path, {'?', '#'} + UnsafeBytes) && Avoids(query, {'#'} + UnsafeBytes)
    requires EndsInText(path, query)
    ensures ValidateYoutubeUrl(HttpsUrl(host, path, query))
      == AcceptCandidate(CandidateId(UrlParts("https", host, path, query, "")))
  {
    KnownHostFacts(host);
    HttpsUrlSplit(host, path, query);
    HttpsUrlUnstripped(host, path, query);
    ValidateParsedUrl(HttpsUrl(host, path, query), UrlParts("https", host, path, query, ""));
  }

  /** An input that stripping leaves alone and that is too long to be a bare
   *  identifier is judged by the candidate its parts carry. */
  lemma ValidateParsedUrl(url: string, parts: UrlParts)
    requires Strip(url, Whitespace) == url && |url| > 12 && UrlSplit(url) == Some(parts)
    ensures ValidateYoutubeUrl(url) == AcceptCandidate(CandidateId(parts))
  {
    LongNotId(url);
    ValidateStripped(url, parts);
  }

  /** Input that stripping leaves alone and that is not a bare identifier is
   *  judged by the parts it splits into. */
  lemma ValidateStripped(url: string, parts: UrlParts)
    requires Strip(url, Whitespace) == url && !MatchesIdPattern(url) && UrlSplit(url) == Some(parts)
    ensures ValidateYoutubeUrl(url) == AcceptCandidate(CandidateId(parts))
  {
  }

  /** A text with a single slash, or whose slashes all come too early, does
   *  not contain a marker that starts and ends with a slash. */
  lemma NoSlashMarker(a: string, b: string, marker: string)
    requires '/' !in b && |marker| >= 2 && marker[0] == '/' && marker[|marker| - 1] == '/'
    requires |a| < |marker| - 1 || '/' !in a
    ensures !Contains(a + "/" + b, marker)
  {
    var s := a + "/" + b;
    forall j | 0 <= j <= |s| ensures !OccursAt(s, marker, j) {
      OccursAtChars(s, marker, j);
      SlashPosition(a, b, j);
      SlashPosition(a, b, j + |marker| - 1);
    }
    ContainsIff(s, marker);
  }

  lemma SlashPosition(a: string, b: string, x: nat)
    requires '/' !in b
    ensures x < |a + "/" + b| && (a + "/" + b)[x] == '/' ==> x <= |a| && (x == |a| || '/' in a)
  {
    var s := a + "/" + b;
    if x < |s| && x > |a| {
      assert s[x] == b[x - |a| - 1];
    }
  }

  /** A text without the first character of `sub` does not contain `sub`. */
  lemma NoLeadCharNoContains(s: string, sub: string)
    requires |sub| > 0 && sub[0] !in s
    ensures !Contains(s, sub)
  {
    forall j | 0 <= j <= |s| ensures !OccursAt(s, sub, j) {
      OccursAtChars(s, sub, j);
    }
    ContainsIff(s, sub);
  }

  /** A path made of a marker and a text without slashes or `?` gives that text back. */
  lemma MarkerThenText(path: string, marker: string, t: string)
    requires |marker| > 0 && path == marker + t && marker[0] == '/' && '/' !in t && '?' !in t
    ensures Contains(path, marker) && AfterMarker(path, marker) == t
  {
    assert OccursAt(path, marker, 0);
    assert IndexOf(path, marker) == Some(0);
    SplitCons(path, marker, 0);
    assert path[|marker|..] == t;
    NoLeadCharNoContains(t, marker);
    SplitAbsent(t, marker);
    assert Split(path, marker)[1] == t;
    ContainsChar(t, '?');
    SplitAbsent(t, "?");
  }

  /** The path `marker + id`, with an empty query, on a known host. */
  lemma MarkerPathUrl(host: string, marker: string, id: string)
    requires IsYoutubeHost(host) || host == ShortLinkHost
    requires |marker| > 0 && marker[0] == '/' && Avoids(marker, {'?', '#'} + UnsafeBytes)
    requires IsVideoId(id)
    ensures ValidateYoutubeUrl(HttpsUrl(host, marker + id, ""))
      == AcceptCandidate(CandidateId(UrlParts("https", host, marker + id, "", "")))
  {
    var path := marker + id;
    assert Avoids(path, {'?', '#'} + UnsafeBytes) && EndsInText(path, "") by {
      IdAvoids(id);
      AvoidsSubset(id, UrlSpecials, {'?', '#'} + UnsafeBytes);
      AvoidsConcat(marker, id, {'?', '#'} + UnsafeBytes);
      assert path[|path| - 1] == id[10];
      IdCharNotSpace(id[10]);
    }
    assert path == [] || path[0] == '/';
    ValidateKnownHostUrl(host, path, "");
  }

  // Which branch of `CandidateId` a path takes on a known host.

  lemma CandidateOnWatch(host: string, query: string)
    requires IsYoutubeHost(host)
    ensures CandidateId(UrlParts("https", host, "/watch", query, "")) == QueryFirst(query, "v")
  {
    KnownHostFacts(host);
  }

  lemma CandidateOnShorts(host: string, path: string)
    requires IsYoutubeHost(host) && path != "/watch" && path != "/shorts" && Contains(path, "/shorts/")
    ensures CandidateId(UrlParts("https", host, path, "", "")) == Some(AfterMarker(path, "/shorts/"))
  {
    KnownHostFacts(host);
  }

  lemma CandidateOnEmbed(host: string, path: string)
    requires IsYoutubeHost(host) && path != "/watch" && path != "/shorts"
    requires !Contains(path, "/shorts/") && StartsWith(path, "/embed/")
    ensures Contains(path, "/embed/")
    ensures CandidateId(UrlParts("https", host, path, "", "")) == Some(AfterMarker(path, "/embed/"))
  {
    KnownHostFacts(host);
    StartsWithContains(path, "/embed/");
  }

  lemma CandidateOnShare(host: string, path: string)
    requires IsYoutubeHost(host) && path != "/watch" && path != "/shorts"
    requires !Contains(path, "/shorts/") && !StartsWith(path, "/embed/") && StartsWith(path, "/v/")
    ensures Contains(path, "/v/")
    ensures CandidateId(UrlParts("https", host, path, "", "")) == Some(AfterMarker(path, "/v/"))
  {
    KnownHostFacts(host);
    StartsWithContains(path, "/v/");
  }

  lemma CandidateOnShortLink(path: string)
    requires '?' !in LStrip(path, {'/'})
    ensures CandidateId(UrlParts("https", ShortLinkHost, path, "", "")) == Some(LStrip(path, {'/'}))
  {
    ShortLinkHostFacts();
  }

  lemma ShortLinkHostFacts()
    ensures Hostname(ShortLinkHost) == Some(ShortLinkHost) && !IsYoutubeHost(ShortLinkHost)
  {
    KnownHostFacts(ShortLinkHost);
  }

  /** `v=<id>` carries the identifier. */
  lemma QueryOfId(id: string)
    requires IsVideoId(id)
    ensures QueryFirst("v=" + id, "v") == Some(id)
  {
    IdAvoids(id);
    AvoidsSubset(id, UrlSpecials, {'&', '+', '%'});
    QueryFirstSingle("v", id);
    assert "v" + "=" + id == "v=" + id;
  }

  /** `https://<host>/watch?v=<id>` on any of the three full hosts yields the identifier. */
  lemma WatchUrlYieldsId(host: string, id: string)
    requires IsYoutubeHost(host) && IsVideoId(id)
    ensures ValidateYoutubeUrl(HttpsUrl(host, "/watch", "v=" + id)) == Ok(id)
  {
    WatchQueryFacts(id);
    ValidateKnownHostUrl(host, "/watch", "v=" + id);
    CandidateOnWatch(host, "v=" + id);
    QueryOfId(id);
  }

  lemma WatchQueryFacts(id: string)
    requires IsVideoId(id)
    ensures Avoids("v=" + id, {'#'} + UnsafeBytes) && EndsInText("/watch", "v=" + id)
  {
    var query := "v=" + id;
    IdAvoids(id);
    AvoidsSubset(id, UrlSpecials, {'#'} + UnsafeBytes);
    AvoidsConcat("v=", id, {'#'} + UnsafeBytes);
    assert query[|query| - 1] == id[10];
    IdCharNotSpace(id[10]);
  }

  /** `https://<host>/shorts/<id>` yields the identifier. */
  lemma ShortsUrlYieldsId(host: string, id: string)
    requires IsYoutubeHost(host) && IsVideoId(id)
    ensures ValidateYoutubeUrl(HttpsUrl(host, "/shorts/" + id, "")) == Ok(id)
  {
    MarkerPathUrl(host, "/shorts/", id);
    ShortsPathFacts(id);
    CandidateOnShorts(host, "/shorts/" + id);
  }

  lemma ShortsPathFacts(id: string)
    requires IsVideoId(id)
    ensures var path := "/shorts/" + id;
      && path != "/watch" && path != "/shorts"
      && Contains(path, "/shorts/") && AfterMarker(path, "/shorts/") == id
  {
    var path := "/shorts/" + id;
    IdAvoids(id);
    MarkerThenText(path, "/shorts/", id);
    assert |path| == 19;
  }

  /** `https://<host>/embed/<id>` yields the identifier. */
  lemma EmbedUrlYieldsId(host: string, id: string)
    requires IsYoutubeHost(host) && IsVideoId(id)
    ensures ValidateYoutubeUrl(HttpsUrl(host, "/embed/" + id, "")) == Ok(id)
  {
    MarkerPathUrl(host, "/embed/", id);
    EmbedPathFacts(id);
    CandidateOnEmbed(host, "/embed/" + id);
  }

  lemma EmbedPathFacts(id: string)
    requires IsVideoId(id)
    ensures var path := "/embed/" + id;
      && path != "/watch" && path != "/shorts"
      && !Contains(path, "/shorts/") && StartsWith(path, "/embed/")
      && Contains(path, "/embed/") && AfterMarker(path, "/embed/") == id
  {
    var path := "/embed/" + id;
    IdAvoids(id);
    assert path == "/embed" + "/" + id;
    NoSlashMarker("/embed", id, "/shorts/");
    MarkerThenText(path, "/embed/", id);
    assert |path| == 18;
  }

  /** `https://<host>/v/<id>` yields the identifier. */
  lemma ShareUrlYieldsId(host: string, id: string)
    requires IsYoutubeHost(host) && IsVideoId(id)
    ensures ValidateYoutubeUrl(HttpsUrl(host, "/v/" + id, "")) == Ok(id)
  {
    MarkerPathUrl(host, "/v/", id);
    SharePathFacts(id);
    CandidateOnShare(host, "/v/" + id);
  }

  lemma SharePathFacts(id: string)
    requires IsVideoId(id)
    ensures var path := "/v/" + id;
      && path != "/watch" && path != "/shorts"
      && !Contains(path, "/shorts/") && !StartsWith(path, "/embed/") && StartsWith(path, "/v/")
      && Contains(path, "/v/") && AfterMarker(path, "/v/") == id
  {
    var path := "/v/" + id;
    IdAvoids(id);
    assert path == "/v" + "/" + id;
    NoSlashMarker("/v", id, "/shorts/");
    assert path[1] == 'v';
    MarkerThenText(path, "/v/", id);
    assert |path| == 14;
  }

  /** `https://youtu.be/<id>` yields the identifier. */
  lemma ShortLinkYieldsId(id: string)
    requires IsVideoId(id)
    ensures ValidateYoutubeUrl(HttpsUrl(ShortLinkHost, "/" + id, "")) == Ok(id)
  {
    MarkerPathUrl(ShortLinkHost, "/", id);
    ShortLinkPathFacts(id);
    CandidateOnShortLink("/" + id);
  }

  lemma ShortLinkPathFacts(id: string)
    requires IsVideoId(id)
    ensures LStrip("/" + id, {'/'}) == id && '?' !in id
  {
    var path := "/" + id;
    assert '?' !in id && id[0] != '/' by { IdAvoids(id); }
    assert path[1..] == id;
    assert LStrip(path, {'/'}) == LStrip(id, {'/'});
  }

  /** Extra segments after a shorts identifier make the extraction fail. */
  lemma ShortsExtraSegmentRejected(host: string, id: string, extra: string)
    requires IsYoutubeHost(host) && IsVideoId(id) && IsVideoId(extra)
    ensures ValidateYoutubeUrl(HttpsUrl(host, "/shorts/" + id + "/" + extra, ""))
      == Err(Error(ValidationError, NoIdMessage))
  {
    var path := "/shorts/" + id + "/" + extra;
    MarkerPathUrl(host, "/shorts/" + id + "/", extra);
    ExtraSegmentPathFacts(path, id, extra);
    CandidateOnShorts(host, path);
  }

  lemma ExtraSegmentPathFacts(path: string, id: string, extra: string)
    requires IsVideoId(id) && IsVideoId(extra) && path == "/shorts/" + id + "/" + extra
    ensures path != "/watch" && path != "/shorts"
    ensures Contains(path, "/shorts/") && !MatchesIdPattern(AfterMarker(path, "/shorts/"))
  {
    assert path == "/shorts/" + (id + "/" + extra);
    IdAvoids(id);
    IdAvoids(extra);
    ExtraSegmentCandidate(path, id, extra);
    assert |path| == 31;
  }

  lemma ExtraSegmentCandidate(path: string, id: string, extra: string)
    requires path == "/shorts/" + (id + "/" + extra)
    requires Avoids(id, UrlSpecials) && Avoids(extra, UrlSpecials) && |id| == 11
    ensures Contains(path, "/shorts/") && !MatchesIdPattern(AfterMarker(path, "/shorts/"))
  {
    var after := id + "/" + extra;
    assert OccursAt(path, "/shorts/", 0);
    assert IndexOf(path, "/shorts/") == Some(0);
    SplitCons(path, "/shorts/", 0);
    assert path[8..] == after;
    NoSlashMarker(id, extra, "/shorts/");
    SplitAbsent(after, "/shorts/");
    AvoidsConcat(id, "/", {'?'});
    AvoidsConcat(id + "/", extra, {'?'});
    ContainsChar(after, '?');
    SplitAbsent(after, "?");
    assert AfterMarker(path, "/shorts/") == after;
    assert after[11] == '/';
  }

  /** A `watch` URL without a `v` parameter is refused. */
  lemma WatchWithoutVRejected(host: string, query: string)
    requires IsYoutubeHost(host)
    requires Avoids(query, {'#'} + UnsafeBytes) && EndsInText("/watch", query)
    requires QueryFirst(query, "v").None?
    ensures ValidateYoutubeUrl(HttpsUrl(host, "/watch", query)) == Err(Error(ValidationError, NoIdMessage))
  {
    ValidateKnownHostUrl(host, "/watch", query);
    CandidateOnWatch(host, query);
  }

  /** Python's `$` accepts one final line break, and a percent-encoded line
   *  break at the end of `v` survives URL cleaning: the identifier is then
   *  returned with a trailing newline. */
  lemma WatchUrlEncodedNewline(id: string)
    requires IsVideoId(id)
    ensures ValidateYoutubeUrl(HttpsUrl("www.youtube.com", "/watch", "v=" + id + "%0A")) == Ok(id + "\n")
  {
    var host := "www.youtube.com";
    var query := "v=" + id + "%0A";
    assert IsYoutubeHost(host);
    assert ValidateYoutubeUrl(HttpsUrl(host, "/watch", query))
        == AcceptCandidate(CandidateId(UrlParts("https", host, "/watch", query, ""))) by {
      IdAvoids(id);
      AvoidsSubset(id, UrlSpecials, {'#'} + UnsafeBytes);
      AvoidsConcat("v=", id, {'#'} + UnsafeBytes);
      AvoidsConcat("v=" + id, "%0A", {'#'} + UnsafeBytes);
      assert query[|query| - 1] == 'A';
      ValidateKnownHostUrl(host, "/watch", query);
    }
    CandidateOnWatch(host, query);
    QueryOfIdNewline(id);
    assert MatchesIdPattern(id + "\n") by { assert (id + "\n")[..11] == id; }
  }

  /** `v=<id>%0A` carries the identifier followed by a line break. */
  lemma QueryOfIdNewline(id: string)
    requires IsVideoId(id)
    ensures QueryFirst("v=" + id + "%0A", "v") == Some(id + "\n")
  {
    var query := "v=" + id + "%0A";
    IdNewlineSingleField(id);
    IdNewlineField(id);
    assert Split(query, "&")[1..] == [];
  }

  /** `v=<id>%0A` has no `&`, so it is a single field. */
  lemma IdNewlineSingleField(id: string)
    requires IsVideoId(id)
    ensures Split("v=" + id + "%0A", "&") == ["v=" + id + "%0A"]
  {
    var value := id + "%0A";
    var query := "v=" + value;
    assert query == "v=" + id + "%0A";
    IdAvoids(id);
    AvoidsSubset(id, UrlSpecials, {'&'});
    AvoidsConcat(id, "%0A", {'&'});
    AvoidsConcat("v=", value, {'&'});
    ContainsChar(query, '&');
    SplitAbsent(query, "&");
  }

  /** The field `v=<id>%0A` names `v` and decodes to the identifier and a
   *  line break. */
  lemma IdNewlineField(id: string)
    requires IsVideoId(id)
    ensures QueryField("v=" + id + "%0A") == Some(("v", id + "\n"))
  {
    var value := id + "%0A";
    assert "v=" + id + "%0A" == "v" + ['='] + value;
    SplitOnceCompose("v", '=', value);
    IdNewlineValue(id);
    assert Unquote(PlusToSpace("v")) == "v";
  }

  /** The value `<id>%0A` decodes to the identifier and a line break. */
  lemma IdNewlineValue(id: string)
    requires IsVideoId(id)
    ensures Unquote(PlusToSpace(id + "%0A")) == id + "\n"
  {
    var value := id + "%0A";
    assert '+' !in value && '%' !in id by {
      IdAvoids(id);
      AvoidsSubset(id, UrlSpecials, {'+', '%'});
      AvoidsConcat(id, "%0A", {'+'});
    }
    UnquotePlainPrefix(id, "%0A");
    UnquoteNewline();
  }

  /** `%0A` decodes to a line break. */
  lemma UnquoteNewline()
    ensures Unquote("%0A") == "\n"
  {
    var s := "%0A";
    assert IsHexDigit(s[1]) && IsHexDigit(s[2]);
    assert HexValue(s[1]) * 16 + HexValue(s[2]) == 10;
    assert Unquote(s[3..]) == "";
  }

  // ---------------------------------------------------------------------------
  // `validate_video_metadata` and `validate_spreadsheet_id`

  const RequiredMetadata: seq<string> := ["id", "title", "duration"]

  const MissingMetadataPrefix: string := "Missing required video metadata fields: "

  /** The fields of `fields` that are not keys of the record, in their order. */
  function MissingFields(fields: seq<string>, keys: set<string>): (r: seq<string>)
    ensures forall f :: f in r <==> f in fields && f !in keys
    ensures |r| <= |fields|
  {
    if |fields| == 0 then []
    else if fields[0] !in keys then [fields[0]] + MissingFields(fields[1..], keys)
    else MissingFields(fields[1..], keys)
  }

  /** The missing required fields, spelled out one by one in their order. */
  lemma MissingRequiredInOrder(keys: set<string>)
    ensures MissingFields(RequiredMetadata, keys)
      == (if "id" in keys then [] else ["id"])
       + (if "title" in keys then [] else ["title"])
       + (if "duration" in keys then [] else ["duration"])
  {
    var r := RequiredMetadata;
    assert r[0] == "id" && r[1..] == ["title", "duration"];
    assert r[1..][0] == "title" && r[1..][1..] == ["duration"];
    assert r[1..][1..][0] == "duration" && r[1..][1..][1..] == [];
    var m3 := MissingFields(r[1..][1..], keys);
    assert m3 == (if "duration" in keys then [] else ["duration"]);
    var m2 := MissingFields(r[1..], keys);
    assert m2 == (if "title" in keys then [] else ["title"]) + m3;
  }

  /** `validate_video_metadata`, over the key set of the record. */
  function ValidateVideoMetadata(keys: set<string>): (r: Outcome)
    ensures r.Pass? <==> "id" in keys && "title" in keys && "duration" in keys
    ensures r.Fail? ==> r.error.kind == ValidationError
    ensures r.Fail? ==> r.error.msg == MissingMetadataPrefix + Join(MissingFields(RequiredMetadata, keys), ", ")
  {
    var missing := MissingFields(RequiredMetadata, keys);
    assert "id" in RequiredMetadata && "title" in RequiredMetadata && "duration" in RequiredMetadata;
    if |missing| > 0 then
      assert missing[0] in RequiredMetadata && missing[0] !in keys;
      Fail(Error(ValidationError, MissingMetadataPrefix + Join(missing, ", ")))
    else
      assert "id" !in missing && "title" !in missing && "duration" !in missing;
      Pass
  }

  /** `validate_spreadsheet_id`. */
  function ValidateSpreadsheetId(id: string): (r: Outcome)
    ensures r.Pass? ==> id != "" && (AllIdChars(id) || (|id| > 1 && id[|id| - 1] == '\n' && AllIdChars(id[..|id| - 1])))
    ensures id != "" && AllIdChars(id) ==> r.Pass?
    ensures |id| > 1 && id[|id| - 1] == '\n' && AllIdChars(id[..|id| - 1]) ==> r.Pass?
    ensures r.Fail? ==> r == Fail(Error(ValidationError, "Invalid spreadsheet ID format"))
  {
    if !MatchesIdCharsPattern(id) then Fail(Error(ValidationError, "Invalid spreadsheet ID format")) else Pass
  }

  /** The empty identifier and any identifier with a character outside the
   *  class (other than one final line break) are refused. */
  lemma SpreadsheetIdRejects(id: string, k: nat)
    requires k < |id| && !IsIdChar(id[k]) && !(k == |id| - 1 && id[k] == '\n')
    ensures ValidateSpreadsheetId(id).Fail? && ValidateSpreadsheetId("").Fail?
  {
    assert !AllIdChars(id);
    assert |id| > 1 && id[|id| - 1] == '\n' ==> !AllIdChars(id[..|id| - 1]) by {
      if |id| > 1 && id[|id| - 1] == '\n' {
        assert k < |id| - 1;
        assert id[..|id| - 1][k] == id[k];
      }
    }
  }
}
