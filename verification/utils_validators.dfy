/**
 * Input validation of the older command-line tool (`utils/validators.py`):
 * the same job as `AppValidators.ValidateYoutubeUrl`, done differently.  The
 * network location is compared as it was typed (no lower-casing, no port
 * removal), path markers are searched for anywhere in the path, and the
 * identifier of a `shorts` or `embed` URL is the last `/`-separated segment.
 */
module UtilsValidators {
  import opened Common
  import opened PyText
  import opened Urls
  import AppValidators

  /** Network locations of full URLs, compared verbatim. */
  const YoutubeNetlocs: seq<string> := ["www.youtube.com", "youtube.com", "m.youtube.com"]

  /** Network location of short links, compared verbatim. */
  const ShortLinkNetloc: string := "youtu.be"

  const UnsupportedFormatMessage: string :=
    "Invalid YouTube URL format. Please provide a valid YouTube URL or video ID.\nSupported formats:\n- https://www.youtube.com/watch?v=VIDEO_ID\n- https://youtu.be/VIDEO_ID\n- https://youtube.com/shorts/VIDEO_ID\n- VIDEO_ID (11 characters)"

  const EmptyUrlMessage: string := "URL cannot be empty"
  const BadIdMessage: string := "Invalid video ID format. YouTube video IDs are 11 characters long."

  /** `urlparse` raising `ValueError("Invalid IPv6 URL")`, wrapped by the
   *  catch-all handler. */
  const MalformedUrlMessage: string := "Error processing URL: Invalid IPv6 URL"

  /** A network location written exactly as one of the three full-URL ones. */
  predicate IsFullNetloc(netloc: string) {
    netloc in YoutubeNetlocs
  }

  /** The value the parts of a URL yield, before any format check, or the
   *  format error where the function falls through to it. */
  function IdFromParts(parts: UrlParts): (r: Result<string>)
    ensures r.Ok? ==> parts.netloc in YoutubeNetlocs + [ShortLinkNetloc]
    ensures r.Err? ==> r.error == Error(ValidationError, UnsupportedFormatMessage)
    ensures parts.netloc == ShortLinkNetloc ==> r == Ok(LStrip(parts.path, {'/'}))
  {
    var path := parts.path;
    if parts.netloc == ShortLinkNetloc then Ok(LStrip(path, {'/'}))
    else if parts.netloc in YoutubeNetlocs then
      var v := if Contains(path, "watch") then QueryFirst(parts.query, "v") else None;
      if v.Some? then Ok(v.value)
      else if Contains(path, "shorts") || Contains(path, "embed") then Ok(LastPart(path, "/"))
      else Err(Error(ValidationError, UnsupportedFormatMessage))
    else Err(Error(ValidationError, UnsupportedFormatMessage))
  }

  /** `extract_video_id_from_url`: a bare identifier is returned as it is;
   *  otherwise the value at the position the network location and path
   *  call for, which need not be a well-formed identifier. */
  function ExtractVideoId(url: string): (r: Result<string>)
    ensures MatchesIdPattern(url) ==> r == Ok(url)
    ensures r.Err? ==> r.error.kind == ValidationError
    ensures r.Err? ==> r.error.msg in {UnsupportedFormatMessage, MalformedUrlMessage}
    ensures r.Ok? && !MatchesIdPattern(url) ==>
      UrlSplit(url).Some? && UrlSplit(url).value.netloc in YoutubeNetlocs + [ShortLinkNetloc]
  {
    if MatchesIdPattern(url) then Ok(url)
    else match UrlSplit(url)
      case None => Err(Error(ValidationError, MalformedUrlMessage))
      case Some(parts) => IdFromParts(parts)
  }

  /** The format check `validate_youtube_url` applies to what was extracted. */
  function CheckIdFormat(extracted: Result<string>): (r: Result<string>)
    ensures r.Ok? <==> extracted.Ok? && MatchesIdPattern(extracted.value)
    ensures r.Ok? ==> r == extracted
    ensures extracted.Err? ==> r == extracted
    ensures extracted.Ok? && !MatchesIdPattern(extracted.value) ==> r == Err(Error(ValidationError, BadIdMessage))
  {
    match extracted
    case Err(e) => Err(e)
    case Ok(id) => if MatchesIdPattern(id) then Ok(id) else Err(Error(ValidationError, BadIdMessage))
  }

  /** `validate_youtube_url`: the empty input is refused first; otherwise the
   *  stripped input is extracted from and the result must be an identifier. */
  function ValidateYoutubeUrl(url: string): (r: Result<string>)
    ensures |url| == 0 <==> r == Err(Error(ValidationError, EmptyUrlMessage))
    ensures r.Ok? ==> MatchesIdPattern(r.value)
    ensures r.Err? ==> r.error.kind == ValidationError
    ensures r.Err? ==> r.error.msg in {EmptyUrlMessage, UnsupportedFormatMessage, MalformedUrlMessage, BadIdMessage}
    ensures |url| > 0 && MatchesIdPattern(Strip(url, Whitespace)) ==> r == Ok(Strip(url, Whitespace))
  {
    if |url| == 0 then Err(Error(ValidationError, EmptyUrlMessage))
    else CheckIdFormat(ExtractVideoId(Strip(url, Whitespace)))
  }

  /** Apart from a bare identifier, only the four network locations, written
   *  exactly as listed, lead to an identifier. */
  lemma ValidateExactNetlocsOnly(url: string)
    requires ValidateYoutubeUrl(url).Ok? && !MatchesIdPattern(Strip(url, Whitespace))
    ensures UrlSplit(Strip(url, Whitespace)).Some?
    ensures UrlSplit(Strip(url, Whitespace)).value.netloc in YoutubeNetlocs + [ShortLinkNetloc]
  {
  }

  // ---------------------------------------------------------------------------
  // The raw network location against the host name

  /** A listed network location is its own host name. */
  lemma ListedNetlocHostname(netloc: string)
    ensures netloc in YoutubeNetlocs + [ShortLinkNetloc] ==> Hostname(netloc) == Some(netloc)
  {
    if netloc in YoutubeNetlocs + [ShortLinkNetloc] {
      AppValidators.KnownHostFacts(netloc);
    }
  }

  /** A network location that only differs from a known host in letter case
   *  or an explicit port is recognised by the `app` validator exactly as the
   *  host itself is, and refused by this one. */
  lemma NetlocVariantDiverges(netloc: string, host: string, parts: UrlParts)
    requires host in YoutubeNetlocs + [ShortLinkNetloc]
    requires Hostname(netloc) == Some(host) && netloc != host
    ensures AppValidators.CandidateId(parts.(netloc := netloc)) == AppValidators.CandidateId(parts.(netloc := host))
    ensures IdFromParts(parts.(netloc := netloc)) == Err(Error(ValidationError, UnsupportedFormatMessage))
  {
    ListedNetlocHostname(host);
    CandidateIdByHostname(parts.(netloc := netloc), parts.(netloc := host));
    ListedNetlocHostname(netloc);
    UnlistedNetloc(parts.(netloc := netloc));
  }

  /** The `app` validator sees the network location only through its host name. */
  lemma CandidateIdByHostname(a: UrlParts, b: UrlParts)
    requires Hostname(a.netloc) == Hostname(b.netloc) && a.path == b.path && a.query == b.query
    ensures AppValidators.CandidateId(a) == AppValidators.CandidateId(b)
  {
  }

  /** Any network location outside the list is refused. */
  lemma UnlistedNetloc(parts: UrlParts)
    requires parts.netloc !in YoutubeNetlocs + [ShortLinkNetloc]
    ensures IdFromParts(parts) == Err(Error(ValidationError, UnsupportedFormatMessage))
  {
  }

  /** `youtu.be:443` against `youtu.be`, or `www.youtube.com:8080` against
   *  `www.youtube.com`: only the `app` validator sees through the port. */
  lemma PortVariantDiverges(host: string, port: string, parts: UrlParts)
    requires host in YoutubeNetlocs + [ShortLinkNetloc] && '@' !in port
    ensures AppValidators.CandidateId(parts.(netloc := host + ":" + port)) == AppValidators.CandidateId(parts.(netloc := host))
    ensures IdFromParts(parts.(netloc := host + ":" + port)) == Err(Error(ValidationError, UnsupportedFormatMessage))
  {
    AppValidators.KnownHostFacts(host);
    HostnameDropsPort(host, port);
    HostnameFolds(host);
    NetlocVariantDiverges(host + ":" + port, host, parts);
  }

  /** `YOUTU.BE` against `youtu.be`: only the `app` validator folds the case. */
  lemma CaseVariantDiverges(netloc: string, parts: UrlParts)
    requires Lower(netloc) in YoutubeNetlocs + [ShortLinkNetloc] && netloc != Lower(netloc)
    requires '@' !in netloc && ':' !in netloc
    ensures AppValidators.CandidateId(parts.(netloc := netloc)) == AppValidators.CandidateId(parts.(netloc := Lower(netloc)))
    ensures IdFromParts(parts.(netloc := netloc)) == Err(Error(ValidationError, UnsupportedFormatMessage))
  {
    HostnameFolds(netloc);
    NetlocVariantDiverges(netloc, Lower(netloc), parts);
  }

  // ---------------------------------------------------------------------------
  // The URL shapes that carry an identifier

  /** An input that stripping leaves alone and that is too long to be a bare
   *  identifier is judged by what its parts yield. */
  lemma ValidateParsedUrl(url: string, parts: UrlParts)
    requires Strip(url, Whitespace) == url && |url| > 12 && UrlSplit(url) == Some(parts)
    ensures ValidateYoutubeUrl(url) == CheckIdFormat(IdFromParts(parts))
  {
    ExtractFromParts(url, parts);
    ValidateStripped(url);
  }

  /** Anything but a bare identifier is extracted from its parts. */
  lemma ExtractFromParts(url: string, parts: UrlParts)
    requires |url| > 12 && UrlSplit(url) == Some(parts)
    ensures ExtractVideoId(url) == IdFromParts(parts)
  {
    LongNotId(url);
  }

  /** Input that stripping leaves alone is extracted from as it is. */
  lemma ValidateStripped(url: string)
    requires Strip(url, Whitespace) == url && |url| > 0
    ensures ValidateYoutubeUrl(url) == CheckIdFormat(ExtractVideoId(url))
  {
  }

  /** An `https` URL on a listed network location whose path and query are
   *  free of the delimiters that would move its parts. */
  lemma ValidateListedNetlocUrl(host: string, path: string, query: string)
    requires IsFullNetloc(host) || host == ShortLinkNetloc
    requires path == [] || path[0] == '/'
    requires Avoids(path, {'?', '#'} + UnsafeBytes) && Avoids(query, {'#'} + UnsafeBytes)
    requires AppValidators.EndsInText(path, query)
    ensures var url := AppValidators.HttpsUrl(host, path, query);
      ValidateYoutubeUrl(url) == CheckIdFormat(IdFromParts(UrlParts("https", host, path, query, "")))
  {
    AppValidators.KnownHostFacts(host);
    AppValidators.HttpsUrlSplit(host, path, query);
    AppValidators.HttpsUrlUnstripped(host, path, query);
    ValidateParsedUrl(AppValidators.HttpsUrl(host, path, query), UrlParts("https", host, path, query, ""));
  }

  /** `https://<host>/watch?v=<id>` yields the identifier. */
  lemma WatchUrlYieldsId(host: string, id: string)
    requires IsFullNetloc(host) && IsVideoId(id)
    ensures ValidateYoutubeUrl(AppValidators.HttpsUrl(host, "/watch", "v=" + id)) == Ok(id)
  {
    AppValidators.WatchQueryFacts(id);
    ValidateListedNetlocUrl(host, "/watch", "v=" + id);
    WatchParts(host, id);
  }

  lemma WatchParts(host: string, id: string)
    requires IsFullNetloc(host) && IsVideoId(id)
    ensures IdFromParts(UrlParts("https", host, "/watch", "v=" + id, "")) == Ok(id)
  {
    AppValidators.QueryOfId(id);
    assert OccursAt("/watch", "watch", 1);
  }

  /** On a full network location, a path with `shorts` or `embed` and no
   *  `v` parameter yields its last segment. */
  lemma SegmentParts(host: string, path: string)
    requires IsFullNetloc(host) && (Contains(path, "shorts") || Contains(path, "embed"))
    ensures IdFromParts(UrlParts("https", host, path, "", "")) == Ok(LastPart(path, "/"))
  {
  }

  /** A path `dir/<last>`, with `dir` free of URL delimiters. */
  lemma SegmentPathFacts(dir: string, last: string)
    requires |dir| > 0 && dir[0] == '/' && Avoids(dir, {'?', '#'} + UnsafeBytes)
    requires Avoids(last, AppValidators.UrlSpecials)
    requires last == [] || last[|last| - 1] !in Whitespace
    ensures var path := dir + "/" + last;
      && path[0] == '/' && Avoids(path, {'?', '#'} + UnsafeBytes)
      && AppValidators.EndsInText(path, "") && LastPart(path, "/") == last
  {
    var path := dir + "/" + last;
    AvoidsSubset(last, AppValidators.UrlSpecials, {'?', '#'} + UnsafeBytes);
    AvoidsConcat(dir, "/", {'?', '#'} + UnsafeBytes);
    AvoidsConcat(dir + "/", last, {'?', '#'} + UnsafeBytes);
    assert '/' !in last;
    LastPartAfter(dir, '/', last);
    assert dir + "/" + last == dir + ['/'] + last;
    assert last != [] ==> path[|path| - 1] == last[|last| - 1];
  }

  /** Wherever `shorts` or `embed` occurs in the path before the last slash,
   *  the last segment is taken: `/shorts/<id>`, `/embed/<id>`, but also
   *  `/user/embed/<id>`, which the `app` validator refuses. */
  lemma SegmentUrlYieldsId(host: string, dir: string, id: string)
    requires IsFullNetloc(host) && IsVideoId(id)
    requires |dir| > 0 && dir[0] == '/' && Avoids(dir, {'?', '#'} + UnsafeBytes)
    requires Contains(dir, "shorts") || Contains(dir, "embed")
    ensures ValidateYoutubeUrl(AppValidators.HttpsUrl(host, dir + "/" + id, "")) == Ok(id)
  {
    IdSegmentFacts(dir, id);
    ValidateListedNetlocUrl(host, dir + "/" + id, "");
    SegmentParts(host, dir + "/" + id);
  }

  lemma IdSegmentFacts(dir: string, id: string)
    requires IsVideoId(id)
    requires |dir| > 0 && dir[0] == '/' && Avoids(dir, {'?', '#'} + UnsafeBytes)
    requires Contains(dir, "shorts") || Contains(dir, "embed")
    ensures var path := dir + "/" + id;
      && path[0] == '/' && Avoids(path, {'?', '#'} + UnsafeBytes)
      && AppValidators.EndsInText(path, "") && LastPart(path, "/") == id
      && (Contains(path, "shorts") || Contains(path, "embed"))
  {
    AppValidators.IdAvoids(id);
    AppValidators.IdCharNotSpace(id[10]);
    SegmentPathFacts(dir, id);
    assert dir + "/" + id == dir + ("/" + id);
    SegmentMarker(dir, "/" + id);
  }

  /** A marker found in `dir` is still found once more text follows. */
  lemma SegmentMarker(dir: string, rest: string)
    ensures Contains(dir, "shorts") ==> Contains(dir + rest, "shorts")
    ensures Contains(dir, "embed") ==> Contains(dir + rest, "embed")
  {
    if Contains(dir, "shorts") {
      OccursAtPrefix(dir, rest, "shorts", IndexOf(dir, "shorts").value);
      ContainsIff(dir + rest, "shorts");
    }
    if Contains(dir, "embed") {
      OccursAtPrefix(dir, rest, "embed", IndexOf(dir, "embed").value);
      ContainsIff(dir + rest, "embed");
    }
  }

  /** `https://www.youtube.com/shorts/<id>` yields the identifier. */
  lemma ShortsUrlYieldsId(id: string)
    requires IsVideoId(id)
    ensures ValidateYoutubeUrl(AppValidators.HttpsUrl("www.youtube.com", "/shorts/" + id, "")) == Ok(id)
  {
    assert OccursAt("/shorts", "shorts", 1);
    assert "/shorts/" + id == "/shorts" + "/" + id;
    assert IsFullNetloc("www.youtube.com");
    SegmentUrlYieldsId("www.youtube.com", "/shorts", id);
  }

  /** A trailing slash leaves an empty last segment, which the format check refuses. */
  lemma TrailingSlashRejected(host: string, dir: string)
    requires IsFullNetloc(host)
    requires |dir| > 0 && dir[0] == '/' && Avoids(dir, {'?', '#'} + UnsafeBytes)
    requires Contains(dir, "shorts") || Contains(dir, "embed")
    ensures ValidateYoutubeUrl(AppValidators.HttpsUrl(host, dir + "/", "")) == Err(Error(ValidationError, BadIdMessage))
  {
    SegmentPathFacts(dir, "");
    assert dir + "/" + "" == dir + "/";
    ValidateListedNetlocUrl(host, dir + "/", "");
    SegmentMarker(dir, "/");
    SegmentParts(host, dir + "/");
  }

  /** `https://youtu.be/<id>` yields the identifier. */
  lemma ShortLinkYieldsId(id: string)
    requires IsVideoId(id)
    ensures ValidateYoutubeUrl(AppValidators.HttpsUrl(ShortLinkNetloc, "/" + id, "")) == Ok(id)
  {
    AppValidators.IdAvoids(id);
    AppValidators.IdCharNotSpace(id[10]);
    AvoidsSubset(id, AppValidators.UrlSpecials, {'?', '#'} + UnsafeBytes);
    AvoidsConcat("/", id, {'?', '#'} + UnsafeBytes);
    var path := "/" + id;
    assert path[|path| - 1] == id[10];
    ValidateListedNetlocUrl(ShortLinkNetloc, path, "");
    AppValidators.ShortLinkPathFacts(id);
  }

  /** A listed network location followed by an explicit port, such as
   *  `https://youtu.be:443/<id>`, is refused with the format message. */
  lemma PortedUrlRejected(host: string, port: string, id: string)
    requires (IsFullNetloc(host) || host == ShortLinkNetloc) && IsVideoId(id)
    requires forall i :: 0 <= i < |port| ==> IsDigit(port[i])
    ensures ValidateYoutubeUrl(AppValidators.HttpsUrl(host + ":" + port, "/" + id, ""))
      == Err(Error(ValidationError, UnsupportedFormatMessage))
  {
    var netloc := host + ":" + port;
    var parts := UrlParts("https", netloc, "/" + id, "", "");
    AppValidators.KnownHostChars(host);
    PortedUrlSplit(host, port, id);
    ValidateParsedUrl(AppValidators.HttpsUrl(netloc, "/" + id, ""), parts);
    assert '@' !in port;
    PortVariantDiverges(host, port, parts);
    assert parts.(netloc := netloc) == parts;
  }

  lemma PortedUrlSplit(host: string, port: string, id: string)
    requires AppValidators.IsPlainHost(host) && IsVideoId(id)
    requires forall i :: 0 <= i < |port| ==> IsDigit(port[i])
    ensures var url := AppValidators.HttpsUrl(host + ":" + port, "/" + id, "");
      && UrlSplit(url) == Some(UrlParts("https", host + ":" + port, "/" + id, "", ""))
      && Strip(url, Whitespace) == url && |url| > 12
  {
    var netloc := host + ":" + port;
    var path := "/" + id;
    PortedNetlocAvoids(host, port);
    IdPathAvoids(id);
    var url := AppValidators.HttpsUrl(netloc, path, "");
    assert url == "https" + "://" + netloc + path + "";
    assert url[..8] == "https://" && url[|url| - 11..] == id;
    assert IsLowerScheme("https");
    UrlSplitCompose("https", netloc, path, "");
    UnstrippedUrl(url, id);
  }

  /** An `https` URL ending in an identifier is left alone by stripping. */
  lemma UnstrippedUrl(url: string, id: string)
    requires IsVideoId(id) && |url| > 12 && url[..8] == "https://" && url[|url| - 11..] == id
    ensures Strip(url, Whitespace) == url
  {
    assert url[|url| - 1] == id[10];
    AppValidators.IdCharNotSpace(id[10]);
    assert url[0] == url[..8][0] == 'h';
    StripNoop(url, Whitespace);
  }

  lemma PortedNetlocAvoids(host: string, port: string)
    requires AppValidators.IsPlainHost(host)
    requires forall i :: 0 <= i < |port| ==> IsDigit(port[i])
    ensures Avoids(host + ":" + port, {'/', '?', '#', '[', ']'} + UnsafeBytes)
  {
    AppValidators.HostCharsAvoid(host);
    assert Avoids(":", {'/', '?', '#', '[', ']'} + UnsafeBytes);
    assert Avoids(port, {'/', '?', '#', '[', ']'} + UnsafeBytes) by {
      forall i | 0 <= i < |port| ensures port[i] !in {'/', '?', '#', '[', ']'} + UnsafeBytes {
        assert IsDigit(port[i]);
      }
    }
    AvoidsConcat(host, ":", {'/', '?', '#', '[', ']'} + UnsafeBytes);
    AvoidsConcat(host + ":", port, {'/', '?', '#', '[', ']'} + UnsafeBytes);
  }

  lemma IdPathAvoids(id: string)
    requires IsVideoId(id)
    ensures Avoids("/" + id, {'?', '#'} + UnsafeBytes) && id[10] !in Whitespace
  {
    AppValidators.IdAvoids(id);
    AppValidators.IdCharNotSpace(id[10]);
    AvoidsSubset(id, AppValidators.UrlSpecials, {'?', '#'} + UnsafeBytes);
    AvoidsConcat("/", id, {'?', '#'} + UnsafeBytes);
  }
}
