/** `CDNProvider`: the decision whether and how one resource URL is rewritten to point at the
    CDN, the memoised pattern tests, and the per-item access and tracking checks. The four caches
    of the provider are maps passed in and returned; since they are bounded and evict on their
    own, no property below assumes an entry survives from one call to the next unless it says so. */
module CdnProvider {
  import opened Outcomes
  import opened Text
  import opened Urls
  import opened Platform
  import Classifier
  import FileExtension

  /** The query parameter that stops replacement. */
  const StopToken := "ncdn"

  /** `UrlCache`: URLs, and "True"/"False" for the per-item checks, keyed by text. */
  type UrlCache = map<string, string>

  /** The provider's four caches. */
  datatype Caches = Caches(
    urls: UrlCache,
    excludeUrl: Classifier.BoolCache,
    includeUrl: Classifier.BoolCache,
    excludeRequest: Classifier.BoolCache)

  /** A yes/no answer together with the URL cache as the check left it. */
  datatype Check = Check(result: bool, cache: UrlCache)

  /** The URL `ReplaceMediaUrl` returns together with the URL cache as it left it. */
  datatype Rewrite = Rewrite(url: string, cache: UrlCache)

  /** A transformed URL, before it is written out, and the URL cache. */
  datatype Computed = Computed(url: Url, cache: UrlCache)

  /** What the media-library branch settled on: the URL to keep, the `vs` and `d` values to
      append (empty for none), and the URL cache. */
  datatype Versioning = Versioning(url: Url, version: string, updated: string, cache: UrlCache)

  /** `_cache.GetUrl(key)`, with a miss read as the empty string, as the callers test it. */
  function Cached(c: UrlCache, key: string): string {
    if key in c then c[key] else ""
  }

  /** The key under which a rewritten URL is remembered. */
  function CacheKey(inputUrl: string): string {
    "https" + inputUrl
  }

  // ---------------------------------------------------------------------------------------------
  // Site host name

  /** The site-definition attribute that names the CDN host. */
  const HostNameAttribute := "cdnHostName"

  /** `GetCDNHostName(site)`: the site's `cdnHostName` attribute, named in any case, or "" when
      there is no site or no such attribute (`StringUtil.GetString` of `null`). */
  function GetCDNHostName(site: Option<SiteContext>): (r: string)
    ensures site.None? ==> r == ""
    ensures site.Some? && (forall i :: !KeyAt(site.value.properties, HostNameAttribute, i)) ==> r == ""
    ensures site.Some? && r != "" ==>
              exists i :: KeyAt(site.value.properties, HostNameAttribute, i) && site.value.properties[i].value == r
  {
    match site
    case None => ""
    case Some(s) => Get(s.properties, HostNameAttribute).GetOr("")
  }

  /** The host name is the value of the first attribute whose name is `cdnHostName` up to case:
      `cdnhostname`, `CDNHOSTNAME` and `cdnHostName` all name it. */
  lemma HostNameIgnoresCase(s: SiteContext, i: int)
    requires KeyAt(s.properties, HostNameAttribute, i)
    requires forall j :: 0 <= j < i ==> !KeyAt(s.properties, HostNameAttribute, j)
    ensures GetCDNHostName(Some(s)) == s.properties[i].value
  {
    GetFirst(s.properties, HostNameAttribute, i);
  }

  // ---------------------------------------------------------------------------------------------
  // Pattern tests

  /** `UrlIsExluded`: the memoised test against the exclude-URL patterns. */
  function UrlIsExluded(env: Sitecore, cfg: Config, st: Caches, url: string): (r: (bool, Caches))
    ensures r.1 == st.(excludeUrl := r.1.excludeUrl)
    ensures url in r.1.excludeUrl && r.1.excludeUrl[url] == r.0
    ensures url in st.excludeUrl ==> r.0 == st.excludeUrl[url] && r.1 == st
    ensures url !in st.excludeUrl ==> (r.0 <==> exists i :: 0 <= i < |cfg.excludeUrlPatterns| && env.regexIsMatch(cfg.excludeUrlPatterns[i], url))
  {
    var d := Classifier.Classify(cfg.excludeUrlPatterns, env.regexIsMatch, st.excludeUrl, url);
    (d.result, st.(excludeUrl := d.cache))
  }

  /** `ShouldProcessRequest`: the memoised test against the process-request patterns. */
  function ShouldProcessRequest(env: Sitecore, cfg: Config, st: Caches, url: string): (r: (bool, Caches))
    ensures r.1 == st.(includeUrl := r.1.includeUrl)
    ensures url in r.1.includeUrl && r.1.includeUrl[url] == r.0
    ensures url in st.includeUrl ==> r.0 == st.includeUrl[url] && r.1 == st
    ensures url !in st.includeUrl ==> (r.0 <==> exists i :: 0 <= i < |cfg.processRequestPatterns| && env.regexIsMatch(cfg.processRequestPatterns[i], url))
  {
    var d := Classifier.Classify(cfg.processRequestPatterns, env.regexIsMatch, st.includeUrl, url);
    (d.result, st.(includeUrl := d.cache))
  }

  /** `ShouldExcludeRequest`: the memoised test against the exclude-request patterns. */
  function ShouldExcludeRequest(env: Sitecore, cfg: Config, st: Caches, url: string): (r: (bool, Caches))
    ensures r.1 == st.(excludeRequest := r.1.excludeRequest)
    ensures url in r.1.excludeRequest && r.1.excludeRequest[url] == r.0
    ensures url in st.excludeRequest ==> r.0 == st.excludeRequest[url] && r.1 == st
    ensures url !in st.excludeRequest ==> (r.0 <==> exists i :: 0 <= i < |cfg.excludeRequestPatterns| && env.regexIsMatch(cfg.excludeRequestPatterns[i], url))
  {
    var d := Classifier.Classify(cfg.excludeRequestPatterns, env.regexIsMatch, st.excludeRequest, url);
    (d.result, st.(excludeRequest := d.cache))
  }

  /** `UrlHasFileExtension`. Despite its name it is true when the text does NOT end in a dot and
      two to four letters or digits preceded by some character. */
  function UrlHasFileExtension(href: string): (r: bool)
    ensures r <==> !FileExtension.RegexMatches(href)
  {
    FileExtension.HasExtensionSuffixIsRegex(href);
    !FileExtension.HasExtensionSuffix(href)
  }

  // ---------------------------------------------------------------------------------------------
  // Per-item checks

  /** `IsMediaPubliclyAccessible`: a remembered answer is read back (default true); otherwise
      the anonymous user's read right decides, true when there is no anonymous user, and the
      answer is remembered under `<id>_public`. */
  function IsMediaPubliclyAccessible(env: Sitecore, c: UrlCache, item: MediaItem): (r: Check)
    ensures var key := item.id + "_public";
            && (Cached(c, key) != "" ==> r.cache == c && r.result == env.readBool(c[key]).GetOr(true))
            && (Cached(c, key) == "" ==> r.cache == c[key := BoolText(r.result)])
            && (Cached(c, key) == "" && env.anonymousCanRead(item).None? ==> r.result)
            && (Cached(c, key) == "" && env.anonymousCanRead(item).Some? ==> r.result == env.anonymousCanRead(item).value)
  {
    var key := item.id + "_public";
    var cached := Cached(c, key);
    if cached != "" then Check(env.readBool(cached).GetOr(true), c)
    else
      var output := env.anonymousCanRead(item).GetOr(true);
      Check(output, c[key := BoolText(output)])
  }

  /** The tracking element asks for tracking: it is not marked `ignore="1"` and has an `event`,
      `campaign` or `profile` child. */
  predicate AsksForTracking(el: TrackingElement) {
    && el.ignore != Some("1")
    && exists i :: 0 <= i < |el.children| && el.children[i] in {"event", "campaign", "profile"}
  }

  /** `el.Elements(name).Any()` for the three names, in one pass over the children. */
  function HasTrackingChild(children: seq<string>): (r: bool)
    ensures r <==> exists i :: 0 <= i < |children| && children[i] in {"event", "campaign", "profile"}
  {
    if |children| == 0 then false
    else
      var rest := HasTrackingChild(children[1..]);
      assert forall i :: 0 <= i < |children| - 1 ==> children[1..][i] == children[i + 1];
      children[0] == "event" || children[0] == "campaign" || children[0] == "profile" || rest
  }

  /** `IsMediaAnalyticsTracked`. */
  function IsMediaAnalyticsTracked(env: Sitecore, cfg: Config, c: UrlCache, item: MediaItem): (r: Check)
    ensures !cfg.xdbEnabled ==> r == Check(false, c)
    ensures var key := item.id + "_tracked";
            cfg.xdbEnabled ==>
            && (Cached(c, key) != "" ==> r == Check(env.readBool(c[key]).GetOr(true), c))
            && (Cached(c, key) == "" && item.tracking == "" ==> r == Check(false, c[key := "False"]))
            && (Cached(c, key) == "" && item.tracking != "" && env.parseTracking(item.tracking).None? ==> r == Check(false, c))
            && (Cached(c, key) == "" && item.tracking != "" && env.parseTracking(item.tracking).Some? ==>
                  && (r.result <==> AsksForTracking(env.parseTracking(item.tracking).value))
                  && r.cache == c[key := BoolText(r.result)])
  {
    if !cfg.xdbEnabled then Check(false, c)
    else
      var key := item.id + "_tracked";
      var cached := Cached(c, key);
      if cached != "" then Check(env.readBool(cached).GetOr(true), c)
      else if item.tracking == "" then Check(false, c[key := BoolText(false)])
      else
        match env.parseTracking(item.tracking)
        case None => Check(false, c)
        case Some(el) =>
          var output := if el.ignore.Some? && el.ignore.value == "1" then false else HasTrackingChild(el.children);
          Check(output, c[key := BoolText(output)])
  }

  /** Both per-item checks are memos: asked again with the cache they left, they give the same
      answer and change nothing, provided `MainUtil.GetBool` reads back `bool.ToString()`. */
  lemma ItemChecksMemo(env: Sitecore, cfg: Config, c: UrlCache, item: MediaItem)
    requires ReadsBoolText(env)
    ensures var p := IsMediaPubliclyAccessible(env, c, item);
            Cached(c, item.id + "_public") == "" ==> IsMediaPubliclyAccessible(env, p.cache, item) == p
    ensures var t := IsMediaAnalyticsTracked(env, cfg, c, item);
            t.cache != c ==> IsMediaAnalyticsTracked(env, cfg, t.cache, item) == t
  {
  }

  // ---------------------------------------------------------------------------------------------
  // ReplaceMediaUrl

  /** URLs that are returned untouched: external, `data:`, `http…`, `//…`, `mail…`, `ftp…` or
      `news…` (the prefixes compared after upper-casing, except `//`). */
  predicate IsPassThrough(env: Sitecore, inputUrl: string) {
    var upper := ToUpper(inputUrl);
    || env.isExternalUrl(inputUrl)
    || StartsWith(upper, "DATA:")
    || StartsWith(upper, "HTTP")
    || StartsWith(inputUrl, "//")
    || StartsWith(upper, "MAIL")
    || StartsWith(upper, "FTP")
    || StartsWith(upper, "NEWS")
  }

  /** The scheme prefixes that mark a URL as already absolute or not a resource. */
  const PassThroughPrefixes: seq<string> := ["data:", "http", "mail", "ftp", "news"]

  /** The upper-cased prefix tests ignore case: a URL passes through exactly when it is external,
      starts with `//`, or starts with one of the prefixes written in any mix of cases. */
  lemma PassThroughIgnoresCase(env: Sitecore, inputUrl: string)
    ensures IsPassThrough(env, inputUrl) <==>
              || env.isExternalUrl(inputUrl)
              || StartsWith(inputUrl, "//")
              || exists p :: p in PassThroughPrefixes && StartsWith(ToLower(inputUrl), p)
  {
    forall p | p in PassThroughPrefixes
      ensures StartsWith(ToUpper(inputUrl), ToUpper(p)) <==> StartsWith(ToLower(inputUrl), p)
    {
      assert ToLower(p) == p;
      if |p| <= |inputUrl| {
        ToUpperSlice(inputUrl, 0, |p|);
        ToLowerSlice(inputUrl, 0, |p|);
        SameUpToCase(inputUrl[..|p|], p);
      }
    }
    assert ToUpper("data:") == "DATA:";
    assert ToUpper("http") == "HTTP";
    assert ToUpper("mail") == "MAIL";
    assert ToUpper("ftp") == "FTP";
    assert ToUpper("news") == "NEWS";
  }

  /** `url[StopToken]`, with a missing parameter read as empty. */
  function StopValue(u: Url): string {
    Get(u.query, StopToken).GetOr("")
  }

  /** The normalised input as a `UrlString`. */
  function Normalized(env: Sitecore, inputUrl: string): Url {
    env.parseUrl(env.normalizeUrl(inputUrl))
  }

  /** The path names a stylesheet or script the minifier handles. */
  predicate IsMinifiable(path: string) {
    EndsWith(path, ".css") || EndsWith(path, ".js")
  }

  /** Host substitution, protocol forcing and the leading slash. */
  function Retarget(u: Url, cdnHostname: string, matchProtocol: bool): (r: Url)
    ensures r.query == u.query
    ensures cdnHostname != "" ==> r.host == cdnHostname
    ensures cdnHostname == "" ==> r.host == u.host
    ensures matchProtocol ==> r.protocol == "https"
    ensures !matchProtocol ==> r.protocol == u.protocol
    ensures StartsWith(r.path, "/")
    ensures StartsWith(u.path, "/") ==> r.path == u.path
    ensures !StartsWith(u.path, "/") ==> r.path == "/" + u.path
  {
    var hosted := if cdnHostname != "" then u.(host := cdnHostname) else u;
    var secured := if matchProtocol then hosted.(protocol := "https") else hosted;
    secured.(path := EnsurePrefix('/', secured.path))
  }

  /** The static-file branch: `d` from the file's write time when the file exists, then `min=1`
      for stylesheets and scripts when minification is on. */
  function StampStatic(env: Sitecore, cfg: Config, u: Url): (r: Attempt<Url>)
    ensures r.Raised? <==> env.fileExists(u.path).Raised? || (env.fileExists(u.path) == Done(true) && env.fileWriteTime(u.path).Raised?)
    ensures r.Done? ==> r.value.(query := u.query) == u
  {
    var present :- env.fileExists(u.path);
    var updated :- if present then (var t :- env.fileWriteTime(u.path); Done(env.isoDate(t))) else Done("");
    var withDate := if updated != "" then Set(u.query, "d", updated) else u.query;
    var withMin := if cfg.minifyEnabled && IsMinifiable(u.path) then Set(withDate, "min", "1") else withDate;
    Done(u.(query := withMin))
  }

  /** The media-library branch up to the query changes: look up the item (at the requested
      version when `vs` is given) and keep the retargeted URL only when it is public and not
      tracked; otherwise fall back to the normalised original. */
  function ResolveMedia(env: Sitecore, cfg: Config, c: UrlCache, url: Url, original: Url): (r: Attempt<Versioning>)
    ensures r.Done? ==> r.value.url == url || r.value.url == original
    ensures r.Done? && r.value.url != url ==> r.value.updated == "" && r.value.version == Get(url.query, "vs").GetOr("")
  {
    var version := Get(url.query, "vs").GetOr("");
    var itemPath :- env.mediaItemPath(url.path);
    if itemPath == "" || !env.hasDatabase then Done(Versioning(url, version, "", c))
    else
      var found :- if version != "" then env.itemAtVersion(itemPath, version) else env.selectItem(itemPath);
      match found
      case None => Done(Versioning(original, version, "", c))
      case Some(item) =>
        var pub := IsMediaPubliclyAccessible(env, c, item);
        if !pub.result then Done(Versioning(original, version, "", pub.cache))
        else
          var tracked := IsMediaAnalyticsTracked(env, cfg, pub.cache, item);
          if tracked.result then Done(Versioning(original, version, "", tracked.cache))
          else Done(Versioning(url, NatToDecimal(item.version), env.isoDate(item.updated), tracked.cache))
  }

  /** The media-library branch: append `vs` and `d` when they are non-empty. */
  function StampMedia(env: Sitecore, cfg: Config, c: UrlCache, url: Url, original: Url): (r: Attempt<Computed>)
    ensures r.Raised? <==> ResolveMedia(env, cfg, c, url, original).Raised?
  {
    var v :- ResolveMedia(env, cfg, c, url, original);
    var withVersion := if v.version != "" then Set(v.url.query, "vs", v.version) else v.url.query;
    var withDate := if v.updated != "" then Set(withVersion, "d", v.updated) else withVersion;
    Done(Computed(v.url.(query := withDate), v.cache))
  }

  /** Everything inside the `try` after the cache lookup and the pass-through test. */
  function Transform(env: Sitecore, cfg: Config, c: UrlCache, inputUrl: string, cdnHostname: string): (r: Attempt<Computed>)
    ensures var n := Normalized(env, inputUrl);
            var retargeted := Retarget(n, cdnHostname, cfg.matchProtocol);
            // a non-empty stop token: the token goes, protocol, host and path stay, nothing is stored
            && (StopValue(n) != "" ==>
                  && r.Done? && r.value.cache == c
                  && r.value.url.(query := []) == n.(query := [])
                  && Get(r.value.url.query, StopToken) == None)
            // only the versioning lookups can throw
            && (r.Raised? ==> StopValue(n) == "" && cfg.filenameVersioningEnabled)
            // no versioning: the retargeted URL, nothing stored
            && (StopValue(n) == "" && !cfg.filenameVersioningEnabled ==> r == Done(Computed(retargeted, c)))
            // a static file keeps the retargeted protocol, host and path and stores nothing
            && (StopValue(n) == "" && cfg.filenameVersioningEnabled && !Contains(inputUrl, cfg.mediaLinkPrefix) && r.Done? ==>
                  r.value.cache == c && r.value.url.(query := []) == retargeted.(query := []))
            // a media URL is either the retargeted one or the normalised original, re-parameterised
            && (StopValue(n) == "" && cfg.filenameVersioningEnabled && Contains(inputUrl, cfg.mediaLinkPrefix) && r.Done? ==>
                  r.value.url.(query := []) == retargeted.(query := []) || r.value.url.(query := []) == n.(query := []))
  {
    var normalized := Normalized(env, inputUrl);
    if StopValue(normalized) != "" then
      GetRemoveSame(normalized.query, StopToken);
      Done(Computed(normalized.(query := Remove(normalized.query, StopToken)), c))
    else
      var url := Retarget(normalized, cdnHostname, cfg.matchProtocol);
      if !cfg.filenameVersioningEnabled then Done(Computed(url, c))
      else if Contains(inputUrl, cfg.mediaLinkPrefix) then StampMedia(env, cfg, c, url, normalized)
      else
        var stamped :- StampStatic(env, cfg, url);
        Done(Computed(stamped, c))
  }

  /** `ReplaceMediaUrl(inputUrl, cdnHostname)`. */
  function ReplaceMediaUrl(env: Sitecore, cfg: Config, c: UrlCache, inputUrl: string, cdnHostname: string): (r: Rewrite)
    ensures var key := CacheKey(inputUrl);
            Cached(c, key) != "" ==> r == Rewrite(c[key], c)
    ensures Cached(c, CacheKey(inputUrl)) == "" && IsPassThrough(env, inputUrl) ==> r == Rewrite(inputUrl, c)
    ensures var t := Transform(env, cfg, c, inputUrl, cdnHostname);
            Cached(c, CacheKey(inputUrl)) == "" && !IsPassThrough(env, inputUrl) ==>
            && (t.Raised? ==> r == Rewrite(inputUrl, c))
            && (t.Done? ==> && (|r.url| == 0 || r.url[|r.url| - 1] != '?')
                            && TrimEnd(r.url, '?') == r.url
                            && r.url <= env.renderUrl(t.value.url)
                            && (forall i :: |r.url| <= i < |env.renderUrl(t.value.url)| ==> env.renderUrl(t.value.url)[i] == '?')
                            && r.cache == t.value.cache[CacheKey(inputUrl) := r.url])
  {
    var key := CacheKey(inputUrl);
    var cached := Cached(c, key);
    if cached != "" then Rewrite(cached, c)
    else if IsPassThrough(env, inputUrl) then Rewrite(inputUrl, c)
    else
      match Transform(env, cfg, c, inputUrl, cdnHostname)
      case Raised => Rewrite(inputUrl, c)
      case Done(computed) =>
        var output := TrimEnd(env.renderUrl(computed.url), '?');
        Rewrite(output, computed.cache[key := output])
  }
}
