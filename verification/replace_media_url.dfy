/** What `CDNProvider.ReplaceMediaUrl` does to a URL, stated branch by branch: the stop token,
    host and protocol substitution, the media-library and static-file query parameters, and the
    memo. */
module ReplaceMediaUrlProperties {
  import opened Outcomes
  import opened Text
  import opened Urls
  import opened Platform
  import opened CdnProvider

  /** A URL with its parameters left out: what host, protocol and path changes act on. */
  function Frame(u: Url): Url {
    u.(query := [])
  }

  /** `ReplaceMediaUrl` goes past the memo and the pass-through test. */
  predicate Reaches(env: Sitecore, c: UrlCache, inputUrl: string) {
    Cached(c, CacheKey(inputUrl)) == "" && !IsPassThrough(env, inputUrl)
  }

  /** A non-empty stop token: the token is removed, every other parameter and the protocol, host
      and path stay those of the normalised input, nothing is stored on the way, and the CDN host
      name plays no part. */
  lemma StopTokenHonoured(env: Sitecore, cfg: Config, c: UrlCache, inputUrl: string, cdnHostname: string, otherHostname: string)
    requires Reaches(env, c, inputUrl)
    requires StopValue(Normalized(env, inputUrl)) != ""
    ensures var n := Normalized(env, inputUrl);
            var t := Transform(env, cfg, c, inputUrl, cdnHostname);
            && t.Done?
            && t.value.cache == c
            && Frame(t.value.url) == Frame(n)
            && Get(t.value.url.query, StopToken) == None
            && (forall k :: !KeyEq(StopToken, k) ==> Get(t.value.url.query, k) == Get(n.query, k))
            && ReplaceMediaUrl(env, cfg, c, inputUrl, cdnHostname).url == TrimEnd(env.renderUrl(t.value.url), '?')
    ensures ReplaceMediaUrl(env, cfg, c, inputUrl, cdnHostname) == ReplaceMediaUrl(env, cfg, c, inputUrl, otherHostname)
  {
    var n := Normalized(env, inputUrl);
    GetRemoveSame(n.query, StopToken);
    forall k | !KeyEq(StopToken, k)
      ensures Get(Remove(n.query, StopToken), k) == Get(n.query, k)
    {
      GetRemoveOther(n.query, StopToken, k);
    }
  }

  /** A stop token that is present but empty does not stop anything. */
  lemma EmptyStopTokenIgnored(env: Sitecore, cfg: Config, c: UrlCache, inputUrl: string, cdnHostname: string)
    requires Reaches(env, c, inputUrl)
    requires Get(Normalized(env, inputUrl).query, StopToken) == Some("")
    requires cdnHostname != ""
    requires !cfg.filenameVersioningEnabled
    ensures var t := Transform(env, cfg, c, inputUrl, cdnHostname);
            t.Done? && t.value.url.host == cdnHostname && Get(t.value.url.query, StopToken) == Some("")
  {
  }

  /** A media lookup that reverts to the original leaves the URL exactly as normalised: the `vs`
      value written back is the one it already had and no `d` is added. */
  lemma RevertedMediaIsOriginal(env: Sitecore, cfg: Config, c: UrlCache, url: Url, original: Url)
    requires Get(url.query, "vs") == Get(original.query, "vs")
    requires var r := ResolveMedia(env, cfg, c, url, original);
             && r.Done? && r.value.url == original && r.value.updated == ""
             && r.value.version == Get(url.query, "vs").GetOr("")
    ensures StampMedia(env, cfg, c, url, original) == Done(Computed(original, ResolveMedia(env, cfg, c, url, original).value.cache))
  {
    var v := ResolveMedia(env, cfg, c, url, original).value;
    if v.version != "" {
      SetExisting(original.query, "vs", v.version);
    }
  }

  /** The item decision of the media-library branch. When the item path is known and the lookup
      succeeds: a missing, non-public or tracked item sends the URL back to the original with no
      timestamp; a public, untracked item keeps the retargeted URL with its version number and
      last-updated time. */
  lemma MediaItemDecides(env: Sitecore, cfg: Config, c: UrlCache, url: Url, original: Url, itemPath: string, found: Option<MediaItem>)
    requires env.mediaItemPath(url.path) == Done(itemPath)
    requires itemPath != "" && env.hasDatabase
    requires var version := Get(url.query, "vs").GetOr("");
             (if version != "" then env.itemAtVersion(itemPath, version) else env.selectItem(itemPath)) == Done(found)
    ensures var r := ResolveMedia(env, cfg, c, url, original);
            && r.Done?
            && (found.None? ==> r.value.url == original && r.value.updated == "" && r.value.cache == c)
            && (found.Some? ==>
                  var pub := IsMediaPubliclyAccessible(env, c, found.value);
                  var tracked := IsMediaAnalyticsTracked(env, cfg, pub.cache, found.value);
                  && (!pub.result ==> r.value.url == original && r.value.updated == "")
                  && (pub.result && tracked.result ==> r.value.url == original && r.value.updated == "")
                  && (pub.result && !tracked.result ==>
                        && r.value.url == url
                        && r.value.version == NatToDecimal(found.value.version)
                        && DecimalValue(r.value.version) == found.value.version
                        && r.value.updated == env.isoDate(found.value.updated)))
  {
    if found.Some? {
      DecimalRoundTrip(found.value.version);
    }
  }

  /** The media-library branch withholds the CDN: when the item is missing, not public, or
      tracked, the result is the normalised input itself, with no host, protocol, path, `vs` or
      `d` change. */
  lemma MediaWithheld(env: Sitecore, cfg: Config, c: UrlCache, inputUrl: string, cdnHostname: string, itemPath: string, found: Option<MediaItem>)
    requires Reaches(env, c, inputUrl)
    requires StopValue(Normalized(env, inputUrl)) == ""
    requires cfg.filenameVersioningEnabled && Contains(inputUrl, cfg.mediaLinkPrefix)
    requires var url := Retarget(Normalized(env, inputUrl), cdnHostname, cfg.matchProtocol);
             var version := Get(url.query, "vs").GetOr("");
             && env.mediaItemPath(url.path) == Done(itemPath)
             && itemPath != "" && env.hasDatabase
             && (if version != "" then env.itemAtVersion(itemPath, version) else env.selectItem(itemPath)) == Done(found)
    requires found.Some? ==>
               var pub := IsMediaPubliclyAccessible(env, c, found.value);
               !pub.result || IsMediaAnalyticsTracked(env, cfg, pub.cache, found.value).result
    ensures var t := Transform(env, cfg, c, inputUrl, cdnHostname);
            t.Done? && t.value.url == Normalized(env, inputUrl)
    ensures var r := ReplaceMediaUrl(env, cfg, c, inputUrl, cdnHostname);
            r.url == TrimEnd(env.renderUrl(Normalized(env, inputUrl)), '?')
  {
    var n := Normalized(env, inputUrl);
    var url := Retarget(n, cdnHostname, cfg.matchProtocol);
    MediaItemDecides(env, cfg, c, url, n, itemPath, found);
    RevertedMediaIsOriginal(env, cfg, c, url, n);
    assert Transform(env, cfg, c, inputUrl, cdnHostname) == StampMedia(env, cfg, c, url, n);
  }

  /** Without a stop token, the host becomes the CDN host name only when one is given, the
      protocol becomes `https` only when protocol matching is on, and the path gains a leading
      `/`; the media-library branch may instead fall back to the normalised original, and then the
      URL is exactly that original. */
  lemma RetargetWithoutStop(env: Sitecore, cfg: Config, c: UrlCache, inputUrl: string, cdnHostname: string)
    requires Reaches(env, c, inputUrl)
    requires StopValue(Normalized(env, inputUrl)) == ""
    requires Transform(env, cfg, c, inputUrl, cdnHostname).Done?
    ensures var n := Normalized(env, inputUrl);
            var u := Transform(env, cfg, c, inputUrl, cdnHostname).value.url;
            && (cdnHostname == "" ==> u.host == n.host)
            && (!cfg.matchProtocol ==> u.protocol == n.protocol)
            && (!cfg.filenameVersioningEnabled ==> u == Retarget(n, cdnHostname, cfg.matchProtocol))
            && (cfg.filenameVersioningEnabled && !Contains(inputUrl, cfg.mediaLinkPrefix) ==>
                  Frame(u) == Frame(Retarget(n, cdnHostname, cfg.matchProtocol)))
            && (Frame(u) == Frame(Retarget(n, cdnHostname, cfg.matchProtocol)) ||
                  (cfg.filenameVersioningEnabled && Contains(inputUrl, cfg.mediaLinkPrefix) && u == n))
  {
    var n := Normalized(env, inputUrl);
    var url := Retarget(n, cdnHostname, cfg.matchProtocol);
    if cfg.filenameVersioningEnabled && Contains(inputUrl, cfg.mediaLinkPrefix) {
      var v := ResolveMedia(env, cfg, c, url, n).value;
      if v.url != url {
        RevertedMediaIsOriginal(env, cfg, c, url, n);
      }
    }
  }

  /** The static-file branch: `d` is set only when the file exists (and its ISO time is
      non-empty), `min=1` is set for `.css` and `.js` paths whenever minification is on, whether
      or not the file exists, and nothing else in the URL changes. */
  lemma StaticFileStamps(env: Sitecore, cfg: Config, c: UrlCache, inputUrl: string, cdnHostname: string)
    requires Reaches(env, c, inputUrl)
    requires StopValue(Normalized(env, inputUrl)) == ""
    requires cfg.filenameVersioningEnabled && !Contains(inputUrl, cfg.mediaLinkPrefix)
    requires Transform(env, cfg, c, inputUrl, cdnHostname).Done?
    ensures var n := Normalized(env, inputUrl);
            var path := Retarget(n, cdnHostname, cfg.matchProtocol).path;
            var t := Transform(env, cfg, c, inputUrl, cdnHostname).value;
            && t.cache == c
            && Frame(t.url) == Frame(Retarget(n, cdnHostname, cfg.matchProtocol))
            && (env.fileExists(path) == Done(false) ==> Get(t.url.query, "d") == Get(n.query, "d"))
            && (env.fileExists(path) == Done(true) ==>
                  var stamp := env.isoDate(env.fileWriteTime(path).value);
                  Get(t.url.query, "d") == (if stamp != "" then Some(stamp) else Get(n.query, "d")))
            && Get(t.url.query, "min") == (if cfg.minifyEnabled && IsMinifiable(path) then Some("1") else Get(n.query, "min"))
            && (forall k :: !KeyEq(k, "d") && !KeyEq(k, "min") ==> Get(t.url.query, k) == Get(n.query, k))
  {
    var n := Normalized(env, inputUrl);
    var url := Retarget(n, cdnHostname, cfg.matchProtocol);
    var present := env.fileExists(url.path).value;
    var updated := if present then env.isoDate(env.fileWriteTime(url.path).value) else "";
    var withDate := if updated != "" then Set(url.query, "d", updated) else url.query;
    if updated != "" {
      GetSetSame(url.query, "d", updated);
    }
    if cfg.minifyEnabled && IsMinifiable(url.path) {
      GetSetSame(withDate, "min", "1");
      GetSetOther(withDate, "min", "1", "d");
    }
    if updated != "" {
      GetSetOther(url.query, "d", updated, "min");
    }
    forall k | !KeyEq(k, "d") && !KeyEq(k, "min")
      ensures Get(Transform(env, cfg, c, inputUrl, cdnHostname).value.url.query, k) == Get(n.query, k)
    {
      if updated != "" {
        GetSetOther(url.query, "d", updated, k);
      }
      if cfg.minifyEnabled && IsMinifiable(url.path) {
        GetSetOther(withDate, "min", "1", k);
      }
    }
  }

  /** A media lookup that keeps the retargeted URL sets `vs` to the version found and `d` to the
      timestamp found when it is non-empty; no other parameter changes. */
  lemma KeptMediaStamps(env: Sitecore, cfg: Config, c: UrlCache, url: Url, original: Url)
    requires ResolveMedia(env, cfg, c, url, original).Done?
    requires ResolveMedia(env, cfg, c, url, original).value.url == url
    requires ResolveMedia(env, cfg, c, url, original).value.version != ""
    ensures var v := ResolveMedia(env, cfg, c, url, original).value;
            var t := StampMedia(env, cfg, c, url, original);
            && t.Done?
            && Frame(t.value.url) == Frame(url)
            && Get(t.value.url.query, "vs") == Some(v.version)
            && Get(t.value.url.query, "d") == (if v.updated != "" then Some(v.updated) else Get(url.query, "d"))
            && (forall k :: !KeyEq(k, "vs") && !KeyEq(k, "d") ==> Get(t.value.url.query, k) == Get(url.query, k))
  {
    var v := ResolveMedia(env, cfg, c, url, original).value;
    var withVersion := Set(url.query, "vs", v.version);
    GetSetSame(url.query, "vs", v.version);
    GetSetOther(url.query, "vs", v.version, "d");
    if v.updated != "" {
      GetSetSame(withVersion, "d", v.updated);
      GetSetOther(withVersion, "d", v.updated, "vs");
    }
    forall k | !KeyEq(k, "vs") && !KeyEq(k, "d")
      ensures Get(StampMedia(env, cfg, c, url, original).value.url.query, k) == Get(url.query, k)
    {
      GetSetOther(url.query, "vs", v.version, k);
      if v.updated != "" {
        GetSetOther(withVersion, "d", v.updated, k);
      }
    }
  }

  /** A public, untracked media item: the retargeted URL gains `vs` with the item's version
      number (which reads back as that number) and `d` with its last-updated time when that is
      non-empty; no other parameter changes. */
  lemma MediaVersionStamped(env: Sitecore, cfg: Config, c: UrlCache, inputUrl: string, cdnHostname: string, itemPath: string, item: MediaItem)
    requires Reaches(env, c, inputUrl)
    requires StopValue(Normalized(env, inputUrl)) == ""
    requires cfg.filenameVersioningEnabled && Contains(inputUrl, cfg.mediaLinkPrefix)
    requires var url := Retarget(Normalized(env, inputUrl), cdnHostname, cfg.matchProtocol);
             var version := Get(url.query, "vs").GetOr("");
             && env.mediaItemPath(url.path) == Done(itemPath)
             && itemPath != "" && env.hasDatabase
             && (if version != "" then env.itemAtVersion(itemPath, version) else env.selectItem(itemPath)) == Done(Some(item))
    requires var pub := IsMediaPubliclyAccessible(env, c, item);
             pub.result && !IsMediaAnalyticsTracked(env, cfg, pub.cache, item).result
    ensures var n := Normalized(env, inputUrl);
            var t := Transform(env, cfg, c, inputUrl, cdnHostname);
            var stamp := env.isoDate(item.updated);
            && t.Done?
            && Frame(t.value.url) == Frame(Retarget(n, cdnHostname, cfg.matchProtocol))
            && Get(t.value.url.query, "vs") == Some(NatToDecimal(item.version))
            && DecimalValue(NatToDecimal(item.version)) == item.version
            && Get(t.value.url.query, "d") == (if stamp != "" then Some(stamp) else Get(n.query, "d"))
            && (forall k :: !KeyEq(k, "vs") && !KeyEq(k, "d") ==> Get(t.value.url.query, k) == Get(n.query, k))
  {
    var n := Normalized(env, inputUrl);
    var url := Retarget(n, cdnHostname, cfg.matchProtocol);
    MediaItemDecides(env, cfg, c, url, n, itemPath, Some(item));
    KeptMediaStamps(env, cfg, c, url, n);
    assert Transform(env, cfg, c, inputUrl, cdnHostname) == StampMedia(env, cfg, c, url, n);
  }

  /** The memo: once a non-empty URL has been returned (from the cache or freshly computed), a
      later call for the same input with the cache as it was left returns it again, whatever CDN
      host name is passed then. */
  lemma ReplaceMemo(env: Sitecore, cfg: Config, c: UrlCache, inputUrl: string, cdnHostname: string, laterHostname: string)
    requires var r := ReplaceMediaUrl(env, cfg, c, inputUrl, cdnHostname);
             r.url != "" && (Cached(c, CacheKey(inputUrl)) != "" || (Reaches(env, c, inputUrl) && Transform(env, cfg, c, inputUrl, cdnHostname).Done?))
    ensures var r := ReplaceMediaUrl(env, cfg, c, inputUrl, cdnHostname);
            ReplaceMediaUrl(env, cfg, r.cache, inputUrl, laterHostname) == Rewrite(r.url, r.cache)
  {
  }

  /** A computed result is never left ending in `?`; an empty one is not a memo hit, so the next
      call computes afresh. */
  lemma EmptyResultIsNotRemembered(env: Sitecore, cfg: Config, c: UrlCache, inputUrl: string, cdnHostname: string)
    requires Reaches(env, c, inputUrl)
    requires Transform(env, cfg, c, inputUrl, cdnHostname).Done?
    requires ReplaceMediaUrl(env, cfg, c, inputUrl, cdnHostname).url == ""
    ensures Reaches(env, ReplaceMediaUrl(env, cfg, c, inputUrl, cdnHostname).cache, inputUrl)
  {
  }
}
