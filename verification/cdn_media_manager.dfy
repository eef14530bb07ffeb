/** `CDNMediaManager.GetMediaUrl`: the media manager's URL for a media item, replaced by its CDN
    form when the site has a CDN host name, the page is in normal mode and the item is public and
    not tracked, subject to the `CDNUrlSwitcher` state of the calling code. */
module CdnMediaManager {
  import opened Outcomes
  import opened Urls
  import opened Platform
  import opened CdnProvider
  import ReplaceMediaUrlProperties

  /** `CDNUrlSwitcher.CurrentValue`: forced on, forced off, or no switcher in force. */
  datatype SwitchState = Enabled | Disabled | Unspecified

  /** What `GetMediaUrl` reads from the request context: the current site, whether
      `Context.PageMode.IsNormal`, and the switcher state. */
  datatype MediaContext = MediaContext(site: Option<SiteContext>, pageNormal: bool, switch: SwitchState)

  /** `dontReplace`: the item is not public, or (asked only when it is public) it is tracked;
      with the URL cache as the two checks leave it. */
  function Withheld(env: Sitecore, cfg: Config, c: UrlCache, item: MediaItem): (r: Check)
    // a private item is withheld whatever its tracking, and analytics is then not consulted
    ensures !IsMediaPubliclyAccessible(env, c, item).result ==>
              r.result && Cached(r.cache, item.id + "_tracked") == Cached(c, item.id + "_tracked")
    // with analytics off only the access check decides
    ensures !cfg.xdbEnabled ==> r == Check(!IsMediaPubliclyAccessible(env, c, item).result, IsMediaPubliclyAccessible(env, c, item).cache)
    // only the item's own two entries can change
    ensures forall k :: k in c && k != item.id + "_public" && k != item.id + "_tracked" ==> k in r.cache && r.cache[k] == c[k]
  {
    var pub := IsMediaPubliclyAccessible(env, c, item);
    if !pub.result then
      assert |item.id + "_public"| != |item.id + "_tracked"|;
      Check(true, pub.cache)
    else IsMediaAnalyticsTracked(env, cfg, pub.cache, item)
  }

  /** `url2[StopToken] = "1"` on the parsed base URL: the token reads `1`, every other parameter
      and the protocol, host and path are unchanged. */
  function MarkStop(u: Url): (r: Url)
    ensures Get(r.query, StopToken) == Some("1")
    ensures forall k :: !KeyEq(StopToken, k) ==> Get(r.query, k) == Get(u.query, k)
    ensures r.(query := []) == u.(query := [])
  {
    GetSetSame(u.query, StopToken, "1");
    forall k | !KeyEq(StopToken, k)
      ensures Get(Set(u.query, StopToken, "1"), k) == Get(u.query, k)
    {
      GetSetOther(u.query, StopToken, "1", k);
    }
    u.(query := Set(u.query, StopToken, "1"))
  }

  /** The base URL with `ncdn=1` set, as the `Disabled` branch writes it. */
  function StopMarked(env: Sitecore, baseUrl: string): string {
    env.renderUrl(MarkStop(env.parseUrl(baseUrl)))
  }

  /** `GetMediaUrl(item, options)`, `baseUrl` being `base.GetMediaUrl(item, options)`. */
  function GetMediaUrl(env: Sitecore, cfg: Config, c: UrlCache, item: MediaItem, baseUrl: string, ctx: MediaContext): (r: Rewrite)
    ensures var w := Withheld(env, cfg, c, item);
            var hostname := GetCDNHostName(ctx.site);
            // a Disabled switcher only marks the URL, whatever the item
            && (ctx.switch.Disabled? ==> r == Rewrite(StopMarked(env, baseUrl), w.cache))
            // a private or tracked item is never replaced
            && (!ctx.switch.Disabled? && w.result ==> r == Rewrite(baseUrl, w.cache))
            // an Enabled switcher replaces every public, untracked item
            && (ctx.switch.Enabled? && !w.result ==> r == ReplaceMediaUrl(env, cfg, w.cache, baseUrl, hostname))
            // without a switcher, a non-empty host name and normal page mode decide
            && (ctx.switch.Unspecified? && !w.result ==>
                  if hostname != "" && ctx.pageNormal
                  then r == ReplaceMediaUrl(env, cfg, w.cache, baseUrl, hostname)
                  else r == Rewrite(baseUrl, w.cache))
  {
    var hostname := GetCDNHostName(ctx.site);
    var shouldReplace := hostname != "" && ctx.pageNormal;
    var dontReplace := Withheld(env, cfg, c, item);
    var (url, replace) :=
      match ctx.switch
      case Enabled => (baseUrl, true)
      case Disabled => (StopMarked(env, baseUrl), false)
      case Unspecified => (baseUrl, shouldReplace);
    if replace && !dontReplace.result then ReplaceMediaUrl(env, cfg, dontReplace.cache, url, hostname)
    else Rewrite(url, dontReplace.cache)
  }

  /** The item facts `dontReplace` stands for, read from the item itself: the anonymous user is
      denied reading, or analytics is on and the item's tracking field asks for tracking. */
  predicate WithheldByItem(env: Sitecore, cfg: Config, item: MediaItem) {
    || env.anonymousCanRead(item) == Some(false)
    || (&& cfg.xdbEnabled
        && item.tracking != ""
        && env.parseTracking(item.tracking).Some?
        && AsksForTracking(env.parseTracking(item.tracking).value))
  }

  /** With nothing remembered about the item, `dontReplace` is exactly the item-level definition,
      in both directions. */
  lemma WithheldMatchesItem(env: Sitecore, cfg: Config, c: UrlCache, item: MediaItem)
    requires Cached(c, item.id + "_public") == "" && Cached(c, item.id + "_tracked") == ""
    ensures Withheld(env, cfg, c, item).result <==> WithheldByItem(env, cfg, item)
  {
    var pub := IsMediaPubliclyAccessible(env, c, item);
    assert |item.id + "_public"| != |item.id + "_tracked"|;
    assert Cached(pub.cache, item.id + "_tracked") == "";
  }

  /** A Disabled switcher marks the URL so that the CDN rewrite of the page later leaves it on
      the local host: when the normalised marked URL reads back as written, `ReplaceMediaUrl`
      returns it with `ncdn` removed and nothing else changed, for any CDN host name. */
  lemma DisabledStaysLocal(env: Sitecore, cfg: Config, c: UrlCache, item: MediaItem, baseUrl: string, ctx: MediaContext,
                           later: UrlCache, cdnHostname: string)
    requires ctx.switch.Disabled?
    requires var u := env.parseUrl(baseUrl);
             env.parseUrl(env.normalizeUrl(StopMarked(env, baseUrl))) == MarkStop(u)
    requires ReplaceMediaUrlProperties.Reaches(env, later, GetMediaUrl(env, cfg, c, item, baseUrl, ctx).url)
    ensures var out := GetMediaUrl(env, cfg, c, item, baseUrl, ctx).url;
            var u := env.parseUrl(baseUrl);
            var t := Transform(env, cfg, later, out, cdnHostname);
            && t.Done?
            && ReplaceMediaUrlProperties.Frame(t.value.url) == ReplaceMediaUrlProperties.Frame(u)
            && Get(t.value.url.query, StopToken) == None
  {
    var out := GetMediaUrl(env, cfg, c, item, baseUrl, ctx).url;
    assert StopValue(Normalized(env, out)) == "1";
    ReplaceMediaUrlProperties.StopTokenHonoured(env, cfg, later, out, cdnHostname, cdnHostname);
  }
}
