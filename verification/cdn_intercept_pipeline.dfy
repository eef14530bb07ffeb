/** `CDNInterceptPipeline.Process`: an early request step that hands stylesheets and scripts
    asked for with `min=1` to the minifier handler by rewriting the request path under
    `/~/minify`. */
module CdnInterceptPipeline {
  import opened Outcomes
  import opened Text
  import opened Urls
  import opened Platform
  import opened CdnProvider

  /** The path prefix that routes a request to the minifier handler. */
  const MinifyRoot := "/~/minify"

  /** The parts of the request's `HttpContext` the step touches: its `Items` and the target of
      `RewritePath(filePath, pathInfo, queryString)`. */
  datatype RequestContext = RequestContext(items: map<string, string>, filePath: string, pathInfo: string, queryString: string)

  /** The condition of the `if`: CDN and minification on, `min` is exactly `1`, the path is not
      under the media-library prefix, and it ends in `.css` or `.js` (compared case-sensitively). */
  predicate MinifyRequested(cfg: Config, u: Url) {
    && cfg.cdnEnabled
    && cfg.minifyEnabled
    && Get(u.query, "min") == Some("1")
    && !StartsWith(u.path, cfg.defaultMediaPrefix)
    && IsMinifiable(u.path)
  }

  /** `Process(args)` for the raw URL `rawUrl` of the request. */
  function Process(env: Sitecore, cfg: Config, rawUrl: string, ctx: RequestContext): (r: RequestContext)
    ensures var u := env.parseUrl(rawUrl);
            && (!MinifyRequested(cfg, u) ==> r == ctx)
            && (MinifyRequested(cfg, u) ==>
                  // the handler finds the original URL under MinifyPath; no other item changes
                  && r.items.Keys == ctx.items.Keys + {"MinifyPath"}
                  && r.items["MinifyPath"] == rawUrl
                  && (forall k :: k in ctx.items && k != "MinifyPath" ==> r.items[k] == ctx.items[k])
                  // the new path is the old one under the minifier root
                  && StartsWith(r.filePath, MinifyRoot)
                  && r.filePath[|MinifyRoot|..] == u.path
                  && IsMinifiable(r.filePath)
                  && r.pathInfo == ""
                  && r.queryString == env.renderQuery(u.query))
  {
    var url := env.parseUrl(rawUrl);
    if MinifyRequested(cfg, url) then
      RequestContext(ctx.items["MinifyPath" := rawUrl], MinifyRoot + url.path, "", env.renderQuery(url.query))
    else ctx
  }

  /** The step depends only on the raw URL, which the rewrite does not change: running it again
      on the context it produced changes nothing more. */
  lemma ProcessIdempotent(env: Sitecore, cfg: Config, rawUrl: string, ctx: RequestContext)
    ensures Process(env, cfg, rawUrl, Process(env, cfg, rawUrl, ctx)) == Process(env, cfg, rawUrl, ctx)
  {
    var r := Process(env, cfg, rawUrl, ctx);
    if MinifyRequested(cfg, env.parseUrl(rawUrl)) {
      assert r.items["MinifyPath" := rawUrl] == r.items;
    }
  }

  /** The request is rewritten exactly when the raw URL asks for minification of a stylesheet or
      script outside the media library with the feature on. */
  lemma RewrittenExactlyWhenRequested(env: Sitecore, cfg: Config, rawUrl: string, ctx: RequestContext)
    requires !StartsWith(ctx.filePath, MinifyRoot)
    ensures Process(env, cfg, rawUrl, ctx) != ctx <==> MinifyRequested(cfg, env.parseUrl(rawUrl))
  {
  }

  /** The extension test is case-sensitive: `.CSS` and `.JS` are not minified. */
  lemma UpperCaseExtensionNotRewritten(env: Sitecore, cfg: Config, rawUrl: string, ctx: RequestContext)
    requires var p := env.parseUrl(rawUrl).path;
             EndsWith(p, ".CSS") || EndsWith(p, ".JS")
    ensures Process(env, cfg, rawUrl, ctx) == ctx
  {
    var p := env.parseUrl(rawUrl).path;
    assert p[|p| - 1] == 'S';
  }

  /** With `min` absent, or set to anything but `1` (the first `min` parameter, compared
      case-insensitively by key), nothing happens. */
  lemma NoMinParameterNoRewrite(env: Sitecore, cfg: Config, rawUrl: string, ctx: RequestContext)
    requires Get(env.parseUrl(rawUrl).query, "min") != Some("1")
    ensures Process(env, cfg, rawUrl, ctx) == ctx
  {
  }
}
