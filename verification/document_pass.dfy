/** `CDNProvider.ReplaceMediaUrls`: one pass over the parsed document rewriting `href`
    attributes, then one rewriting the `src` attributes of `img` and `script` elements. The HTML
    parser is not modelled: the document is its sequence of elements in document order, each a
    tag and its attributes (names in lower case, as the parser stores them). */
module DocumentPass {
  import opened Outcomes
  import opened Text
  import opened Platform
  import opened CdnProvider
  import Classifier
  import FileExtension

  datatype Element = Element(tag: string, attrs: map<string, string>)

  /** The two selector loops of the pass. */
  datatype Target = Href | Src

  /** The elements after a pass and the provider's caches as the pass left them. */
  datatype Pass = Pass(elements: seq<Element>, caches: Caches)

  function AttrName(t: Target): string {
    match t
    case Href => "href"
    case Src => "src"
  }

  /** The loop reaches the element and finds the attribute set: `[href],[link]` then
      `Attributes["href"]`, or `img,script` then `Attributes["src"]`. */
  predicate Selects(t: Target, e: Element) {
    && AttrName(t) in e.attrs
    && (t.Src? ==> ToLower(e.tag) == "img" || ToLower(e.tag) == "script")
  }

  /** Same tag, same attribute names, and every attribute but `name` unchanged. */
  predicate OnlyAttrChanged(before: Element, after: Element, name: string) {
    && after.tag == before.tag
    && after.attrs.Keys == before.attrs.Keys
    && forall a :: a in before.attrs && a != name ==> after.attrs[a] == before.attrs[a]
  }

  /** The body of one loop for one element. */
  function Step(env: Sitecore, cfg: Config, st: Caches, e: Element, host: string, t: Target): (r: (Caches, Element))
    ensures OnlyAttrChanged(e, r.1, AttrName(t))
    ensures forall u :: u in st.excludeUrl ==> u in r.0.excludeUrl && r.0.excludeUrl[u] == st.excludeUrl[u]
    ensures r.0.includeUrl == st.includeUrl && r.0.excludeRequest == st.excludeRequest
  {
    if !Selects(t, e) then (st, e)
    else
      var value := e.attrs[AttrName(t)];
      if value == "" then (st, e)
      else
        var excluded := UrlIsExluded(env, cfg, st, value);
        if excluded.0 || (t.Href? && UrlHasFileExtension(value)) then (excluded.1, e)
        else
          var rw := ReplaceMediaUrl(env, cfg, excluded.1.urls, value, host);
          (excluded.1.(urls := rw.cache), e.(attrs := e.attrs[AttrName(t) := rw.url]))
  }

  /** One loop over the whole document, in document order. */
  function RunPass(env: Sitecore, cfg: Config, st: Caches, elems: seq<Element>, host: string, t: Target): (r: Pass)
    ensures |r.elements| == |elems|
    ensures forall u :: u in st.excludeUrl ==> u in r.caches.excludeUrl && r.caches.excludeUrl[u] == st.excludeUrl[u]
    decreases |elems|
  {
    if |elems| == 0 then Pass([], st)
    else
      var prior := RunPass(env, cfg, st, elems[..|elems| - 1], host, t);
      var step := Step(env, cfg, prior.caches, elems[|elems| - 1], host, t);
      Pass(prior.elements + [step.1], step.0)
  }

  /** `ReplaceMediaUrls(dom)`: the host name of the current site, then the `href` loop, then the
      `src` loop. */
  function ReplaceMediaUrls(env: Sitecore, cfg: Config, st: Caches, elems: seq<Element>, site: Option<SiteContext>): (r: Pass)
    ensures |r.elements| == |elems|
    ensures forall i :: 0 <= i < |elems| ==>
              && r.elements[i].tag == elems[i].tag
              && r.elements[i].attrs.Keys == elems[i].attrs.Keys
              && forall a :: a in elems[i].attrs && a != "href" && a != "src" ==> r.elements[i].attrs[a] == elems[i].attrs[a]
  {
    var host := GetCDNHostName(site);
    var hrefs := RunPass(env, cfg, st, elems, host, Href);
    PassOnlyTouchesAttr(env, cfg, st, elems, host, Href);
    PassOnlyTouchesAttr(env, cfg, hrefs.caches, hrefs.elements, host, Src);
    RunPass(env, cfg, hrefs.caches, hrefs.elements, host, Src)
  }

  /** The attribute qualifies for rewriting: selected, non-empty, not matched by an exclude
      pattern and, for `href`, ending in a file extension as the regex `.+\.[A-Za-z0-9]{2,4}$`
      finds one. */
  ghost predicate Qualifies(env: Sitecore, cfg: Config, e: Element, t: Target) {
    && Selects(t, e)
    && e.attrs[AttrName(t)] != ""
    && !Classifier.AnyMatch(cfg.excludeUrlPatterns, env.regexIsMatch, e.attrs[AttrName(t)])
    && (t.Href? ==> FileExtension.RegexMatches(e.attrs[AttrName(t)]))
  }

  /** One step, given that the exclusion memo holds only true answers: a qualifying attribute is
      replaced by `ReplaceMediaUrl` of its value, anything else leaves the element as it was, and
      the memo stays sound. */
  lemma StepRewritesQualifying(env: Sitecore, cfg: Config, st: Caches, e: Element, host: string, t: Target)
    requires Classifier.Sound(st.excludeUrl, cfg.excludeUrlPatterns, env.regexIsMatch)
    ensures var r := Step(env, cfg, st, e, host, t);
            && Classifier.Sound(r.0.excludeUrl, cfg.excludeUrlPatterns, env.regexIsMatch)
            && (!Qualifies(env, cfg, e, t) ==> r.1 == e && r.0.urls == st.urls)
            && (Qualifies(env, cfg, e, t) ==>
                  var rw := ReplaceMediaUrl(env, cfg, st.urls, e.attrs[AttrName(t)], host);
                  r.1.attrs[AttrName(t)] == rw.url && r.0.urls == rw.cache)
  {
    if Selects(t, e) && e.attrs[AttrName(t)] != "" {
      var value := e.attrs[AttrName(t)];
      Classifier.ClassifySound(cfg.excludeUrlPatterns, env.regexIsMatch, st.excludeUrl, value);
      var excluded := UrlIsExluded(env, cfg, st, value);
      assert excluded.0 == Classifier.AnyMatch(cfg.excludeUrlPatterns, env.regexIsMatch, value);
      assert excluded.1.urls == st.urls;
      assert Qualifies(env, cfg, e, t) <==> !excluded.0 && !(t.Href? && UrlHasFileExtension(value));
    }
  }

  /** A pass keeps a sound exclusion memo sound. */
  lemma {:induction false} PassKeepsSound(env: Sitecore, cfg: Config, st: Caches, elems: seq<Element>, host: string, t: Target)
    requires Classifier.Sound(st.excludeUrl, cfg.excludeUrlPatterns, env.regexIsMatch)
    ensures Classifier.Sound(RunPass(env, cfg, st, elems, host, t).caches.excludeUrl, cfg.excludeUrlPatterns, env.regexIsMatch)
    decreases |elems|
  {
    if |elems| > 0 {
      var prior := RunPass(env, cfg, st, elems[..|elems| - 1], host, t);
      PassKeepsSound(env, cfg, st, elems[..|elems| - 1], host, t);
      StepRewritesQualifying(env, cfg, prior.caches, elems[|elems| - 1], host, t);
    }
  }

  /** Element `i` after a pass is the step applied to it with the caches the first `i` elements
      left behind. */
  lemma {:induction false} PassElementwise(env: Sitecore, cfg: Config, st: Caches, elems: seq<Element>, host: string, t: Target, i: int)
    requires 0 <= i < |elems|
    ensures RunPass(env, cfg, st, elems, host, t).elements[i] == Step(env, cfg, RunPass(env, cfg, st, elems[..i], host, t).caches, elems[i], host, t).1
    decreases |elems|
  {
    var n := |elems|;
    var prior := RunPass(env, cfg, st, elems[..n - 1], host, t);
    var step := Step(env, cfg, prior.caches, elems[n - 1], host, t);
    var whole := RunPass(env, cfg, st, elems, host, t);
    assert whole.elements == prior.elements + [step.1];
    if i < n - 1 {
      assert elems[..n - 1][..i] == elems[..i];
      assert elems[..n - 1][i] == elems[i];
      PassElementwise(env, cfg, st, elems[..n - 1], host, t, i);
      assert whole.elements[i] == prior.elements[i];
    } else {
      assert elems[..i] == elems[..n - 1];
    }
  }

  /** A pass changes no tag, adds or drops no attribute, and touches no attribute but its own. */
  lemma PassOnlyTouchesAttr(env: Sitecore, cfg: Config, st: Caches, elems: seq<Element>, host: string, t: Target)
    ensures var r := RunPass(env, cfg, st, elems, host, t);
            forall i :: 0 <= i < |elems| ==> OnlyAttrChanged(elems[i], r.elements[i], AttrName(t))
  {
    forall i | 0 <= i < |elems|
      ensures OnlyAttrChanged(elems[i], RunPass(env, cfg, st, elems, host, t).elements[i], AttrName(t))
    {
      PassElementwise(env, cfg, st, elems, host, t, i);
    }
  }

  /** A whole pass, given a sound exclusion memo: every qualifying attribute is replaced by what
      `ReplaceMediaUrl` returns for it with the URL cache left by the elements before it, and every
      other element comes out exactly as it went in. */
  lemma PassRewritesQualifying(env: Sitecore, cfg: Config, st: Caches, elems: seq<Element>, host: string, t: Target)
    requires Classifier.Sound(st.excludeUrl, cfg.excludeUrlPatterns, env.regexIsMatch)
    ensures var r := RunPass(env, cfg, st, elems, host, t);
            forall i :: 0 <= i < |elems| ==>
              && (!Qualifies(env, cfg, elems[i], t) ==> r.elements[i] == elems[i])
              && (Qualifies(env, cfg, elems[i], t) ==>
                    && AttrName(t) in r.elements[i].attrs
                    && r.elements[i].attrs[AttrName(t)] ==
                      ReplaceMediaUrl(env, cfg, RunPass(env, cfg, st, elems[..i], host, t).caches.urls, elems[i].attrs[AttrName(t)], host).url)
  {
    forall i | 0 <= i < |elems|
      ensures var r := RunPass(env, cfg, st, elems, host, t);
              && (!Qualifies(env, cfg, elems[i], t) ==> r.elements[i] == elems[i])
              && (Qualifies(env, cfg, elems[i], t) ==>
                    && AttrName(t) in r.elements[i].attrs
                    && r.elements[i].attrs[AttrName(t)] ==
                      ReplaceMediaUrl(env, cfg, RunPass(env, cfg, st, elems[..i], host, t).caches.urls, elems[i].attrs[AttrName(t)], host).url)
    {
      var before := RunPass(env, cfg, st, elems[..i], host, t).caches;
      PassElementwise(env, cfg, st, elems, host, t, i);
      PassKeepsSound(env, cfg, st, elems[..i], host, t);
      StepRewritesQualifying(env, cfg, before, elems[i], host, t);
    }
  }

  /** An `href` without a file extension (so `UrlHasFileExtension` is true) is never touched:
      navigation links stay local. */
  lemma NavigationLinksStayLocal(env: Sitecore, cfg: Config, st: Caches, elems: seq<Element>, host: string, i: int)
    requires 0 <= i < |elems|
    requires "href" in elems[i].attrs && UrlHasFileExtension(elems[i].attrs["href"])
    ensures RunPass(env, cfg, st, elems, host, Href).elements[i] == elems[i]
  {
    PassElementwise(env, cfg, st, elems, host, Href, i);
  }
}
