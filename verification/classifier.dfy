/** The memoised "does any configured pattern match this URL" tests behind `UrlIsExluded`,
    `ShouldProcessRequest` and `ShouldExcludeRequest`. The regular-expression engine is the
    parameter `isMatch`; the bounded cache is a map whose entries may vanish at any time. */
module Classifier {

  /** A cache of earlier decisions, keyed by URL. */
  type BoolCache = map<string, bool>

  datatype Decision = Decision(result: bool, cache: BoolCache)

  /** `patterns.Any(re => re.IsMatch(url))` */
  function AnyMatch(patterns: seq<string>, isMatch: (string, string) -> bool, url: string): (r: bool)
    ensures r <==> exists i :: 0 <= i < |patterns| && isMatch(patterns[i], url)
  {
    if |patterns| == 0 then false
    else
      var rest := AnyMatch(patterns[1..], isMatch, url);
      assert forall i :: 0 <= i < |patterns| - 1 ==> patterns[1..][i] == patterns[i + 1];
      isMatch(patterns[0], url) || rest
  }

  /** Every remembered decision is the one the patterns give. */
  predicate Sound(cache: BoolCache, patterns: seq<string>, isMatch: (string, string) -> bool) {
    forall u :: u in cache ==> cache[u] == AnyMatch(patterns, isMatch, u)
  }

  /** A cached decision is returned as it is; otherwise the patterns decide and the decision is
      remembered. No other entry changes. */
  function Classify(patterns: seq<string>, isMatch: (string, string) -> bool, cache: BoolCache, url: string): (r: Decision)
    ensures url in r.cache && r.cache[url] == r.result
    ensures r.cache.Keys == cache.Keys + {url}
    ensures forall u :: u in cache && u != url ==> r.cache[u] == cache[u]
    ensures url in cache ==> r.result == cache[url]
    ensures url !in cache ==> (r.result <==> exists i :: 0 <= i < |patterns| && isMatch(patterns[i], url))
  {
    if url in cache then Decision(cache[url], cache)
    else
      var output := AnyMatch(patterns, isMatch, url);
      Decision(output, cache[url := output])
  }

  /** With a sound cache the memo is invisible: the result is the patterns' decision, and the
      cache stays sound. */
  lemma ClassifySound(patterns: seq<string>, isMatch: (string, string) -> bool, cache: BoolCache, url: string)
    requires Sound(cache, patterns, isMatch)
    ensures Classify(patterns, isMatch, cache, url).result == AnyMatch(patterns, isMatch, url)
    ensures Sound(Classify(patterns, isMatch, cache, url).cache, patterns, isMatch)
  {
  }

  /** Asking again with the cache the first call left gives the same answer and changes nothing. */
  lemma ClassifyMemo(patterns: seq<string>, isMatch: (string, string) -> bool, cache: BoolCache, url: string)
    ensures var first := Classify(patterns, isMatch, cache, url);
            Classify(patterns, isMatch, first.cache, url) == first
  {
  }

  /** Dropping entries (eviction) keeps a sound cache sound. */
  lemma EvictionKeepsSound(patterns: seq<string>, isMatch: (string, string) -> bool, cache: BoolCache, kept: set<string>)
    requires Sound(cache, patterns, isMatch)
    ensures Sound(cache - (cache.Keys - kept), patterns, isMatch)
  {
  }

  /** With no patterns configured nothing is ever matched, unless the cache says otherwise. */
  lemma NoPatternsNoMatch(isMatch: (string, string) -> bool, cache: BoolCache, url: string)
    requires Sound(cache, [], isMatch)
    ensures !Classify([], isMatch, cache, url).result
  {
  }
}
