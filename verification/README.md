# SitecoreCDN in Dafny

A model of the URL-rewriting core of SitecoreCDN, a Sitecore module that sends media and static
assets to a CDN host. The model covers four parts:

- `CDNProvider` decides whether and how one resource URL is rewritten to the CDN host name. The
  decision uses a stop token (`ncdn`), host and protocol substitution, and `vs`/`d`/`min` query
  parameters drawn from the media item or the file on disk. `CDNProvider` also holds the memoised
  pattern tests, the file-extension heuristic, and the per-item "public" and "analytics-tracked"
  checks.
- The document pass (`ReplaceMediaUrls`) applies that rewrite to `href` attributes first, then to
  the `src` attributes of `img` and `script` elements.
- `MediaUrlFilter` is the response stream. It buffers the page until a payload holds `</html>`,
  then renders the rewritten buffer. Every later payload that holds the marker renders the buffer
  again.
- `CDNMediaManager.GetMediaUrl` and `CDNInterceptPipeline.Process` make the media-URL decision
  and the minifier path rewrite.

Calls into Sitecore, the file system, the regex engine and the URL parser are function-typed
fields of `Platform.Sitecore`. In the filter, parsing, rewriting and rendering the page together are
the `render` parameter of `MediaUrlFilter.Write`. The switcher state, the page mode, the current
site and the URL `base.GetMediaUrl` returns are plain values passed to `CdnMediaManager.GetMediaUrl`.
A call that can throw on the paths the code takes returns `Outcomes.Attempt` (`Done` or `Raised`),
and the model's own functions propagate `Raised` until it reaches the `catch` that handles it.
The provider's four bounded caches are maps passed
in and returned. They may evict at any moment, so no property assumes an entry survives between
calls unless it says so. The properties' assumptions about cache contents fall into four kinds:

- Sound pattern caches. `Classifier.ClassifySound`, `Classifier.NoPatternsNoMatch`,
  `DocumentPass.StepRewritesQualifying`, `DocumentPass.PassKeepsSound` and
  `DocumentPass.PassRewritesQualifying` assume that every stored pattern answer is the answer the
  patterns give (`Classifier.Sound`). The code only ever stores such answers, and the
  classifier keeps this true. Eviction keeps it true too (`Classifier.EvictionKeepsSound`).
- A cache miss for the URL at hand (`ReplaceMediaUrlProperties.Reaches`: no remembered rewrite and
  not a pass-through URL). Most `ReplaceMediaUrlProperties` lemmas and
  `CdnMediaManager.DisabledStaysLocal` assume it. A hit returns the remembered URL, as
  `CdnProvider.ReplaceMediaUrl` states.
- Nothing remembered about the item: `CdnMediaManager.WithheldMatchesItem`.
- A kept entry: `ReplaceMediaUrlProperties.ReplaceMemo`. `CdnProvider.ItemChecksMemo` also assumes
  that `MainUtil.GetBool` reads back `True` and `False` (`Platform.ReadsBoolText`).

`UrlString` parameters are an ordered sequence of key/value pairs:

- Keys compare case-insensitively, as in a `NameValueCollection`; the model folds ASCII letters only.
- Reading a key returns its first match.
- Setting a key replaces the first match in place, or appends the pair when the key is absent.
- `Remove` drops every match.

Modules, one per file:

| file | module | models |
|---|---|---|
| outcomes.dfy | `Outcomes` | `Option`, and `Attempt` for calls that may throw |
| text.dfy | `Text` | ordinal string operations the code uses (`ToUpper`, `IndexOf`, `TrimEnd`, `EnsurePrefix`, `int.ToString`) |
| urls.dfy | `Urls` | `UrlString` parameters |
| platform.dfy | `Platform` | Sitecore collaborators and settings |
| classifier.dfy | `Classifier` | the memoised any-pattern-matches test |
| file_extension.dfy | `FileExtension` | the regex `.+\.[A-Za-z0-9]{2,4}$` with .NET semantics, and a decision procedure for it |
| cdn_provider.dfy | `CdnProvider` | `CDNProvider` |
| replace_media_url.dfy | `ReplaceMediaUrlProperties` | branch-by-branch properties of `ReplaceMediaUrl` |
| document_pass.dfy | `DocumentPass` | `ReplaceMediaUrls` |
| media_url_filter.dfy | `MediaUrlFilter` | the response filter |
| cdn_media_manager.dfy | `CdnMediaManager` | `GetMediaUrl` |
| cdn_intercept_pipeline.dfy | `CdnInterceptPipeline` | the minifier rewrite |

### Behaviour of the code worth knowing

- `MediaUrlFilter.cs:123-155` only logs an exception thrown while parsing, rewriting or rendering
  the page, and leaves `_isComplete` unset. The buffer, now holding the text through the marker,
  is still there, and the next `Flush` writes it verbatim (`MediaUrlFilter.FailedRenderFlushesVerbatim`).
- `MediaUrlFilter.cs:107-118` tests `_isComplete` only for marker-free payloads. After the page has
  gone out, a later payload that holds `</html>` appends to the old buffer and renders the whole
  buffer again (`MediaUrlFilter.MarkerAfterCompletionRerenders`).
- `MediaUrlFilter.cs:104` tests for the marker ignoring case, but the cut at `MediaUrlFilter.cs:120`
  uses a case-sensitive `IndexOf`. When a payload holds the marker only in another case, `IndexOf`
  returns -1 and the cut keeps only the first six characters of that payload
  (`MediaUrlFilter.UpperCaseMarkerCut`).
- `MediaUrlFilter.cs:49-63`: an unclosed page reaches the stream beneath through `Flush`; `Close`
  writes nothing of it. `Flush` writes the buffer again each time it is called
  (`MediaUrlFilter.FlushRepeatsBuffer`).
- `CDNProvider.cs:126-130`: `UrlHasFileExtension` is true when the text does NOT end in an
  extension, so the document pass at `CDNProvider.cs:79` rewrites an `href` only when it DOES end
  in one (`DocumentPass.NavigationLinksStayLocal`).

## Model

| member | source | states |
|---|---|---|
| Text.ToUpper | src/Foundation/SitecoreCDN/code/Providers/CDNProvider.cs:157 | same length; each ASCII lower-case letter becomes upper case and everything else is kept |
| Text.ToLower | src/Foundation/SitecoreCDN/code/Filters/MediaUrlFilter.cs:104 | same length; each ASCII upper-case letter becomes lower case, used for the case-insensitive marker test and for parameter keys |
| Text.IndexOf | src/Foundation/SitecoreCDN/code/Filters/MediaUrlFilter.cs:120 | -1 exactly when `sub` occurs nowhere; otherwise an occurrence with none before it |
| Text.TrimEnd | src/Foundation/SitecoreCDN/code/Providers/CDNProvider.cs:260 | the result is a prefix, does not end in the character, and everything dropped is that character |
| Text.EnsurePrefix | src/Foundation/SitecoreCDN/code/Providers/CDNProvider.cs:177 | the result starts with the character; a string already starting with it is unchanged, any other gets it in front |
| Text.NatToDecimal | src/Foundation/SitecoreCDN/code/Providers/CDNProvider.cs:219 | a version number is written as a non-empty string of decimal digits with no leading zero, as `int.ToString()` writes it |
| Text.DecimalRoundTrip | src/Foundation/SitecoreCDN/code/Providers/CDNProvider.cs:219 | the written version number reads back as the same number |
| Urls.Get | src/Foundation/SitecoreCDN/code/Providers/CDNProvider.cs:164 | None exactly when no parameter has the key (compared case-insensitively); otherwise the value of a parameter with that key |
| Urls.GetFirst | src/Foundation/SitecoreCDN/code/Providers/CDNProvider.cs:185 | the value read is that of the first parameter with the key |
| Urls.Set | src/Foundation/SitecoreCDN/code/Providers/CDNProvider.cs:228 | at most one parameter more, and a parameter added is the new pair, placed last; `Urls.SetFirst` and `Urls.SetAbsent` give the exact result in both cases |
| Urls.SetFirst | src/Foundation/SitecoreCDN/code/Providers/CDNMediaManager.cs:43 | on a present key, exactly the first matching parameter takes the new value under its own spelling of the key, everything before and after it kept in order |
| Urls.RemoveAppend | src/Foundation/SitecoreCDN/code/Providers/CDNProvider.cs:166 | removal works parameter by parameter: removing from a concatenation is the concatenation of the removals, so the kept parameters keep their order |
| Urls.RemoveSingle | src/Foundation/SitecoreCDN/code/Providers/CDNProvider.cs:166 | a single parameter is dropped exactly when its key matches the removed one |
| Urls.Remove | src/Foundation/SitecoreCDN/code/Providers/CDNProvider.cs:166 | a parameter is kept exactly when its key differs from the removed one |
| Urls.GetSetSame | src/Foundation/SitecoreCDN/code/Providers/CDNProvider.cs:228 | after setting a key, reading it gives the value set |
| Urls.GetSetOther | src/Foundation/SitecoreCDN/code/Providers/CDNProvider.cs:228-233 | setting one key does not change what any other key reads |
| Urls.SetExisting | src/Foundation/SitecoreCDN/code/Providers/CDNProvider.cs:228 | setting a key to the value it already reads leaves the parameters unchanged |
| Urls.SetAbsent | src/Foundation/SitecoreCDN/code/Providers/CDNProvider.cs:251 | setting an absent key appends exactly one parameter at the end |
| Urls.GetRemoveSame | src/Foundation/SitecoreCDN/code/Providers/CDNProvider.cs:166 | after removing a key, reading it gives nothing |
| Urls.GetRemoveOther | src/Foundation/SitecoreCDN/code/Providers/CDNProvider.cs:166 | removing one key does not change what any other key reads |
| Urls.RemoveAbsent | src/Foundation/SitecoreCDN/code/Providers/CDNProvider.cs:166 | removing an absent key changes nothing |
| Classifier.AnyMatch | src/Foundation/SitecoreCDN/code/Providers/CDNProvider.cs:283 | true exactly when some configured pattern matches the URL |
| Classifier.Classify | src/Foundation/SitecoreCDN/code/Providers/CDNProvider.cs:278-286 | a remembered answer is returned as is; otherwise the patterns decide and the answer is stored under the URL; no other entry changes |
| Classifier.ClassifySound | src/Foundation/SitecoreCDN/code/Providers/CDNProvider.cs:278-286 | with a cache holding only true answers, the memo is invisible: the result is the patterns' answer and the cache stays truthful |
| Classifier.ClassifyMemo | src/Foundation/SitecoreCDN/code/Providers/CDNProvider.cs:280-284 | asking again with the cache the first call left gives the same answer and changes nothing |
| Classifier.EvictionKeepsSound | src/Foundation/SitecoreCDN/code/Providers/CDNProvider.cs:28 | evicting any entries keeps a truthful cache truthful |
| Classifier.NoPatternsNoMatch | src/Foundation/SitecoreCDN/code/Providers/CDNProvider.cs:283 | with no patterns configured and a truthful cache, nothing is excluded |
| FileExtension.HasExtensionSuffixIsRegex | src/Foundation/SitecoreCDN/code/Providers/CDNProvider.cs:128-129 | the suffix check answers exactly what a .NET search for `.+\.[A-Za-z0-9]{2,4}$` answers, in both directions, including `$` matching before a final line feed |
| CdnProvider.GetCDNHostName | src/Foundation/SitecoreCDN/code/Providers/CDNProvider.cs:347-353 | empty without a site or without an attribute named `cdnHostName` in any case; a non-empty result is the value of such an attribute |
| CdnProvider.HostNameIgnoresCase | src/Foundation/SitecoreCDN/code/Providers/CDNProvider.cs:352 | the result is the value of the first attribute whose name is `cdnHostName` up to case, so `cdnhostname` and `CDNHOSTNAME` are found too |
| CdnProvider.UrlIsExluded | src/Foundation/SitecoreCDN/code/Providers/CDNProvider.cs:278-286 | the answer is stored under the URL; a stored answer is reused with nothing changed; otherwise true exactly when an exclude pattern matches; the other caches are untouched |
| CdnProvider.ShouldProcessRequest | src/Foundation/SitecoreCDN/code/Providers/CDNProvider.cs:294-302 | the same memo over the process-request patterns and the include cache |
| CdnProvider.ShouldExcludeRequest | src/Foundation/SitecoreCDN/code/Providers/CDNProvider.cs:309-317 | the same memo over the exclude-request patterns and the request-exclude cache |
| CdnProvider.UrlHasFileExtension | src/Foundation/SitecoreCDN/code/Providers/CDNProvider.cs:126-130 | true exactly when the regex finds no match |
| CdnProvider.IsMediaPubliclyAccessible | src/Foundation/SitecoreCDN/code/Providers/CDNProvider.cs:360-381 | a remembered answer is read back (true when unreadable) with the cache unchanged; otherwise the anonymous read right decides, true when there is no anonymous user, and the answer is remembered as `True`/`False` |
| CdnProvider.HasTrackingChild | src/Foundation/SitecoreCDN/code/Providers/CDNProvider.cs:425 | true exactly when some child element is `event`, `campaign` or `profile` |
| CdnProvider.IsMediaAnalyticsTracked | src/Foundation/SitecoreCDN/code/Providers/CDNProvider.cs:388-437 | false with nothing stored when analytics is off; a remembered answer is read back; an empty field gives false and remembers it; unparsable XML gives false and remembers nothing; otherwise true exactly when `ignore` is not `1` and a tracking child exists, remembered |
| CdnProvider.ItemChecksMemo | src/Foundation/SitecoreCDN/code/Providers/CDNProvider.cs:362-378 | when the boolean reader reads back `True`/`False`, asking either item check again with the cache it left gives the same answer and changes nothing |
| CdnProvider.IsPassThrough | src/Foundation/SitecoreCDN/code/Providers/CDNProvider.cs:157 | the pass-through test as written, upper-casing before the prefix tests; what it accepts is stated by `CdnProvider.PassThroughIgnoresCase` |
| CdnProvider.PassThroughIgnoresCase | src/Foundation/SitecoreCDN/code/Providers/CDNProvider.cs:157 | a URL is passed through exactly when it is external, starts with `//`, or starts with `data:`, `http`, `mail`, `ftp` or `news` written in any mix of cases |
| CdnProvider.Transform | src/Foundation/SitecoreCDN/code/Providers/CDNProvider.cs:160-258 | a non-empty stop token removes the token, keeps protocol, host and path and stores nothing; only the versioning lookups can throw; without versioning the result is the retargeted URL; a static file keeps the retargeted protocol, host and path; a media URL ends up with the retargeted or the original protocol, host and path |
| CdnProvider.Retarget | src/Foundation/SitecoreCDN/code/Providers/CDNProvider.cs:171-177 | the host becomes the CDN host only when one is given, the protocol becomes `https` only with protocol matching on, a path already starting with `/` is kept and any other gets `/` in front, and the parameters are kept |
| CdnProvider.StampStatic | src/Foundation/SitecoreCDN/code/Providers/CDNProvider.cs:238-255 | it fails exactly when the existence check throws, or the file exists and reading its write time throws; on success only the parameters change |
| CdnProvider.ResolveMedia | src/Foundation/SitecoreCDN/code/Providers/CDNProvider.cs:183-222 | the URL kept is the retargeted one or the normalised original; falling back to the original means no timestamp and the requested `vs` value |
| CdnProvider.StampMedia | src/Foundation/SitecoreCDN/code/Providers/CDNProvider.cs:183-235 | fails exactly when the item lookup fails |
| CdnProvider.ReplaceMediaUrl | src/Foundation/SitecoreCDN/code/Providers/CDNProvider.cs:140-271 | a cache hit is returned as is, with no other effect; pass-through URLs come back unchanged and unremembered; a thrown exception returns the input with the cache unchanged; otherwise the result is the rendered URL with every trailing `?` removed and nothing else removed, remembered under `https`+input |
| ReplaceMediaUrlProperties.StopTokenHonoured | src/Foundation/SitecoreCDN/code/Providers/CDNProvider.cs:163-167 | a non-empty `ncdn`: the token is removed, protocol, host, path and every other parameter stay those of the normalised input, nothing is stored on the way, and the CDN host name has no influence |
| ReplaceMediaUrlProperties.EmptyStopTokenIgnored | src/Foundation/SitecoreCDN/code/Providers/CDNProvider.cs:164 | with versioning off and a non-empty CDN host name, an empty `ncdn` does not stop the rewrite: the host becomes the CDN host and the empty token stays |
| ReplaceMediaUrlProperties.RevertedMediaIsOriginal | src/Foundation/SitecoreCDN/code/Providers/CDNProvider.cs:203-234 | when the lookup reverts to the original URL, writing back `vs` changes nothing and no `d` is added: the result is exactly the original |
| ReplaceMediaUrlProperties.MediaItemDecides | src/Foundation/SitecoreCDN/code/Providers/CDNProvider.cs:190-222 | a missing, non-public or tracked item reverts to the original with no timestamp; a public, untracked item keeps the CDN URL with its version number (which reads back as that number) and its last-updated time |
| ReplaceMediaUrlProperties.MediaWithheld | src/Foundation/SitecoreCDN/code/Providers/CDNProvider.cs:203-216 | a missing, non-public or tracked media item is served from the normalised local URL, unchanged apart from trailing `?` |
| ReplaceMediaUrlProperties.RetargetWithoutStop | src/Foundation/SitecoreCDN/code/Providers/CDNProvider.cs:169-235 | without a stop token: no CDN host means the host is kept, protocol matching off means the protocol is kept, versioning off means exactly the retargeted URL, and only the media-library branch may fall back to the original |
| ReplaceMediaUrlProperties.StaticFileStamps | src/Foundation/SitecoreCDN/code/Providers/CDNProvider.cs:236-256 | `d` is set only for an existing file with a non-empty stamp; `min=1` is set for `.css`/`.js` paths whenever minification is on, whether or not the file exists; no other parameter changes |
| ReplaceMediaUrlProperties.KeptMediaStamps | src/Foundation/SitecoreCDN/code/Providers/CDNProvider.cs:225-234 | a kept media URL gains `vs` and, when non-empty, `d`; no other parameter changes |
| ReplaceMediaUrlProperties.MediaVersionStamped | src/Foundation/SitecoreCDN/code/Providers/CDNProvider.cs:212-234 | a public, untracked item: the CDN URL carries `vs` set to the item's version and `d` set to its last-updated time, and keeps every other parameter |
| ReplaceMediaUrlProperties.ReplaceMemo | src/Foundation/SitecoreCDN/code/Providers/CDNProvider.cs:144-153 | once a non-empty URL has been produced, a later call with the cache as left returns it again, whatever CDN host name is passed then |
| ReplaceMediaUrlProperties.EmptyResultIsNotRemembered | src/Foundation/SitecoreCDN/code/Providers/CDNProvider.cs:151 | an empty result is stored but not treated as a hit, so the next call computes afresh |
| DocumentPass.Step | src/Foundation/SitecoreCDN/code/Providers/CDNProvider.cs:73-103 | one element changes in at most the attribute the loop handles; every exclusion answer already stored is kept as it was; the other pattern caches are untouched |
| DocumentPass.RunPass | src/Foundation/SitecoreCDN/code/Providers/CDNProvider.cs:69-104 | a loop keeps the number of elements and keeps every exclusion answer already stored |
| DocumentPass.ReplaceMediaUrls | src/Foundation/SitecoreCDN/code/Providers/CDNProvider.cs:62-113 | tags, attribute names, and every attribute but `href` and `src` are unchanged |
| DocumentPass.StepRewritesQualifying | src/Foundation/SitecoreCDN/code/Providers/CDNProvider.cs:77-81 | with a truthful exclusion cache, a non-empty, non-excluded attribute (for `href`, one ending in a file extension) is replaced by `ReplaceMediaUrl` of it, and any other element is left exactly as it was |
| DocumentPass.PassKeepsSound | src/Foundation/SitecoreCDN/code/Providers/CDNProvider.cs:73-103 | a whole loop keeps a truthful exclusion cache truthful |
| DocumentPass.PassElementwise | src/Foundation/SitecoreCDN/code/Providers/CDNProvider.cs:93-103 | element i comes out as the step leaves it, given the caches the elements before it left |
| DocumentPass.PassOnlyTouchesAttr | src/Foundation/SitecoreCDN/code/Providers/CDNProvider.cs:81 | a loop changes no tag and no attribute name, and no attribute but its own |
| DocumentPass.PassRewritesQualifying | src/Foundation/SitecoreCDN/code/Providers/CDNProvider.cs:73-103 | over a whole loop, each qualifying attribute becomes the URL `ReplaceMediaUrl` gives with the cache the earlier elements left, and every other element is unchanged |
| DocumentPass.NavigationLinksStayLocal | src/Foundation/SitecoreCDN/code/Providers/CDNProvider.cs:79 | an `href` without a file extension is never rewritten, whatever the caches hold |
| MediaUrlFilter.Init | src/Foundation/SitecoreCDN/code/Filters/MediaUrlFilter.cs:26-31 | a new filter has nothing buffered, is not complete and has written nothing |
| MediaUrlFilter.HasMarker | src/Foundation/SitecoreCDN/code/Filters/MediaUrlFilter.cs:104-107 | the case-insensitive marker test; `MediaUrlFilter.MarkerAnywhere` states what it accepts |
| MediaUrlFilter.MarkerAnywhere | src/Foundation/SitecoreCDN/code/Filters/MediaUrlFilter.cs:104-107 | the test holds exactly when `</html>` occurs somewhere in the lower-cased payload |
| MediaUrlFilter.MarkerCut | src/Foundation/SitecoreCDN/code/Filters/MediaUrlFilter.cs:120 | a prefix of the payload; with a lower-case marker, it ends at the first marker, and that marker is its only occurrence; otherwise it is six characters long |
| MediaUrlFilter.Write | src/Foundation/SitecoreCDN/code/Filters/MediaUrlFilter.cs:99-157 | without the marker: buffer while incomplete, pass through verbatim once complete; with the marker: buffer through the marker, then on success write the rendering of the whole buffer and complete, on failure write nothing and keep the flag |
| MediaUrlFilter.Flush | src/Foundation/SitecoreCDN/code/Filters/MediaUrlFilter.cs:49-58 | an incomplete filter writes its buffer verbatim and keeps it; a complete one writes nothing |
| MediaUrlFilter.Close | src/Foundation/SitecoreCDN/code/Filters/MediaUrlFilter.cs:60-63 | closing writes nothing |
| MediaUrlFilter.BufferingAccumulates | src/Foundation/SitecoreCDN/code/Filters/MediaUrlFilter.cs:107-117 | before completion, marker-free writes only accumulate: the buffer becomes the old buffer followed by every payload, and nothing is written |
| MediaUrlFilter.UnclosedPageFlushedVerbatim | src/Foundation/SitecoreCDN/code/Filters/MediaUrlFilter.cs:49-63 | a page that never closes is written once, verbatim, by `Flush`, and not at all by `Close` |
| MediaUrlFilter.CompletePassesThrough | src/Foundation/SitecoreCDN/code/Filters/MediaUrlFilter.cs:109-112 | after completion, marker-free writes pass through verbatim, in order |
| MediaUrlFilter.MarkerAfterCompletionRerenders | src/Foundation/SitecoreCDN/code/Filters/MediaUrlFilter.cs:118-150 | after completion, a payload holding the marker renders the whole old buffer plus the cut again and writes a second document |
| MediaUrlFilter.FailedRenderFlushesVerbatim | src/Foundation/SitecoreCDN/code/Filters/MediaUrlFilter.cs:123-155 | a failed render leaves the filter incomplete, and the next `Flush` writes the buffer, marker included, verbatim |
| MediaUrlFilter.TailAfterMarkerDropped | src/Foundation/SitecoreCDN/code/Filters/MediaUrlFilter.cs:120 | text after the first lower-case marker in the same payload is neither buffered nor written |
| MediaUrlFilter.FlushRepeatsBuffer | src/Foundation/SitecoreCDN/code/Filters/MediaUrlFilter.cs:52-56 | flushing twice before completion writes the buffer twice |
| MediaUrlFilter.UpperCaseMarkerCut | src/Foundation/SitecoreCDN/code/Filters/MediaUrlFilter.cs:104-120 | a payload `</HTML>` is recognised as the end, but only `</HTML` is buffered |
| MediaUrlFilter.PageScenario | src/Foundation/SitecoreCDN/code/Filters/MediaUrlFilter.cs:99-157 | two page writes and a closing tag produce exactly one write, the rendered page; a later marker-free write passes straight through |
| CdnMediaManager.Withheld | src/Foundation/SitecoreCDN/code/Providers/CDNMediaManager.cs:31-32 | a private item is withheld without consulting analytics; with analytics off only the access check decides; no cache entry but the item's own two changes |
| CdnMediaManager.MarkStop | src/Foundation/SitecoreCDN/code/Providers/CDNMediaManager.cs:42-44 | `ncdn` reads `1` afterwards; every other parameter and the protocol, host and path are unchanged |
| CdnMediaManager.StopMarked | src/Foundation/SitecoreCDN/code/Providers/CDNMediaManager.cs:42-44 | the base URL parsed, marked by `CdnMediaManager.MarkStop` and written back; `CdnMediaManager.DisabledStaysLocal` states what a later rewrite does with it |
| CdnMediaManager.GetMediaUrl | src/Foundation/SitecoreCDN/code/Providers/CDNMediaManager.cs:23-57 | Disabled: the base URL with `ncdn=1`, never rewritten; a private or tracked item: the base URL; Enabled and public, untracked: `ReplaceMediaUrl`; no switcher: `ReplaceMediaUrl` exactly when the host name is non-empty and the page mode is normal |
| CdnMediaManager.WithheldMatchesItem | src/Foundation/SitecoreCDN/code/Providers/CDNMediaManager.cs:31-32 | with nothing remembered about the item, it is withheld exactly when the anonymous user may not read it, or analytics is on and its tracking field asks for tracking |
| CdnMediaManager.DisabledStaysLocal | src/Foundation/SitecoreCDN/code/Providers/CDNMediaManager.cs:40-46 | a URL marked under a Disabled switcher is left on its own host by a later rewrite: `ncdn` is removed and protocol, host and path are kept, for any CDN host name; this assumes the later rewrite misses its cache and does not pass the URL through (`ReplaceMediaUrlProperties.Reaches`), and that Sitecore's normalising and parsing of the written URL gives back the marked URL (`parseUrl(normalizeUrl(StopMarked(..))) == MarkStop(..)`) |
| CdnInterceptPipeline.Process | src/Foundation/SitecoreCDN/code/Pipelines/CDNInterceptPipeline.cs:15-38 | unless the request asks for minification, the context is unchanged; otherwise `MinifyPath` holds the raw URL, no other item changes, the path is the original path under `/~/minify`, and the query is the URL's query |
| CdnInterceptPipeline.MinifyRequested | src/Foundation/SitecoreCDN/code/Pipelines/CDNInterceptPipeline.cs:25-29 | the five conditions of the `if`; `CdnInterceptPipeline.RewrittenExactlyWhenRequested` states that they decide the rewrite, both ways |
| CdnInterceptPipeline.ProcessIdempotent | src/Foundation/SitecoreCDN/code/Pipelines/CDNInterceptPipeline.cs:20-32 | running the step again changes nothing more |
| CdnInterceptPipeline.RewrittenExactlyWhenRequested | src/Foundation/SitecoreCDN/code/Pipelines/CDNInterceptPipeline.cs:25-33 | for a request not already under `/~/minify`, the context changes exactly when CDN and minification are on, `min` is `1`, the path is outside the media prefix, and it ends in `.css` or `.js` |
| CdnInterceptPipeline.UpperCaseExtensionNotRewritten | src/Foundation/SitecoreCDN/code/Pipelines/CDNInterceptPipeline.cs:29 | `.CSS` and `.JS` paths are not rewritten |
| CdnInterceptPipeline.NoMinParameterNoRewrite | src/Foundation/SitecoreCDN/code/Pipelines/CDNInterceptPipeline.cs:27 | without `min=1` nothing happens |

## Left out

- Concurrency: the provider's caches are process-wide and shared between requests. The model is single-threaded, and each call takes and returns the caches.
- Cache sizes and eviction policy (`UrlCache`, `ExcludeIncludeCache`, the configured size): a cache is a map, and eviction is any removal of entries (`Classifier.EvictionKeepsSound`). The cache classes are not part of this model.
- Culture-sensitive text operations: `ToUpper()`, `StartsWith(string)`, `EndsWith(string)` and `IndexOf(string)` use the current culture in .NET. They are modelled as ASCII and ordinal. The same ASCII-only folding stands in for the invariant-culture key comparison of `NameValueCollection` and of the site attribute dictionary (`Urls.KeyEq`), and for the culture-aware `RegexOptions.IgnoreCase` marker test at `MediaUrlFilter.cs:104` (`MediaUrlFilter.HasMarker`).
- Duplicate keys: a parameter collection joins the values of a repeated key with commas. The model reads the first match instead. On the write side, assigning `url[key]` replaces every value of the key in a `NameValueCollection`; `Urls.Set` changes only the first parameter with the key, and any later duplicates keep their values. A site's attribute dictionary cannot hold two names equal up to case; the model's attribute list can, and then the first one is read.
- HTML: parsing (CsQuery), the selectors, and rendering are not modelled. The document is its element sequence with lower-case attribute names. In the filter, parse, pass and render together are the partial function `render`.
- UTF-8: decoding of payloads and the byte-order mark written by `new UTF8Encoding(true)` are not modelled. A multi-byte character split across two writes is not modelled either. Payloads are text.
- The stream members that only delegate (`Read`, `Seek`, `SetLength`, `Position`, `Length`, `CanRead`, …) are not modelled. The underlying `_responseStream.Flush()` and `Close()` are not modelled.
- Logging (`Log.Error`, `Log.Debug`) and `TimerReport` are not modelled.
- `GetMediaItemPath` and `CustomMediaRequest` become the collaborator `mediaItemPath`. `ReplaceMediaProvider`, the `CDNUrlSwitcher` implementation and the loading of `CDNSettings` are not part of this model.
- The `!cf!` query dehydration appears in doc comments only. The code does not do it.
- `NoCacheToken` is never used by the modelled code.
- `DocumentPass.ReplaceMediaUrls`: its `catch` (CDNProvider.cs:108-111) has no modelled cause. `ReplaceMediaUrl` catches its own exceptions, and the other calls in the pass are total in the model.
- CdnProvider.IsMediaPubliclyAccessible: a null domain (no context domain and no `extranet` domain) throws a `NullReferenceException`. That exception would surface at the caller's `catch`, and it is not modelled. A missing anonymous user is modelled.
- CdnMediaManager.GetMediaUrl: an exception thrown by the item checks, or by `base.GetMediaUrl`, propagates to the caller. It is not modelled.
- MediaUrlFilter.Write: on a failed render, the model writes nothing. The real `StreamWriter` may already have written part of the page, or a byte-order mark, before a later step throws.
- The HTTP context is reduced to `Sitecore.Context.RawUrl`, the current site and the page mode, all passed as values.
