/** What the CDN code takes from Sitecore and from its own configuration. Every call into Sitecore
    or the file system is a field of `Sitecore`; the ones that can raise an exception on the paths
    the CDN code takes return an `Attempt`. */
module Platform {
  import opened Outcomes
  import opened Urls

  /** A moment as Sitecore records it (a `DateTime`); only `Sitecore.isoDate` looks inside. */
  datatype Stamp = Stamp(ticks: int)

  /** A media item as far as the CDN code reads it: its id, version number, last-updated
      time and the raw `__Tracking` field. */
  datatype MediaItem = MediaItem(id: string, version: nat, updated: Stamp, tracking: string)

  /** The parsed `__Tracking` XML element: its `ignore` attribute and the names of its child
      elements, in document order. */
  datatype TrackingElement = TrackingElement(ignore: Option<string>, children: seq<string>)

  /** A Sitecore site; `properties` lists its site-definition attributes. `SiteContext.Properties`
      is a string dictionary, so attribute names are looked up without regard to case. */
  datatype SiteContext = SiteContext(properties: seq<Param>)

  datatype Sitecore = Sitecore(
    /** `WebUtil.IsExternalUrl` */
    isExternalUrl: string -> bool,
    /** `WebUtil.NormalizeUrl` */
    normalizeUrl: string -> string,
    /** `new UrlString(text)` */
    parseUrl: string -> Url,
    /** `UrlString.ToString()` */
    renderUrl: Url -> string,
    /** `UrlString.Query`: the parameters written as a query string */
    renderQuery: seq<Param> -> string,
    /** `Regex.IsMatch` for one configured pattern and one URL */
    regexIsMatch: (string, string) -> bool,
    /** `Context.Database != null` */
    hasDatabase: bool,
    /** `MediaRequest.GetMediaPath` on a local path */
    mediaItemPath: string -> Attempt<string>,
    /** `Database.GetItem(path, Context.Language, Version.Parse(version))` */
    itemAtVersion: (string, string) -> Attempt<Option<MediaItem>>,
    /** `Database.SelectSingleItem(path)` */
    selectItem: string -> Attempt<Option<MediaItem>>,
    /** `item.Security.CanRead(anonymous)`, or None when the domain has no anonymous user */
    anonymousCanRead: MediaItem -> Option<bool>,
    /** `MainUtil.GetBool(text, default)`: Some(b) when the text reads as a boolean, None when the
        default is taken */
    readBool: string -> Option<bool>,
    /** `XElement.Parse`; None when the text is not well-formed XML */
    parseTracking: string -> Option<TrackingElement>,
    /** `FileUtil.FileExists` */
    fileExists: string -> Attempt<bool>,
    /** `FileUtil.GetFileWriteTime` */
    fileWriteTime: string -> Attempt<Stamp>,
    /** `DateUtil.ToIsoDate` */
    isoDate: Stamp -> string
  )

  /** The settings the CDN code reads (`CDNSettings`, `Settings.Media` and `XdbSettings`). */
  datatype Config = Config(
    cdnEnabled: bool,
    minifyEnabled: bool,
    matchProtocol: bool,
    filenameVersioningEnabled: bool,
    xdbEnabled: bool,
    excludeUrlPatterns: seq<string>,
    processRequestPatterns: seq<string>,
    excludeRequestPatterns: seq<string>,
    mediaLinkPrefix: string,
    defaultMediaPrefix: string
  )

  /** `bool.ToString()` */
  function BoolText(b: bool): string {
    if b then "True" else "False"
  }

  /** `readBool` reads back what `BoolText` writes; the memo round-trips depend on it. */
  predicate ReadsBoolText(env: Sitecore) {
    env.readBool("True") == Some(true) && env.readBool("False") == Some(false)
  }
}
