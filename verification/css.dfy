/**
 * The CSS asset handler: what it derives from the request, and the pipeline of
 * `get` — the cache first, then the storage provider, the optional minifier and
 * a write back to the cache.
 */
module Css {
  import opened Wrappers
  import opened Strings
  import Urls
  import Paths
  import opened Storage
  import opened Cache

  const ContentType: string := "text/css"

  /** The rejection for a full remote URL the instance does not allow. */
  const RemoteRefused: Error :=
    Error(Some(403), "Loading assets from a full remote URL is not supported by this instance of DADI CDN")

  /** The TypeError of reading the path of a url that has none. */
  const NullPathname: Error := Error(None, "Cannot read properties of null (reading 'split')")

  /** A pathname names a full remote URL when `http://` or `https://` occurs in it after its first character. */
  predicate IsExternal(pathname: string) {
    IndexOf(pathname, "http://") > 0 || IndexOf(pathname, "https://") > 0
  }

  /** For a pathname starting with `/`, "after the first character" is "anywhere". */
  lemma ExternalIffScheme(pathname: string)
    requires |pathname| >= 1 && pathname[0] == '/'
    ensures IsExternal(pathname) <==> Contains(pathname, "http://") || Contains(pathname, "https://")
  {
    assert !OccursAt(pathname, "http://", 0) by {
      if |pathname| >= 7 {
        assert pathname[0..7][0] == '/';
      }
    }
    assert !OccursAt(pathname, "https://", 0) by {
      if |pathname| >= 8 {
        assert pathname[0..8][0] == '/';
      }
    }
  }

  /** `JSON.stringify({compress})`. */
  function CompressJson(compressed: bool): string {
    if compressed then "{\"compress\":true}" else "{\"compress\":false}"
  }

  /** The domain as a key element: an undefined domain is skipped when the key is normalised. */
  function DomainPart(domain: Option<string>): KeyPart {
    if domain.Some? then Str(domain.value) else Undefined
  }

  /** The cache key of a CSS request: its domain, its full url and its compression flag. */
  function CacheKeyFor(domain: Option<string>, href: string, compressed: bool): CacheKey {
    List([DomainPart(domain), Str(href), Str(CompressJson(compressed))])
  }

  /** The last `/`-separated segment of a pathname (`split('/').slice(-1)[0]`). */
  function LastSegment(pathname: string): (name: string)
    ensures '/' !in name
  {
    var parts := Split(pathname, '/');
    parts[|parts| - 1]
  }

  class CssHandler {
    /** `options.compress` from the handler data. */
    const compressOption: bool
    var url: Urls.ParsedUrl
    const isExternalUrl: bool
    const isCompressed: bool
    const domain: Option<string>
    const cacheKey: CacheKey
    const cache: CacheStore
    var isCached: bool
    var storageHandler: Option<StorageView>

    /**
     * Parses the request url. A full remote URL, the compression flag
     * (`options.compress`, or `compress=1` given once in the query) and the cache
     * key are fixed here, from the request url.
     */
    constructor (reqUrl: string, domain: Option<string>, compressOption: bool, cache: CacheStore)
      requires |reqUrl| >= 1 && reqUrl[0] == '/'
      ensures url == Urls.ParseUrl(reqUrl) && url.pathname.Some?
      ensures isExternalUrl == IsExternal(url.pathname.value)
      ensures isCompressed == (compressOption || Urls.QueryEquals(url, "compress", "1"))
      ensures cacheKey == CacheKeyFor(domain, Urls.Clean(reqUrl), isCompressed)
      ensures this.compressOption == compressOption && this.domain == domain && this.cache == cache
      ensures !isCached && storageHandler == None
    {
      var parsed := Urls.ParseUrl(reqUrl);
      Urls.RootedHasPathname(reqUrl);
      var compressed := compressOption || Urls.QueryEquals(parsed, "compress", "1");
      this.compressOption := compressOption;
      this.url := parsed;
      this.isExternalUrl := IsExternal(parsed.pathname.value);
      this.isCompressed := compressed;
      this.domain := domain;
      this.cacheKey := CacheKeyFor(domain, parsed.href, compressed);
      this.cache := cache;
      this.isCached := false;
      this.storageHandler := None;
    }

    function GetContentType(): string {
      ContentType
    }

    /** `getFilename()`: the last segment of the pathname; a url without one throws. */
    function GetFilename(): Result<string>
      reads this
    {
      if url.pathname.None? then Failure(NullPathname) else Success(LastSegment(url.pathname.value))
    }

    /** `getLastModified()`: null before a storage provider exists, otherwise the provider's. */
    function GetLastModified(): (r: Option<Time>)
      reads this
      ensures storageHandler.None? ==> r.None?
      ensures storageHandler.Some? ==> r == storageHandler.value.lastModified
    {
      if storageHandler.None? then None else storageHandler.value.lastModified
    }

    /** `setBaseUrl(baseUrl)`: re-parses the url and nothing else; the cache key and flags keep the request's. */
    method SetBaseUrl(baseUrl: string)
      modifies this`url
      ensures url == Urls.ParseUrl(baseUrl) && url.href == Urls.Clean(baseUrl)
    {
      url := Urls.ParseUrl(baseUrl);
    }

    /** `transform(stream)`: the identity unless compression is on, then the minifier's result. */
    function Transform(body: seq<byte>, minify: seq<byte> -> Result<seq<byte>>): (r: Result<seq<byte>>)
      ensures !isCompressed ==> r == Success(body)
      ensures isCompressed ==> r == minify(body)
    {
      if !isCompressed then Success(body) else minify(body)
    }

    /** The cache holds an entry for this request that `getStream` returns. */
    predicate Hit(readFails: bool)
      reads this, cache
      requires Normalisable(cacheKey)
    {
      cache.Enabled() && !readFails && cache.Key(cacheKey) in cache.entries
    }

    /** The request is for a full remote URL and the instance does not allow those. */
    predicate Refused(remoteEnabled: bool, allowFullUrl: bool) {
      isExternalUrl && (!remoteEnabled || !allowFullUrl)
    }

    /**
     * `get()`. A cache hit resolves with the cached bytes and marks the handler
     * cached; no storage provider is created. On a miss the provider is created
     * (`created` is what it shows before `get`); a refused remote URL rejects with
     * 403 without reading it. Otherwise the provider's `get` settles to
     * `fetched.0`, leaving it as `fetched.1`; its bytes are transformed and handed
     * to the cache without waiting for the write, and the handler resolves with
     * them. A failure of the provider or of the minifier is passed on.
     */
    method Get(readFails: bool, created: StorageView, fetched: (Outcome<seq<byte>>, StorageView),
               remoteEnabled: bool, allowFullUrl: bool, minify: seq<byte> -> Result<seq<byte>>,
               writeError: Option<Error>)
      returns (r: Outcome<seq<byte>>)
      requires Normalisable(cacheKey)
      modifies this`isCached, this`storageHandler, cache`entries
      ensures old(Hit(readFails)) ==>
        r == Resolved(old(cache.entries)[cache.Key(cacheKey)]) && isCached &&
        storageHandler == old(storageHandler) && cache.entries == old(cache.entries)
      ensures !old(Hit(readFails)) ==> isCached == old(isCached)
      ensures !old(Hit(readFails)) && Refused(remoteEnabled, allowFullUrl) ==>
        r == Rejected(RemoteRefused) && storageHandler == Some(created) && cache.entries == old(cache.entries)
      ensures !old(Hit(readFails)) && !Refused(remoteEnabled, allowFullUrl) ==>
        storageHandler == Some(fetched.1) &&
        match fetched.0
        case Pending => r.Pending? && cache.entries == old(cache.entries)
        case Rejected(e) => r == Rejected(e) && cache.entries == old(cache.entries)
        case Resolved(body) =>
          match Transform(body, minify)
          case Failure(e) => r == Rejected(e) && cache.entries == old(cache.entries)
          case Success(css) =>
            r == Resolved(css) &&
            cache.entries == if cache.Enabled() && writeError.None? then old(cache.entries)[cache.Key(cacheKey) := css]
                             else old(cache.entries)
    {
      var cached := cache.GetStream(cacheKey, readFails);
      if cached.Some? {
        isCached := true;
        return Resolved(cached.value);
      }
      storageHandler := Some(created);
      if isExternalUrl && (!remoteEnabled || !allowFullUrl) {
        return Rejected(RemoteRefused);
      }
      storageHandler := Some(fetched.1);
      match fetched.0 {
        case Pending =>
          return Pending;
        case Rejected(e) =>
          return Rejected(e);
        case Resolved(body) =>
          var transformed := Transform(body, minify);
          if transformed.Failure? {
            return Rejected(transformed.error);
          }
          r := cache.CacheFile(transformed.value, cacheKey, false, writeError);
      }
    }
  }

  /** A pathname that does not end with `/` has the same last segment as its basename. */
  lemma LastSegmentIsBasename(pathname: string)
    requires |pathname| >= 1 && pathname[|pathname| - 1] != '/'
    ensures LastSegment(pathname) == Paths.Basename(pathname)
  {
    var parts := Split(pathname, '/');
    var last := parts[|parts| - 1];
    assert last != "" by {
      if |parts| > 1 {
        var init := parts[..|parts| - 1];
        assert parts == init + [last];
        JoinAppend(init, last, '/');
      }
    }
    assert parts == parts[..|parts| - 1] + [last];
    NonEmptyConcat(parts[..|parts| - 1], [last]);
    assert NonEmpty([last]) == [last];
  }

  /**
   * Every CSS key of a domain starts with the normalised key `[domain]`, the
   * pattern of a flush of everything: such a flush reaches every cached variant.
   */
  lemma DomainPatternPrefixesCssKeys(hash: string -> string, domain: Option<string>, href: string, compressed: bool)
    ensures StartsWith(NormalisedKey(hash, CacheKeyFor(domain, href, compressed)), NormalisedKey(hash, List([DomainPart(domain)])))
  {
    assert CacheKeyFor(domain, href, compressed).parts == [DomainPart(domain)] + [Str(href), Str(CompressJson(compressed))];
    ListKeyPrefix(hash, [DomainPart(domain)], [Str(href), Str(CompressJson(compressed))]);
  }
}
