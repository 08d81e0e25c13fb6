/**
 * The asset route of the controller: which headers an asset response carries,
 * its status, the body it ends with, and how a failed asset request is answered;
 * and the cache invalidation route.
 */
module Controller {
  import opened Wrappers
  import opened Strings
  import Urls
  import opened Storage
  import opened Cache
  import Css

  /**
   * Header names. Node compares them without regard to case, so each of the
   * route's headers is one name here; any other header is `OtherHeader`.
   */
  datatype HeaderName =
    | ContentTypeHeader | CacheControlHeader | LastModifiedHeader | VaryHeader
    | ETagHeader | ContentEncodingHeader | ContentLengthHeader | XCacheHeader
    | OtherHeader(name: string)

  /** The header `name` is present with `value`. */
  predicate HeaderIs(headers: map<HeaderName, string>, name: HeaderName, value: string) {
    name in headers && headers[name] == value
  }

  const JsonType: string := "application/json"

  /** The TypeError of asking a handler without a storage provider for its full url. */
  const NullStorage: Error := Error(None, "Cannot read properties of null (reading 'getFullUrl')")

  /** What the controller reads from an asset handler once the handler exists. */
  datatype HandlerView = HandlerView(
    contentType: string,           // getContentType()
    filename: Result<string>,      // getFilename(), which may throw
    lastModified: Option<Time>,    // getLastModified()
    storage: Option<StorageView>,  // storageHandler
    isCached: bool,
    xCache: Option<string>)        // getHeader('x-cache'), for handlers that have one, when not empty

  /** The request headers the route reads; `None` is an absent header. */
  datatype Request = Request(
    domain: Option<string>,
    acceptEncoding: Option<string>,
    ifNoneMatch: Option<string>,
    range: Option<string>)

  /** A `{key: value}` entry of a cache-control rule list. */
  datatype Rule = Rule(key: string, value: string)

  /** `headers.cacheControl`: rules by path, rules by mime type, and the default value. */
  datatype CacheControlConfig = CacheControlConfig(paths: seq<Rule>, mimetypes: seq<Rule>, default: string)

  /** The per-domain settings the route reads. `notFoundStatus` is `notFound.statusCode`. */
  datatype ServerConfig = ServerConfig(
    useGzip: bool,
    cacheControl: CacheControlConfig,
    notFoundStatus: Option<int>)

  /**
   * The library functions the controller calls: `etag`, `zlib.gzip`,
   * `compressible`, `mime.getType`, and the string form of a date.
   */
  datatype Libraries = Libraries(
    etag: seq<byte> -> string,
    gzip: seq<byte> -> Result<seq<byte>>,
    compressible: string -> bool,
    mimeType: string -> Option<string>,
    dateText: Time -> string)

  /** A JSON reply: an error object, or the `{success, message}` of the flush route. */
  datatype Payload = ErrorPayload(error: Error) | FlushPayload(success: bool, message: string)

  /** How the response ended: not yet, with bytes, through the seekable sender, with no body, or with JSON. */
  datatype Body = NotSent | Sent(data: seq<byte>) | Seekable(data: seq<byte>) | NoBody | Json(payload: Payload)

  class Response {
    var statusCode: int
    var headers: map<HeaderName, string>
    var body: Body

    constructor ()
      ensures statusCode == 200 && headers == map[] && body == NotSent
    {
      statusCode := 200;
      headers := map[];
      body := NotSent;
    }

    method SetHeader(name: HeaderName, value: string)
      modifies this`headers
      ensures headers == old(headers)[name := value]
    {
      headers := headers[name := value];
    }

    /** `help.sendBackJSON(status, payload, res)`. */
    method SendJson(status: int, payload: Payload)
      modifies this`statusCode, this`body
      ensures statusCode == status && body == Json(payload)
    {
      statusCode := status;
      body := Json(payload);
    }
  }

  // ---------------------------------------------------------------------------
  // Compression

  /**
   * `shouldCompress(req, handler)`: gzip is configured, the type is not JSON,
   * `gzip` is one of the comma-separated entries of Accept-Encoding exactly as
   * written, and the type is compressible.
   */
  predicate ShouldCompress(req: Request, cfg: ServerConfig, lib: Libraries, contentType: string) {
    var accept := if req.acceptEncoding.Some? then req.acceptEncoding.value else "";
    cfg.useGzip && contentType != JsonType && "gzip" in Split(accept, ',') && lib.compressible(contentType)
  }

  /**
   * An Accept-Encoding header written as entries joined by commas asks for gzip
   * exactly when one entry is `gzip`, without surrounding spaces.
   */
  lemma GzipEntry(req: Request, cfg: ServerConfig, lib: Libraries, contentType: string, entries: seq<string>)
    requires |entries| >= 1 && forall i :: 0 <= i < |entries| ==> ',' !in entries[i]
    requires req.acceptEncoding == Some(Join(entries, ','))
    requires cfg.useGzip && contentType != JsonType && lib.compressible(contentType)
    ensures ShouldCompress(req, cfg, lib, contentType) <==> "gzip" in entries
  {
    SplitJoin(entries, ',');
  }

  /** `deflate, gzip` does not turn compression on: its second entry is ` gzip`. */
  lemma SpacedGzipIsIgnored(req: Request, cfg: ServerConfig, lib: Libraries, contentType: string)
    requires req.acceptEncoding == Some("deflate, gzip")
    ensures !ShouldCompress(req, cfg, lib, contentType)
  {
    var entries := ["deflate", " gzip"];
    assert Join(entries, ',') == "deflate, gzip";
    SplitJoin(entries, ',');
  }

  /** JSON responses are never compressed, and neither is anything when there is no Accept-Encoding. */
  lemma NoCompression(req: Request, cfg: ServerConfig, lib: Libraries, contentType: string)
    requires contentType == JsonType || req.acceptEncoding.None? || !cfg.useGzip
    ensures !ShouldCompress(req, cfg, lib, contentType)
  {
    assert Split("", ',') == [""];
  }

  // ---------------------------------------------------------------------------
  // Headers

  method AddContentTypeHeader(res: Response, h: HandlerView)
    modifies res`headers
    ensures res.headers == if h.contentType != "" then old(res.headers)[ContentTypeHeader := h.contentType] else old(res.headers)
  {
    if h.contentType != "" {
      res.SetHeader(ContentTypeHeader, h.contentType);
    }
  }

  method AddLastModifiedHeader(res: Response, h: HandlerView, lib: Libraries)
    modifies res`headers
    ensures res.headers ==
      if h.lastModified.Some? then old(res.headers)[LastModifiedHeader := lib.dateText(h.lastModified.value)] else old(res.headers)
  {
    if h.lastModified.Some? {
      res.SetHeader(LastModifiedHeader, lib.dateText(h.lastModified.value));
    }
  }

  method AddVaryHeader(res: Response)
    modifies res`headers
    ensures res.headers == old(res.headers)[VaryHeader := "Accept-Encoding"]
  {
    res.SetHeader(VaryHeader, "Accept-Encoding");
  }

  /** The response already carries a non-empty Cache-Control header. */
  predicate CacheControlSet(headers: map<HeaderName, string>) {
    CacheControlHeader in headers && headers[CacheControlHeader] != ""
  }

  /** The headers after offering `v`: set only when there is a value and no Cache-Control yet. */
  function Offered(headers: map<HeaderName, string>, v: Option<string>): map<HeaderName, string> {
    if v.Some? && !CacheControlSet(headers) then headers[CacheControlHeader := v.value] else headers
  }

  /** The first non-empty value among the path rules whose key occurs in the full url. */
  function FirstPathValue(rules: seq<Rule>, fullUrl: string): (v: Option<string>)
    ensures v.Some? ==> v.value != ""
    decreases |rules|
  {
    if |rules| == 0 then None
    else if IndexOf(fullUrl, rules[0].key) > -1 && rules[0].value != "" then Some(rules[0].value)
    else FirstPathValue(rules[1..], fullUrl)
  }

  /** The first non-empty value among the mime-type rules whose key is the file's type. */
  function FirstMimeValue(rules: seq<Rule>, mime: Option<string>): (v: Option<string>)
    ensures v.Some? ==> v.value != ""
    decreases |rules|
  {
    if |rules| == 0 then None
    else if mime == Some(rules[0].key) && rules[0].value != "" then Some(rules[0].value)
    else FirstMimeValue(rules[1..], mime)
  }

  /**
   * The path rules' value comes from a rule whose key occurs in the full url;
   * when there is none, no rule both matches and has a value.
   */
  lemma {:induction false} FirstPathValueMatches(rules: seq<Rule>, fullUrl: string)
    ensures var v := FirstPathValue(rules, fullUrl);
      v.Some? ==> exists i :: 0 <= i < |rules| && rules[i].value == v.value && Contains(fullUrl, rules[i].key)
    ensures FirstPathValue(rules, fullUrl).None? ==>
      forall i :: 0 <= i < |rules| ==> rules[i].value == "" || !Contains(fullUrl, rules[i].key)
    decreases |rules|
  {
    if |rules| > 0 && !(IndexOf(fullUrl, rules[0].key) > -1 && rules[0].value != "") {
      FirstPathValueMatches(rules[1..], fullUrl);
      assert forall i :: 1 <= i < |rules| ==> rules[i] == rules[1..][i - 1];
    }
  }

  /**
   * The mime-type rules' value comes from a rule naming the file's type; when
   * there is none, no rule both names it and has a value.
   */
  lemma {:induction false} FirstMimeValueMatches(rules: seq<Rule>, mime: Option<string>)
    ensures var v := FirstMimeValue(rules, mime);
      v.Some? ==> exists i :: 0 <= i < |rules| && rules[i].value == v.value && mime == Some(rules[i].key)
    ensures FirstMimeValue(rules, mime).None? ==>
      forall i :: 0 <= i < |rules| ==> rules[i].value == "" || mime != Some(rules[i].key)
    decreases |rules|
  {
    if |rules| > 0 && !(mime == Some(rules[0].key) && rules[0].value != "") {
      FirstMimeValueMatches(rules[1..], mime);
      assert forall i :: 1 <= i < |rules| ==> rules[i] == rules[1..][i - 1];
    }
  }

  lemma {:induction false} FirstPathValueAppend(rules: seq<Rule>, rule: Rule, fullUrl: string)
    ensures FirstPathValue(rules + [rule], fullUrl) ==
      if FirstPathValue(rules, fullUrl).Some? then FirstPathValue(rules, fullUrl)
      else if IndexOf(fullUrl, rule.key) > -1 && rule.value != "" then Some(rule.value)
      else None
    decreases |rules|
  {
    if |rules| == 0 {
      assert [rule][1..] == [];
    } else {
      assert (rules + [rule])[1..] == rules[1..] + [rule];
      FirstPathValueAppend(rules[1..], rule, fullUrl);
    }
  }

  lemma {:induction false} FirstMimeValueAppend(rules: seq<Rule>, rule: Rule, mime: Option<string>)
    ensures FirstMimeValue(rules + [rule], mime) ==
      if FirstMimeValue(rules, mime).Some? then FirstMimeValue(rules, mime)
      else if mime == Some(rule.key) && rule.value != "" then Some(rule.value)
      else None
    decreases |rules|
  {
    if |rules| == 0 {
      assert [rule][1..] == [];
    } else {
      assert (rules + [rule])[1..] == rules[1..] + [rule];
      FirstMimeValueAppend(rules[1..], rule, mime);
    }
  }

  /** Offering a non-empty value and then another is offering the first, or else the second. */
  lemma OfferedTwice(headers: map<HeaderName, string>, a: Option<string>, b: Option<string>)
    requires a.Some? ==> a.value != ""
    ensures Offered(Offered(headers, a), b) == Offered(headers, if a.Some? then a else b)
  {
  }

  /**
   * The Cache-Control value the rules choose: the first matching path rule, else
   * the first matching mime-type rule, else the default; empty values never count.
   */
  function ChosenCacheControl(cfg: CacheControlConfig, fullUrl: string, mime: Option<string>): (v: Option<string>)
    ensures v.Some? ==> v.value != ""
  {
    var byPath := FirstPathValue(cfg.paths, fullUrl);
    var byMime := FirstMimeValue(cfg.mimetypes, mime);
    if byPath.Some? then byPath
    else if byMime.Some? then byMime
    else if cfg.default != "" then Some(cfg.default)
    else None
  }

  /** A matching path rule decides, whatever the mime-type rules and the default say. */
  lemma PathRuleWins(cfg: CacheControlConfig, fullUrl: string, mime: Option<string>, k: nat)
    requires k < |cfg.paths| && cfg.paths[k].value != "" && Contains(fullUrl, cfg.paths[k].key)
    requires forall j :: 0 <= j < k ==> cfg.paths[j].value == "" || !Contains(fullUrl, cfg.paths[j].key)
    ensures ChosenCacheControl(cfg, fullUrl, mime) == Some(cfg.paths[k].value)
  {
    FirstPathValueIs(cfg.paths, fullUrl, k);
  }

  lemma {:induction false} FirstPathValueIs(rules: seq<Rule>, fullUrl: string, k: nat)
    requires k < |rules| && rules[k].value != "" && Contains(fullUrl, rules[k].key)
    requires forall j :: 0 <= j < k ==> rules[j].value == "" || !Contains(fullUrl, rules[j].key)
    ensures FirstPathValue(rules, fullUrl) == Some(rules[k].value)
    decreases k
  {
    if k > 0 {
      FirstPathValueIs(rules[1..], fullUrl, k - 1);
    }
  }

  /** With no path rule that matches and has a value, a matching mime-type rule decides, whatever the default says. */
  lemma MimeRuleWins(cfg: CacheControlConfig, fullUrl: string, mime: Option<string>, k: nat)
    requires forall i :: 0 <= i < |cfg.paths| ==> cfg.paths[i].value == "" || !Contains(fullUrl, cfg.paths[i].key)
    requires k < |cfg.mimetypes| && cfg.mimetypes[k].value != "" && mime == Some(cfg.mimetypes[k].key)
    requires forall j :: 0 <= j < k ==> cfg.mimetypes[j].value == "" || mime != Some(cfg.mimetypes[j].key)
    ensures ChosenCacheControl(cfg, fullUrl, mime) == Some(cfg.mimetypes[k].value)
  {
    FirstPathValueNone(cfg.paths, fullUrl);
    FirstMimeValueIs(cfg.mimetypes, mime, k);
  }

  /** With no rule that matches and has a value, the default decides; an empty default sets nothing. */
  lemma DefaultWins(cfg: CacheControlConfig, fullUrl: string, mime: Option<string>)
    requires forall i :: 0 <= i < |cfg.paths| ==> cfg.paths[i].value == "" || !Contains(fullUrl, cfg.paths[i].key)
    requires forall j :: 0 <= j < |cfg.mimetypes| ==> cfg.mimetypes[j].value == "" || mime != Some(cfg.mimetypes[j].key)
    ensures ChosenCacheControl(cfg, fullUrl, mime) == if cfg.default != "" then Some(cfg.default) else None
  {
    FirstPathValueNone(cfg.paths, fullUrl);
    FirstMimeValueNone(cfg.mimetypes, mime);
  }

  lemma {:induction false} FirstPathValueNone(rules: seq<Rule>, fullUrl: string)
    requires forall i :: 0 <= i < |rules| ==> rules[i].value == "" || !Contains(fullUrl, rules[i].key)
    ensures FirstPathValue(rules, fullUrl).None?
    decreases |rules|
  {
    if |rules| > 0 {
      assert rules[0].value == "" || !Contains(fullUrl, rules[0].key);
      FirstPathValueNone(rules[1..], fullUrl);
    }
  }

  lemma {:induction false} FirstMimeValueNone(rules: seq<Rule>, mime: Option<string>)
    requires forall i :: 0 <= i < |rules| ==> rules[i].value == "" || mime != Some(rules[i].key)
    ensures FirstMimeValue(rules, mime).None?
    decreases |rules|
  {
    if |rules| > 0 {
      FirstMimeValueNone(rules[1..], mime);
    }
  }

  lemma {:induction false} FirstMimeValueIs(rules: seq<Rule>, mime: Option<string>, k: nat)
    requires k < |rules| && rules[k].value != "" && mime == Some(rules[k].key)
    requires forall j :: 0 <= j < k ==> rules[j].value == "" || mime != Some(rules[j].key)
    ensures FirstMimeValue(rules, mime) == Some(rules[k].value)
    decreases k
  {
    if k > 0 {
      FirstMimeValueIs(rules[1..], mime, k - 1);
    }
  }

  /** The full url the path rules are matched against ("" when it cannot be read). */
  function StorageUrl(h: HandlerView): string {
    if h.storage.Some? && h.storage.value.fullUrl.Success? then h.storage.value.fullUrl.value else ""
  }

  /** The mime type of the handler's file name (none when the name cannot be read). */
  function MimeOf(h: HandlerView, lib: Libraries): Option<string> {
    if h.filename.Success? then lib.mimeType(h.filename.value) else None
  }

  /** The path rules can be matched: the handler has a storage provider whose full url can be read. */
  predicate PathsReadable(h: HandlerView) {
    h.storage.Some? && h.storage.value.fullUrl.Success?
  }

  /** The error `addCacheControlHeader` throws, if any: reading the full url or the file name for a non-empty rule list. */
  function CacheControlError(h: HandlerView, cfg: CacheControlConfig): Option<Error> {
    if |cfg.paths| > 0 && h.storage.None? then Some(NullStorage)
    else if |cfg.paths| > 0 && h.storage.value.fullUrl.Failure? then Some(h.storage.value.fullUrl.error)
    else if |cfg.mimetypes| > 0 && h.filename.Failure? then Some(h.filename.error)
    else None
  }

  /** `setHeader(value)` of addCacheControlHeader. */
  method OfferCacheControl(res: Response, value: string)
    modifies res`headers
    ensures res.headers == Offered(old(res.headers), if value == "" then None else Some(value))
  {
    if value == "" {
      return;
    }
    if CacheControlHeader in res.headers && res.headers[CacheControlHeader] != "" {
      return;
    }
    res.SetHeader(CacheControlHeader, value);
  }

  /**
   * The `paths` loop of addCacheControlHeader: offers the value of every rule
   * whose key occurs in the storage provider's full url. Reading the full url
   * throws before anything is offered when there is no provider or it fails.
   */
  method OfferPathRules(res: Response, h: HandlerView, rules: seq<Rule>) returns (err: Option<Error>)
    modifies res`headers
    ensures err.Some? <==> |rules| > 0 && !PathsReadable(h)
    ensures err.Some? ==> err == CacheControlError(h, CacheControlConfig(rules, [], "")) && res.headers == old(res.headers)
    ensures err.None? ==> res.headers == Offered(old(res.headers), FirstPathValue(rules, StorageUrl(h)))
  {
    var i := 0;
    while i < |rules|
      invariant 0 <= i <= |rules|
      invariant i > 0 ==> PathsReadable(h)
      invariant res.headers == Offered(old(res.headers), FirstPathValue(rules[..i], StorageUrl(h)))
    {
      var rule := rules[i];
      if h.storage.None? {
        return Some(NullStorage);
      }
      var fullUrl := h.storage.value.fullUrl;
      if fullUrl.Failure? {
        return Some(fullUrl.error);
      }
      var before := FirstPathValue(rules[..i], StorageUrl(h));
      FirstPathValueAppend(rules[..i], rule, StorageUrl(h));
      assert rules[..i + 1] == rules[..i] + [rule];
      if IndexOf(fullUrl.value, rule.key) > -1 {
        OfferCacheControl(res, rule.value);
        OfferedTwice(old(res.headers), before, if rule.value == "" then None else Some(rule.value));
      }
      i := i + 1;
    }
    assert rules[..i] == rules;
    return None;
  }

  /**
   * The `mimetypes` loop of addCacheControlHeader: offers the value of every
   * rule naming the type of the handler's file. Reading the file name throws
   * before anything is offered when it fails.
   */
  method OfferMimeRules(res: Response, h: HandlerView, rules: seq<Rule>, lib: Libraries) returns (err: Option<Error>)
    modifies res`headers
    ensures err.Some? <==> |rules| > 0 && h.filename.Failure?
    ensures err.Some? ==> err == Some(h.filename.error) && res.headers == old(res.headers)
    ensures err.None? ==> res.headers == Offered(old(res.headers), FirstMimeValue(rules, MimeOf(h, lib)))
  {
    var j := 0;
    while j < |rules|
      invariant 0 <= j <= |rules|
      invariant j > 0 ==> h.filename.Success?
      invariant res.headers == Offered(old(res.headers), FirstMimeValue(rules[..j], MimeOf(h, lib)))
    {
      var rule := rules[j];
      if h.filename.Failure? {
        return Some(h.filename.error);
      }
      var before := FirstMimeValue(rules[..j], MimeOf(h, lib));
      FirstMimeValueAppend(rules[..j], rule, MimeOf(h, lib));
      assert rules[..j + 1] == rules[..j] + [rule];
      if lib.mimeType(h.filename.value) == Some(rule.key) {
        OfferCacheControl(res, rule.value);
        OfferedTwice(old(res.headers), before, if rule.value == "" then None else Some(rule.value));
      }
      j := j + 1;
    }
    assert rules[..j] == rules;
    return None;
  }

  /**
   * `addCacheControlHeader(res, handler, domain)`: offers the path rules, then
   * the mime-type rules, then the default; the first non-empty offer sticks, and
   * a header set before is kept. An error thrown by either loop ends the method
   * with the headers offered so far.
   */
  method AddCacheControlHeader(res: Response, h: HandlerView, cfg: CacheControlConfig, lib: Libraries)
    returns (err: Option<Error>)
    modifies res`headers
    ensures err == CacheControlError(h, cfg)
    ensures err.None? ==> res.headers == Offered(old(res.headers), ChosenCacheControl(cfg, StorageUrl(h), MimeOf(h, lib)))
    ensures err.Some? && |cfg.paths| > 0 && !PathsReadable(h) ==> res.headers == old(res.headers)
    ensures err.Some? && !(|cfg.paths| > 0 && !PathsReadable(h)) ==>
      res.headers == Offered(old(res.headers), FirstPathValue(cfg.paths, StorageUrl(h)))
  {
    err := OfferPathRules(res, h, cfg.paths);
    if err.Some? {
      return;
    }
    var byPath := FirstPathValue(cfg.paths, StorageUrl(h));
    var afterPaths := res.headers;
    err := OfferMimeRules(res, h, cfg.mimetypes, lib);
    if err.Some? {
      return;
    }
    var byMime := FirstMimeValue(cfg.mimetypes, MimeOf(h, lib));
    OfferedTwice(old(res.headers), byPath, byMime);
    var byRule := if byPath.Some? then byPath else byMime;
    OfferCacheControl(res, cfg.default);
    OfferedTwice(old(res.headers), byRule, if cfg.default == "" then None else Some(cfg.default));
  }

  // ---------------------------------------------------------------------------
  // The asset route

  /** `err.statusCode || 400`. */
  function ErrorStatus(e: Error): int {
    if e.status.Some? && e.status.value != 0 then e.status.value else 400
  }

  /** `config.get('notFound.statusCode') || 404`. */
  function NotFoundStatus(cfg: ServerConfig): int {
    if cfg.notFoundStatus.Some? && cfg.notFoundStatus.value != 0 then cfg.notFoundStatus.value else 404
  }

  function CacheLabel(isCached: bool): string {
    if isCached then "HIT" else "MISS"
  }

  /** The X-Cache value of a delivered asset: the handler's own, else HIT or MISS. */
  function XCacheValue(h: HandlerView): string {
    if h.xCache.Some? && h.xCache.value != "" then h.xCache.value else CacheLabel(h.isCached)
  }

  /** The storage provider fell back to the Missing asset. */
  predicate ServedMissing(h: HandlerView) {
    h.storage.Some? && h.storage.value.notFound
  }

  /** The request carries a Range header. */
  predicate Ranged(req: Request) {
    req.range.Some? && req.range.value != ""
  }

  /** The headers the asset route may set. */
  predicate Managed(name: HeaderName) {
    !name.OtherHeader?
  }

  /** The value of header `name`, if it is present. */
  function ValueOf(headers: map<HeaderName, string>, name: HeaderName): Option<string> {
    if name in headers then Some(headers[name]) else None
  }

  /** An If-None-Match equal to the ETag, on a type other than JSON: the route answers 304. */
  predicate NotModified(req: Request, h: HandlerView, tag: string) {
    req.ifNoneMatch == Some(tag) && h.contentType != JsonType
  }

  /** The route gets as far as ending the response with the handler's bytes (or their gzip). */
  predicate Delivered(req: Request, cfg: ServerConfig, lib: Libraries, h: HandlerView, got: Outcome<seq<byte>>) {
    got.Resolved? && CacheControlError(h, cfg.cacheControl).None? && Outgoing(req, cfg, lib, h, got.value).Success?
  }

  /** A failed handler: X-Cache from the handler, then the error as JSON with its status, or 400. */
  method SendHandlerError(res: Response, h: HandlerView, e: Error)
    modifies res
    ensures res.headers == old(res.headers)[XCacheHeader := CacheLabel(h.isCached)]
    ensures res.statusCode == ErrorStatus(e) && res.body == Json(ErrorPayload(e))
  {
    res.SetHeader(XCacheHeader, CacheLabel(h.isCached));
    res.SendJson(ErrorStatus(e), ErrorPayload(e));
  }

  /** Every header the route does not manage keeps its value, and only managed headers are added. */
  predicate KeepsOthers(before: map<HeaderName, string>, after: map<HeaderName, string>) {
    (forall k :: k in before && !Managed(k) ==> HeaderIs(after, k, before[k])) &&
    (forall k :: k in after ==> k in before || Managed(k))
  }

  lemma KeepsOthersTrans(a: map<HeaderName, string>, b: map<HeaderName, string>, c: map<HeaderName, string>)
    requires KeepsOthers(a, b) && KeepsOthers(b, c)
    ensures KeepsOthers(a, c)
  {
  }

  /**
   * The headers of an asset after the four header helpers, starting from
   * `before`: Vary, Content-Type when there is a type, Last-Modified when there
   * is a date, the chosen Cache-Control, and nothing else touched.
   */
  predicate AssetHeaders(before: map<HeaderName, string>, after: map<HeaderName, string>, h: HandlerView,
                         cfg: CacheControlConfig, lib: Libraries) {
    HeaderIs(after, VaryHeader, "Accept-Encoding") &&
    (h.contentType != "" ==> HeaderIs(after, ContentTypeHeader, h.contentType)) &&
    (h.lastModified.Some? ==> HeaderIs(after, LastModifiedHeader, lib.dateText(h.lastModified.value))) &&
    ValueOf(after, CacheControlHeader) ==
      ValueOf(Offered(before, ChosenCacheControl(cfg, StorageUrl(h), MimeOf(h, lib))), CacheControlHeader) &&
    KeepsOthers(before, after)
  }

  /** The headers after Content-Type, the first of the four helpers. */
  function Typed(before: map<HeaderName, string>, h: HandlerView): map<HeaderName, string> {
    if h.contentType != "" then before[ContentTypeHeader := h.contentType] else before
  }

  /** The headers the four helpers leave, one after the other, when Cache-Control throws nothing. */
  function AssetHeaderMap(before: map<HeaderName, string>, h: HandlerView, cfg: CacheControlConfig, lib: Libraries)
    : map<HeaderName, string>
  {
    var cached := Offered(Typed(before, h), ChosenCacheControl(cfg, StorageUrl(h), MimeOf(h, lib)));
    var dated := if h.lastModified.Some? then cached[LastModifiedHeader := lib.dateText(h.lastModified.value)] else cached;
    dated[VaryHeader := "Accept-Encoding"]
  }

  /**
   * The headers left when Cache-Control throws: Content-Type, and the path rules'
   * offer when it was the mime-type rules that failed.
   */
  function ThrownHeaders(before: map<HeaderName, string>, h: HandlerView, cfg: CacheControlConfig): map<HeaderName, string> {
    if |cfg.paths| > 0 && !PathsReadable(h) then Typed(before, h)
    else Offered(Typed(before, h), FirstPathValue(cfg.paths, StorageUrl(h)))
  }

  /** The four helpers set the asset headers and touch nothing else. */
  lemma AssetHeaderMapSetsAssetHeaders(before: map<HeaderName, string>, h: HandlerView, cfg: CacheControlConfig, lib: Libraries)
    ensures AssetHeaders(before, AssetHeaderMap(before, h, cfg, lib), h, cfg, lib)
  {
  }

  /** Changing only other managed headers keeps the asset headers. */
  lemma AssetHeadersKept(before: map<HeaderName, string>, a: map<HeaderName, string>, b: map<HeaderName, string>,
                         names: set<HeaderName>, h: HandlerView, cfg: CacheControlConfig, lib: Libraries)
    requires AssetHeaders(before, a, h, cfg, lib) && SameExcept(a, b, names)
    requires ContentTypeHeader !in names && CacheControlHeader !in names
    requires LastModifiedHeader !in names && VaryHeader !in names
    requires forall k :: k in names ==> Managed(k)
    ensures AssetHeaders(before, b, h, cfg, lib)
  {
  }

  /**
   * The four header helpers the route calls first: Content-Type, Cache-Control,
   * Last-Modified and Vary. Cache-Control may throw, which stops the rest.
   */
  method AddAssetHeaders(res: Response, h: HandlerView, cfg: CacheControlConfig, lib: Libraries) returns (thrown: Option<Error>)
    modifies res`headers
    ensures thrown == CacheControlError(h, cfg)
    ensures res.headers == if thrown.Some? then ThrownHeaders(old(res.headers), h, cfg) else AssetHeaderMap(old(res.headers), h, cfg, lib)
  {
    AddContentTypeHeader(res, h);
    thrown := AddCacheControlHeader(res, h, cfg, lib);
    if thrown.Some? {
      return;
    }
    AddLastModifiedHeader(res, h, lib);
    AddVaryHeader(res);
  }

  /**
   * The last step of the route: a Range request goes to the seekable sender; an
   * If-None-Match equal to the ETag gets 304 and no body, unless the type is
   * JSON; anything else gets X-Cache and the bytes.
   */
  method SendAsset(res: Response, req: Request, h: HandlerView, tag: string, payload: seq<byte>)
    modifies res
    ensures Ranged(req) ==>
      res.body == Seekable(payload) && res.statusCode == old(res.statusCode) && res.headers == old(res.headers)
    ensures !Ranged(req) && NotModified(req, h, tag) ==>
      res.body == NoBody && res.statusCode == 304 && res.headers == old(res.headers)
    ensures !Ranged(req) && !NotModified(req, h, tag) ==>
      res.body == Sent(payload) && res.statusCode == old(res.statusCode) &&
      res.headers == old(res.headers)[XCacheHeader := XCacheValue(h)]
    ensures SameExcept(old(res.headers), res.headers, {XCacheHeader})
  {
    if Ranged(req) {
      res.body := Seekable(payload);
    } else if NotModified(req, h, tag) {
      res.statusCode := 304;
      res.body := NoBody;
    } else {
      res.SetHeader(XCacheHeader, XCacheValue(h));
      res.body := Sent(payload);
    }
  }

  /** Two header maps agree on every name outside `names`. */
  predicate SameExcept(a: map<HeaderName, string>, b: map<HeaderName, string>, names: set<HeaderName>) {
    (forall k :: k in a && k !in names ==> k in b && b[k] == a[k]) &&
    (forall k :: k in b && k !in names ==> k in a)
  }

  /** The headers after the body headers: ETag, Content-Encoding when gzipped, Content-Length once there is a payload. */
  function WithBodyHeaders(headers: map<HeaderName, string>, etag: string, gzipped: bool, payload: Result<seq<byte>>)
    : map<HeaderName, string>
  {
    var tagged := headers[ETagHeader := etag];
    var encoded := if gzipped then tagged[ContentEncodingHeader := "gzip"] else tagged;
    if payload.Success? then encoded[ContentLengthHeader := IntToString(|payload.value|)] else encoded
  }

  /** The body headers keep the asset headers. */
  lemma BodyHeadersKeepAssetHeaders(before: map<HeaderName, string>, a: map<HeaderName, string>, etag: string, gzipped: bool,
                                    payload: Result<seq<byte>>, h: HandlerView, cfg: CacheControlConfig, lib: Libraries)
    requires AssetHeaders(before, a, h, cfg, lib)
    ensures AssetHeaders(before, WithBodyHeaders(a, etag, gzipped, payload), h, cfg, lib)
  {
    AssetHeadersKept(before, a, WithBodyHeaders(a, etag, gzipped, payload),
                     {ETagHeader, ContentEncodingHeader, ContentLengthHeader}, h, cfg, lib);
  }

  /**
   * ETag of the bytes as the handler produced them, then either Content-Encoding
   * gzip and the compressed length (once gzip succeeds), or the plain length.
   * `payload` is what the route goes on to send.
   */
  method AddBodyHeaders(res: Response, req: Request, cfg: ServerConfig, lib: Libraries, contentType: string, data: seq<byte>)
    returns (payload: Result<seq<byte>>)
    modifies res`headers
    ensures payload == if ShouldCompress(req, cfg, lib, contentType) then lib.gzip(data) else Success(data)
    ensures HeaderIs(res.headers, ETagHeader, lib.etag(data))
    ensures ShouldCompress(req, cfg, lib, contentType) ==> HeaderIs(res.headers, ContentEncodingHeader, "gzip")
    ensures payload.Success? ==> HeaderIs(res.headers, ContentLengthHeader, IntToString(|payload.value|))
    ensures res.headers == WithBodyHeaders(old(res.headers), lib.etag(data), ShouldCompress(req, cfg, lib, contentType), payload)
  {
    res.SetHeader(ETagHeader, lib.etag(data));
    if ShouldCompress(req, cfg, lib, contentType) {
      res.SetHeader(ContentEncodingHeader, "gzip");
      payload := lib.gzip(data);
      if payload.Success? {
        res.SetHeader(ContentLengthHeader, IntToString(|payload.value|));
      }
    } else {
      payload := Success(data);
      res.SetHeader(ContentLengthHeader, IntToString(|data|));
    }
  }

  /** What the route sends once the headers are set, and the status it sends it with. */
  function Outgoing(req: Request, cfg: ServerConfig, lib: Libraries, h: HandlerView, data: seq<byte>): Result<seq<byte>> {
    if ShouldCompress(req, cfg, lib, h.contentType) then lib.gzip(data) else Success(data)
  }

  /** The headers once the asset and body headers are set, when Cache-Control throws nothing. */
  function PreparedHeaders(before: map<HeaderName, string>, req: Request, cfg: ServerConfig, lib: Libraries,
                           h: HandlerView, data: seq<byte>): map<HeaderName, string>
  {
    WithBodyHeaders(AssetHeaderMap(before, h, cfg.cacheControl, lib), lib.etag(data),
                    ShouldCompress(req, cfg, lib, h.contentType), Outgoing(req, cfg, lib, h, data))
  }

  /**
   * The prepared headers: the asset headers, the ETag of the bytes as produced,
   * Content-Encoding gzip exactly when compressing (otherwise as it was), the
   * length of what is sent once there is something to send, and X-Cache as it was.
   */
  lemma PreparedHeadersFacts(before: map<HeaderName, string>, req: Request, cfg: ServerConfig, lib: Libraries,
                             h: HandlerView, data: seq<byte>)
    ensures var p := PreparedHeaders(before, req, cfg, lib, h, data);
      AssetHeaders(before, p, h, cfg.cacheControl, lib) &&
      HeaderIs(p, ETagHeader, lib.etag(data)) &&
      ValueOf(p, ContentEncodingHeader) ==
        (if ShouldCompress(req, cfg, lib, h.contentType) then Some("gzip") else ValueOf(before, ContentEncodingHeader)) &&
      (Outgoing(req, cfg, lib, h, data).Success? ==>
        HeaderIs(p, ContentLengthHeader, IntToString(|Outgoing(req, cfg, lib, h, data).value|))) &&
      ValueOf(p, XCacheHeader) == ValueOf(before, XCacheHeader)
  {
    var a := AssetHeaderMap(before, h, cfg.cacheControl, lib);
    var gzipped, payload := ShouldCompress(req, cfg, lib, h.contentType), Outgoing(req, cfg, lib, h, data);
    AssetHeaderMapSetsAssetHeaders(before, h, cfg.cacheControl, lib);
    BodyHeadersKeepAssetHeaders(before, a, lib.etag(data), gzipped, payload, h, cfg.cacheControl, lib);
    BodyHeaderValues(a, lib.etag(data), gzipped, payload);
    AssetHeaderMapKeeps(before, h, cfg.cacheControl, lib, ContentEncodingHeader);
    AssetHeaderMapKeeps(before, h, cfg.cacheControl, lib, XCacheHeader);
  }

  /** The body headers set the ETag, Content-Encoding only when gzipped, the length of a payload, and leave X-Cache. */
  lemma BodyHeaderValues(a: map<HeaderName, string>, etag: string, gzipped: bool, payload: Result<seq<byte>>)
    ensures var p := WithBodyHeaders(a, etag, gzipped, payload);
      HeaderIs(p, ETagHeader, etag) &&
      ValueOf(p, ContentEncodingHeader) == (if gzipped then Some("gzip") else ValueOf(a, ContentEncodingHeader)) &&
      (payload.Success? ==> HeaderIs(p, ContentLengthHeader, IntToString(|payload.value|))) &&
      ValueOf(p, XCacheHeader) == ValueOf(a, XCacheHeader)
  {
  }

  /** The four helpers leave every header but their own as it was. */
  lemma AssetHeaderMapKeeps(before: map<HeaderName, string>, h: HandlerView, cfg: CacheControlConfig, lib: Libraries,
                            name: HeaderName)
    requires name !in {ContentTypeHeader, CacheControlHeader, LastModifiedHeader, VaryHeader}
    ensures ValueOf(AssetHeaderMap(before, h, cfg, lib), name) == ValueOf(before, name)
  {
  }

  /**
   * Everything the route does with resolved bytes before ending the response:
   * the asset headers, the status of the Missing fallback when the provider
   * served it, and the body headers. `r` fails with what was thrown.
   */
  method PrepareAsset(res: Response, req: Request, cfg: ServerConfig, lib: Libraries, h: HandlerView, data: seq<byte>)
    returns (r: Result<seq<byte>>)
    modifies res`headers, res`statusCode
    ensures CacheControlError(h, cfg.cacheControl).Some? ==> r == Failure(CacheControlError(h, cfg.cacheControl).value)
    ensures CacheControlError(h, cfg.cacheControl).None? ==>
      r == Outgoing(req, cfg, lib, h, data) &&
      res.statusCode == (if ServedMissing(h) then NotFoundStatus(cfg) else old(res.statusCode)) &&
      HeaderIs(res.headers, ETagHeader, lib.etag(data)) &&
      (ShouldCompress(req, cfg, lib, h.contentType) ==> HeaderIs(res.headers, ContentEncodingHeader, "gzip"))
    ensures CacheControlError(h, cfg.cacheControl).None? ==> AssetHeaders(old(res.headers), res.headers, h, cfg.cacheControl, lib)
    ensures r.Success? ==> HeaderIs(res.headers, ContentLengthHeader, IntToString(|r.value|))
    ensures CacheControlError(h, cfg.cacheControl).Some? ==>
      res.headers == ThrownHeaders(old(res.headers), h, cfg.cacheControl) && res.statusCode == old(res.statusCode)
    ensures CacheControlError(h, cfg.cacheControl).None? ==> res.headers == PreparedHeaders(old(res.headers), req, cfg, lib, h, data)
  {
    var thrown := AddAssetHeaders(res, h, cfg.cacheControl, lib);
    if thrown.Some? {
      return Failure(thrown.value);
    }
    if ServedMissing(h) {
      res.statusCode := NotFoundStatus(cfg);
    }
    r := AddBodyHeaders(res, req, cfg, lib, h.contentType, data);
    PreparedHeadersFacts(old(res.headers), req, cfg, lib, h, data);
  }

  /**
   * The response the route leaves once the handler resolved with `data`, from
   * headers `before` and status `status0`: a thrown Cache-Control error or a
   * gzip failure is answered with JSON and its status, without X-Cache; a Range
   * request goes to the seekable sender and a matching If-None-Match gets 304,
   * both with the prepared headers; anything else also gets X-Cache and the bytes.
   */
  predicate Delivery(req: Request, cfg: ServerConfig, lib: Libraries, h: HandlerView, data: seq<byte>,
                     before: map<HeaderName, string>, status0: int,
                     headers: map<HeaderName, string>, status: int, body: Body)
  {
    var thrown := CacheControlError(h, cfg.cacheControl);
    var payload := Outgoing(req, cfg, lib, h, data);
    var prepared := PreparedHeaders(before, req, cfg, lib, h, data);
    var sentStatus := if ServedMissing(h) then NotFoundStatus(cfg) else status0;
    if thrown.Some? then
      headers == ThrownHeaders(before, h, cfg.cacheControl) &&
      status == ErrorStatus(thrown.value) && body == Json(ErrorPayload(thrown.value))
    else if payload.Failure? then
      headers == prepared && status == ErrorStatus(payload.error) && body == Json(ErrorPayload(payload.error))
    else if Ranged(req) then
      headers == prepared && status == sentStatus && body == Seekable(payload.value)
    else if NotModified(req, h, lib.etag(data)) then
      headers == prepared && status == 304 && body == NoBody
    else
      headers == prepared[XCacheHeader := XCacheValue(h)] && status == sentStatus && body == Sent(payload.value)
  }

  /** The bytes are sent as they are, with X-Cache: not a Range request and no 304. */
  predicate SendsBytes(req: Request, cfg: ServerConfig, lib: Libraries, h: HandlerView, data: seq<byte>) {
    Delivered(req, cfg, lib, h, Resolved(data)) && !Ranged(req) && !NotModified(req, h, lib.etag(data))
  }

  /**
   * The headers of a delivered or gzip-failed asset: the asset headers, the
   * ETag, Content-Encoding gzip exactly when compressing (otherwise as it was),
   * the length of what is sent, and X-Cache set only when the bytes are sent.
   */
  lemma DeliveryHeaders(req: Request, cfg: ServerConfig, lib: Libraries, h: HandlerView, data: seq<byte>,
                        before: map<HeaderName, string>, status0: int,
                        headers: map<HeaderName, string>, status: int, body: Body)
    requires Delivery(req, cfg, lib, h, data, before, status0, headers, status, body)
    requires CacheControlError(h, cfg.cacheControl).None?
    ensures AssetHeaders(before, headers, h, cfg.cacheControl, lib)
    ensures HeaderIs(headers, ETagHeader, lib.etag(data))
    ensures ValueOf(headers, ContentEncodingHeader) ==
      if ShouldCompress(req, cfg, lib, h.contentType) then Some("gzip") else ValueOf(before, ContentEncodingHeader)
    ensures Outgoing(req, cfg, lib, h, data).Success? ==>
      HeaderIs(headers, ContentLengthHeader, IntToString(|Outgoing(req, cfg, lib, h, data).value|))
    ensures ValueOf(headers, XCacheHeader) ==
      if SendsBytes(req, cfg, lib, h, data) then Some(XCacheValue(h)) else ValueOf(before, XCacheHeader)
  {
    var prepared := PreparedHeaders(before, req, cfg, lib, h, data);
    PreparedHeadersFacts(before, req, cfg, lib, h, data);
    if SendsBytes(req, cfg, lib, h, data) {
      AssetHeadersKept(before, prepared, headers, {XCacheHeader}, h, cfg.cacheControl, lib);
    }
  }

  /**
   * The route once the handler resolved with `data`. An error thrown on the way
   * (reading a missing storage provider, a gzip failure) is answered with JSON
   * and its status, or 400, without X-Cache; otherwise the asset is sent.
   */
  method Deliver(res: Response, req: Request, cfg: ServerConfig, lib: Libraries, h: HandlerView, data: seq<byte>)
    modifies res
    ensures CacheControlError(h, cfg.cacheControl).Some? ==>
      var e := CacheControlError(h, cfg.cacheControl).value;
      res.statusCode == ErrorStatus(e) && res.body == Json(ErrorPayload(e))
    ensures CacheControlError(h, cfg.cacheControl).None? && Outgoing(req, cfg, lib, h, data).Failure? ==>
      var e := Outgoing(req, cfg, lib, h, data).error;
      res.statusCode == ErrorStatus(e) && res.body == Json(ErrorPayload(e)) &&
      HeaderIs(res.headers, ContentEncodingHeader, "gzip") && HeaderIs(res.headers, ETagHeader, lib.etag(data))
    ensures Delivered(req, cfg, lib, h, Resolved(data)) ==>
      var tag := lib.etag(data);
      var payload := Outgoing(req, cfg, lib, h, data).value;
      var status := if ServedMissing(h) then NotFoundStatus(cfg) else old(res.statusCode);
      HeaderIs(res.headers, ETagHeader, tag) &&
      HeaderIs(res.headers, ContentLengthHeader, IntToString(|payload|)) &&
      AssetHeaders(old(res.headers), res.headers, h, cfg.cacheControl, lib) &&
      (Ranged(req) ==> res.body == Seekable(payload) && res.statusCode == status) &&
      (!Ranged(req) && NotModified(req, h, tag) ==> res.body == NoBody && res.statusCode == 304) &&
      (!Ranged(req) && !NotModified(req, h, tag) ==>
        res.body == Sent(payload) && res.statusCode == status && HeaderIs(res.headers, XCacheHeader, XCacheValue(h)))
    ensures CacheControlError(h, cfg.cacheControl).None? ==>
      ValueOf(res.headers, ContentEncodingHeader) ==
        (if ShouldCompress(req, cfg, lib, h.contentType) then Some("gzip") else ValueOf(old(res.headers), ContentEncodingHeader)) &&
      ValueOf(res.headers, XCacheHeader) ==
        (if SendsBytes(req, cfg, lib, h, data) then Some(XCacheValue(h)) else ValueOf(old(res.headers), XCacheHeader))
    ensures Delivery(req, cfg, lib, h, data, old(res.headers), old(res.statusCode), res.headers, res.statusCode, res.body)
  {
    var payload := PrepareAsset(res, req, cfg, lib, h, data);
    if payload.Failure? {
      res.SendJson(ErrorStatus(payload.error), ErrorPayload(payload.error));
    } else {
      SendAsset(res, req, h, lib.etag(data), payload.value);
    }
    if CacheControlError(h, cfg.cacheControl).None? {
      DeliveryHeaders(req, cfg, lib, h, data, old(res.headers), old(res.statusCode), res.headers, res.statusCode, res.body);
    }
  }

  /**
   * The end of the asset route once the handler's `get` has settled to `got`:
   * a rejection is answered with JSON carrying the error's status (400 without
   * one) and X-Cache from the handler; bytes are delivered; a promise that never
   * settles leaves the response untouched.
   */
  method Respond(res: Response, req: Request, cfg: ServerConfig, lib: Libraries, h: HandlerView, got: Outcome<seq<byte>>)
    modifies res
    ensures got.Pending? ==> unchanged(res)
    ensures got.Rejected? ==>
      res.statusCode == ErrorStatus(got.error) && res.body == Json(ErrorPayload(got.error)) &&
      res.headers == old(res.headers)[XCacheHeader := CacheLabel(h.isCached)]
    ensures Delivered(req, cfg, lib, h, got) ==> res.body.Sent? || res.body.Seekable? || res.body == NoBody
    ensures got.Resolved? && !Delivered(req, cfg, lib, h, got) ==> res.body.Json? && !res.body.payload.FlushPayload?
    ensures got.Resolved? ==>
      Delivery(req, cfg, lib, h, got.value, old(res.headers), old(res.statusCode), res.headers, res.statusCode, res.body)
  {
    match got {
      case Pending =>
        return;
      case Rejected(e) =>
        SendHandlerError(res, h, e);
      case Resolved(data) =>
        Deliver(res, req, cfg, lib, h, data);
    }
  }

  // ---------------------------------------------------------------------------
  // The CSS handler as the route sees it

  /** The CSS handler as the controller reads it; it has no `getHeader`, so X-Cache is HIT or MISS. */
  function CssView(h: Css.CssHandler): (v: HandlerView)
    reads h
    ensures v.contentType == Css.ContentType && v.xCache.None?
    ensures v.storage == h.storageHandler && v.lastModified == h.GetLastModified() && v.isCached == h.isCached
  {
    HandlerView(h.GetContentType(), h.GetFilename(), h.GetLastModified(), h.storageHandler, h.isCached, None)
  }

  /**
   * A CSS cache hit creates no storage provider, so with any path rule configured
   * the route throws while adding Cache-Control and answers 400 instead of the
   * cached bytes.
   */
  lemma CssHitWithPathRules(h: Css.CssHandler, cfg: ServerConfig)
    requires h.storageHandler.None? && |cfg.cacheControl.paths| > 0
    ensures CacheControlError(CssView(h), cfg.cacheControl) == Some(NullStorage)
    ensures ErrorStatus(NullStorage) == 400
  {
  }

  // ---------------------------------------------------------------------------
  // Cache invalidation

  const PatternRequired: string := "A 'pattern' must be specified"

  function FlushedMessage(pattern: string): string {
    "Cache flushed for pattern \"" + pattern + "\""
  }

  /**
   * The cache key a flush pattern stands for: the domain alone for `*`; for any
   * other pattern the domain, the pattern's pathname and its query without the
   * `?` (null when missing).
   */
  function FlushKey(domain: Option<string>, pattern: string): (k: CacheKey)
    ensures k.List? && |k.parts| >= 1 && k.parts[0] == Css.DomainPart(domain)
    ensures |k.parts| == 1 <==> pattern == "*"
  {
    if pattern == "*" then List([Css.DomainPart(domain)])
    else
      var u := Urls.ParseUrl(pattern);
      List([Css.DomainPart(domain),
            if u.pathname.Some? then Str(u.pathname.value) else Null,
            if u.search.Some? && u.search.value != "" then Str(u.search.value[1..]) else Null])
  }

  /**
   * `POST /api/flush`. Without a pattern it answers 400. Otherwise it evicts every
   * cache entry whose key starts with the normalised key of the pattern (unless
   * the cache reports an error) and answers 200 either way.
   */
  method Flush(res: Response, store: CacheStore, domain: Option<string>, pattern: Option<string>, flushError: Option<Error>)
    modifies res`statusCode, res`body, store`entries
    ensures pattern.None? || pattern.value == "" ==>
      res.statusCode == 400 && res.body == Json(FlushPayload(false, PatternRequired)) &&
      store.entries == old(store.entries)
    ensures pattern.Some? && pattern.value != "" ==>
      res.statusCode == 200 && res.body == Json(FlushPayload(true, FlushedMessage(pattern.value))) &&
      store.entries ==
        if flushError.None? then
          map k | k in old(store.entries) && !StartsWith(k, store.Key(FlushKey(domain, pattern.value))) :: old(store.entries)[k]
        else old(store.entries)
  {
    if pattern.None? || pattern.value == "" {
      res.SendJson(400, FlushPayload(false, PatternRequired));
      return;
    }
    var key := FlushKey(domain, pattern.value);
    var callbackError := store.Delete(key, flushError);
    res.SendJson(200, FlushPayload(true, FlushedMessage(pattern.value)));
  }

  /** Flushing `*` reaches every CSS entry of the domain. */
  lemma FlushAllReachesCss(hash: string -> string, domain: Option<string>, href: string, compressed: bool)
    ensures StartsWith(NormalisedKey(hash, Css.CacheKeyFor(domain, href, compressed)), NormalisedKey(hash, FlushKey(domain, "*")))
  {
    Css.DomainPatternPrefixesCssKeys(hash, domain, href, compressed);
  }

  /** A pattern and its cleaned form (` /a.css` and `/a.css`, `/css\\a.css` and `/css/a.css`) flush the same key. */
  lemma FlushKeyOfCleaned(domain: Option<string>, pattern: string)
    requires pattern != "*" && Urls.Clean(pattern) != "*"
    ensures FlushKey(domain, Urls.Clean(pattern)) == FlushKey(domain, pattern)
  {
    Urls.ParseHref(pattern);
  }

  /**
   * Flushing a path reaches the CSS entries cached for a request with that
   * path, compressed or not: both read the path as `url.parse` cleans it.
   */
  lemma FlushPathReachesCss(hash: string -> string, domain: Option<string>, path: string, compressed: bool)
    requires path != "*" && '?' !in path && '#' !in path && Urls.Clean(path) != ""
    ensures StartsWith(NormalisedKey(hash, Css.CacheKeyFor(domain, Urls.Clean(path), compressed)),
                       NormalisedKey(hash, FlushKey(domain, path)))
  {
    Urls.CleanKeepsMarks(path);
    Urls.ParsePlainPath(path);
    var c := Urls.Clean(path);
    var head := [Css.DomainPart(domain), Str(c)];
    assert FlushKey(domain, path) == List(head + [Null]);
    ListKeyAppend(hash, head, [Null]);
    EmptyKeys(hash, [Null]);
    assert Css.CacheKeyFor(domain, c, compressed).parts == head + [Str(Css.CompressJson(compressed))];
    ListKeyPrefix(hash, head, [Str(Css.CompressJson(compressed))]);
  }

  /**
   * Flushing a url with a query misses the CSS entry cached for that very url:
   * the flush key hashes the pathname and the query apart, the CSS key hashes the
   * whole cleaned url. It holds for any hash of fixed length that tells the
   * pathname from the url.
   */
  lemma FlushWithQueryMissesCss(hash: string -> string, domain: Option<string>, u: string, compressed: bool)
    requires Urls.ParseUrl(u).pathname.Some? && Urls.ParseUrl(u).search.Some? && |Urls.ParseUrl(u).search.value| > 1
    requires |hash(Urls.ParseUrl(u).pathname.value)| == |hash(Urls.Clean(u))|
    requires hash(Urls.ParseUrl(u).pathname.value) != hash(Urls.Clean(u))
    ensures !StartsWith(NormalisedKey(hash, Css.CacheKeyFor(domain, Urls.Clean(u), compressed)),
                        NormalisedKey(hash, FlushKey(domain, u)))
  {
    var r := Urls.ParseUrl(u);
    var path, query := r.pathname.value, r.search.value[1..];
    var domainKey := NormalisedKey(hash, List([Css.DomainPart(domain)]));
    FlushKeyOfQuery(hash, domain, u);
    assert |Urls.Clean(u)| >= |path|;
    DomainThenTwo(hash, domain, Urls.Clean(u), Css.CompressJson(compressed));
    DifferentSegment(domainKey, hash(path), hash(query), hash(Urls.Clean(u)), hash(Css.CompressJson(compressed)));
  }

  /** The flush key of a url with a query is the domain's key, then the hashes of the pathname and of the query. */
  lemma FlushKeyOfQuery(hash: string -> string, domain: Option<string>, u: string)
    requires Urls.ParseUrl(u).pathname.Some? && Urls.ParseUrl(u).search.Some? && |Urls.ParseUrl(u).search.value| > 1
    ensures NormalisedKey(hash, FlushKey(domain, u)) ==
      NormalisedKey(hash, List([Css.DomainPart(domain)])) +
        (hash(Urls.ParseUrl(u).pathname.value) + hash(Urls.ParseUrl(u).search.value[1..]))
  {
    var r := Urls.ParseUrl(u);
    FlushKeyParts(domain, u);
    DomainThenTwo(hash, domain, r.pathname.value, r.search.value[1..]);
  }

  /** A key of the domain and two non-empty strings is the domain's key, then the two hashes. */
  lemma DomainThenTwo(hash: string -> string, domain: Option<string>, a: string, b: string)
    requires a != "" && b != ""
    ensures NormalisedKey(hash, List([Css.DomainPart(domain), Str(a), Str(b)])) ==
      NormalisedKey(hash, List([Css.DomainPart(domain)])) + (hash(a) + hash(b))
  {
    assert [Css.DomainPart(domain), Str(a), Str(b)] == [Css.DomainPart(domain)] + [Str(a), Str(b)];
    ListKeyAppend(hash, [Css.DomainPart(domain)], [Str(a), Str(b)]);
    TwoKeptHashes(hash, a, b);
  }

  /** The flush key of a url with a query lists the domain, the pathname and the query without its `?`. */
  lemma FlushKeyParts(domain: Option<string>, u: string)
    requires Urls.ParseUrl(u).pathname.Some? && Urls.ParseUrl(u).search.Some?
    ensures FlushKey(domain, u) ==
      List([Css.DomainPart(domain), Str(Urls.ParseUrl(u).pathname.value), Str(Urls.ParseUrl(u).search.value[1..])])
  {
    var r := Urls.ParseUrl(u);
    var c := Urls.Clean(u);
    assert c == r.pathname.value + r.search.value + Urls.Text(r.hash);
    assert c[|r.pathname.value|] == '?';
    Urls.CleanKeepsMarks(u);
    assert u != "*";
  }

  /** After a common start, strings whose next blocks differ at equal length are not prefixes of each other. */
  lemma DifferentSegment(p: string, a: string, b: string, c: string, d: string)
    requires |a| == |c| && a != c
    ensures !StartsWith(p + (c + d), p + (a + b))
  {
    var n := |p|;
    var long, short := p + (c + d), p + (a + b);
    assert long[n..n + |a|] == c;
    assert short[n..n + |a|] == a;
    if |short| <= |long| {
      assert long[..|short|][n..n + |a|] == c;
      assert long[..|short|] != short;
    }
  }

  /** A list of two non-empty strings normalises to their hashes, one after the other. */
  lemma TwoKeptHashes(hash: string -> string, a: string, b: string)
    requires a != "" && b != ""
    ensures NormalisedKey(hash, List([Str(a), Str(b)])) == hash(a) + hash(b)
  {
    ListKeyAppend(hash, [Str(a)], [Str(b)]);
    assert [Str(a)] + [Str(b)] == [Str(a), Str(b)];
    SingleListKey(hash, a);
    SingleListKey(hash, b);
  }

  lemma SingleListKey(hash: string -> string, a: string)
    requires a != ""
    ensures NormalisedKey(hash, List([Str(a)])) == hash(a)
  {
    ListKeyAppend(hash, [], [Str(a)]);
    assert [] + [Str(a)] == [Str(a)];
    assert FoldKey(hash, [Str(a)]) == Step(hash, FoldKey(hash, []), Str(a));
  }
}
