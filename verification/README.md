# DADI CDN asset path, modelled in Dafny

This project models the part of the DADI CDN asset server that turns a request
for a CSS asset into a response:

- the cache gate (`dadi/lib/cache/index.js`): how keys are normalised, and the
  read, write, write-through and flush operations on an external backend;
- the two storage providers: Amazon S3 (`dadi/lib/storage/s3.js`), which reads
  a bucket and a key out of the request path, and the local disk
  (`dadi/lib/storage/disk.js`), which maps the path under the asset directory
  and answers directories with a default file;
- the CSS handler (`dadi/lib/handlers/css.js`): its cache key, its refusal of
  remote URLs, and its pipeline of cache, storage, minifier and write-back;
- the controller (`dadi/lib/controller/index.js`): content negotiation for gzip;
  the Content-Type, Cache-Control, Last-Modified and Vary headers; the asset
  route's ETag, 304, Range, X-Cache and error replies; and the cache-flush
  route.

Pure code is written as functions and lemmas. Objects whose fields the source
updates become classes:

- `Cache.CacheStore` holds the backend's entries.
- `S3.S3Storage` and `Disk.DiskStorage` hold `lastModified`, `notFound` and the
  disk url.
- `Css.CssHandler` holds its url, `isCached` and its storage provider.
- `Controller.Response` holds the status, the headers and the body.

A promise is modelled as an `Outcome`:

- `Resolved(value)`
- `Rejected(error)`
- `Pending`, for a promise that never settles.

The following are parameters of the operations, not part of the model:

- Node's and npm's libraries: `sha1`, `etag`, `zlib.gzip`, `compressible`,
  `mime.getType`, the date's string form, and the minifier.
- The Missing fallback asset.
- The answers of the S3 client and of the file system.

Supporting modules model the JavaScript and Node built-ins the core relies on:

- `Strings`: `indexOf`, `split`/`join`, `filter(Boolean)`, `replace` of the
  first occurrence, and decimal numbers.
- `Percent`: `decodeURIComponent` for ASCII escapes.
- `Paths`: POSIX `path.join`/`normalize`/`basename`/`extname`.
- `Urls`: the legacy `url.parse` for path references (whitespace trimmed,
  backslashes before the query made slashes), and its query.
- `Json`: how `JSON.stringify` quotes a string, and how that text reads back.

## Model

| member | source | states |
|---|---|---|
| Cache.ListKeyIsConcatOfKeptHashes | dadi/lib/cache/index.js:73-87 | a list key normalises to the hashes of its kept elements (truthy ones and the number 0), concatenated in order |
| Cache.ListKeyAppend | dadi/lib/cache/index.js:76-84 | the key of a list followed by more elements is the key of the list followed by the key of the rest |
| Cache.ListKeyPrefix | dadi/lib/cache/index.js:76-84 | the key of a list is a prefix of the key of every list extending it, so a shorter flush pattern reaches longer keys |
| Cache.EmptyKeys | dadi/lib/cache/index.js:74-83 | the empty string is its own key, and a list with no kept element normalises to "" |
| Cache.SingleKey | dadi/lib/cache/index.js:86 | any other single value normalises to the hash of its string form |
| Cache.ZeroIsHashedNullIsSkipped | dadi/lib/cache/index.js:78-80 | in `[a, null, 0, b]`, null adds nothing and 0 adds the hash of "0" |
| Cache.CacheStore.GetStream | dadi/lib/cache/index.js:99-108 | nothing when caching is disabled; otherwise the stored bytes exactly when the entry exists and the read does not fail; a read failure is a miss, never a rejection |
| Cache.CacheStore.Set | dadi/lib/cache/index.js:143-149 | a no-op resolving when disabled; otherwise the entry under the normalised key is written, or the write error is passed on with the entries untouched |
| Cache.CacheStore.CacheFile | dadi/lib/cache/index.js:24-41 | the same bytes come back; when enabled they are also stored under the normalised key; a failed write is seen only by a caller that waits |
| Cache.CacheStore.Delete | dadi/lib/cache/index.js:49-62 | the callback always gets null; unless the flush fails, exactly the entries whose key starts with the normalised pattern are removed |
| Cache.CacheStore.GetMetadata | dadi/lib/cache/index.js:119-123 | the backend's answer for the normalised key, with no enabled gate |
| S3.UrlParts | dadi/lib/storage/s3.js:197-209 | every part is non-empty and free of `/` |
| S3.S3PathNamesBucketAndKey | dadi/lib/storage/s3.js:169-191 | `/s3/<bucket>/<segments>` names that bucket and the decoded segments as the key, whatever bucket is configured |
| S3.PlainPathUsesConfiguredBucket | dadi/lib/storage/s3.js:169-191 | a path not starting with `/s3` uses the configured bucket, and its decoded segments are the key |
| S3.S3PrefixWithoutSlash | dadi/lib/storage/s3.js:169-177 | a first segment that only begins with `s3` (`/s3assets/x`) is taken for the bucket |
| S3.NoBucketMeansNoKey | dadi/lib/storage/s3.js:169-191 | when the path names no bucket it names no key, so the request is not addressable |
| S3.S3Storage.View | dadi/lib/storage/s3.js:179-195 | the full url is the request url, and last-modified and not-found are the provider's fields |
| S3.S3Storage.Get | dadi/lib/storage/s3.js:40-102 | a key that fails to decode rejects with that error; an empty bucket or key gives 400 with the request JSON, each field quoted and escaped as `JSON.stringify` does and an absent bucket omitted; a found object gives its body and sets last-modified when present; a 404 gives the fallback asset (isDirectory when there is no extension), not-found and last-modified now; other errors reject |
| S3.S3Storage.Put | dadi/lib/storage/s3.js:107-167 | always rejects: 400 with status text `Bad Request` and the escaped request JSON for an empty bucket or upload key, otherwise the error of the undefined length stream |
| S3.RequestJsonEscapesKey | dadi/lib/storage/s3.js:53-58 | with an empty bucket and the key `a"b`, the 400 message carries `{"Bucket":"","Key":"a\"b"}` |
| Json.UnescapeEscape | dadi/lib/storage/s3.js:117-120 | reading back the escaped text of a string gives the string: the quoting of the request JSON loses and confuses nothing |
| Json.EscapePlain | dadi/lib/storage/s3.js:117-120 | a string without quotes, backslashes or control characters is written as it is |
| Json.QuoteEscapesQuote | dadi/lib/storage/s3.js:53-58 | a quote inside a string is written as `\"` |
| S3.PutKeyOfBareName | dadi/lib/storage/s3.js:109 | an upload key without directories goes to `join(folderPath, key)` |
| Disk.DiskStorage.constructor | dadi/lib/storage/disk.js:9-20 | the empty url stands for `/`, and any other url keeps only its pathname |
| Disk.DiskStorage.View | dadi/lib/storage/disk.js:22-28 | the full url is the url joined onto the asset directory and percent-decoded |
| Disk.FullUrlUnderRoot | dadi/lib/storage/disk.js:22-24 | plain segments without escapes land at those segments under the asset directory, with or without a leading `/` |
| Disk.MatchingFiles | dadi/lib/storage/disk.js:47-49 | every listed file whose basename is a default file, and nothing else |
| Disk.MatchingFilesSingle | dadi/lib/storage/disk.js:47-49 | a single file is kept exactly when its basename is a default file |
| Disk.MatchingFilesConcat | dadi/lib/storage/disk.js:47-49 | filtering a concatenated listing is concatenating the filtered parts, so the filter keeps listing order and repeats |
| Disk.FirstMatchIsFirstListed | dadi/lib/storage/disk.js:47-51 | the chosen default is the first listed file whose basename is a default file |
| Disk.DefaultFileIn | dadi/lib/storage/disk.js:34-56 | never rejects; it never settles exactly when the path exists and is not a directory; it resolves with nothing exactly when lstat or readdir fails; otherwise it gives the first listed file whose basename is a default file, or `no-default-configured` when none matches (or that file's name is empty) |
| Disk.DiskStorage.GetDefaultFile | dadi/lib/storage/disk.js:34-56 | rejects with the full url's error; otherwise looks in the directory the full url names |
| Disk.DiskStorage.Get | dadi/lib/storage/disk.js:58-121 | an extensionless path is looked up for a default file and rewritten to `/<file>`; an openable file resolves with its content after recording its mtime, and an empty one rejects with 404; otherwise the fallback sets not-found and last-modified now, or the request rejects with 404 naming the file |
| Disk.DefaultFileOpensUnderRoot | dadi/lib/storage/disk.js:70-77 | after the rewrite, a default file is opened directly under the asset directory, whichever directory was listed |
| Css.ExternalIffScheme | dadi/lib/handlers/css.js:21-23 | a rooted pathname names a remote URL exactly when it contains `http://` or `https://` |
| Css.CssHandler.constructor | dadi/lib/handlers/css.js:17-42 | the url is parsed, and the remote-URL flag, the compression flag (option, or `compress=1` given once) and the key `[domain, href, {"compress":…}]` are fixed, where href is the request url trimmed and with its backslashes before the query made slashes |
| Css.LastSegment | dadi/lib/handlers/css.js:112-114 | the file name has no `/` |
| Css.LastSegmentIsBasename | dadi/lib/handlers/css.js:112-114 | for a pathname not ending in `/`, the file name equals its basename |
| Css.CssHandler.GetLastModified | dadi/lib/handlers/css.js:121-125 | null before a storage provider exists, otherwise the provider's date |
| Css.CssHandler.SetBaseUrl | dadi/lib/handlers/css.js:130-132 | the url is replaced by the parse of the base url, whose href is the cleaned base url, and nothing else changes |
| Css.CssHandler.Transform | dadi/lib/handlers/css.js:140-143 | identity unless compression is on, then the minifier's result |
| Css.CssHandler.Get | dadi/lib/handlers/css.js:49-96 | a cache hit gives the cached bytes, marks the handler cached and creates no provider; a refused remote URL gives 403; otherwise the provider's outcome is transformed and handed to the cache without waiting, and failures pass through |
| Css.DomainPatternPrefixesCssKeys | dadi/lib/handlers/css.js:29-36 | the normalised `[domain]` key prefixes every CSS key of that domain |
| Controller.GzipEntry | dadi/lib/controller/index.js:260-271 | with gzip configured and a compressible non-JSON type, compression happens exactly when one comma-separated Accept-Encoding entry is `gzip` |
| Controller.SpacedGzipIsIgnored | dadi/lib/controller/index.js:268 | `deflate, gzip` does not enable compression, because its entry is ` gzip` |
| Controller.NoCompression | dadi/lib/controller/index.js:261-268 | JSON, a missing Accept-Encoding, or gzip switched off means no compression |
| Controller.AddContentTypeHeader | dadi/lib/controller/index.js:273-277 | Content-Type is set to the handler's type when it is non-empty, and nothing else changes |
| Controller.AddLastModifiedHeader | dadi/lib/controller/index.js:279-287 | Last-Modified is set to the date's text when there is one |
| Controller.AddVaryHeader | dadi/lib/controller/index.js:289-293 | Vary is `Accept-Encoding` |
| Controller.FirstPathValue | dadi/lib/controller/index.js:299-306 | an empty rule value is never chosen |
| Controller.FirstPathValueMatches | dadi/lib/controller/index.js:299-306 | the value comes from a path rule whose key occurs in the full url; with no value, no rule both matches and has one |
| Controller.FirstMimeValue | dadi/lib/controller/index.js:309-316 | an empty rule value is never chosen |
| Controller.FirstMimeValueMatches | dadi/lib/controller/index.js:309-316 | the value comes from a mime-type rule naming the file's type; with no value, no rule both names it and has one |
| Controller.FirstPathValueAppend | dadi/lib/controller/index.js:299-306 | one more rule changes the first match only when there was none |
| Controller.PathRuleWins | dadi/lib/controller/index.js:295-330 | the first matching path rule with a value decides, whatever the mime rules and the default |
| Controller.MimeRuleWins | dadi/lib/controller/index.js:295-330 | with no path rule that matches and has a value, the first matching mime-type rule with a value decides, whatever the default |
| Controller.DefaultWins | dadi/lib/controller/index.js:295-330 | with no rule that matches and has a value, the default decides, and an empty default sets nothing |
| Controller.OfferCacheControl | dadi/lib/controller/index.js:321-329 | an empty value, or a header already set, leaves the headers unchanged |
| Controller.OfferPathRules | dadi/lib/controller/index.js:299-306 | the loop leaves Cache-Control as the first matching path value would, or throws before changing anything when the full url cannot be read |
| Controller.OfferMimeRules | dadi/lib/controller/index.js:309-316 | the loop leaves Cache-Control as the first matching mime value would, or throws when the file name cannot be read |
| Controller.AddCacheControlHeader | dadi/lib/controller/index.js:295-330 | Cache-Control ends as the first match among path rules, then mime rules, then the default, and a header set before is kept; the thrown error is exactly the unreadable full url or file name |
| Controller.SendHandlerError | dadi/lib/controller/index.js:139-149 | a failed handler gets X-Cache HIT/MISS and JSON with the error's status, or 400 |
| Controller.AddAssetHeaders | dadi/lib/controller/index.js:84-87 | the four header helpers run in order, each setting exactly its header; a Cache-Control error stops them, leaving Content-Type and any path-rule offer |
| Controller.AssetHeaderMapSetsAssetHeaders | dadi/lib/controller/index.js:84-87 | the helpers leave Vary, Content-Type and Last-Modified when given, the chosen Cache-Control unless one was set, and every other header as it was |
| Controller.AddBodyHeaders | dadi/lib/controller/index.js:98-118 | the ETag is of the uncompressed bytes; with gzip, Content-Encoding is set and Content-Length is the compressed size once gzip succeeds; otherwise the plain size |
| Controller.SendAsset | dadi/lib/controller/index.js:120-136 | Range goes to the seekable sender; a matching If-None-Match gives 304 with no body unless the type is JSON; otherwise X-Cache and the bytes |
| Controller.PrepareAsset | dadi/lib/controller/index.js:83-118 | the headers are exactly the asset headers followed by the body headers, so Content-Encoding is gzip when compressing and keeps its old value otherwise; the missing-asset status applies when the provider fell back; a Cache-Control error fails with the status untouched |
| Controller.PreparedHeadersFacts | dadi/lib/controller/index.js:84-118 | the prepared headers carry the asset headers, the ETag, Content-Encoding gzip when compressing and its old value otherwise, the sent length, and the old X-Cache |
| Controller.Deliver | dadi/lib/controller/index.js:83-149 | the response is exactly the delivery of the bytes: a delivered asset carries ETag, Content-Length, Vary, the chosen Cache-Control and the optional headers, Content-Encoding gzip when compressing and as it was otherwise, X-Cache only when the bytes are sent (kept as it was for Range and 304), and other headers keep their values; the status is the not-found status or unchanged, or 304; errors thrown on the way become JSON with their status or 400 |
| Controller.DeliveryHeaders | dadi/lib/controller/index.js:83-136 | any response that is the delivery of the bytes, past Cache-Control, has the asset headers and the ETag, Content-Encoding gzip when compressing and its old value otherwise, the sent length, and X-Cache set only when the bytes are sent |
| Controller.Respond | dadi/lib/controller/index.js:64-150 | an unsettled handler leaves the response untouched; a rejected one gets X-Cache and JSON; a resolved one ends exactly as the delivery of its bytes |
| Controller.CssView | dadi/lib/handlers/css.js:103-125 | the controller sees the CSS type, no handler-specific X-Cache, and the handler's provider, dates and cached flag |
| Controller.CssHitWithPathRules | dadi/lib/controller/index.js:299-303 | a CSS cache hit has no storage provider, so any path rule makes the route answer 400 |
| Controller.FlushKey | dadi/lib/controller/index.js:165-174 | the flush pattern key starts with the domain, and it is the domain alone exactly for `*` |
| Controller.Flush | dadi/lib/controller/index.js:153-188 | a missing pattern gives 400 with success false; otherwise the matching entries are evicted and the answer is 200 with the pattern in the message |
| Controller.FlushAllReachesCss | dadi/lib/controller/index.js:165-174 | flushing `*` reaches every CSS entry of the domain |
| Controller.FlushKeyOfCleaned | dadi/lib/controller/index.js:165-174 | a pattern and its trimmed, backslash-free form flush the same key |
| Controller.FlushPathReachesCss | dadi/lib/controller/index.js:165-174 | flushing a path without query or fragment reaches the CSS entries cached for a request with that path, compressed or not, with both keys read from the cleaned path |
| Controller.FlushWithQueryMissesCss | dadi/lib/controller/index.js:165-174 | flushing a url with a non-empty query misses the CSS entry cached for that very url, because the pathname and the query are hashed apart |
| Controller.FlushKeyParts | dadi/lib/controller/index.js:165-172 | the flush key of a url with a query is the domain, the pathname and the query without its `?` |
| Urls.ParseUrl | dadi/lib/handlers/css.js:19 | the pathname, search and hash written back, and the href, give the url trimmed and with every backslash before the first `?` or `#` made a slash; the pathname has no `?`, `#` or backslash, and search starts with `?` |
| Urls.ParseTrims | dadi/lib/controller/index.js:168 | whitespace before a path is dropped from the pathname (` /a.css` reads as `/a.css`) |
| Urls.ParseTurnsBackslashes | dadi/lib/handlers/css.js:19 | a backslash inside a path is read as a slash (`/css\a.css` reads as `/css/a.css`) |
| Urls.CleanPlain | dadi/lib/handlers/css.js:19 | a url with nothing to trim and no backslash is read as written |
| Urls.CleanIdempotent | dadi/lib/handlers/css.js:19 | cleaning a cleaned url changes nothing |
| Urls.ParseHref | dadi/lib/handlers/css.js:19 | parsing the href of a parse gives the same parse |
| Urls.SlashesKeeps | dadi/lib/handlers/css.js:19 | turning backslashes keeps every other character where it was |
| Urls.SlashesBeforeMark | dadi/lib/handlers/css.js:19 | no backslash is left before the first `?` or `#` |
| Urls.CleanKeepsMarks | dadi/lib/controller/index.js:168 | cleaning adds no `?` or `#` |
| Percent.DecodeEncode | dadi/lib/storage/disk.js:23 | decoding undoes percent-encoding, for every string |

## Left out

- The work queue that coalesces identical requests is left out.
- CloudFront invalidation is left out.
- The `/` and `/robots.txt` routes are left out, as are the recipe, route, upload and domain APIs.
- The handler factory (`factory.js`), the Missing provider (`missing.js`), the help module (`help.js`) and the seekable sender (`seek.js`) are not part of this model:
  - Handlers and providers enter the controller as the values they expose.
  - `help.streamToBuffer` is the identity on bytes.
  - `help.clearCache` is taken to be `Cache.delete` of the pattern.
  - `help.sendBackJSON` sets the status and the JSON body; any header it also sets is not modelled.
- Streams are byte sequences. The tee into two pass-through streams is not modelled, and neither are stream errors after the first byte.
- `Cache.CacheStore.Delete`: `@dadi/cache` is not part of this model. Its flush is taken to remove the keys that start with the hashed pattern.
- `Cache.PartText`: numbers in a cache key are integers written in decimal. JavaScript's `toString` of a double (fractions, exponent notation such as `1e+21`) and `NaN`, which the filter drops, are not modelled. The keys built by the CSS handler and the flush route hold only strings and null.
- Cache TTL options and the metadata a backend stores are not modelled.
- `Json.Escape`: characters are Unicode scalar values, so the escape `JSON.stringify` gives a lone surrogate does not arise.
- `Percent.Decode`: multi-octet UTF-8 escapes are refused rather than decoded, and only ASCII is modelled.
- `Urls.ParseUrl`: only path references are modelled. Schemes, hosts and the automatic escaping of unsafe characters are not, and neither is percent-decoding in the query. The whitespace trimmed is the set current Node releases trim (space, tab, line feed, carriage return, form feed, U+00A0, U+FEFF); releases that used `String.prototype.trim` trim a wider set.
- `Controller.Flush`: the JSON text of the payload is left out; its fields and the string substitutions are modelled.
- `Strings.ReplaceFirst`: `$` patterns in the replacement string are not interpreted.
- Real minification is the `minify` parameter. The temporary files and `mkdirp` of `transform` are left out.
- The AWS SDK configuration, `providerType` and the `getObject` call are left out. The client's reply is a parameter.
- The actual upload of `S3Storage.put`, past its key check, is unreachable as written and left out. `DiskStorage.put` is left out too.
- `cleanUp` of storage providers (the route calls it when present) has no counterpart for S3 or disk and is left out.
- Logging is left out.
- `Disk.DiskStorage.Get`: symlinks, and a directory opened as a file, are not modelled. A `statSync` that throws after the file opened is not modelled.
- `Controller.AddLastModifiedHeader`: the date's text is the `dateText` parameter. How Node turns a `Date` into header text is not modelled.
- The clock is the `now` parameter of the storage providers.
