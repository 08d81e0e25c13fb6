/**
 * The Amazon S3 storage provider: how a request path names a bucket and a key,
 * and what fetching the object settles to. The S3 client is an input: the
 * reply it would give for the request.
 */
module S3 {
  import opened Wrappers
  import opened Strings
  import Percent
  import Paths
  import Json
  import opened Storage

  /**
   * `getUrlParts(url)`: a leading `/s3/` is dropped, then one leading `/`, and what
   * remains is split on `/` with the empty segments removed.
   */
  function UrlParts(url: string): (parts: seq<string>)
    ensures forall i :: 0 <= i < |parts| ==> parts[i] != "" && '/' !in parts[i]
  {
    var afterS3 := if IndexOf(url, "/s3/") == 0 then ReplaceFirst(url, "/s3/", "") else url;
    var canonical := if |afterS3| >= 1 && afterS3[..1] == "/" then afterS3[1..] else afterS3;
    var split := Split(canonical, '/');
    var parts := NonEmpty(split);
    assert forall i :: 0 <= i < |parts| ==> parts[i] in split;
    parts
  }

  /** The request the provider sends: `{Bucket, Key}` as `JSON.stringify` writes it (an undefined bucket is omitted). */
  function RequestJson(bucket: Option<string>, key: string): string {
    if bucket.Some? then "{\"Bucket\":" + Json.Quote(bucket.value) + ",\"Key\":" + Json.Quote(key) + "}"
    else "{\"Key\":" + Json.Quote(key) + "}"
  }

  /** The 400 error of a request without a bucket or a key; `put`'s also carries the status text. */
  function NoBucketOrKey(bucket: Option<string>, key: string, statusText: Option<string>): Error {
    Error(Some(400), "Either no Bucket or Key provided: " + RequestJson(bucket, key), statusText)
  }

  /** The key an upload goes to: the basename of `key` is replaced, at its first occurrence, by `join(folderPath, basename)`. */
  function PutKey(key: string, folderPath: string): string {
    var name := Paths.Basename(key);
    ReplaceFirst(key, name, Paths.PathJoin(folderPath, name))
  }

  /** The error `put` throws once past its request check: `lengthStream` is not defined. */
  const LengthStreamUndefined: Error := Error(None, "lengthStream is not defined")

  /** What the S3 client's `getObject` settles to. */
  datatype BackendReply = Found(body: seq<byte>, lastModified: Option<Time>) | Failed(error: Error)

  class S3Storage {
    /** `<assetType>.s3.bucketName` from the configuration. */
    const bucketName: string
    const domain: Option<string>
    const url: string
    const urlParts: seq<string>
    var lastModified: Option<Time>
    var notFound: bool

    constructor (bucketName: string, domain: Option<string>, url: string)
      ensures this.bucketName == bucketName && this.domain == domain && this.url == url
      ensures Valid() && lastModified == None && !notFound
    {
      this.bucketName := bucketName;
      this.domain := domain;
      this.url := url;
      this.urlParts := UrlParts(url);
      this.lastModified := None;
      this.notFound := false;
    }

    /** The parts were computed from the url at construction. */
    predicate Valid() {
      urlParts == UrlParts(url)
    }

    /**
     * `getBucket()`: a url starting with `/s3` names its bucket in its first part
     * (`None` is the undefined element of an empty list); any other url uses the
     * configured bucket.
     */
    function GetBucket(): Option<string> {
      if IndexOf(url, "/s3") == 0 then (if |urlParts| > 0 then Some(urlParts[0]) else None)
      else Some(bucketName)
    }

    /** `getKey()`: the remaining parts joined by `/` and percent-decoded (which may throw). */
    function GetKey(): Result<string> {
      if IndexOf(url, "/s3") == 0 then Percent.Decode(Join(if |urlParts| > 0 then urlParts[1..] else [], '/'))
      else Percent.Decode(Join(urlParts, '/'))
    }

    function GetFullUrl(): string {
      url
    }

    function GetLastModified(): Option<Time>
      reads this
    {
      lastModified
    }

    /** The provider as a handler sees it. */
    function View(): (v: StorageView)
      reads this
      ensures v.fullUrl == Success(url) && v.lastModified == lastModified && v.notFound == notFound
    {
      StorageView(Success(GetFullUrl()), GetLastModified(), notFound)
    }

    /** The request names a bucket and a key: neither is the empty string. */
    predicate Addressable() {
      GetKey().Success? && GetBucket() != Some("") && GetKey().value != ""
    }

    /**
     * `get()`: a key that fails to decode rejects with that error, an empty bucket
     * or key with 400, both before the client is asked. A found object resolves with
     * its body and sets the last-modified date when the reply carries one. A 404
     * serves the fallback asset for the domain (`isDirectory` when the url has no
     * extension), marking the provider not-found and last modified `now`; if the
     * fallback fails, so does the request. Any other client error is passed on.
     */
    method Get(reply: BackendReply, missing: Fallback, now: Time) returns (r: Outcome<seq<byte>>)
      modifies this`lastModified, this`notFound
      ensures !r.Pending?
      ensures !Addressable() ==> r.Rejected? && unchanged(this)
      ensures GetKey().Failure? ==> r == Rejected(GetKey().error)
      ensures GetKey().Success? && !Addressable() ==>
        r == Rejected(NoBucketOrKey(GetBucket(), GetKey().value, None))
      ensures Addressable() && reply.Found? ==>
        r == Resolved(reply.body) && notFound == old(notFound) &&
        lastModified == (if reply.lastModified.Some? then reply.lastModified else old(lastModified))
      ensures Addressable() && reply.Failed? && reply.error.status != Some(404) ==>
        r == Rejected(reply.error) && unchanged(this)
      ensures Addressable() && reply.Failed? && reply.error.status == Some(404) ==>
        var fallback := missing(domain, Paths.Extname(url) == "");
        (fallback.Success? ==> r == Resolved(fallback.value) && notFound && lastModified == Some(now)) &&
        (fallback.Failure? ==> r == Rejected(fallback.error) && unchanged(this))
    {
      var bucket := GetBucket();
      var key := GetKey();
      if key.Failure? {
        return Rejected(key.error);
      }
      if bucket == Some("") || key.value == "" {
        return Rejected(NoBucketOrKey(bucket, key.value, None));
      }
      match reply {
        case Found(body, lm) =>
          if lm.Some? {
            lastModified := lm;
          }
          return Resolved(body);
        case Failed(e) =>
          if e.status == Some(404) {
            var fallback := missing(domain, Paths.Extname(GetFullUrl()) == "");
            if fallback.Failure? {
              return Rejected(fallback.error);
            }
            notFound := true;
            lastModified := Some(now);
            return Resolved(fallback.value);
          }
          return Rejected(e);
      }
    }

    /**
     * `put(stream, folderPath)`: rejects with 400 when the bucket or the upload key
     * is empty; otherwise it throws before anything is sent, because the length
     * stream it pipes through is never defined.
     */
    method Put(folderPath: string) returns (r: Outcome<()>)
      ensures r.Rejected?
      ensures GetKey().Failure? ==> r.error == GetKey().error
      ensures GetKey().Success? ==>
        var target := PutKey(GetKey().value, folderPath);
        r.error == if GetBucket() == Some("") || target == "" then NoBucketOrKey(GetBucket(), target, Some("Bad Request"))
        else LengthStreamUndefined
    {
      var key := GetKey();
      if key.Failure? {
        return Rejected(key.error);
      }
      var target := PutKey(key.value, folderPath);
      var bucket := GetBucket();
      if bucket == Some("") || target == "" {
        return Rejected(NoBucketOrKey(bucket, target, Some("Bad Request")));
      }
      return Rejected(LengthStreamUndefined);
    }
  }

  /**
   * A decoded key holding a quote is escaped in the 400 message: with an empty
   * bucket and the key `a"b` (requested as `/a%22b`), the request JSON is
   * `{"Bucket":"","Key":"a\"b"}`.
   */
  lemma RequestJsonEscapesKey()
    ensures RequestJson(Some(""), "a\"b") == "{\"Bucket\":\"\",\"Key\":\"a\\\"b\"}"
  {
    Json.QuoteEscapesQuote();
    assert Json.Quote("") == "\"\"";
  }

  /** The first occurrence of a prefix is at 0. */
  lemma IndexOfPrefix(s: string, p: string)
    requires |p| <= |s| && s[..|p|] == p
    ensures IndexOf(s, p) == 0
  {
    assert OccursAt(s, p, 0);
  }

  /** Replacing a prefix of `s` by nothing drops it. */
  lemma DropPrefix(s: string, p: string)
    requires |p| <= |s| && s[..|p|] == p
    ensures IndexOf(s, p) == 0
    ensures ReplaceFirst(s, p, "") == s[|p|..]
  {
    IndexOfPrefix(s, p);
    var r := ReplaceFirst(s, p, "");
    assert |r| == |s| - |p| && r[0..] == s[|p|..];
  }

  /** A string that does not start with `p` has no occurrence of `p` at 0. */
  lemma IndexOfNotPrefix(s: string, p: string)
    requires !(|p| <= |s| && s[..|p|] == p)
    ensures IndexOf(s, p) != 0
  {
  }

  /** Splitting joined non-empty parts and dropping empty segments gives the parts back. */
  lemma SplitJoinedParts(parts: seq<string>)
    requires |parts| >= 1
    requires forall i :: 0 <= i < |parts| ==> parts[i] != "" && '/' !in parts[i]
    ensures NonEmpty(Split(Join(parts, '/'), '/')) == parts
  {
    SplitJoin(parts, '/');
    NonEmptyKeeps(parts);
  }

  lemma {:induction false} NonEmptyKeeps(parts: seq<string>)
    requires forall i :: 0 <= i < |parts| ==> parts[i] != ""
    ensures NonEmpty(parts) == parts
    decreases |parts|
  {
    if |parts| > 0 {
      NonEmptyKeeps(parts[1..]);
    }
  }

  /** A non-empty join starts with its first part. */
  lemma JoinStartsWithFirst(parts: seq<string>)
    requires |parts| >= 1
    ensures |parts[0]| <= |Join(parts, '/')| && Join(parts, '/')[..|parts[0]|] == parts[0]
  {
    if |parts| > 1 {
      assert Join(parts, '/') == parts[0] + "/" + Join(parts[1..], '/');
    }
  }

  /** The parts of `/s3/` followed by joined parts are those parts. */
  lemma UrlPartsAfterS3(url: string, parts: seq<string>)
    requires |parts| >= 1 && forall i :: 0 <= i < |parts| ==> parts[i] != "" && '/' !in parts[i]
    requires url == "/s3/" + Join(parts, '/')
    ensures UrlParts(url) == parts
  {
    var rest := Join(parts, '/');
    DropPrefix(url, "/s3/");
    assert url[4..] == rest;
    JoinStartsWithFirst(parts);
    assert rest[..1] != "/" by {
      assert rest[0] == parts[0][0];
    }
    SplitJoinedParts(parts);
  }

  /** The parts of `/` followed by joined parts are those parts, unless the url starts with `/s3/`. */
  lemma UrlPartsAfterSlash(url: string, parts: seq<string>)
    requires |parts| >= 1 && forall i :: 0 <= i < |parts| ==> parts[i] != "" && '/' !in parts[i]
    requires url == "/" + Join(parts, '/')
    requires !(|url| >= 4 && url[..4] == "/s3/")
    ensures UrlParts(url) == parts
  {
    IndexOfNotPrefix(url, "/s3/");
    assert url[..1] == "/";
    assert url[1..] == Join(parts, '/');
    SplitJoinedParts(parts);
  }

  /** A first part followed by good parts makes good parts. */
  lemma PartsWithHead(first: string, segs: seq<string>)
    requires first != "" && '/' !in first
    requires forall i :: 0 <= i < |segs| ==> segs[i] != "" && '/' !in segs[i]
    ensures forall i :: 0 <= i < |[first] + segs| ==> ([first] + segs)[i] != "" && '/' !in ([first] + segs)[i]
  {
  }

  lemma UrlPartsOfS3Path(url: string, bucket: string, segs: seq<string>)
    requires bucket != "" && '/' !in bucket
    requires forall i :: 0 <= i < |segs| ==> segs[i] != "" && '/' !in segs[i]
    requires url == "/s3/" + Join([bucket] + segs, '/')
    ensures UrlParts(url) == [bucket] + segs
    ensures |url| >= 3 && url[..3] == "/s3"
  {
    PartsWithHead(bucket, segs);
    UrlPartsAfterS3(url, [bucket] + segs);
  }

  lemma UrlPartsOfS3Prefixed(url: string, first: string, segs: seq<string>)
    requires |first| >= 3 && first[..2] == "s3" && '/' !in first
    requires forall i :: 0 <= i < |segs| ==> segs[i] != "" && '/' !in segs[i]
    requires url == "/" + Join([first] + segs, '/')
    ensures UrlParts(url) == [first] + segs
    ensures |url| >= 3 && url[..3] == "/s3"
  {
    var parts := [first] + segs;
    PartsWithHead(first, segs);
    JoinStartsWithFirst(parts);
    SlashThenS3Word(url, Join(parts, '/'), first);
    UrlPartsAfterSlash(url, parts);
  }

  /** `/` followed by a word beginning with `s3` and a third character other than `/`. */
  lemma SlashThenS3Word(url: string, rest: string, first: string)
    requires |first| >= 3 && first[..2] == "s3" && '/' !in first
    requires |first| <= |rest| && rest[..|first|] == first
    requires url == "/" + rest
    ensures |url| >= 3 && url[..3] == "/s3"
    ensures !(|url| >= 4 && url[..4] == "/s3/")
  {
    assert url[1..] == rest;
    assert url[1] == first[0] && url[2] == first[1] && url[3] == first[2];
  }

  /**
   * `/s3/<bucket>/<key parts>` names that bucket and that key (percent-decoded),
   * whatever the configured bucket.
   */
  lemma S3PathNamesBucketAndKey(s: S3Storage, bucket: string, segs: seq<string>)
    requires s.Valid()
    requires bucket != "" && '/' !in bucket
    requires forall i :: 0 <= i < |segs| ==> segs[i] != "" && '/' !in segs[i]
    requires s.url == "/s3/" + Join([bucket] + segs, '/')
    ensures s.GetBucket() == Some(bucket)
    ensures s.GetKey() == Percent.Decode(Join(segs, '/'))
  {
    UrlPartsOfS3Path(s.url, bucket, segs);
    IndexOfPrefix(s.url, "/s3");
    assert s.urlParts[1..] == segs;
  }

  /**
   * A path that does not start with `/s3` names a key in the configured bucket:
   * its non-empty segments, joined by `/` and percent-decoded.
   */
  lemma PlainPathUsesConfiguredBucket(s: S3Storage, segs: seq<string>)
    requires s.Valid()
    requires |segs| >= 1 && forall i :: 0 <= i < |segs| ==> segs[i] != "" && '/' !in segs[i]
    requires s.url == "/" + Join(segs, '/')
    requires !(|s.url| >= 3 && s.url[..3] == "/s3")
    ensures s.GetBucket() == Some(s.bucketName)
    ensures s.GetKey() == Percent.Decode(Join(segs, '/'))
  {
    IndexOfNotPrefix(s.url, "/s3");
    if |s.url| >= 4 {
      assert s.url[..4][..3] == s.url[..3];
    }
    UrlPartsAfterSlash(s.url, segs);
  }

  /**
   * The bucket test looks for `/s3` without its slash: a first segment that merely
   * begins with `s3` (`/s3assets/logo.png`) is taken for the bucket, and the key
   * is what follows it.
   */
  lemma S3PrefixWithoutSlash(s: S3Storage, first: string, segs: seq<string>)
    requires s.Valid()
    requires |first| >= 3 && first[..2] == "s3" && '/' !in first
    requires forall i :: 0 <= i < |segs| ==> segs[i] != "" && '/' !in segs[i]
    requires s.url == "/" + Join([first] + segs, '/')
    ensures s.GetBucket() == Some(first)
    ensures s.GetKey() == Percent.Decode(Join(segs, '/'))
  {
    UrlPartsOfS3Prefixed(s.url, first, segs);
    IndexOfPrefix(s.url, "/s3");
    assert s.urlParts[1..] == segs;
  }

  /** When the url names no bucket at all, it names no key either, so `get` rejects with 400. */
  lemma NoBucketMeansNoKey(s: S3Storage)
    requires s.Valid()
    requires s.GetBucket() == None
    ensures s.GetKey() == Success("")
    ensures !s.Addressable()
  {
  }

  /** A key without directories is uploaded into the folder: its new key is `join(folderPath, key)`. */
  lemma PutKeyOfBareName(key: string, folderPath: string)
    requires key != "" && '/' !in key
    ensures PutKey(key, folderPath) == Paths.PathJoin(folderPath, key)
  {
    SplitWithoutSeparator(key, '/');
    assert NonEmpty([key]) == [key];
    assert Paths.Basename(key) == key;
    IndexOfPrefix(key, key);
  }
}
