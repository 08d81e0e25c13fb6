/**
 * The local-disk storage provider: where a request path lands under the asset
 * directory, how a directory is answered with a default file, and what reading
 * the file settles to. The file system is an input: the entries the provider's
 * `lstat`, `readdir`, `createReadStream` and `statSync` calls would see.
 */
module Disk {
  import opened Wrappers
  import opened Strings
  import Percent
  import Paths
  import Urls
  import opened Storage

  /**
   * A file-system entry at a path: whether it is a directory, its size and
   * modification time, its content, its listing (`None` when `readdir` fails)
   * and whether opening it for reading succeeds. `size` is what `statSync`
   * reports and `data` what the read stream yields: two separate reads of the
   * file, kept apart here.
   */
  datatype FsNode = FsNode(
    isDirectory: bool,
    size: nat,
    mtime: Time,
    data: seq<byte>,
    listing: Option<seq<string>>,
    openable: bool)

  /** The entries by absolute path; a path outside the map does not exist. */
  type FileSystem = map<string, FsNode>

  /** What `getDefaultFile` resolves with for a directory without a default file. */
  const NoDefaultConfigured: string := "no-default-configured"

  /** The rejection for a file that exists but is empty. */
  const EmptyFileError: Error := Error(Some(404), "File size is 0 bytes")

  /** Opening the file at `path` for reading succeeds. */
  predicate Opens(fs: FileSystem, path: string) {
    path in fs && fs[path].openable
  }

  /**
   * The listed files whose basename is one of the default files, in listing
   * order and with repeats (`MatchingFilesSingle`, `MatchingFilesConcat`).
   */
  function MatchingFiles(files: seq<string>, defaultFiles: seq<string>): (r: seq<string>)
    ensures forall i :: 0 <= i < |r| ==> r[i] in files && Paths.Basename(r[i]) in defaultFiles
    ensures forall f :: f in files && Paths.Basename(f) in defaultFiles ==> f in r
    decreases |files|
  {
    if |files| == 0 then []
    else
      var rest := MatchingFiles(files[1..], defaultFiles);
      assert forall f :: f in files ==> f == files[0] || f in files[1..];
      (if Paths.Basename(files[0]) in defaultFiles then [files[0]] else []) + rest
  }

  /** A single file is kept exactly when its basename is a default file. */
  lemma MatchingFilesSingle(f: string, defaultFiles: seq<string>)
    ensures MatchingFiles([f], defaultFiles) == if Paths.Basename(f) in defaultFiles then [f] else []
  {
    assert [f][1..] == [];
  }

  /**
   * The filter keeps order and repeats: filtering a concatenated listing is
   * concatenating the filtered parts. With `MatchingFilesSingle` this fixes the
   * result for every listing.
   */
  lemma {:induction false} MatchingFilesConcat(a: seq<string>, b: seq<string>, defaultFiles: seq<string>)
    ensures MatchingFiles(a + b, defaultFiles) == MatchingFiles(a, defaultFiles) + MatchingFiles(b, defaultFiles)
    decreases |a|
  {
    if |a| == 0 {
      assert a + b == b;
    } else {
      var ab := a + b;
      assert ab[0] == a[0];
      assert ab[1..] == a[1..] + b;
      var head := if Paths.Basename(a[0]) in defaultFiles then [a[0]] else [];
      assert MatchingFiles(ab, defaultFiles) == head + MatchingFiles(a[1..] + b, defaultFiles);
      assert MatchingFiles(a, defaultFiles) == head + MatchingFiles(a[1..], defaultFiles);
      MatchingFilesConcat(a[1..], b, defaultFiles);
      SeqAssoc(head, MatchingFiles(a[1..], defaultFiles), MatchingFiles(b, defaultFiles));
    }
  }

  lemma SeqAssoc(x: seq<string>, y: seq<string>, z: seq<string>)
    ensures x + (y + z) == (x + y) + z
  {
  }

  /** `files[k]` is the first listed file whose basename is a default file. */
  predicate FirstDefaultAt(files: seq<string>, defaultFiles: seq<string>, k: int) {
    0 <= k < |files| && Paths.Basename(files[k]) in defaultFiles &&
    forall j :: 0 <= j < k ==> Paths.Basename(files[j]) !in defaultFiles
  }

  /** The first file of the filtered listing is the first listed file whose basename is a default file. */
  lemma {:induction false} FirstMatchIsFirstListed(files: seq<string>, defaultFiles: seq<string>, k: nat)
    requires k < |files| && Paths.Basename(files[k]) in defaultFiles
    requires forall j :: 0 <= j < k ==> Paths.Basename(files[j]) !in defaultFiles
    ensures |MatchingFiles(files, defaultFiles)| > 0 && MatchingFiles(files, defaultFiles)[0] == files[k]
    decreases k
  {
    if k > 0 {
      FirstMatchIsFirstListed(files[1..], defaultFiles, k - 1);
    }
  }

  /**
   * `getDefaultFile()` for the directory at `dir`: it resolves with nothing when
   * `lstat` or `readdir` fails, with the first listed default file or
   * `no-default-configured` for a directory, and never settles when `dir` is
   * not a directory.
   */
  function DefaultFileIn(fs: FileSystem, dir: string, defaultFiles: seq<string>): (r: Outcome<Option<string>>)
    ensures !r.Rejected?
    ensures r.Pending? <==> dir in fs && !fs[dir].isDirectory
    ensures r == Resolved(None) <==> dir !in fs || (fs[dir].isDirectory && fs[dir].listing.None?)
    ensures r.Resolved? && r.value.Some? ==>
      var files := fs[dir].listing.value;
      r.value.value == NoDefaultConfigured ||
      (r.value.value in files && Paths.Basename(r.value.value) in defaultFiles)
    ensures r.Resolved? && r.value.Some? ==>
      (forall i :: 0 <= i < |fs[dir].listing.value| ==> Paths.Basename(fs[dir].listing.value[i]) !in defaultFiles) ==>
      r.value.value == NoDefaultConfigured
    ensures r.Resolved? && r.value.Some? ==>
      var files := fs[dir].listing.value;
      forall k :: FirstDefaultAt(files, defaultFiles, k) ==>
        r.value.value == if files[k] != "" then files[k] else NoDefaultConfigured
  {
    if dir !in fs then Resolved(None)
    else if !fs[dir].isDirectory then Pending
    else if fs[dir].listing.None? then Resolved(None)
    else
      var files := fs[dir].listing.value;
      var matching := MatchingFiles(files, defaultFiles);
      assert forall k :: FirstDefaultAt(files, defaultFiles, k) ==> |matching| > 0 && matching[0] == files[k] by {
        forall k | FirstDefaultAt(files, defaultFiles, k)
          ensures |matching| > 0 && matching[0] == files[k]
        {
          FirstMatchIsFirstListed(files, defaultFiles, k);
        }
      }
      Resolved(Some(if |matching| > 0 && matching[0] != "" then matching[0] else NoDefaultConfigured))
  }

  class DiskStorage {
    /** The asset directory, resolved to an absolute path (`path.resolve` of the configured one). */
    const root: string
    const domain: Option<string>
    /** The path part of the requested url; `None` is the `null` pathname of a url without one. */
    var url: Option<string>
    var lastModified: Option<Time>
    var notFound: bool

    /** The empty url stands for `/`; any other keeps only its pathname. */
    constructor (root: string, domain: Option<string>, url: string)
      ensures this.root == root && this.domain == domain
      ensures this.url == if url == "" then Some("/") else Urls.ParseUrl(url).pathname
      ensures lastModified == None && !notFound
    {
      this.root := root;
      this.domain := domain;
      this.url := if url == "" then Some("/") else Urls.ParseUrl(url).pathname;
      this.lastModified := None;
      this.notFound := false;
    }

    /** `getFullUrl()`: the url joined onto the asset directory, then percent-decoded; a null url throws. */
    function FullUrl(): Result<string>
      reads this
    {
      if url.None? then Failure(NullPathError)
      else Percent.Decode(Paths.PathJoin(root, url.value))
    }

    function GetLastModified(): Option<Time>
      reads this
    {
      lastModified
    }

    /** The provider as a handler sees it. */
    function View(): (v: StorageView)
      reads this
      ensures v.fullUrl == FullUrl() && v.lastModified == lastModified && v.notFound == notFound
    {
      StorageView(FullUrl(), GetLastModified(), notFound)
    }

    /** `getDefaultFile()`: rejects when the full url throws, otherwise looks in the directory it names. */
    function GetDefaultFile(fs: FileSystem, defaultFiles: seq<string>): (r: Outcome<Option<string>>)
      reads this
      ensures FullUrl().Failure? ==> r == Rejected(FullUrl().error)
      ensures FullUrl().Success? ==> r == DefaultFileIn(fs, FullUrl().value, defaultFiles)
    {
      match FullUrl()
      case Failure(e) => Rejected(e)
      case Success(p) => DefaultFileIn(fs, p, defaultFiles)
    }

    /**
     * `get()`. A full url that throws rejects at once. A path without an extension
     * is taken for a directory and its default file is looked up; a default file
     * found replaces the url by `/<file>`, under the asset directory itself. The
     * file at the (new) full url is opened: an empty one rejects with 404 after
     * recording its modification time, any other resolves with its content. When
     * it cannot be opened the fallback asset is served, marking the provider
     * not-found and last modified `now`; if the fallback fails, the request rejects
     * with 404 naming the file. The lookup of a default file in something that is
     * not a directory never settles, and neither does a rewritten url that fails
     * to decode.
     */
    method Get(fs: FileSystem, defaultFiles: seq<string>, missing: Fallback, now: Time) returns (r: Outcome<seq<byte>>)
      modifies this`url, this`lastModified, this`notFound
      ensures old(FullUrl()).Failure? ==> r == Rejected(old(FullUrl()).error) && unchanged(this)
      ensures old(FullUrl()).Success? ==>
        var isDirectory := Paths.Extname(old(FullUrl()).value) == "";
        var found := if isDirectory then DefaultFileIn(fs, old(FullUrl()).value, defaultFiles) else Resolved(None);
        (found.Pending? ==> r.Pending? && unchanged(this)) &&
        (found.Resolved? ==>
          url == (if found.value.Some? && found.value.value != "" then Some("/" + found.value.value) else old(url)) &&
          (FullUrl().Failure? ==>
            r.Pending? && lastModified == old(lastModified) && notFound == old(notFound)) &&
          (FullUrl().Success? && Opens(fs, FullUrl().value) ==>
            var node := fs[FullUrl().value];
            lastModified == Some(node.mtime) && notFound == old(notFound) &&
            r == (if node.size == 0 then Rejected(EmptyFileError) else Resolved(node.data))) &&
          (FullUrl().Success? && !Opens(fs, FullUrl().value) ==>
            var fallback := missing(domain, isDirectory);
            (fallback.Success? ==> r == Resolved(fallback.value) && notFound && lastModified == Some(now)) &&
            (fallback.Failure? ==>
              r == Rejected(Error(Some(404), "File not found: " + FullUrl().value)) &&
              lastModified == old(lastModified) && notFound == old(notFound))))
    {
      var full := FullUrl();
      if full.Failure? {
        return Rejected(full.error);
      }
      var isDirectory := Paths.Extname(full.value) == "";
      var found: Outcome<Option<string>> := Resolved(None);
      if isDirectory {
        found := DefaultFileIn(fs, full.value, defaultFiles);
      }
      if !found.Resolved? {
        return Pending;
      }
      if found.value.Some? && found.value.value != "" {
        url := Some("/" + found.value.value);
      }
      var target := FullUrl();
      if target.Failure? {
        return Pending;
      }
      var path := target.value;
      if Opens(fs, path) {
        var node := fs[path];
        lastModified := Some(node.mtime);
        if node.size == 0 {
          return Rejected(EmptyFileError);
        }
        return Resolved(node.data);
      }
      var err := Error(Some(404), "File not found: " + path);
      var fallback := missing(domain, isDirectory);
      if fallback.Failure? {
        return Rejected(err);
      }
      notFound := true;
      lastModified := Some(now);
      return Resolved(fallback.value);
    }
  }

  /** No part contains `%`. */
  predicate NoEscapes(parts: seq<string>) {
    forall i :: 0 <= i < |parts| ==> '%' !in parts[i]
  }

  /**
   * A url of plain segments without escapes, with or without a leading `/`, lands
   * at those segments under a canonical asset directory.
   */
  lemma FullUrlUnderRoot(d: DiskStorage, rootSegs: seq<string>, names: seq<string>, lead: string)
    requires |rootSegs| >= 1 && forall i :: 0 <= i < |rootSegs| ==> Paths.PlainSegment(rootSegs[i])
    requires |names| >= 1 && forall i :: 0 <= i < |names| ==> Paths.PlainSegment(names[i])
    requires NoEscapes(rootSegs) && NoEscapes(names)
    requires lead == "" || lead == "/"
    requires d.root == Paths.Directory(rootSegs) && d.url == Some(lead + Join(names, '/'))
    ensures d.FullUrl() == Success(Paths.Directory(rootSegs + names))
  {
    Paths.JoinUnderDirectory(rootSegs, names, lead);
    assert NoEscapes(rootSegs + names) by {
      forall i | 0 <= i < |rootSegs + names|
        ensures '%' !in (rootSegs + names)[i]
      {
        if i >= |rootSegs| {
          assert (rootSegs + names)[i] == names[i - |rootSegs|];
        }
      }
    }
    JoinAvoids(rootSegs + names, '/', '%');
    Percent.DecodeWithoutEscapes(Paths.Directory(rootSegs + names));
  }

  /**
   * The default file of any directory is opened directly under the asset
   * directory: after the rewrite to `/<file>`, the full url is `<root>/<file>`,
   * whichever directory was listed.
   */
  lemma DefaultFileOpensUnderRoot(d: DiskStorage, rootSegs: seq<string>, file: string)
    requires |rootSegs| >= 1 && forall i :: 0 <= i < |rootSegs| ==> Paths.PlainSegment(rootSegs[i])
    requires Paths.PlainSegment(file) && NoEscapes(rootSegs) && '%' !in file
    requires d.root == Paths.Directory(rootSegs) && d.url == Some("/" + file)
    ensures d.FullUrl() == Success(d.root + "/" + file)
  {
    assert Join([file], '/') == file;
    FullUrlUnderRoot(d, rootSegs, [file], "/");
    JoinAppend(rootSegs, file, '/');
    assert Paths.Directory(rootSegs + [file]) == "/" + Join(rootSegs, '/') + "/" + file;
  }
}
