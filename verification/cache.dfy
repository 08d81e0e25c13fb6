/**
 * The cache layer: the key codec (`getNormalisedKey`) and the store gate in
 * front of the external cache backend. The backend is a map from normalised
 * keys to stored bytes; whether one of its calls fails is an input.
 */
module Cache {
  import opened Wrappers
  import opened Strings

  /** An element of an array cache key: the JavaScript values callers put there. */
  datatype KeyPart = Undefined | Null | Bool(b: bool) | Num(n: int) | Str(s: string)

  /** `node || node === 0`: the elements the fold hashes. */
  predicate Kept(p: KeyPart) {
    match p
    case Undefined => false
    case Null => false
    case Bool(b) => b
    case Num(_) => true
    case Str(s) => s != ""
  }

  /** `node.toString()` for a value that is neither null nor undefined. */
  function PartText(p: KeyPart): string
    requires !p.Undefined? && !p.Null?
  {
    match p
    case Bool(b) => if b then "true" else "false"
    case Num(n) => IntToString(n)
    case Str(s) => s
  }

  /** A cache key as callers pass it: an array of parts, or a single value. */
  datatype CacheKey = List(parts: seq<KeyPart>) | Single(value: KeyPart)

  /** A single null or undefined key makes `key.toString()` throw; no caller passes one. */
  predicate Normalisable(key: CacheKey) {
    key.List? || (!key.value.Undefined? && !key.value.Null?)
  }

  /** The reducer: appends the hash of a kept element, passes the others over. */
  function Step(hash: string -> string, acc: string, p: KeyPart): string {
    if Kept(p) then acc + hash(PartText(p)) else acc
  }

  /** `parts.reduce(Step, '')`: a left fold over the parts, seeded with "". */
  function FoldKey(hash: string -> string, parts: seq<KeyPart>): string
    decreases |parts|
  {
    if |parts| == 0 then ""
    else Step(hash, FoldKey(hash, parts[..|parts| - 1]), parts[|parts| - 1])
  }

  /** `getNormalisedKey(key)` with `sha1` given as `hash`. */
  function NormalisedKey(hash: string -> string, key: CacheKey): string
    requires Normalisable(key)
  {
    if key == Single(Str("")) then ""
    else if key.List? then FoldKey(hash, key.parts)
    else hash(PartText(key.value))
  }

  /** The hashes of the kept parts, in order: the reference reading of the fold. */
  function KeptHashes(hash: string -> string, parts: seq<KeyPart>): seq<string>
    decreases |parts|
  {
    if |parts| == 0 then []
    else (if Kept(parts[0]) then [hash(PartText(parts[0]))] else []) + KeptHashes(hash, parts[1..])
  }

  /** The strings of `ss` written one after the other. */
  function Concat(ss: seq<string>): string
    decreases |ss|
  {
    if |ss| == 0 then "" else ss[0] + Concat(ss[1..])
  }

  lemma {:induction false} ConcatAppend(xs: seq<string>, ys: seq<string>)
    ensures Concat(xs + ys) == Concat(xs) + Concat(ys)
    decreases |xs|
  {
    if |xs| == 0 {
      assert xs + ys == ys;
    } else {
      assert (xs + ys)[1..] == xs[1..] + ys;
      ConcatAppend(xs[1..], ys);
    }
  }

  lemma {:induction false} KeptHashesAppend(hash: string -> string, xs: seq<KeyPart>, ys: seq<KeyPart>)
    ensures KeptHashes(hash, xs + ys) == KeptHashes(hash, xs) + KeptHashes(hash, ys)
    decreases |xs|
  {
    if |xs| == 0 {
      assert xs + ys == ys;
    } else {
      assert (xs + ys)[0] == xs[0] && (xs + ys)[1..] == xs[1..] + ys;
      KeptHashesAppend(hash, xs[1..], ys);
      var head := if Kept(xs[0]) then [hash(PartText(xs[0]))] else [];
      var rest, tail := KeptHashes(hash, xs[1..]), KeptHashes(hash, ys);
      assert KeptHashes(hash, xs + ys) == head + (rest + tail);
      assert head + (rest + tail) == (head + rest) + tail;
    }
  }

  /**
   * A list key normalises to the hashes of its kept elements (truthy, or the
   * number 0), concatenated in order; null, undefined, "" and false add nothing.
   */
  lemma {:induction false} ListKeyIsConcatOfKeptHashes(hash: string -> string, parts: seq<KeyPart>)
    ensures NormalisedKey(hash, List(parts)) == Concat(KeptHashes(hash, parts))
    decreases |parts|
  {
    if |parts| > 0 {
      var init, last := parts[..|parts| - 1], parts[|parts| - 1];
      assert parts == init + [last];
      ListKeyIsConcatOfKeptHashes(hash, init);
      KeptHashesAppend(hash, init, [last]);
      ConcatAppend(KeptHashes(hash, init), KeptHashes(hash, [last]));
      assert KeptHashes(hash, [last]) == (if Kept(last) then [hash(PartText(last))] else []);
    }
  }

  /** Normalising a list distributes over appending lists: the basis of flushing by prefix. */
  lemma {:induction false} ListKeyAppend(hash: string -> string, xs: seq<KeyPart>, ys: seq<KeyPart>)
    ensures NormalisedKey(hash, List(xs + ys)) == NormalisedKey(hash, List(xs)) + NormalisedKey(hash, List(ys))
    decreases |ys|
  {
    if |ys| == 0 {
      assert xs + ys == xs;
    } else {
      var init, last := ys[..|ys| - 1], ys[|ys| - 1];
      assert (xs + ys)[..|xs + ys| - 1] == xs + init;
      assert (xs + ys)[|xs + ys| - 1] == last;
      ListKeyAppend(hash, xs, init);
    }
  }

  /** The key of a list is a prefix of the key of every list that extends it. */
  lemma ListKeyPrefix(hash: string -> string, xs: seq<KeyPart>, ys: seq<KeyPart>)
    ensures StartsWith(NormalisedKey(hash, List(xs + ys)), NormalisedKey(hash, List(xs)))
  {
    ListKeyAppend(hash, xs, ys);
  }

  /** The empty string is the sentinel key: it normalises to itself, as does a list with nothing kept. */
  lemma {:induction false} EmptyKeys(hash: string -> string, parts: seq<KeyPart>)
    requires forall i :: 0 <= i < |parts| ==> !Kept(parts[i])
    ensures NormalisedKey(hash, Single(Str(""))) == ""
    ensures NormalisedKey(hash, List(parts)) == ""
    decreases |parts|
  {
    if |parts| > 0 {
      EmptyKeys(hash, parts[..|parts| - 1]);
    }
  }

  /** Any other single value normalises to the hash of its string form. */
  lemma SingleKey(hash: string -> string, v: KeyPart)
    requires !v.Undefined? && !v.Null? && v != Str("")
    ensures NormalisedKey(hash, Single(v)) == hash(PartText(v))
  {
  }

  /** `[a, null, 0, b]` normalises to `sha1(a) + sha1("0") + sha1(b)`: null is skipped, 0 is not. */
  lemma ZeroIsHashedNullIsSkipped(hash: string -> string, a: string, b: string)
    requires a != "" && b != ""
    ensures NormalisedKey(hash, List([Str(a), Null, Num(0), Str(b)])) == hash(a) + hash("0") + hash(b)
  {
    var parts := [Str(a), Null, Num(0), Str(b)];
    assert PartText(Num(0)) == "0";
    assert parts[..3] == [Str(a), Null, Num(0)];
    assert parts[..3][..2] == [Str(a), Null];
    assert parts[..3][..2][..1] == [Str(a)];
    assert [Str(a)][..0] == [];
    assert FoldKey(hash, [Str(a)]) == hash(a);
    assert FoldKey(hash, [Str(a), Null]) == hash(a);
    assert FoldKey(hash, [Str(a), Null, Num(0)]) == hash(a) + hash("0");
  }

  /** Metadata the backend keeps beside an entry (for instance when it was stored). */
  type Metadata = map<string, string>

  /**
   * The cache gate. `entries` is the external backend's content by normalised key;
   * `hash` is `sha1`.
   */
  class CacheStore {
    const directoryEnabled: bool
    const redisEnabled: bool
    const hash: string -> string
    var entries: map<string, seq<byte>>

    constructor (directoryEnabled: bool, redisEnabled: bool, hash: string -> string, entries: map<string, seq<byte>>)
      ensures this.directoryEnabled == directoryEnabled && this.redisEnabled == redisEnabled
      ensures this.hash == hash && this.entries == entries
    {
      this.directoryEnabled := directoryEnabled;
      this.redisEnabled := redisEnabled;
      this.hash := hash;
      this.entries := entries;
    }

    /** `isEnabled()`: the directory backend or the redis backend is switched on. */
    predicate Enabled() {
      directoryEnabled || redisEnabled
    }

    /** The key under which the backend holds `key`. */
    function Key(key: CacheKey): string
      requires Normalisable(key)
    {
      NormalisedKey(hash, key)
    }

    /**
     * `getStream(key)`: resolves the stored bytes, or null. It never rejects: when
     * caching is off, when the entry is missing and when the backend read fails
     * (`readFails`), the answer is a miss.
     */
    method GetStream(key: CacheKey, readFails: bool) returns (r: Option<seq<byte>>)
      requires Normalisable(key)
      ensures !Enabled() ==> r == None
      ensures r.Some? <==> Enabled() && !readFails && Key(key) in entries
      ensures r.Some? ==> r.value == entries[Key(key)]
    {
      if !Enabled() {
        return None;
      }
      var k := NormalisedKey(hash, key);
      if readFails || k !in entries {
        return None;
      }
      return Some(entries[k]);
    }

    /** The backend's `set`: stores `value` under `k` unless the write fails with `writeError`. */
    method Write(k: string, value: seq<byte>, writeError: Option<Error>) returns (r: Outcome<()>)
      modifies this`entries
      ensures writeError.None? ==> entries == old(entries)[k := value] && r == Resolved(())
      ensures writeError.Some? ==> entries == old(entries) && r == Rejected(writeError.value)
    {
      if writeError.Some? {
        return Rejected(writeError.value);
      }
      entries := entries[k := value];
      return Resolved(());
    }

    /**
     * `set(key, value)`: a no-op resolving null when caching is off; otherwise the
     * backend write under the normalised key, whose failure is passed on.
     */
    method Set(key: CacheKey, value: seq<byte>, writeError: Option<Error>) returns (r: Outcome<()>)
      requires Normalisable(key)
      modifies this`entries
      ensures !Enabled() ==> r == Resolved(()) && entries == old(entries)
      ensures Enabled() && writeError.None? ==> r == Resolved(()) && entries == old(entries)[Key(key) := value]
      ensures Enabled() && writeError.Some? ==> r == Rejected(writeError.value) && entries == old(entries)
    {
      if !Enabled() {
        return Resolved(());
      }
      r := Write(NormalisedKey(hash, key), value, writeError);
    }

    /**
     * `cacheFile(stream, key, options, wait)`: when caching is off, the stream comes
     * back untouched and nothing is written. Otherwise the same bytes are written
     * under the normalised key and returned; a failed write is seen by the caller
     * only with `wait`, which resolves after the write.
     */
    method CacheFile(stream: seq<byte>, key: CacheKey, wait: bool, writeError: Option<Error>)
      returns (r: Outcome<seq<byte>>)
      requires Normalisable(key)
      modifies this`entries
      ensures !Enabled() ==> r == Resolved(stream) && entries == old(entries)
      ensures Enabled() ==>
        entries == (if writeError.None? then old(entries)[Key(key) := stream] else old(entries))
      ensures Enabled() ==>
        r == (if wait && writeError.Some? then Rejected(writeError.value) else Resolved(stream))
    {
      if !Enabled() {
        return Resolved(stream);
      }
      var write := Write(NormalisedKey(hash, key), stream, writeError);
      if wait && write.Rejected? {
        return Rejected(write.error);
      }
      return Resolved(stream);
    }

    /**
     * `delete(pattern, callback)`: the pattern is normalised like any key and the
     * backend flushes every entry whose key starts with it. The callback always
     * receives null, also when the flush fails (`flushError`).
     */
    method Delete(pattern: CacheKey, flushError: Option<Error>) returns (callbackError: Option<Error>)
      requires Normalisable(pattern)
      modifies this`entries
      ensures callbackError == None
      ensures flushError.None? ==>
        entries == map k | k in old(entries) && !StartsWith(k, Key(pattern)) :: old(entries)[k]
      ensures flushError.Some? ==> entries == old(entries)
    {
      var prefix := NormalisedKey(hash, pattern);
      if flushError.None? {
        entries := map k | k in entries && !StartsWith(k, prefix) :: entries[k];
      }
      return None;
    }

    /**
     * `getMetadata(key)`: the backend's answer for the normalised key, passed on as
     * it is: no enabled gate, and a failure is not turned into null.
     */
    function GetMetadata(key: CacheKey, backend: string -> Result<Option<Metadata>>): (r: Result<Option<Metadata>>)
      requires Normalisable(key)
      ensures r == backend(Key(key))
    {
      backend(NormalisedKey(hash, key))
    }
  }
}
