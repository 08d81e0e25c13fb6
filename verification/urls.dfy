/**
 * Node's legacy `url.parse(u, true)` on the path references the server sees
 * (`/dir/file.css?compress=1`): whitespace is trimmed from both ends, every `\`
 * before the first `?` or `#` becomes `/`, then the fragment is cut at the first
 * `#`, the query at the first `?` before it, and what precedes both is the
 * pathname.
 */
module Urls {
  import opened Wrappers
  import opened Strings

  /** The fields of a parsed url the core reads. `None` stands for `null`. */
  datatype ParsedUrl = ParsedUrl(
    pathname: Option<string>,
    search: Option<string>,
    hash: Option<string>,
    href: string)

  function Text(o: Option<string>): string {
    if o.Some? then o.value else ""
  }

  /** `url.format`: the parts written back one after the other. */
  function Format(u: ParsedUrl): string {
    Text(u.pathname) + Text(u.search) + Text(u.hash)
  }

  /** The characters `url.parse` trims: space, tab, line feed, carriage return, form feed, U+00A0 and U+FEFF. */
  predicate IsSpace(c: char) {
    c == ' ' || c == '\t' || c == '\n' || c == '\r' || c as int == 0x0C || c as int == 0xA0 || c as int == 0xFEFF
  }

  /** `s` without the whitespace it starts with. */
  function TrimStart(s: string): (r: string)
    ensures |r| <= |s| && r == s[|s| - |r|..]
    ensures |r| > 0 ==> !IsSpace(r[0])
    ensures forall i :: 0 <= i < |s| - |r| ==> IsSpace(s[i])
    decreases |s|
  {
    if |s| > 0 && IsSpace(s[0]) then TrimStart(s[1..]) else s
  }

  /** `s` without the whitespace it ends with. */
  function TrimEnd(s: string): (r: string)
    ensures |r| <= |s| && r == s[..|r|]
    ensures |r| > 0 ==> !IsSpace(r[|r| - 1])
    ensures forall i :: |r| <= i < |s| ==> IsSpace(s[i])
    decreases |s|
  {
    if |s| > 0 && IsSpace(s[|s| - 1]) then TrimEnd(s[..|s| - 1]) else s
  }

  /**
   * Every `\` before the first `?` or `#` made `/`. `SlashesKeeps` and
   * `SlashesBeforeMark` state what it does character by character.
   */
  function Slashes(s: string): (r: string)
    ensures |r| == |s|
    decreases |s|
  {
    if |s| == 0 || s[0] == '?' || s[0] == '#' then s
    else [if s[0] == '\\' then '/' else s[0]] + Slashes(s[1..])
  }

  /** Each character is kept, or is a backslash turned into a slash. */
  lemma {:induction false} SlashesKeeps(s: string)
    ensures forall i :: 0 <= i < |s| ==> Slashes(s)[i] == s[i] || (s[i] == '\\' && Slashes(s)[i] == '/')
    decreases |s|
  {
    if |s| > 0 && s[0] != '?' && s[0] != '#' {
      SlashesKeeps(s[1..]);
      var r, rest := Slashes(s), Slashes(s[1..]);
      forall i | 1 <= i < |s|
        ensures r[i] == s[i] || (s[i] == '\\' && r[i] == '/')
      {
        assert r[i] == rest[i - 1] && s[i] == s[1..][i - 1];
      }
    }
  }

  /** No backslash is left before a `?` or `#`. */
  lemma {:induction false} SlashesBeforeMark(s: string)
    ensures forall i :: 0 <= i < |s| && Slashes(s)[i] == '\\' ==> '?' in Slashes(s)[..i] || '#' in Slashes(s)[..i]
    decreases |s|
  {
    var r := Slashes(s);
    if |s| > 0 && (s[0] == '?' || s[0] == '#') {
      forall i | 0 < i < |s|
        ensures r[0] in r[..i]
      {
        assert r[..i][0] == r[0];
      }
    } else if |s| > 0 {
      SlashesBeforeMark(s[1..]);
      var rest := Slashes(s[1..]);
      forall i | 1 <= i < |s| && r[i] == '\\'
        ensures '?' in r[..i] || '#' in r[..i]
      {
        assert r[..i] == [r[0]] + rest[..i - 1];
        assert rest[i - 1] == '\\';
      }
    }
  }

  /** The url as `url.parse` reads it: trimmed, then with backslashes made slashes. */
  function Clean(u: string): string {
    Slashes(TrimEnd(TrimStart(u)))
  }

  /** Cuts `s` before the first `c`: what precedes it, and the rest from `c` on, if `c` occurs. */
  function CutAt(s: string, c: char): (r: (string, Option<string>))
    ensures c !in r.0
    ensures r.0 + Text(r.1) == s
    ensures r.1.Some? ==> |r.1.value| >= 1 && r.1.value[0] == c
  {
    var i := IndexOfChar(s, c);
    if i < 0 then (s, None) else (s[..i], Some(s[i..]))
  }

  /** A cleaned url cut into pathname, query and fragment. */
  function SplitUrl(u: string): (r: ParsedUrl)
    ensures Format(r) == u && r.href == u
    ensures r.pathname.Some? ==> r.pathname.value != "" && '?' !in r.pathname.value && '#' !in r.pathname.value
    ensures r.search.Some? ==> |r.search.value| >= 1 && r.search.value[0] == '?' && '#' !in r.search.value
    ensures r.hash.Some? ==> |r.hash.value| >= 1 && r.hash.value[0] == '#'
  {
    var (beforeHash, hash) := CutAt(u, '#');
    var (path, search) := CutAt(beforeHash, '?');
    assert forall x :: x in path || x in Text(search) ==> x in beforeHash;
    ParsedUrl(if path == "" then None else Some(path), search, hash, u)
  }

  /**
   * `url.parse(u, true)` for a path reference: the parts written back, and the
   * href, give the cleaned url; the pathname holds no `?`, `#` or `\\`.
   */
  function ParseUrl(u: string): (r: ParsedUrl)
    ensures Format(r) == Clean(u) && r.href == Clean(u)
    ensures r.pathname.Some? ==>
      r.pathname.value != "" && '?' !in r.pathname.value && '#' !in r.pathname.value && '\\' !in r.pathname.value
    ensures r.search.Some? ==> |r.search.value| >= 1 && r.search.value[0] == '?' && '#' !in r.search.value
    ensures r.hash.Some? ==> |r.hash.value| >= 1 && r.hash.value[0] == '#'
  {
    var r := SplitUrl(Clean(u));
    if r.pathname.Some? then
      PathnameHasNoBackslash(TrimEnd(TrimStart(u)));
      r
    else r
  }

  /** The pathname read from a url whose backslashes were turned holds none. */
  lemma PathnameHasNoBackslash(t: string)
    ensures SplitUrl(Slashes(t)).pathname.Some? ==> '\\' !in SplitUrl(Slashes(t)).pathname.value
  {
    var c := Slashes(t);
    var r := SplitUrl(c);
    SplitPrefix(c);
    if r.pathname.Some? {
      SlashesPrefix(t, r.pathname.value);
    }
  }

  /** The pathname of a split url is where the url starts. */
  lemma SplitPrefix(c: string)
    ensures SplitUrl(c).pathname.Some? ==>
      |SplitUrl(c).pathname.value| <= |c| && c[..|SplitUrl(c).pathname.value|] == SplitUrl(c).pathname.value
  {
    var r := SplitUrl(c);
    if r.pathname.Some? {
      var p, rest := r.pathname.value, Text(r.search) + Text(r.hash);
      assert c == p + rest by {
        assert Format(r) == p + Text(r.search) + Text(r.hash);
      }
      assert (p + rest)[..|p|] == p;
    }
  }

  /** A prefix without `?` or `#` of a url whose backslashes were turned holds none. */
  lemma SlashesPrefix(t: string, p: string)
    requires |p| <= |t| && Slashes(t)[..|p|] == p && '?' !in p && '#' !in p
    ensures '\\' !in p
  {
    SlashesBeforeMark(t);
    NoBackslashBeforeMark(Slashes(t), p);
  }

  /** A prefix of a cleaned url without `?` or `#` holds no backslash. */
  lemma NoBackslashBeforeMark(c: string, p: string)
    requires forall i :: 0 <= i < |c| && c[i] == '\\' ==> '?' in c[..i] || '#' in c[..i]
    requires |p| <= |c| && c[..|p|] == p && '?' !in p && '#' !in p
    ensures '\\' !in p
  {
    forall i | 0 <= i < |p|
      ensures p[i] != '\\'
    {
      assert c[..i] == p[..i];
      assert forall x :: x in p[..i] ==> x in p;
    }
  }

  /** A url with nothing to trim and no backslash is read as written. */
  lemma CleanPlain(u: string)
    requires |u| > 0 ==> !IsSpace(u[0]) && !IsSpace(u[|u| - 1])
    requires '\\' !in u
    ensures Clean(u) == u
  {
    SlashesPlain(u);
  }

  lemma {:induction false} SlashesPlain(s: string)
    requires '\\' !in s
    ensures Slashes(s) == s
    decreases |s|
  {
    if |s| > 0 && s[0] != '?' && s[0] != '#' {
      SlashesPlain(s[1..]);
      assert [s[0]] + s[1..] == s;
    }
  }

  /** Cleaning is idempotent: a cleaned url has nothing left to trim and no backslash to turn. */
  lemma CleanIdempotent(u: string)
    ensures Clean(Clean(u)) == Clean(u)
  {
    var t := TrimEnd(TrimStart(u));
    var c := Slashes(t);
    SlashesKeeps(t);
    assert |c| > 0 ==> !IsSpace(c[0]) && !IsSpace(c[|c| - 1]);
    assert TrimStart(c) == c;
    assert TrimEnd(c) == c;
    SlashesTwice(t);
  }

  /** Parsing the href of a parse gives the same parse. */
  lemma ParseHref(u: string)
    ensures ParseUrl(ParseUrl(u).href) == ParseUrl(u)
  {
    CleanIdempotent(u);
  }

  lemma {:induction false} SlashesTwice(s: string)
    ensures Slashes(Slashes(s)) == Slashes(s)
    decreases |s|
  {
    if |s| > 0 && s[0] != '?' && s[0] != '#' {
      SlashesTwice(s[1..]);
      var r := Slashes(s);
      assert r[0] != '?' && r[0] != '#' && r[0] != '\\';
      assert r[1..] == Slashes(s[1..]);
    }
  }

  /** Whitespace before a path is dropped: ` /a.css` has the pathname `/a.css`. */
  lemma ParseTrims(c: char, p: string)
    requires IsSpace(c)
    requires p != "" && '?' !in p && '#' !in p && Clean(p) == p
    ensures ParseUrl([c] + p).pathname == Some(p)
  {
    assert ([c] + p)[1..] == p;
    assert TrimStart([c] + p) == TrimStart(p);
    ParsePlainPath([c] + p);
  }

  /** A backslash in a path is a slash: `/css\\a.css` has the pathname `/css/a.css`. */
  lemma ParseTurnsBackslashes(dir: string, file: string)
    requires dir != "" && !IsSpace(dir[0]) && file != "" && !IsSpace(file[|file| - 1])
    requires '?' !in dir && '#' !in dir && '\\' !in dir
    requires '?' !in file && '#' !in file && '\\' !in file
    ensures ParseUrl(dir + ['\\'] + file).pathname == Some(dir + ['/'] + file)
  {
    CleanBackslash(dir, file);
    assert '?' !in dir + ['/'] + file && '#' !in dir + ['/'] + file;
    ParsePlainPath(dir + ['\\'] + file);
  }

  lemma CleanBackslash(dir: string, file: string)
    requires dir != "" && !IsSpace(dir[0]) && file != "" && !IsSpace(file[|file| - 1])
    requires '?' !in dir && '#' !in dir && '\\' !in dir && '\\' !in file
    ensures Clean(dir + ['\\'] + file) == dir + ['/'] + file
  {
    var u := dir + ['\\'] + file;
    assert u[0] == dir[0] && u[|u| - 1] == file[|file| - 1];
    assert TrimStart(u) == u;
    assert TrimEnd(u) == u;
    SlashesBackslash(dir, file);
  }

  lemma SlashesBackslash(dir: string, file: string)
    requires '?' !in dir && '#' !in dir && '\\' !in dir && '\\' !in file
    ensures Slashes(dir + ['\\'] + file) == dir + ['/'] + file
  {
    var t := ['\\'] + file;
    assert t[0] == '\\' && t[1..] == file;
    SlashesPlain(file);
    assert Slashes(t) == ['/'] + file;
    SlashesConcat(dir, t);
    SlashesPlain(dir);
    assert dir + ['\\'] + file == dir + t;
    assert dir + (['/'] + file) == dir + ['/'] + file;
  }

  /** Backslash conversion on a prefix without `?` or `#` carries on into what follows. */
  lemma {:induction false} SlashesConcat(a: string, b: string)
    requires '?' !in a && '#' !in a
    ensures Slashes(a + b) == Slashes(a) + Slashes(b)
    decreases |a|
  {
    if |a| > 0 {
      assert (a + b)[0] == a[0];
      assert (a + b)[1..] == a[1..] + b;
      SlashesConcat(a[1..], b);
    } else {
      assert a + b == b;
    }
  }

  /** A url whose cleaned form has no query and no fragment is its own cleaned pathname. */
  lemma ParsePlainPath(u: string)
    requires Clean(u) != "" && '?' !in Clean(u) && '#' !in Clean(u)
    ensures ParseUrl(u).pathname == Some(Clean(u)) && ParseUrl(u).search.None?
  {
    PathnameIsWholeUrl(Clean(u));
    var r := SplitUrl(Clean(u));
    assert |Format(r)| == |Clean(u)| + |Text(r.search)| + |Text(r.hash)|;
  }

  /** A cleaned url is its own pathname exactly when it is non-empty and has no query and no fragment. */
  lemma PathnameIsWholeUrl(u: string)
    ensures SplitUrl(u).pathname == Some(u) <==> (u != "" && '?' !in u && '#' !in u)
  {
    var r := SplitUrl(u);
    if r.pathname == Some(u) {
      assert r.search == None && r.hash == None by {
        assert |Format(r)| == |u| + |Text(r.search)| + |Text(r.hash)|;
      }
    }
  }

  /** Cleaning makes no `?` or `#`: it only drops whitespace and turns `\\` into `/`. */
  lemma CleanKeepsMarks(u: string)
    ensures '?' in Clean(u) ==> '?' in u
    ensures '#' in Clean(u) ==> '#' in u
  {
    var a := TrimStart(u);
    var t := TrimEnd(a);
    SlashesKeeps(t);
    forall x | x in t
      ensures x in u
    {
      var i :| 0 <= i < |t| && t[i] == x;
      assert a[i] == x;
      assert u[|u| - |a| + i] == x;
    }
  }

  /** A path reference starting with `/` has a pathname, and it starts with `/` too. */
  lemma RootedHasPathname(u: string)
    requires |u| >= 1 && u[0] == '/'
    ensures ParseUrl(u).pathname.Some? && ParseUrl(u).pathname.value[0] == '/'
  {
    var t := TrimEnd(TrimStart(u));
    assert TrimStart(u) == u;
    assert |t| >= 1 && t[0] == '/';
    var c := Clean(u);
    var r := SplitUrl(c);
    assert c[0] == '/';
    assert c == Text(r.pathname) + Text(r.search) + Text(r.hash);
    assert c[0] == Text(r.pathname)[0];
  }

  /** The name part of one `key=value` pair (everything before the first `=`). */
  function PairKey(pair: string): string {
    var eq := IndexOf(pair, "=");
    if eq >= 0 then pair[..eq] else pair
  }

  /** The value of one `key=value` pair (everything after the first `=`, or ""). */
  function PairValue(pair: string): string {
    var eq := IndexOf(pair, "=");
    if eq >= 0 then pair[eq + 1..] else ""
  }

  /** The values `querystring.parse` collects for `name` from `&`-separated pairs, in order. */
  function PairValues(pairs: seq<string>, name: string): (vs: seq<string>)
    ensures |vs| <= |pairs|
    decreases |pairs|
  {
    if |pairs| == 0 then []
    else (if PairKey(pairs[0]) == name then [PairValue(pairs[0])] else []) + PairValues(pairs[1..], name)
  }

  /**
   * `url.query[name] === value`: the query names `name` exactly once, with that
   * value (a repeated name parses to an array, which equals no string).
   */
  predicate QueryEquals(u: ParsedUrl, name: string, value: string) {
    u.search.Some? && |u.search.value| >= 1 &&
    var vs := PairValues(Split(u.search.value[1..], '&'), name);
    |vs| == 1 && vs[0] == value
  }
}
