/**
 * The POSIX flavour of Node's `path` module as far as the storage providers
 * use it: `join` (with `normalize`), `basename` and `extname`.
 */
module Paths {
  import opened Strings

  /** A segment that normalisation keeps as it is. */
  predicate PlainSegment(s: string) {
    s != "" && s != "." && s != ".." && '/' !in s
  }

  /**
   * The segment walk of `normalize`: empty and `.` segments vanish, `..` removes the
   * segment before it (or stays, above a relative start), anything else is kept.
   */
  function Resolve(stack: seq<string>, segs: seq<string>, allowAboveRoot: bool): seq<string>
    decreases |segs|
  {
    if |segs| == 0 then stack
    else
      var s := segs[0];
      var next :=
        if s == "" || s == "." then stack
        else if s == ".." then
          if |stack| > 0 && stack[|stack| - 1] != ".." then stack[..|stack| - 1]
          else if allowAboveRoot then stack + [".."]
          else stack
        else stack + [s];
      Resolve(next, segs[1..], allowAboveRoot)
  }

  /** The walk over two runs of segments is the walk over the first, continued. */
  lemma {:induction false} ResolveConcat(stack: seq<string>, xs: seq<string>, ys: seq<string>, above: bool)
    ensures Resolve(stack, xs + ys, above) == Resolve(Resolve(stack, xs, above), ys, above)
    decreases |xs|
  {
    if |xs| == 0 {
      assert xs + ys == ys;
    } else {
      assert (xs + ys)[0] == xs[0];
      assert (xs + ys)[1..] == xs[1..] + ys;
      var s := xs[0];
      var next :=
        if s == "" || s == "." then stack
        else if s == ".." then
          if |stack| > 0 && stack[|stack| - 1] != ".." then stack[..|stack| - 1]
          else if above then stack + [".."]
          else stack
        else stack + [s];
      ResolveConcat(next, xs[1..], ys, above);
    }
  }

  /** Plain segments are pushed as they are. */
  lemma {:induction false} ResolvePlain(stack: seq<string>, segs: seq<string>, above: bool)
    requires forall i :: 0 <= i < |segs| ==> PlainSegment(segs[i])
    ensures Resolve(stack, segs, above) == stack + segs
    decreases |segs|
  {
    if |segs| > 0 {
      ResolvePlain(stack + [segs[0]], segs[1..], above);
      assert stack + [segs[0]] + segs[1..] == stack + segs;
    }
  }

  /** `path.normalize(p)`. */
  function Normalize(p: string): (r: string)
    ensures r != ""
  {
    if |p| == 0 then "."
    else
      var absolute := p[0] == '/';
      var trailing := p[|p| - 1] == '/';
      var body := Join(Resolve([], Split(p, '/'), !absolute), '/');
      if |body| == 0 then
        if absolute then "/" else if trailing then "./" else "."
      else (if absolute then "/" else "") + body + (if trailing then "/" else "")
  }

  /** `path.join(a, b)`: empty arguments are ignored, the rest joined by `/` and normalised. */
  function PathJoin(a: string, b: string): (r: string)
    ensures r != ""
  {
    if a == "" && b == "" then "."
    else if a == "" then Normalize(b)
    else if b == "" then Normalize(a)
    else Normalize(a + "/" + b)
  }

  /** An absolute directory written in canonical form: `/` followed by plain segments. */
  function Directory(segs: seq<string>): string {
    "/" + Join(segs, '/')
  }

  /** The segments of `<directory>/<rest>`: the root, the directory's segments, then those of `rest`. */
  lemma SplitUnderDirectory(segs: seq<string>, rest: string)
    requires |segs| >= 1 && forall i :: 0 <= i < |segs| ==> PlainSegment(segs[i])
    ensures Split(Directory(segs) + "/" + rest, '/') == [""] + (segs + Split(rest, '/'))
  {
    var j := Join(segs, '/');
    assert Directory(segs) + "/" + rest == "" + "/" + (j + "/" + rest);
    SplitConcat("", j + "/" + rest, '/');
    SplitConcat(j, rest, '/');
    SplitJoin(segs, '/');
  }

  /** The segments of `/<names>`: an empty one, then the names. */
  lemma SplitRooted(names: seq<string>)
    requires |names| >= 1 && forall i :: 0 <= i < |names| ==> PlainSegment(names[i])
    ensures Split("/" + Join(names, '/'), '/') == [""] + names
  {
    var j := Join(names, '/');
    assert "/" + j == ['/'] + j;
    SplitCons('/', j, '/');
    SplitJoin(names, '/');
  }

  /** One empty segment leaves the stack as it is. */
  lemma ResolveEmptySegment(stack: seq<string>, segs: seq<string>, above: bool)
    ensures Resolve(stack, [""] + segs, above) == Resolve(stack, segs, above)
  {
    assert ([""] + segs)[1..] == segs;
  }

  /** All-plain runs concatenate to an all-plain run. */
  lemma PlainConcat(xs: seq<string>, ys: seq<string>)
    requires forall i :: 0 <= i < |xs| ==> PlainSegment(xs[i])
    requires forall i :: 0 <= i < |ys| ==> PlainSegment(ys[i])
    ensures forall i :: 0 <= i < |xs + ys| ==> PlainSegment((xs + ys)[i])
  {
    forall i | 0 <= i < |xs + ys|
      ensures PlainSegment((xs + ys)[i])
    {
      if i >= |xs| {
        assert (xs + ys)[i] == ys[i - |xs|];
      }
    }
  }

  /** Normalising the segments of `<directory>/<names>` keeps them all. */
  lemma ResolveUnderDirectory(segs: seq<string>, names: seq<string>)
    requires forall i :: 0 <= i < |segs| ==> PlainSegment(segs[i])
    requires forall i :: 0 <= i < |names| ==> PlainSegment(names[i])
    ensures Resolve([], [""] + (segs + names), false) == segs + names
  {
    ResolveEmptySegment([], segs + names, false);
    PlainConcat(segs, names);
    ResolvePlain([], segs + names, false);
    assert [] + (segs + names) == segs + names;
  }

  /** Normalising the segments of `<directory>//<names>` drops the empty one. */
  lemma ResolveUnderDirectoryRooted(segs: seq<string>, names: seq<string>)
    requires forall i :: 0 <= i < |segs| ==> PlainSegment(segs[i])
    requires forall i :: 0 <= i < |names| ==> PlainSegment(names[i])
    ensures Resolve([], [""] + (segs + ([""] + names)), false) == segs + names
  {
    ResolveEmptySegment([], segs + ([""] + names), false);
    ResolveConcat([], segs, [""] + names, false);
    ResolvePlain([], segs, false);
    assert [] + segs == segs;
    ResolveEmptySegment(segs, names, false);
    ResolvePlain(segs, names, false);
  }

  /** The segments of `<directory>/<lead><names>` normalise to the directory's segments and the names. */
  lemma ResolvedUnderDirectory(segs: seq<string>, names: seq<string>, lead: string)
    requires |segs| >= 1 && forall i :: 0 <= i < |segs| ==> PlainSegment(segs[i])
    requires |names| >= 1 && forall i :: 0 <= i < |names| ==> PlainSegment(names[i])
    requires lead == "" || lead == "/"
    ensures Resolve([], Split(Directory(segs) + "/" + (lead + Join(names, '/')), '/'), false) == segs + names
  {
    var rest := lead + Join(names, '/');
    SplitUnderDirectory(segs, rest);
    if lead == "" {
      assert rest == Join(names, '/');
      SplitJoin(names, '/');
      ResolveUnderDirectory(segs, names);
    } else {
      SplitRooted(names);
      ResolveUnderDirectoryRooted(segs, names);
    }
  }

  /**
   * Joining a canonical directory with a path of plain segments, written with or
   * without a leading `/`, appends those segments to the directory: the path is
   * looked up inside it.
   */
  lemma JoinUnderDirectory(segs: seq<string>, names: seq<string>, lead: string)
    requires |segs| >= 1 && forall i :: 0 <= i < |segs| ==> PlainSegment(segs[i])
    requires |names| >= 1 && forall i :: 0 <= i < |names| ==> PlainSegment(names[i])
    requires lead == "" || lead == "/"
    ensures PathJoin(Directory(segs), lead + Join(names, '/')) == Directory(segs + names)
  {
    UnderDirectoryShape(segs, names, lead);
    JoinAbsolute(Directory(segs), lead + Join(names, '/'), segs + names);
  }

  /**
   * `<directory>/<lead><names>` is an absolute path without a trailing `/` whose
   * segments normalise to the directory's segments and the names.
   */
  lemma UnderDirectoryShape(segs: seq<string>, names: seq<string>, lead: string)
    requires |segs| >= 1 && forall i :: 0 <= i < |segs| ==> PlainSegment(segs[i])
    requires |names| >= 1 && forall i :: 0 <= i < |names| ==> PlainSegment(names[i])
    requires lead == "" || lead == "/"
    ensures lead + Join(names, '/') != ""
    ensures var p := Directory(segs) + "/" + (lead + Join(names, '/'));
      |p| >= 1 && p[0] == '/' && p[|p| - 1] != '/' && Resolve([], Split(p, '/'), false) == segs + names
    ensures Join(segs + names, '/') != ""
  {
    LastOfJoin(names);
    AbsoluteWithoutTrailingSlash(segs, names, lead);
    ResolvedUnderDirectory(segs, names, lead);
    JoinOfPlainNotEmpty(segs, names);
  }

  /**
   * Joining `rest` onto `dir`, when the two written with a `/` between them form
   * an absolute path without a trailing `/` whose segments normalise to `out`,
   * gives `/` and `out`.
   */
  lemma JoinAbsolute(dir: string, rest: string, out: seq<string>)
    requires dir != "" && rest != ""
    requires var p := dir + "/" + rest; |p| >= 1 && p[0] == '/' && p[|p| - 1] != '/'
    requires Resolve([], Split(dir + "/" + rest, '/'), false) == out && Join(out, '/') != ""
    ensures PathJoin(dir, rest) == "/" + Join(out, '/')
  {
    JoinDirectory(dir, rest);
    NormalizeAbsolute(dir + "/" + rest, out);
  }

  /** Joining onto a directory path normalises the two written with a `/` between them. */
  lemma JoinDirectory(dir: string, rest: string)
    requires dir != "" && rest != ""
    ensures PathJoin(dir, rest) == Normalize(dir + "/" + rest)
  {
  }

  /** `<directory>/<lead><names>` starts with `/` and does not end with one. */
  lemma AbsoluteWithoutTrailingSlash(segs: seq<string>, names: seq<string>, lead: string)
    requires |names| >= 1 && forall i :: 0 <= i < |names| ==> PlainSegment(names[i])
    ensures var p := Directory(segs) + "/" + (lead + Join(names, '/')); |p| >= 1 && p[0] == '/' && p[|p| - 1] != '/'
  {
    var n := Join(names, '/');
    LastOfJoin(names);
    EndsLikeSuffix(Directory(segs) + "/" + lead, n);
    assert Directory(segs) + "/" + (lead + n) == Directory(segs) + "/" + lead + n;
  }

  lemma JoinOfPlainNotEmpty(segs: seq<string>, names: seq<string>)
    requires |segs| >= 1 && forall i :: 0 <= i < |segs| ==> PlainSegment(segs[i])
    requires forall i :: 0 <= i < |names| ==> PlainSegment(names[i])
    ensures Join(segs + names, '/') != ""
  {
    PlainConcat(segs, names);
    LastOfJoin(segs + names);
  }

  /** The last character of `a + b`, for a non-empty `b`, is that of `b`. */
  lemma EndsLikeSuffix(a: string, b: string)
    requires |b| >= 1
    ensures (a + b)[|a + b| - 1] == b[|b| - 1]
  {
  }

  /** An absolute path not ending in `/` whose segments normalise to `out` (not all empty) normalises to `/` and `out`. */
  lemma NormalizeAbsolute(p: string, out: seq<string>)
    requires |p| >= 1 && p[0] == '/' && p[|p| - 1] != '/'
    requires Resolve([], Split(p, '/'), false) == out
    requires Join(out, '/') != ""
    ensures Normalize(p) == "/" + Join(out, '/')
  {
  }

  /** A join of plain segments is non-empty and does not end with `/`. */
  lemma {:induction false} LastOfJoin(names: seq<string>)
    requires |names| >= 1 && forall i :: 0 <= i < |names| ==> PlainSegment(names[i])
    ensures |Join(names, '/')| >= 1 && Join(names, '/')[|Join(names, '/')| - 1] != '/'
    decreases |names|
  {
    var n := names[0];
    assert n[|n| - 1] in n;
    if |names| > 1 {
      LastOfJoin(names[1..]);
    }
  }

  /** `path.basename(p)`: the last non-empty `/`-separated segment, or "" when there is none. */
  function Basename(p: string): (b: string)
    ensures '/' !in b
  {
    var parts := Split(p, '/');
    var segs := NonEmpty(parts);
    if |segs| == 0 then ""
    else
      assert segs[|segs| - 1] in parts;
      segs[|segs| - 1]
  }

  /**
   * `path.extname(p)`: from the last `.` of the basename to its end, or "" when the
   * basename has no `.` after its first character or is `..`.
   */
  function Extname(p: string): (e: string)
    ensures var b := Basename(p);
      e == "" <==> (b == ".." || forall i :: 0 < i < |b| ==> b[i] != '.')
    ensures e != "" ==> e[0] == '.' && '/' !in e
  {
    var b := Basename(p);
    var d := LastIndexOfChar(b, '.');
    if d <= 0 || b == ".." then "" else b[d..]
  }
}
