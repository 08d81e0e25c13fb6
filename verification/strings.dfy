/**
 * The JavaScript string operations the server relies on: `indexOf`,
 * `split` and `join` with a one-character separator, `filter(Boolean)`,
 * `replace` with a string pattern, and number-to-string conversion.
 */
module Strings {

  /** `p` occurs in `s` at index `i`. */
  predicate OccursAt(s: string, p: string, i: int) {
    0 <= i && i + |p| <= |s| && s[i..i + |p|] == p
  }

  /** `s.indexOf(p) === 0`. */
  predicate StartsWith(s: string, p: string) {
    |p| <= |s| && s[..|p|] == p
  }

  /** `s.indexOf(p, from)`: the first index at or after `from` where `p` occurs, or -1. */
  function IndexFrom(s: string, p: string, from: nat): (r: int)
    ensures r == -1 || (from <= r && OccursAt(s, p, r))
    ensures r == -1 ==> forall j :: from <= j ==> !OccursAt(s, p, j)
    ensures r != -1 ==> forall j :: from <= j < r ==> !OccursAt(s, p, j)
    decreases |s| - from
  {
    if from + |p| > |s| then -1
    else if s[from..from + |p|] == p then from
    else IndexFrom(s, p, from + 1)
  }

  /** `s.indexOf(p)`. */
  function IndexOf(s: string, p: string): (r: int)
    ensures r == -1 || OccursAt(s, p, r)
    ensures r == -1 <==> forall j :: !OccursAt(s, p, j)
    ensures r != -1 ==> forall j :: 0 <= j < r ==> !OccursAt(s, p, j)
  {
    IndexFrom(s, p, 0)
  }

  /** `s.indexOf(c)` for one character. */
  function IndexOfChar(s: string, c: char): (r: int)
    ensures -1 <= r < |s|
    ensures r == -1 <==> c !in s
    ensures r >= 0 ==> s[r] == c && c !in s[..r]
    decreases |s|
  {
    if |s| == 0 then -1
    else if s[0] == c then 0
    else
      var r := IndexOfChar(s[1..], c);
      if r < 0 then -1
      else
        assert s[..r + 1] == [s[0]] + s[1..][..r];
        r + 1
  }

  /** `s.lastIndexOf(c)` for one character. */
  function LastIndexOfChar(s: string, c: char): (r: int)
    ensures -1 <= r < |s|
    ensures r >= 0 ==> s[r] == c && forall j :: r < j < |s| ==> s[j] != c
    ensures r == -1 ==> forall j :: 0 <= j < |s| ==> s[j] != c
    decreases |s|
  {
    if |s| == 0 then -1
    else if s[|s| - 1] == c then |s| - 1
    else LastIndexOfChar(s[..|s| - 1], c)
  }

  /** `s.indexOf(p) > -1`. */
  predicate Contains(s: string, p: string) {
    IndexOf(s, p) >= 0
  }

  /** `parts.join(sep)`. */
  function Join(parts: seq<string>, sep: char): string
    decreases |parts|
  {
    if |parts| == 0 then ""
    else if |parts| == 1 then parts[0]
    else parts[0] + [sep] + Join(parts[1..], sep)
  }

  /**
   * `s.split(sep)`: the maximal runs between occurrences of `sep`, in order,
   * including empty runs; the empty string splits into `[""]`.
   */
  function Split(s: string, sep: char): (parts: seq<string>)
    ensures |parts| >= 1
    ensures forall i :: 0 <= i < |parts| ==> sep !in parts[i]
    ensures Join(parts, sep) == s
    decreases |s|
  {
    if |s| == 0 then [""]
    else
      var rest := Split(s[1..], sep);
      if s[0] == sep then
        assert [sep] + s[1..] == s;
        [""] + rest
      else
        var parts := [[s[0]] + rest[0]] + rest[1..];
        assert parts[1..] == rest[1..];
        assert Join(parts, sep) == [s[0]] + Join(rest, sep);
        parts
  }

  /** Splitting a string that starts with `x`: a separator opens an empty run, any other character joins the first run. */
  lemma SplitCons(x: char, t: string, sep: char)
    ensures Split([x] + t, sep) ==
      if x == sep then [""] + Split(t, sep) else [[x] + Split(t, sep)[0]] + Split(t, sep)[1..]
  {
    assert ([x] + t)[1..] == t;
  }

  /**
   * The runs of `x` followed by a string are those of `x` and its first part,
   * then those of the rest, when the string's runs are those of the two parts.
   */
  lemma ConsRuns(x: char, sep: char, whole: seq<string>, first: seq<string>, rest: seq<string>, runs: seq<string>)
    requires |first| >= 1
    requires whole == if x == sep then [""] + (first + rest) else [[x] + (first + rest)[0]] + (first + rest)[1..]
    requires runs == if x == sep then [""] + first else [[x] + first[0]] + first[1..]
    ensures whole == runs + rest
  {
    if x != sep {
      assert (first + rest)[1..] == first[1..] + rest;
    }
  }

  /** Splitting distributes over a separator: the run before it and the runs after it. */
  lemma {:induction false} SplitConcat(a: string, b: string, sep: char)
    ensures Split(a + [sep] + b, sep) == Split(a, sep) + Split(b, sep)
    decreases |a|
  {
    if |a| == 0 {
      assert a + [sep] + b == [sep] + b;
      SplitCons(sep, b, sep);
    } else {
      var x, t := a[0], a[1..];
      assert a == [x] + t;
      assert a + [sep] + b == [x] + (t + [sep] + b);
      SplitConcat(t, b, sep);
      SplitCons(x, t + [sep] + b, sep);
      SplitCons(x, t, sep);
      ConsRuns(x, sep, Split(a + [sep] + b, sep), Split(t, sep), Split(b, sep), Split(a, sep));
    }
  }

  /** A string without the separator splits into itself. */
  lemma {:induction false} SplitWithoutSeparator(s: string, sep: char)
    requires sep !in s
    ensures Split(s, sep) == [s]
    decreases |s|
  {
    if |s| > 0 {
      SplitWithoutSeparator(s[1..], sep);
      assert [s[0]] + s[1..] == s;
    }
  }

  /** `split` inverts `join` on parts that do not contain the separator. */
  lemma {:induction false} SplitJoin(parts: seq<string>, sep: char)
    requires |parts| >= 1
    requires forall i :: 0 <= i < |parts| ==> sep !in parts[i]
    ensures Split(Join(parts, sep), sep) == parts
    decreases |parts|
  {
    if |parts| == 1 {
      SplitWithoutSeparator(parts[0], sep);
    } else {
      SplitJoin(parts[1..], sep);
      SplitWithoutSeparator(parts[0], sep);
      SplitConcat(parts[0], Join(parts[1..], sep), sep);
      assert [parts[0]] + parts[1..] == parts;
    }
  }

  /** Joining one more part appends the separator and that part. */
  lemma {:induction false} JoinAppend(parts: seq<string>, last: string, sep: char)
    requires |parts| >= 1
    ensures Join(parts + [last], sep) == Join(parts, sep) + [sep] + last
    decreases |parts|
  {
    if |parts| > 1 {
      assert (parts + [last])[1..] == parts[1..] + [last];
      JoinAppend(parts[1..], last, sep);
    }
  }

  /** Joining two non-empty runs of parts puts one separator between them. */
  lemma {:induction false} JoinConcat(xs: seq<string>, ys: seq<string>, sep: char)
    requires |xs| >= 1 && |ys| >= 1
    ensures Join(xs + ys, sep) == Join(xs, sep) + [sep] + Join(ys, sep)
    decreases |xs|
  {
    if |xs| == 1 {
      assert (xs + ys)[1..] == ys;
    } else {
      assert (xs + ys)[1..] == xs[1..] + ys;
      JoinConcat(xs[1..], ys, sep);
    }
  }

  /** A character other than the separator occurs in a join only if it occurs in a part. */
  lemma {:induction false} JoinAvoids(parts: seq<string>, sep: char, c: char)
    requires c != sep && forall i :: 0 <= i < |parts| ==> c !in parts[i]
    ensures c !in Join(parts, sep)
    decreases |parts|
  {
    if |parts| > 1 {
      JoinAvoids(parts[1..], sep, c);
    }
  }

  /** `parts.filter(Boolean)` on strings: drops the empty strings, keeps the order. */
  function NonEmpty(parts: seq<string>): (r: seq<string>)
    ensures |r| <= |parts|
    ensures forall i :: 0 <= i < |r| ==> r[i] != "" && r[i] in parts
    decreases |parts|
  {
    if |parts| == 0 then []
    else if parts[0] == "" then NonEmpty(parts[1..])
    else [parts[0]] + NonEmpty(parts[1..])
  }

  /** Filtering distributes over concatenation. */
  lemma {:induction false} NonEmptyConcat(xs: seq<string>, ys: seq<string>)
    ensures NonEmpty(xs + ys) == NonEmpty(xs) + NonEmpty(ys)
    decreases |xs|
  {
    if |xs| > 0 {
      assert (xs + ys)[1..] == xs[1..] + ys;
      NonEmptyConcat(xs[1..], ys);
    } else {
      assert xs + ys == ys;
    }
  }

  /** `s.replace(pat, rep)` with a string pattern: only the first occurrence is replaced. */
  function ReplaceFirst(s: string, pat: string, rep: string): (r: string)
    ensures IndexOf(s, pat) == -1 ==> r == s
    ensures IndexOf(s, pat) >= 0 ==>
      var i := IndexOf(s, pat);
      |r| == |s| - |pat| + |rep| && r[..i] == s[..i] && r[i..i + |rep|] == rep && r[i + |rep|..] == s[i + |pat|..]
  {
    var i := IndexOf(s, pat);
    if i < 0 then s else s[..i] + rep + s[i + |pat|..]
  }

  /** The decimal digit `d` as a character. */
  function DigitChar(d: nat): (c: char)
    requires d < 10
    ensures '0' <= c <= '9' && c as int - '0' as int == d
  {
    (d + '0' as int) as char
  }

  /** `String(n)` for a non-negative integer: its decimal digits. */
  function NatToString(n: nat): (s: string)
    ensures |s| >= 1
    ensures forall i :: 0 <= i < |s| ==> '0' <= s[i] <= '9'
    decreases n
  {
    if n < 10 then [DigitChar(n)] else NatToString(n / 10) + [DigitChar(n % 10)]
  }

  /** Reads back a string of decimal digits. */
  function ParseNat(s: string): nat
    requires forall i :: 0 <= i < |s| ==> '0' <= s[i] <= '9'
    decreases |s|
  {
    if |s| == 0 then 0 else ParseNat(s[..|s| - 1]) * 10 + (s[|s| - 1] as int - '0' as int)
  }

  /** The decimal rendering loses nothing: reading it back gives the number. */
  lemma {:induction false} NatToStringRoundTrip(n: nat)
    ensures ParseNat(NatToString(n)) == n
    decreases n
  {
    if n >= 10 {
      var s := NatToString(n);
      assert s[..|s| - 1] == NatToString(n / 10);
      NatToStringRoundTrip(n / 10);
    }
  }

  /** `String(i)` for an integer. */
  function IntToString(i: int): (s: string)
    ensures i < 0 <==> (|s| > 0 && s[0] == '-')
  {
    if i < 0 then "-" + NatToString(-i) else NatToString(i)
  }
}
