/**
 * How `JSON.stringify` writes a string (the QuoteJSONString operation of
 * ECMA-262): between double quotes, `"` and `\` are escaped with a backslash,
 * backspace, tab, newline, form feed and carriage return get their short
 * escapes, every other character below U+0020 becomes `\u00` and two lower-case
 * hexadecimal digits, and everything else is written as it is. Characters here
 * are Unicode scalar values, so the escape of a lone surrogate does not arise.
 */
module Json {
  import opened Wrappers
  import Percent

  /** The lower-case hexadecimal digit for `d`. */
  function LowerHexDigit(d: nat): (c: char)
    requires d < 16
    ensures Percent.HexValue(c) == Some(d)
  {
    if d < 10 then (d + '0' as int) as char else (d - 10 + 'a' as int) as char
  }

  /** The text `JSON.stringify` writes for one character of a string. */
  function EscapeChar(c: char): string {
    if c == '"' then "\\\""
    else if c == '\\' then "\\\\"
    else if c as int == 0x08 then "\\b"
    else if c == '\t' then "\\t"
    else if c == '\n' then "\\n"
    else if c as int == 0x0C then "\\f"
    else if c == '\r' then "\\r"
    else if c as int < 0x20 then "\\u00" + [LowerHexDigit(c as int / 16), LowerHexDigit(c as int % 16)]
    else [c]
  }

  /** The characters of `s`, each escaped. */
  function Escape(s: string): string
    decreases |s|
  {
    if |s| == 0 then "" else EscapeChar(s[0]) + Escape(s[1..])
  }

  /** `JSON.stringify(s)` for a string `s`. */
  function Quote(s: string): (r: string)
    ensures |r| >= 2 && r[0] == '"' && r[|r| - 1] == '"'
  {
    "\"" + Escape(s) + "\""
  }

  /** The character an escape `\x` stands for, for the short escapes. */
  function ShortEscape(x: char): Option<char> {
    if x == '"' then Some('"')
    else if x == '\\' then Some('\\')
    else if x == '/' then Some('/')
    else if x == 'b' then Some(0x08 as char)
    else if x == 't' then Some('\t')
    else if x == 'n' then Some('\n')
    else if x == 'f' then Some(0x0C as char)
    else if x == 'r' then Some('\r')
    else None
  }

  /**
   * Reads one character of the inside of a JSON string: a short escape, a `\u`
   * escape of four hexadecimal digits naming a character, or a character that
   * needs no escape. Gives the character and how many characters it took.
   */
  function ReadChar(t: string): (r: Option<(char, nat)>)
    requires |t| >= 1
    ensures r.Some? ==> 1 <= r.value.1 <= |t|
  {
    if t[0] == '\\' then
      if |t| >= 2 && ShortEscape(t[1]).Some? then Some((ShortEscape(t[1]).value, 2))
      else if |t| >= 6 && t[1] == 'u' && forall i :: 2 <= i < 6 ==> Percent.HexValue(t[i]).Some? then
        var n := ((Percent.HexValue(t[2]).value * 16 + Percent.HexValue(t[3]).value) * 16
                  + Percent.HexValue(t[4]).value) * 16 + Percent.HexValue(t[5]).value;
        if 0xD800 <= n < 0xE000 then None else Some((n as char, 6))
      else None
    else if t[0] == '"' || t[0] as int < 0x20 then None
    else Some((t[0], 1))
  }

  /** Reads the inside of a JSON string back into the characters it stands for. */
  function Unescape(t: string): Option<string>
    decreases |t|
  {
    if |t| == 0 then Some("")
    else
      match ReadChar(t)
      case None => None
      case Some((c, n)) =>
        match Unescape(t[n..])
        case None => None
        case Some(u) => Some([c] + u)
  }

  /** The escape of a character reads back as that character, whatever follows it. */
  lemma ReadEscapedChar(c: char, rest: string)
    ensures |EscapeChar(c)| >= 1
    ensures ReadChar(EscapeChar(c) + rest) == Some((c, |EscapeChar(c)|))
  {
    var t := EscapeChar(c) + rest;
    if c as int < 0x20 && c != '\t' && c != '\n' && c != '\r' && c as int != 0x08 && c as int != 0x0C {
      var hi, lo := c as int / 16, c as int % 16;
      assert t[..6] == ['\\', 'u', '0', '0', LowerHexDigit(hi), LowerHexDigit(lo)];
      assert t[2] == '0' && t[3] == '0' && t[4] == LowerHexDigit(hi) && t[5] == LowerHexDigit(lo);
      assert forall i :: 2 <= i < 6 ==> Percent.HexValue(t[i]).Some?;
    }
  }

  /** Reading back what `Escape` wrote gives the original string: nothing is lost or confused. */
  lemma {:induction false} UnescapeEscape(s: string)
    ensures Unescape(Escape(s)) == Some(s)
    decreases |s|
  {
    if |s| > 0 {
      var e, rest := EscapeChar(s[0]), Escape(s[1..]);
      ReadEscapedChar(s[0], rest);
      assert (e + rest)[|e|..] == rest;
      UnescapeEscape(s[1..]);
      assert [s[0]] + s[1..] == s;
    }
  }

  /** A string with nothing to escape is written between quotes as it is. */
  lemma {:induction false} EscapePlain(s: string)
    requires forall i :: 0 <= i < |s| ==> s[i] != '"' && s[i] != '\\' && s[i] as int >= 0x20
    ensures Escape(s) == s
    decreases |s|
  {
    if |s| > 0 {
      EscapePlain(s[1..]);
      assert [s[0]] + s[1..] == s;
    }
  }

  /** A quote inside the string is escaped: `a"b` is written `"a\"b"`. */
  lemma QuoteEscapesQuote()
    ensures Quote("a\"b") == "\"a\\\"b\""
  {
    assert Escape("b") == "b" + Escape("");
    assert Escape("\"b") == "\\\"" + Escape("b");
    assert Escape("a\"b") == "a" + Escape("\"b");
  }
}
