/**
 * Percent-decoding as `decodeURIComponent` performs it (section 2.1 of RFC 3986):
 * every `%` must start an escape of two hexadecimal digits, the escaped octet
 * replaces the escape, and every other character passes through unchanged.
 */
module Percent {
  import opened Wrappers

  /** The value of the hexadecimal digit `c`, if it is one. */
  function HexValue(c: char): (r: Option<nat>)
    ensures r.Some? ==> r.value < 16
  {
    if '0' <= c <= '9' then Some(c as int - '0' as int)
    else if 'a' <= c <= 'f' then Some(c as int - 'a' as int + 10)
    else if 'A' <= c <= 'F' then Some(c as int - 'A' as int + 10)
    else None
  }

  /**
   * `decodeURIComponent(s)`. A `%` not followed by two hexadecimal digits throws
   * URIError; so does an escaped octet of 0x80 or more (see README, "Left out").
   */
  function Decode(s: string): (r: Result<string>)
    ensures r.Success? ==> |r.value| <= |s|
    ensures r.Failure? ==> r.error == UriMalformed
    decreases |s|
  {
    if |s| == 0 then Success("")
    else if s[0] != '%' then
      match Decode(s[1..])
      case Success(t) => Success([s[0]] + t)
      case Failure(e) => Failure(e)
    else if |s| < 3 || HexValue(s[1]).None? || HexValue(s[2]).None? then Failure(UriMalformed)
    else
      var octet := HexValue(s[1]).value * 16 + HexValue(s[2]).value;
      if octet >= 0x80 then Failure(UriMalformed)
      else
        match Decode(s[3..])
        case Success(t) => Success([octet as char] + t)
        case Failure(e) => Failure(e)
  }

  /** The characters `encodeURIComponent` leaves unescaped. */
  predicate Unreserved(c: char) {
    ('A' <= c <= 'Z') || ('a' <= c <= 'z') || ('0' <= c <= '9')
    || c in {'-', '_', '.', '!', '~', '*', '\'', '(', ')'}
  }

  /** The upper-case hexadecimal digit for `d`. */
  function HexDigit(d: nat): (c: char)
    requires d < 16
    ensures HexValue(c) == Some(d)
  {
    if d < 10 then (d + '0' as int) as char else (d - 10 + 'A' as int) as char
  }

  /**
   * The inverse of Decode: escapes every ASCII character outside the unreserved
   * set (the `%` sign included) and leaves the others as they are.
   */
  function Encode(s: string): (r: string)
    ensures |r| >= |s|
    decreases |s|
  {
    if |s| == 0 then ""
    else if s[0] as int < 0x80 && !Unreserved(s[0]) then
      ['%', HexDigit(s[0] as int / 16), HexDigit(s[0] as int % 16)] + Encode(s[1..])
    else [s[0]] + Encode(s[1..])
  }

  /** Decoding an encoded string gives the string back. */
  lemma {:induction false} DecodeEncode(s: string)
    ensures Decode(Encode(s)) == Success(s)
    decreases |s|
  {
    if |s| > 0 {
      DecodeEncode(s[1..]);
      var e := Encode(s);
      if s[0] as int < 0x80 && !Unreserved(s[0]) {
        assert e[3..] == Encode(s[1..]);
        assert e[0] == '%';
        assert (s[0] as int / 16) * 16 + s[0] as int % 16 == s[0] as int;
      } else {
        assert s[0] != '%';
        assert e[1..] == Encode(s[1..]);
      }
      assert [s[0]] + s[1..] == s;
    }
  }

  /** A string without `%` decodes to itself. */
  lemma {:induction false} DecodeWithoutEscapes(s: string)
    requires '%' !in s
    ensures Decode(s) == Success(s)
    decreases |s|
  {
    if |s| > 0 {
      DecodeWithoutEscapes(s[1..]);
      assert [s[0]] + s[1..] == s;
    }
  }
}
