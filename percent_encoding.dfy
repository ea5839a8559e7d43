/**
 * `urllib.parse.quote(s)` with its default `safe="/"`: every character outside
 * the unreserved set of section 2.3 of RFC 3986 (letters, digits, "-", ".",
 * "_", "~") and "/" is written as the percent-encoded octets (section 2.1 of
 * RFC 3986, upper-case hexadecimal) of its UTF-8 encoding (RFC 3629).
 */
module PercentEncoding {
  import opened Wrappers

  type Byte = x: int | 0 <= x < 256

  /** Characters `quote` leaves as they are. */
  predicate Safe(c: char) {
    ('A' <= c <= 'Z') || ('a' <= c <= 'z') || ('0' <= c <= '9')
    || c == '-' || c == '.' || c == '_' || c == '~' || c == '/'
  }

  /** The UTF-8 encoding of one character (RFC 3629, section 3). */
  function Utf8(c: char): (r: seq<Byte>)
    ensures 1 <= |r| <= 4
    ensures (c as int < 128) == (|r| == 1)
    ensures c as int < 128 ==> r == [c as int]
  {
    var v := c as int;
    if v < 0x80 then [v]
    else if v < 0x800 then [0xC0 + v / 0x40, 0x80 + v % 0x40]
    else if v < 0x10000 then [0xE0 + v / 0x1000, 0x80 + v / 0x40 % 0x40, 0x80 + v % 0x40]
    else [0xF0 + v / 0x40000, 0x80 + v / 0x1000 % 0x40, 0x80 + v / 0x40 % 0x40, 0x80 + v % 0x40]
  }

  function Utf8Encode(s: string): seq<Byte> {
    if |s| == 0 then [] else Utf8(s[0]) + Utf8Encode(s[1..])
  }

  function HexDigit(d: nat): (c: char)
    requires d < 16
    ensures IsHexDigit(c) && HexValue(c) == d
  {
    if d < 10 then ('0' as int + d) as char else ('A' as int + d - 10) as char
  }

  /** The digits section 2.1 of RFC 3986 allows in a percent-encoding. */
  predicate IsHexDigit(c: char) {
    ('0' <= c <= '9') || ('A' <= c <= 'F') || ('a' <= c <= 'f')
  }

  function HexValue(c: char): (d: nat)
    requires IsHexDigit(c)
    ensures d < 16
  {
    if '0' <= c <= '9' then c as int - '0' as int
    else if 'A' <= c <= 'F' then c as int - 'A' as int + 10
    else c as int - 'a' as int + 10
  }

  /** Percent-encoded octets. */
  function Escape(bytes: seq<Byte>): (r: string)
    ensures |r| == 3 * |bytes|
  {
    if |bytes| == 0 then [] else ['%', HexDigit(bytes[0] / 16), HexDigit(bytes[0] % 16)] + Escape(bytes[1..])
  }

  function QuoteChar(c: char): string {
    if Safe(c) then [c] else Escape(Utf8(c))
  }

  /** `quote(s)` */
  function Quote(s: string): (r: string)
    ensures |r| >= |s|
  {
    if |s| == 0 then [] else QuoteChar(s[0]) + Quote(s[1..])
  }

  /** A character of `quote`'s output: a safe character, "%" or an upper-case hexadecimal digit. */
  predicate QuotedChar(c: char) {
    Safe(c) || c == '%' || ('A' <= c <= 'F')
  }

  /** Text with only safe characters is left unchanged. */
  lemma {:induction false} QuoteSafeText(s: string)
    requires forall i :: 0 <= i < |s| ==> Safe(s[i])
    ensures Quote(s) == s
  {
    if |s| > 0 {
      QuoteSafeText(s[1..]);
      assert s == [s[0]] + s[1..];
    }
  }

  lemma {:induction false} EscapeChars(bytes: seq<Byte>)
    ensures forall i :: 0 <= i < |Escape(bytes)| ==> QuotedChar(Escape(bytes)[i])
  {
    if |bytes| > 0 {
      EscapeChars(bytes[1..]);
      var head: string := ['%', HexDigit(bytes[0] / 16), HexDigit(bytes[0] % 16)];
      assert Escape(bytes) == head + Escape(bytes[1..]);
    }
  }

  /** The output is plain ASCII drawn from the safe characters, "%" and hexadecimal digits. */
  lemma {:induction false} QuoteOutput(s: string)
    ensures forall i :: 0 <= i < |Quote(s)| ==> QuotedChar(Quote(s)[i])
  {
    if |s| > 0 {
      QuoteOutput(s[1..]);
      EscapeChars(Utf8(s[0]));
      assert Quote(s) == QuoteChar(s[0]) + Quote(s[1..]);
    }
  }

  /** The reverse of percent-encoding: the octets written by a percent-encoded text,
      or `None` when it holds a stray "%" or a non-ASCII character. */
  function Unpercent(t: string): Option<seq<Byte>> {
    if |t| == 0 then Some([])
    else if t[0] == '%' then
      if |t| >= 3 && IsHexDigit(t[1]) && IsHexDigit(t[2]) then
        match Unpercent(t[3..])
        case Some(rest) => Some([HexValue(t[1]) * 16 + HexValue(t[2])] + rest)
        case None => None
      else None
    else if t[0] as int < 128 then
      match Unpercent(t[1..])
      case Some(rest) => Some([t[0] as int] + rest)
      case None => None
    else None
  }

  lemma {:induction false} UnpercentEscape(bytes: seq<Byte>, t: string)
    requires Unpercent(t).Some?
    ensures Unpercent(Escape(bytes) + t) == Some(bytes + Unpercent(t).value)
  {
    if |bytes| > 0 {
      var b := bytes[0];
      var head: string := ['%', HexDigit(b / 16), HexDigit(b % 16)];
      assert Escape(bytes) + t == head + (Escape(bytes[1..]) + t);
      UnpercentEscape(bytes[1..], t);
      var u := head + (Escape(bytes[1..]) + t);
      assert u[3..] == Escape(bytes[1..]) + t;
      assert u[0] == '%' && u[1] == HexDigit(b / 16) && u[2] == HexDigit(b % 16);
      assert HexValue(u[1]) * 16 + HexValue(u[2]) == b;
      var v := Unpercent(t).value;
      assert Unpercent(u) == Some([b] + (bytes[1..] + v));
      assert [b] + (bytes[1..] + v) == bytes + v;
    } else {
      assert Escape(bytes) + t == t;
      assert bytes + Unpercent(t).value == Unpercent(t).value;
    }
  }

  /** Decoding the percent-encodings of `quote(s)` gives back the UTF-8 octets of `s`. */
  lemma {:induction false} UnpercentQuote(s: string)
    ensures Unpercent(Quote(s)) == Some(Utf8Encode(s))
  {
    if |s| > 0 {
      var c := s[0];
      UnpercentQuote(s[1..]);
      if Safe(c) {
        assert Quote(s) == [c] + Quote(s[1..]);
        assert ([c] + Quote(s[1..]))[1..] == Quote(s[1..]);
      } else {
        assert Quote(s) == Escape(Utf8(c)) + Quote(s[1..]);
        UnpercentEscape(Utf8(c), Quote(s[1..]));
      }
    }
  }
}
