/** String literals as `JSON.stringify` writes them for a string value:
    the JSON string grammar of section 7 of RFC 8259, with the escapes that
    ECMAScript's QuoteJSONString chooses (short escapes for quote,
    backslash, backspace, form feed, newline, carriage return and tab;
    lower-case `\u00XX` for the other control characters; every other
    character verbatim). A reader for the same grammar gives the round trip. */
module JsonString {
  import opened Wrappers

  const HexDigits: string := "0123456789abcdef"

  /** Four lower-case hexadecimal digits of a code unit. */
  function Hex4(n: nat): (h: string)
    requires n < 0x1_0000
    ensures |h| == 4
  {
    [HexDigits[n / 0x1000], HexDigits[(n / 0x100) % 16], HexDigits[(n / 0x10) % 16], HexDigits[n % 16]]
  }

  /** The escape QuoteJSONString writes for one character. */
  function EscapeChar(c: char): (e: string)
    ensures 1 <= |e| <= 6
    ensures forall k :: 0 <= k < |e| ==> e[k] as int >= 0x20
  {
    if c == '"' then "\\\""
    else if c == '\\' then "\\\\"
    else if c == '\U{0008}' then "\\b"
    else if c == '\U{000C}' then "\\f"
    else if c == '\n' then "\\n"
    else if c == '\r' then "\\r"
    else if c == '\t' then "\\t"
    else if c as int < 0x20 then "\\u" + Hex4(c as int)
    else [c]
  }

  /** The body of the literal: every character escaped in turn. Each
      character takes one to six characters, so the body is empty exactly
      when the string is. */
  function Escape(s: string): (r: string)
    ensures |s| <= |r| <= 6 * |s|
    decreases |s|
  {
    if |s| == 0 then "" else EscapeChar(s[0]) + Escape(s[1..])
  }

  /** An escaped body holds no control character and no unescaped quote. */
  lemma {:induction false} EscapeIsPrintable(s: string)
    ensures forall k :: 0 <= k < |Escape(s)| ==> Escape(s)[k] as int >= 0x20
    decreases |s|
  {
    if |s| > 0 {
      EscapeIsPrintable(s[1..]);
    }
  }

  /** `JSON.stringify(s)` for a string `s`: the quoted, escaped literal. It
      starts and ends with a quote and contains no control character, so in
      particular no raw line break. */
  function Quote(s: string): (r: string)
    ensures |r| >= 2 && r[0] == '"' && r[|r| - 1] == '"'
    ensures forall k :: 0 <= k < |r| ==> r[k] as int >= 0x20
  {
    EscapeIsPrintable(s);
    "\"" + Escape(s) + "\""
  }

  // ---------------------------------------------------------------------
  // Reading a literal back

  /** The value of one hexadecimal digit, either case. */
  function HexValue(c: char): (r: Option<nat>)
    ensures r.Some? ==> r.value < 16
  {
    if '0' <= c <= '9' then Some(c as int - '0' as int)
    else if 'a' <= c <= 'f' then Some(c as int - 'a' as int + 10)
    else if 'A' <= c <= 'F' then Some(c as int - 'A' as int + 10)
    else None
  }

  /** Puts a decoded character in front of a successful read. */
  function Prepend(c: char, r: Option<(string, string)>): Option<(string, string)> {
    if r.None? then None else Some(([c] + r.value.0, r.value.1))
  }

  /** The character a two-character escape `\x` stands for, if `x` is one of
      the short escapes of the grammar. */
  function ShortEscape(x: char): Option<char> {
    if x == '"' then Some('"')
    else if x == '\\' then Some('\\')
    else if x == '/' then Some('/')
    else if x == 'b' then Some('\U{0008}')
    else if x == 'f' then Some('\U{000C}')
    else if x == 'n' then Some('\n')
    else if x == 'r' then Some('\r')
    else if x == 't' then Some('\t')
    else None
  }

  /** Reads a literal body up to its closing quote: the decoded string and
      the text after the quote, or None when the text is not a well-formed
      body. A `\u` escape naming a surrogate half is refused. */
  function ReadBody(t: string): (r: Option<(string, string)>)
    ensures r.Some? ==> |r.value.1| < |t|
    decreases |t|
  {
    if |t| == 0 then None
    else if t[0] == '"' then Some(("", t[1..]))
    else if t[0] as int < 0x20 then None
    else if t[0] != '\\' then Prepend(t[0], ReadBody(t[1..]))
    else if |t| < 2 then None
    else if t[1] == 'u' then
      if |t| < 6 then None
      else
        var h := [HexValue(t[2]), HexValue(t[3]), HexValue(t[4]), HexValue(t[5])];
        if h[0].None? || h[1].None? || h[2].None? || h[3].None? then None
        else
          var n := h[0].value * 0x1000 + h[1].value * 0x100 + h[2].value * 0x10 + h[3].value;
          if 0xD800 <= n < 0xE000 then None
          else Prepend(n as char, ReadBody(t[6..]))
    else if ShortEscape(t[1]).Some? then Prepend(ShortEscape(t[1]).value, ReadBody(t[2..]))
    else None
  }

  /** Reads one complete literal at the front of `t`. */
  function ReadLiteral(t: string): (r: Option<(string, string)>)
    ensures r.Some? ==> |r.value.1| < |t|
  {
    if |t| > 0 && t[0] == '"' then ReadBody(t[1..]) else None
  }

  lemma HexDigitValue(d: nat)
    requires d < 16
    ensures HexValue(HexDigits[d]) == Some(d)
  {
  }

  lemma ReadPlain(c: char, rest: string)
    requires c as int >= 0x20 && c != '"' && c != '\\'
    ensures ReadBody([c] + rest) == Prepend(c, ReadBody(rest))
  {
    assert ([c] + rest)[1..] == rest;
  }

  lemma ReadShort(x: char, rest: string)
    requires x != 'u' && ShortEscape(x).Some?
    ensures ReadBody(['\\', x] + rest) == Prepend(ShortEscape(x).value, ReadBody(rest))
  {
    assert (['\\', x] + rest)[2..] == rest;
  }

  lemma ReadControl(c: char, rest: string)
    requires c as int < 0x20
    ensures ReadBody("\\u" + Hex4(c as int) + rest) == Prepend(c, ReadBody(rest))
  {
    var n := c as int;
    var hi, lo := n / 0x10, n % 16;
    assert n / 0x1000 == 0 && (n / 0x100) % 16 == 0 && hi % 16 == hi;
    var t := "\\u" + Hex4(n) + rest;
    HexDigitValue(0);
    HexDigitValue(hi);
    HexDigitValue(lo);
    assert HexValue(t[2]) == Some(0) && HexValue(t[3]) == Some(0);
    assert HexValue(t[4]) == Some(hi) && HexValue(t[5]) == Some(lo);
    assert t[6..] == rest;
    ReadUnicode(t, 0, 0, hi, lo);
  }

  /** A `\uXXXX` escape of a code point outside the surrogate range reads
      as that character. */
  lemma ReadUnicode(t: string, d0: nat, d1: nat, d2: nat, d3: nat)
    requires |t| >= 6 && t[0] == '\\' && t[1] == 'u'
    requires HexValue(t[2]) == Some(d0) && HexValue(t[3]) == Some(d1)
    requires HexValue(t[4]) == Some(d2) && HexValue(t[5]) == Some(d3)
    requires var n := d0 * 0x1000 + d1 * 0x100 + d2 * 0x10 + d3; n < 0xD800 || 0xE000 <= n < 0x11_0000
    ensures ReadBody(t) == Prepend((d0 * 0x1000 + d1 * 0x100 + d2 * 0x10 + d3) as char, ReadBody(t[6..]))
  {
  }

  /** Reading one escaped character consumes exactly its escape. */
  lemma ReadEscapeChar(c: char, rest: string)
    ensures ReadBody(EscapeChar(c) + rest) == Prepend(c, ReadBody(rest))
  {
    if c == '"' {
      ReadShort('"', rest);
    } else if c == '\\' {
      ReadShort('\\', rest);
    } else if c == '\U{0008}' {
      ReadShort('b', rest);
    } else if c == '\U{000C}' {
      ReadShort('f', rest);
    } else if c == '\n' {
      ReadShort('n', rest);
    } else if c == '\r' {
      ReadShort('r', rest);
    } else if c == '\t' {
      ReadShort('t', rest);
    } else if c as int < 0x20 {
      ReadControl(c, rest);
    } else {
      ReadPlain(c, rest);
    }
  }

  /** The reader recovers an escaped body and stops right after its quote. */
  lemma {:induction false} ReadEscape(s: string, rest: string)
    ensures ReadBody(Escape(s) + "\"" + rest) == Some((s, rest))
    decreases |s|
  {
    if |s| == 0 {
      assert Escape(s) + "\"" + rest == "\"" + rest;
    } else {
      ReadEscape(s[1..], rest);
      assert Escape(s) + "\"" + rest == EscapeChar(s[0]) + (Escape(s[1..]) + "\"" + rest);
      ReadEscapeChar(s[0], Escape(s[1..]) + "\"" + rest);
      assert [s[0]] + s[1..] == s;
    }
  }

  /** Decoding a written literal gives back the original string, and the
      reader stops exactly at the end of the literal. */
  lemma QuoteRoundTrip(s: string, rest: string)
    ensures ReadLiteral(Quote(s) + rest) == Some((s, rest))
  {
    var t := Quote(s) + rest;
    assert t[1..] == Escape(s) + "\"" + rest;
    ReadEscape(s, rest);
  }
}
