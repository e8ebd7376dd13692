/** The JSON string escape applied to the prompt (handler.py:164): the body of
    Python's `json.dumps(prompt)` with its default `ensure_ascii=True`, and a
    decoder for JSON strings as section 7 of RFC 8259 defines them. */
module JsonString {
  import opened Outcomes

  /** Lower-case hexadecimal digit, as Python's `'{0:04x}'` writes it. */
  function HexDigit(d: int): (c: char)
    requires 0 <= d < 16
    ensures IsPrintableAscii(c)
  {
    if d < 10 then ('0' as int + d) as char else ('a' as int + d - 10) as char
  }

  predicate IsHexChar(c: char) {
    ('0' <= c <= '9') || ('a' <= c <= 'f') || ('A' <= c <= 'F')
  }

  /** Value of a hexadecimal digit; RFC 8259 accepts both cases. */
  function HexValue(c: char): (d: int)
    requires IsHexChar(c)
    ensures 0 <= d < 16
  {
    if '0' <= c <= '9' then c as int - '0' as int
    else if 'a' <= c <= 'f' then c as int - 'a' as int + 10
    else c as int - 'A' as int + 10
  }

  lemma HexDigitValue(d: int)
    requires 0 <= d < 16
    ensures IsHexChar(HexDigit(d)) && HexValue(HexDigit(d)) == d
  {
  }

  /** Two lower-case hexadecimal digits of a byte. */
  function Hex2(b: int): (h: string)
    requires 0 <= b < 0x100
    ensures |h| == 2 && IsPrintableAscii(h[0]) && IsPrintableAscii(h[1])
  {
    [HexDigit(b / 0x10), HexDigit(b % 0x10)]
  }

  /** Four lower-case hexadecimal digits of a 16-bit code unit. */
  function Hex4(n: int): (h: string)
    requires 0 <= n < 0x10000
    ensures |h| == 4 && forall i :: 0 <= i < 4 ==> IsPrintableAscii(h[i])
  {
    Hex2(n / 0x100) + Hex2(n % 0x100)
  }

  predicate IsHex2(h: string) {
    |h| == 2 && IsHexChar(h[0]) && IsHexChar(h[1])
  }

  predicate IsHex4(h: string) {
    |h| == 4 && IsHex2(h[..2]) && IsHex2(h[2..])
  }

  function Hex2Value(h: string): (n: int)
    requires IsHex2(h)
    ensures 0 <= n < 0x100
  {
    HexValue(h[0]) * 0x10 + HexValue(h[1])
  }

  function Hex4Value(h: string): (n: int)
    requires IsHex4(h)
    ensures 0 <= n < 0x10000
  {
    Hex2Value(h[..2]) * 0x100 + Hex2Value(h[2..])
  }

  lemma Hex2RoundTrip(b: int)
    requires 0 <= b < 0x100
    ensures IsHex2(Hex2(b)) && Hex2Value(Hex2(b)) == b
  {
    HexDigitValue(b / 0x10);
    HexDigitValue(b % 0x10);
  }

  lemma Hex4RoundTrip(n: int)
    requires 0 <= n < 0x10000
    ensures IsHex4(Hex4(n)) && Hex4Value(Hex4(n)) == n
  {
    var h := Hex4(n);
    Hex2RoundTrip(n / 0x100);
    Hex2RoundTrip(n % 0x100);
    assert h[..2] == Hex2(n / 0x100);
    assert h[2..] == Hex2(n % 0x100);
  }

  /** The two-character escape `\\x` of a character, if it has one. */
  function ShortEscape(c: char): (r: Option<char>)
  {
    if c == '"' then Some('"')
    else if c == '\\' then Some('\\')
    else if c == '\n' then Some('n')
    else if c == '\r' then Some('r')
    else if c == '\t' then Some('t')
    else if c == '\U{8}' then Some('b')
    else if c == '\U{C}' then Some('f')
    else None
  }

  /** `\uXXXX` for a code unit below U+10000. */
  function UnicodeEscape(n: int): (e: string)
    requires 0 <= n < 0x10000
    ensures |e| == 6 && forall i :: 0 <= i < 6 ==> IsPrintableAscii(e[i])
  {
    ['\\', 'u'] + Hex4(n)
  }

  /** The escape of one character, as Python's ASCII-only encoder writes it:
      the two-character escapes for `"`, `\`, newline, carriage return, tab,
      backspace and form feed; printable ASCII as itself; every other
      character below U+10000 as `\uXXXX`, and every character above it as a
      UTF-16 surrogate pair of `\uXXXX` escapes. */
  function EscapeChar(c: char): (e: string)
    ensures |e| > 0 && forall i :: 0 <= i < |e| ==> IsPrintableAscii(e[i])
  {
    match ShortEscape(c)
    case Some(x) => ['\\', x]
    case None =>
      if ' ' <= c <= '~' then [c]
      else if c as int < 0x10000 then UnicodeEscape(c as int)
      else
        var v := c as int - 0x10000;
        UnicodeEscape(0xD800 + v / 0x400) + UnicodeEscape(0xDC00 + v % 0x400)
  }

  predicate IsPrintableAscii(c: char) {
    ' ' <= c <= '~'
  }

  /** The body of `json.dumps(s)`: the escapes of the characters, in order.
      The result is pure printable ASCII. */
  function Escape(s: string): (r: string)
    ensures forall i :: 0 <= i < |r| ==> IsPrintableAscii(r[i])
  {
    if s == [] then []
    else EscapeChar(s[0]) + Escape(s[1..])
  }

  /** Python's `json.dumps(s)` for a string `s`. */
  function Dumps(s: string): (r: string)
    ensures |r| >= 2 && r[0] == '"' && r[|r| - 1] == '"'
    ensures forall i :: 0 <= i < |r| ==> IsPrintableAscii(r[i])
  {
    ['"'] + Escape(s) + ['"']
  }

  /** `json.dumps(prompt)[1:-1]`, the text spliced into the workflow (handler.py:164). */
  function EscapedPrompt(prompt: string): (r: string)
    ensures r == Escape(prompt)
    ensures forall i :: 0 <= i < |r| ==> IsPrintableAscii(r[i])
  {
    var d := Dumps(prompt);
    d[1..|d| - 1]
  }

  /** The character a two-character escape `\\x` stands for (RFC 8259, section 7). */
  function DecodeShortEscape(x: char): (r: Option<char>)
  {
    if x == '"' then Some('"')
    else if x == '\\' then Some('\\')
    else if x == '/' then Some('/')
    else if x == 'b' then Some('\U{8}')
    else if x == 'f' then Some('\U{C}')
    else if x == 'n' then Some('\n')
    else if x == 'r' then Some('\r')
    else if x == 't' then Some('\t')
    else None
  }

  /** Reads `\uXXXX` at the start of `s`, giving its code unit. */
  function DecodeUnit(s: string): (r: Option<int>)
    ensures r.Some? ==> |s| >= 6 && 0 <= r.value < 0x10000
  {
    if |s| >= 6 && s[0] == '\\' && s[1] == 'u' && IsHex4(s[2..6]) then Some(Hex4Value(s[2..6]))
    else None
  }

  /** Reads a `\uXXXX` escape of a non-surrogate code point, or a surrogate pair
      of two such escapes; an unpaired surrogate is rejected. */
  function DecodeUnicode(s: string): (r: Option<(char, nat)>)
    ensures r.Some? ==> 0 < r.value.1 <= |s|
  {
    match DecodeUnit(s)
    case None => None
    case Some(hi) =>
      if 0xD800 <= hi < 0xDC00 then
        match DecodeUnit(s[6..])
        case None => None
        case Some(lo) =>
          if 0xDC00 <= lo < 0xE000 then Some(((0x10000 + (hi - 0xD800) * 0x400 + (lo - 0xDC00)) as char, 12))
          else None
      else if 0xDC00 <= hi < 0xE000 then None
      else Some((hi as char, 6))
  }

  /** Decodes one character of a JSON string body (RFC 8259, section 7): an
      unescaped character, a two-character escape, or a unicode escape.
      Returns the character and the number of input characters it takes. A
      bare `"`, a bare control character and an unknown escape are rejected. */
  function DecodeToken(s: string): (r: Option<(char, nat)>)
    ensures r.Some? ==> 0 < r.value.1 <= |s|
  {
    if |s| == 0 then None
    else if s[0] == '\\' then
      if |s| < 2 then None
      else if s[1] == 'u' then DecodeUnicode(s)
      else
        match DecodeShortEscape(s[1])
        case None => None
        case Some(c) => Some((c, 2))
    else if s[0] == '"' || s[0] < ' ' then None
    else Some((s[0], 1))
  }

  /** Decodes a whole JSON string body (the text between the quotes). */
  function DecodeBody(s: string): (r: Option<string>)
    decreases |s|
  {
    if s == [] then Some([])
    else
      match DecodeToken(s)
      case None => None
      case Some((c, n)) =>
        match DecodeBody(s[n..])
        case None => None
        case Some(rest) => Some([c] + rest)
  }

  /** Decodes a JSON string literal, quotes included. */
  function DecodeString(t: string): (r: Option<string>)
  {
    if |t| >= 2 && t[0] == '"' && t[|t| - 1] == '"' then DecodeBody(t[1..|t| - 1])
    else None
  }

  lemma DecodeUnitOf(n: int, rest: string)
    requires 0 <= n < 0x10000
    ensures DecodeUnit(UnicodeEscape(n) + rest) == Some(n)
  {
    var s := UnicodeEscape(n) + rest;
    Hex4RoundTrip(n);
    assert s[2..6] == Hex4(n);
  }

  /** A high and a low surrogate escape in a row decode to the character they encode. */
  lemma DecodePairOf(hi: int, lo: int, c: char, rest: string)
    requires 0xD800 <= hi < 0xDC00 && 0xDC00 <= lo < 0xE000
    requires 0x10000 + (hi - 0xD800) * 0x400 + (lo - 0xDC00) == c as int
    ensures DecodeUnicode(UnicodeEscape(hi) + (UnicodeEscape(lo) + rest)) == Some((c, 12))
  {
    var s := UnicodeEscape(hi) + (UnicodeEscape(lo) + rest);
    DecodeUnitOf(hi, UnicodeEscape(lo) + rest);
    assert s[6..] == UnicodeEscape(lo) + rest;
    DecodeUnitOf(lo, rest);
  }

  /** The surrogates of a character above U+FFFF are in range and recombine to it. */
  lemma SurrogateSplit(c: char, hi: int, lo: int)
    requires c as int >= 0x10000
    requires hi == 0xD800 + (c as int - 0x10000) / 0x400 && lo == 0xDC00 + (c as int - 0x10000) % 0x400
    ensures 0xD800 <= hi < 0xDC00 && 0xDC00 <= lo < 0xE000
    ensures 0x10000 + (hi - 0xD800) * 0x400 + (lo - 0xDC00) == c as int
  {
  }

  lemma EscapeAbove(c: char)
    requires c as int >= 0x10000
    ensures var v := c as int - 0x10000;
      0 <= v / 0x400 < 0x400 && EscapeChar(c) == UnicodeEscape(0xD800 + v / 0x400) + UnicodeEscape(0xDC00 + v % 0x400)
  {
    assert ShortEscape(c).None?;
  }

  lemma DecodeTokenUnicode(s: string)
    requires |s| >= 2 && s[0] == '\\' && s[1] == 'u'
    ensures DecodeToken(s) == DecodeUnicode(s)
  {
  }

  lemma DecodeSurrogatePair(c: char, rest: string)
    requires c as int >= 0x10000
    ensures DecodeToken(EscapeChar(c) + rest) == Some((c, 12))
  {
    var v := c as int - 0x10000;
    var hi, lo := 0xD800 + v / 0x400, 0xDC00 + v % 0x400;
    SurrogateSplit(c, hi, lo);
    EscapeAbove(c);
    var s := UnicodeEscape(hi) + (UnicodeEscape(lo) + rest);
    assert EscapeChar(c) + rest == s;
    DecodePairOf(hi, lo, c, rest);
    DecodeTokenUnicode(s);
  }

  /** The decoder reads back exactly the character whose escape starts the input. */
  lemma DecodeEscapeChar(c: char, rest: string)
    ensures DecodeToken(EscapeChar(c) + rest) == Some((c, |EscapeChar(c)|))
  {
    var s := EscapeChar(c) + rest;
    if ShortEscape(c).Some? {
      assert s[0] == '\\' && s[1] == ShortEscape(c).value;
    } else if ' ' <= c <= '~' {
      assert s[0] == c;
    } else if c as int < 0x10000 {
      DecodeUnitOf(c as int, rest);
      assert s[1] == 'u';
    } else {
      DecodeSurrogatePair(c, rest);
    }
  }

  /** `s` put in front of a decoded text, when decoding succeeded. */
  function PrefixWith(s: string, r: Option<string>): Option<string>
  {
    match r
    case None => None
    case Some(t) => Some(s + t)
  }

  /** One decoding step: the first character, then the rest of the body. */
  lemma DecodeBodyStep(x: string, c: char, n: nat)
    requires DecodeToken(x) == Some((c, n))
    ensures n <= |x| && DecodeBody(x) == PrefixWith([c], DecodeBody(x[n..]))
  {
  }

  /** Decoding the escape of `c` followed by `tail` yields `c`, then the decoding of `tail`. */
  lemma DecodeEscapeCons(c: char, tail: string)
    ensures DecodeBody(EscapeChar(c) + tail) == PrefixWith([c], DecodeBody(tail))
  {
    var e := EscapeChar(c);
    DecodeEscapeChar(c, tail);
    assert (e + tail)[|e|..] == tail;
    DecodeBodyStep(e + tail, c, |e|);
  }

  /** Decoding the escape of `s` followed by `rest` decodes `s` and then `rest`. */
  lemma {:induction false} DecodeEscapeThen(s: string, rest: string)
    ensures DecodeBody(Escape(s) + rest) == PrefixWith(s, DecodeBody(rest))
  {
    if s == [] {
      assert Escape(s) + rest == rest;
      match DecodeBody(rest)
      case None =>
      case Some(t) => assert s + t == t;
    } else {
      var tail := Escape(s[1..]) + rest;
      EscapeCons(s, rest);
      DecodeEscapeCons(s[0], tail);
      DecodeEscapeThen(s[1..], rest);
      PrefixWithCons(s[0], s[1..], DecodeBody(rest));
      assert [s[0]] + s[1..] == s;
    }
  }

  lemma EscapeCons(s: string, rest: string)
    requires s != []
    ensures Escape(s) + rest == EscapeChar(s[0]) + (Escape(s[1..]) + rest)
  {
  }

  lemma PrefixWithCons(c: char, s: string, r: Option<string>)
    ensures PrefixWith([c], PrefixWith(s, r)) == PrefixWith([c] + s, r)
  {
    match r
    case None =>
    case Some(t) => assert [c] + (s + t) == ([c] + s) + t;
  }

  /** The escape decodes back to exactly the original text. */
  lemma EscapeRoundTrip(s: string)
    ensures DecodeBody(Escape(s)) == Some(s)
  {
    DecodeEscapeThen(s, []);
    assert Escape(s) + [] == Escape(s);
    assert DecodeBody([]) == Some([]);
    assert s + [] == s;
  }

  /** The escaped prompt, put back between quotes, decodes to exactly the prompt. */
  lemma DumpsRoundTrip(s: string)
    ensures DecodeString(Dumps(s)) == Some(s)
  {
    var d := Dumps(s);
    assert d[1..|d| - 1] == Escape(s);
    EscapeRoundTrip(s);
  }

  /** Printable ASCII other than `"` and `\` is its own escape. */
  lemma {:induction false} PlainTextEscapesToItself(s: string)
    requires forall i :: 0 <= i < |s| ==> IsPrintableAscii(s[i]) && s[i] != '"' && s[i] != '\\'
    ensures Escape(s) == s
  {
    if s != [] {
      assert EscapeChar(s[0]) == [s[0]];
      PlainTextEscapesToItself(s[1..]);
    }
  }
}
