/**
 * JSON strings as json.dumps writes them with ensure_ascii (RFC 8259, section
 * 7) and as json.loads reads them back.  A text is a sequence of Unicode scalar
 * values; the escapes of characters beyond U+FFFF are surrogate pairs.
 */
module Json {
  import opened Common

  // ------------------------------------------------------------------- hex

  function HexDigit(n: int): char
    requires 0 <= n < 16
  {
    if n < 10 then ('0' as int + n) as char else ('a' as int + n - 10) as char
  }

  function HexValue(c: char): Option<int> {
    if '0' <= c <= '9' then Some(c as int - '0' as int)
    else if 'a' <= c <= 'f' then Some(c as int - 'a' as int + 10)
    else if 'A' <= c <= 'F' then Some(c as int - 'A' as int + 10)
    else None
  }

  function Hex4(n: int): string
    requires 0 <= n < 0x10000
  {
    var a := n / 16;
    var b := a / 16;
    [HexDigit(b / 16), HexDigit(b % 16), HexDigit(a % 16), HexDigit(n % 16)]
  }

  function ReadHex4(s: string): Option<int> {
    if |s| < 4 then None else
      match (HexValue(s[0]), HexValue(s[1]), HexValue(s[2]), HexValue(s[3]))
      case (Some(a), Some(b), Some(c), Some(d)) => Some(16 * (16 * (16 * a + b) + c) + d)
      case _ => None
  }

  lemma Hex4RoundTrip(n: int, rest: string)
    requires 0 <= n < 0x10000
    ensures ReadHex4(Hex4(n) + rest) == Some(n)
  {
    var s := Hex4(n) + rest;
    var a := n / 16;
    var b := a / 16;
    HexDigitRoundTrip(b / 16);
    HexDigitRoundTrip(b % 16);
    HexDigitRoundTrip(a % 16);
    HexDigitRoundTrip(n % 16);
    assert s[0] == HexDigit(b / 16) && s[1] == HexDigit(b % 16);
    assert s[2] == HexDigit(a % 16) && s[3] == HexDigit(n % 16);
  }

  lemma HexDigitRoundTrip(n: int)
    requires 0 <= n < 16
    ensures HexValue(HexDigit(n)) == Some(n)
  {
  }

  // --------------------------------------------------------------- escaping

  function UnicodeEscape(n: int): (s: string)
    requires 0 <= n < 0x10000
    ensures |s| == 6 && s[0] == '\\'
  {
    "\\u" + Hex4(n)
  }

  function EscapeChar(c: char): (r: string)
    ensures |r| > 0
  {
    var n := c as int;
    if c == '\"' then "\\\""
    else if c == '\\' then "\\\\"
    else if n == 10 then "\\n"
    else if n == 13 then "\\r"
    else if n == 9 then "\\t"
    else if n == 8 then "\\b"
    else if n == 12 then "\\f"
    else if 32 <= n < 127 then [c]
    else if n < 0x10000 then UnicodeEscape(n)
    else UnicodeEscape(0xD800 + (n - 0x10000) / 1024) + UnicodeEscape(0xDC00 + (n - 0x10000) % 1024)
  }

  /** The escaped text and its closing quote. */
  function EscapeRest(s: string): string {
    if s == [] then "\"" else EscapeChar(s[0]) + EscapeRest(s[1..])
  }

  function Quote(s: string): string {
    "\"" + EscapeRest(s)
  }

  // --------------------------------------------------------------- scanning

  datatype Piece = Piece(c: char, length: nat)

  function SimpleEscape(c: char): Option<char> {
    if c == '\"' then Some('\"')
    else if c == '\\' then Some('\\')
    else if c == '/' then Some('/')
    else if c == 'n' then Some(10 as char)
    else if c == 'r' then Some(13 as char)
    else if c == 't' then Some(9 as char)
    else if c == 'b' then Some(8 as char)
    else if c == 'f' then Some(12 as char)
    else None
  }

  /** The character at the head of a string body; None is malformed or a lone surrogate. */
  function ReadPiece(s: string): (p: Option<Piece>)
    requires s != []
    ensures p.Some? ==> 0 < p.value.length <= |s|
  {
    if s[0] != '\\' then
      if s[0] as int < 32 then None else Some(Piece(s[0], 1))
    else if |s| < 2 then None
    else if s[1] != 'u' then
      match SimpleEscape(s[1])
      case None => None
      case Some(c) => Some(Piece(c, 2))
    else
      match ReadHex4(s[2..])
      case None => None
      case Some(n) => if 0 <= n < 0xD800 || 0xE000 <= n < 0x10000 then Some(Piece(n as char, 6)) else ReadPair(s, n)
  }

  function ReadPair(s: string, high: int): (p: Option<Piece>)
    requires |s| >= 6
    ensures p.Some? ==> p.value.length == 12 <= |s|
  {
    if |s| < 8 || s[6] != '\\' || s[7] != 'u' then None else
      match ReadHex4(s[8..])
      case None => None
      case Some(low) =>
        if 0xD800 <= high < 0xDC00 && 0xDC00 <= low < 0xE000 then
          Some(Piece((0x10000 + (high - 0xD800) * 1024 + (low - 0xDC00)) as char, 12))
        else None
  }

  /** The text up to the closing quote, and what follows it. */
  function Scan(s: string): (r: Option<(string, string)>)
    ensures r.Some? ==> |r.value.1| < |s|
  {
    if s == [] then None
    else if s[0] == '\"' then Some(("", s[1..]))
    else
      match ReadPiece(s)
      case None => None
      case Some(p) =>
        match Scan(s[p.length..])
        case None => None
        case Some(r) => Some(([p.c] + r.0, r.1))
  }

  function Unquote(s: string): (r: Option<(string, string)>)
    ensures r.Some? ==> |r.value.1| < |s|
  {
    if s == [] || s[0] != '\"' then None else Scan(s[1..])
  }

  /** The short escapes the reader takes are those of the writer and the escaped slash. */
  lemma ShortEscapesRead(letter: char, c: char)
    ensures SimpleEscape(letter) == Some(c)
       <==> (letter == '/' && c == '/') || exists k :: 0 <= k < |SHORT| && SHORT[k] == (c as int, letter)
  {
    assert SHORT[0] == (34, '\"') && SHORT[1] == (92, '\\') && SHORT[2] == (10, 'n') && SHORT[3] == (13, 'r')
           && SHORT[4] == (9, 't') && SHORT[5] == (8, 'b') && SHORT[6] == (12, 'f');
  }

  /** Hex digits are read in either case. */
  lemma HexReadsBothCases(n: int)
    requires 0 <= n < 16
    ensures HexValue(HEX[n]) == Some(n) && HexValue(UpperChar(HEX[n])) == Some(n)
  {
    HexDigitIsLower(n);
  }

  /** A character that is not escaped stands for itself, and a control character must be escaped. */
  lemma RawCharacters(c: char, rest: string)
    requires c != '\\'
    ensures ReadPiece([c] + rest).Some? <==> c as int >= 32
    ensures c as int >= 32 ==> ReadPiece([c] + rest).value.c == c && ReadPiece([c] + rest).value.length == 1
  {
    assert ([c] + rest)[0] == c;
  }

  // -------------------------------------------------------------- round trip

  lemma ReadEscaped(c: char, rest: string)
    ensures EscapeChar(c)[0] != '\"'
    ensures ReadPiece(EscapeChar(c) + rest) == Some(Piece(c, |EscapeChar(c)|))
  {
    var n := c as int;
    var s := EscapeChar(c) + rest;
    if c == '\"' || c == '\\' || n in {8, 9, 10, 12, 13} || 32 <= n < 127 {
      assert s[0] == EscapeChar(c)[0];
      if |EscapeChar(c)| == 2 { assert s[1] == EscapeChar(c)[1]; }
    } else if n < 0x10000 {
      assert s[..2] == "\\u" && s[2..] == Hex4(n) + rest;
      assert s[0] == s[..2][0] && s[1] == s[..2][1];
      Hex4RoundTrip(n, rest);
    } else {
      ReadEscapedPair(c, rest);
    }
  }

  lemma ReadEscapedPair(c: char, rest: string)
    requires c as int >= 0x10000
    ensures EscapeChar(c)[0] != '\"'
    ensures ReadPiece(EscapeChar(c) + rest) == Some(Piece(c, |EscapeChar(c)|))
  {
    hide ReadPiece, UnicodeEscape;
    var n := c as int - 0x10000;
    ReadPairOf(0xD800 + n / 1024, 0xDC00 + n % 1024, rest);
    assert (0x10000 + n / 1024 * 1024 + n % 1024) as char == c;
  }

  lemma ReadPairOf(high: int, low: int, rest: string)
    requires 0xD800 <= high < 0xDC00 <= low < 0xE000
    ensures ReadPiece(UnicodeEscape(high) + UnicodeEscape(low) + rest)
         == Some(Piece((0x10000 + (high - 0xD800) * 1024 + (low - 0xDC00)) as char, 12))
  {
    var s := UnicodeEscape(high) + UnicodeEscape(low) + rest;
    var tail := UnicodeEscape(low) + rest;
    assert s[2..] == Hex4(high) + tail;
    Hex4RoundTrip(high, tail);
    assert s[8..] == Hex4(low) + rest;
    Hex4RoundTrip(low, rest);
    assert s[0] == '\\' && s[1] == 'u' && s[6] == '\\' && s[7] == 'u';
  }

  lemma {:induction false} ScanEscaped(s: string, rest: string)
    ensures Scan(EscapeRest(s) + rest) == Some((s, rest))
  {
    var text := EscapeRest(s) + rest;
    if s == [] {
      assert text[0] == '\"' && text[1..] == rest;
    } else {
      var e := EscapeChar(s[0]);
      var tail := EscapeRest(s[1..]) + rest;
      assert text == e + tail;
      ReadEscaped(s[0], tail);
      assert text[0] == e[0];
      assert text[|e|..] == tail;
      ScanEscaped(s[1..], rest);
      assert [s[0]] + s[1..] == s;
    }
  }

  /** Reading a quoted text back gives the text and leaves what follows it. */
  lemma UnquoteQuoted(s: string, rest: string)
    ensures Unquote(Quote(s) + rest) == Some((s, rest))
  {
    hide Scan, EscapeRest;
    ScanEscaped(s, rest);
    assert (Quote(s) + rest)[1..] == EscapeRest(s) + rest;
  }

  /** A quoted text followed by anything can be split in one way only. */
  lemma QuoteIsPrefixFree(s: string, t: string, x: string, y: string)
    requires Quote(s) + x == Quote(t) + y
    ensures s == t && x == y
  {
    UnquoteQuoted(s, x);
    UnquoteQuoted(t, y);
  }

  lemma EscapeCharIsAscii(c: char)
    ensures forall x :: x in EscapeChar(c) ==> 32 <= x as int < 127
  {
    var n := c as int;
    if 0x10000 <= n {
      UnicodeEscapeIsAscii(0xD800 + (n - 0x10000) / 1024);
      UnicodeEscapeIsAscii(0xDC00 + (n - 0x10000) % 1024);
    } else if n >= 127 || n < 32 {
      UnicodeEscapeIsAscii(n);
    }
  }

  lemma UnicodeEscapeIsAscii(n: int)
    requires 0 <= n < 0x10000
    ensures forall x :: x in UnicodeEscape(n) ==> 32 <= x as int < 127
  {
  }

  /** json.dumps escapes everything outside printable ASCII. */
  lemma {:induction false} EscapedIsAscii(s: string)
    ensures forall c :: c in EscapeRest(s) ==> 32 <= c as int < 127
  {
    if s != [] {
      EscapeCharIsAscii(s[0]);
      EscapedIsAscii(s[1..]);
    }
  }

  const HEX := "0123456789abcdef"

  /** The short escapes and the letters they are written with. */
  const SHORT: seq<(int, char)> := [(34, '\"'), (92, '\\'), (10, 'n'), (13, 'r'), (9, 't'), (8, 'b'), (12, 'f')]

  predicate IsPlain(c: char) {
    32 <= c as int < 127 && c != '\"' && c != '\\'
  }

  /** Plain characters stay, seven have a short escape, and all others are written in lower-case hex. */
  lemma EscapeForms(c: char)
    ensures IsPlain(c) ==> EscapeChar(c) == [c]
    ensures forall k :: 0 <= k < |SHORT| && c as int == SHORT[k].0 ==> EscapeChar(c) == ['\\', SHORT[k].1]
    ensures !IsPlain(c) && (forall k :: 0 <= k < |SHORT| ==> c as int != SHORT[k].0) ==>
              |EscapeChar(c)| == if c as int < 0x10000 then 6 else 12
  {
    assert SHORT[0].0 == 34 && SHORT[1].0 == 92 && SHORT[2].0 == 10 && SHORT[3].0 == 13 && SHORT[4].0 == 9
           && SHORT[5].0 == 8 && SHORT[6].0 == 12;
  }

  lemma HexDigitIsLower(n: int)
    requires 0 <= n < 16
    ensures HexDigit(n) == HEX[n]
  {
  }

  /** A text of plain characters is quoted as it stands. */
  lemma {:induction false} PlainQuote(s: string)
    requires forall c <- s :: IsPlain(c)
    ensures Quote(s) == "\"" + s + "\""
  {
    if s != [] {
      PlainQuote(s[1..]);
      EscapeForms(s[0]);
      assert s == [s[0]] + s[1..];
      assert EscapeRest(s[1..]) == Quote(s[1..])[1..] == s[1..] + "\"";
    }
  }

  // ---------------------------------------------------------------- numbers

  function Digit(n: int): char
    requires 0 <= n < 10
  {
    ('0' as int + n) as char
  }

  /** A natural number in decimal. */
  function Digits(n: nat): (s: string)
    ensures |s| > 0
    ensures forall c :: c in s ==> '0' <= c <= '9'
  {
    if n < 10 then [Digit(n)] else Digits(n / 10) + [Digit(n % 10)]
  }

  /** The number a text of digits spells. */
  function NumberOf(s: string): int
    decreases |s|
  {
    if s == "" then 0 else 10 * NumberOf(s[..|s| - 1]) + (s[|s| - 1] as int - '0' as int)
  }

  /** The digits spell the number, without a leading zero. */
  lemma {:induction false} DigitsSpell(n: nat)
    ensures NumberOf(Digits(n)) == n
    ensures Digits(n)[0] == '0' ==> n == 0
  {
    var s := Digits(n);
    if n < 10 {
      assert s[..0] == "" && s[0] == Digit(n);
    } else {
      DigitsSpell(n / 10);
      assert s[..|s| - 1] == Digits(n / 10) && s[|s| - 1] == Digit(n % 10);
    }
  }

  lemma {:induction false} DigitsInjective(m: nat, n: nat)
    requires Digits(m) == Digits(n)
    ensures m == n
  {
    var s := Digits(m);
    if m < 10 && n < 10 {
      assert s[0] == Digit(m) && s[0] == Digit(n);
    } else if m >= 10 && n >= 10 {
      assert s[|s| - 1] == Digit(m % 10) && s[|s| - 1] == Digit(n % 10);
      assert s[..|s| - 1] == Digits(m / 10) && s[..|s| - 1] == Digits(n / 10);
      DigitsInjective(m / 10, n / 10);
    }
  }
}
