/** base64 with the URL-safe alphabet and padding (RFC 4648, section 5). */
module Base64 {
  import opened Common

  type Byte = b: int | 0 <= b < 256

  function Symbol(v: int): char
    requires 0 <= v < 64
  {
    if v < 26 then ('A' as int + v) as char
    else if v < 52 then ('a' as int + v - 26) as char
    else if v < 62 then ('0' as int + v - 52) as char
    else if v == 62 then '-'
    else '_'
  }

  /** The reader maps - and _ to + and / first, so it takes either spelling. */
  function SymbolValue(c: char): (v: Option<int>)
    ensures v.Some? ==> 0 <= v.value < 64
  {
    if 'A' <= c <= 'Z' then Some(c as int - 'A' as int)
    else if 'a' <= c <= 'z' then Some(c as int - 'a' as int + 26)
    else if '0' <= c <= '9' then Some(c as int - '0' as int + 52)
    else if c == '-' || c == '+' then Some(62)
    else if c == '_' || c == '/' then Some(63)
    else None
  }

  function Encode(bytes: seq<Byte>): string {
    if bytes == [] then ""
    else if |bytes| == 1 then
      [Symbol(bytes[0] / 4), Symbol(bytes[0] % 4 * 16), '=', '=']
    else if |bytes| == 2 then
      [Symbol(bytes[0] / 4), Symbol(bytes[0] % 4 * 16 + bytes[1] / 16), Symbol(bytes[1] % 16 * 4), '=']
    else
      [Symbol(bytes[0] / 4), Symbol(bytes[0] % 4 * 16 + bytes[1] / 16),
       Symbol(bytes[1] % 16 * 4 + bytes[2] / 64), Symbol(bytes[2] % 64)] + Encode(bytes[3..])
  }

  /** None is a rejected text: a foreign character, a wrong length, or padding that is not at the end. */
  function Decode(text: string): Option<seq<Byte>> {
    if text == "" then Some([])
    else if |text| < 4 then None
    else
      match (SymbolValue(text[0]), SymbolValue(text[1]))
      case (Some(a), Some(b)) =>
        if text[2] == '=' then
          if text[3] == '=' && |text| == 4 then Some([a * 4 + b / 16]) else None
        else
          (match SymbolValue(text[2])
           case None => None
           case Some(c) =>
             if text[3] == '=' then
               if |text| == 4 then Some([a * 4 + b / 16, b % 16 * 16 + c / 4]) else None
             else
               match (SymbolValue(text[3]), Decode(text[4..]))
               case (Some(d), Some(rest)) => Some([a * 4 + b / 16, b % 16 * 16 + c / 4, c % 4 * 64 + d] + rest)
               case _ => None)
      case _ => None
  }

  lemma SymbolRoundTrip(v: int)
    requires 0 <= v < 64
    ensures SymbolValue(Symbol(v)) == Some(v) && Symbol(v) != '='
  {
  }

  /** Twenty-four bits split into sixes and put together again. */
  lemma Regrouped(x: Byte, y: Byte, z: Byte)
    ensures x / 4 * 4 + (x % 4 * 16 + y / 16) / 16 == x
    ensures (x % 4 * 16 + y / 16) % 16 * 16 + (y % 16 * 4 + z / 64) / 4 == y
    ensures (y % 16 * 4 + z / 64) % 4 * 64 + z % 64 == z
  {
  }

  /** A whole group is read back and leaves what follows it. */
  lemma GroupRoundTrip(x: Byte, y: Byte, z: Byte, rest: string)
    ensures
      var group := [Symbol(x / 4), Symbol(x % 4 * 16 + y / 16), Symbol(y % 16 * 4 + z / 64), Symbol(z % 64)];
      Decode(group + rest) == if Decode(rest).None? then None else Some([x, y, z] + Decode(rest).value)
  {
    hide Symbol, SymbolValue;
    SymbolRoundTrip(x / 4);
    SymbolRoundTrip(x % 4 * 16 + y / 16);
    SymbolRoundTrip(y % 16 * 4 + z / 64);
    SymbolRoundTrip(z % 64);
    Regrouped(x, y, z);
    var group := [Symbol(x / 4), Symbol(x % 4 * 16 + y / 16), Symbol(y % 16 * 4 + z / 64), Symbol(z % 64)];
    assert (group + rest)[4..] == rest;
  }

  lemma LastGroupRoundTrip(x: Byte, y: Byte)
    ensures Decode([Symbol(x / 4), Symbol(x % 4 * 16), '=', '=']) == Some([x])
    ensures Decode([Symbol(x / 4), Symbol(x % 4 * 16 + y / 16), Symbol(y % 16 * 4), '=']) == Some([x, y])
  {
    hide Symbol, SymbolValue;
    SymbolRoundTrip(x / 4);
    SymbolRoundTrip(x % 4 * 16);
    SymbolRoundTrip(x % 4 * 16 + y / 16);
    SymbolRoundTrip(y % 16 * 4);
    PartRegrouped(x, y);
  }

  lemma PartRegrouped(x: Byte, y: Byte)
    ensures x / 4 * 4 + x % 4 * 16 / 16 == x
    ensures x / 4 * 4 + (x % 4 * 16 + y / 16) / 16 == x
    ensures (x % 4 * 16 + y / 16) % 16 * 16 + y % 16 * 4 / 4 == y
  {
  }

  lemma {:induction false} RoundTrip(bytes: seq<Byte>)
    ensures Decode(Encode(bytes)) == Some(bytes)
    decreases |bytes|
  {
    hide Symbol, Decode;
    if |bytes| > 2 {
      RoundTrip(bytes[3..]);
      GroupRoundTrip(bytes[0], bytes[1], bytes[2], Encode(bytes[3..]));
      assert [bytes[0], bytes[1], bytes[2]] + bytes[3..] == bytes;
    } else if |bytes| == 2 {
      LastGroupRoundTrip(bytes[0], bytes[1]);
      assert bytes == [bytes[0], bytes[1]];
    } else if |bytes| == 1 {
      LastGroupRoundTrip(bytes[0], 0);
      assert bytes == [bytes[0]];
    } else {
      NothingDecodes();
    }
  }

  lemma NothingDecodes()
    ensures Decode("") == Some([])
  {
  }

  /** The alphabet of RFC 4648, section 5. */
  const ALPHABET := CAPITALS + SMALL + "0123456789-_"

  lemma SymbolIsStandard(v: int)
    requires 0 <= v < 64
    ensures Symbol(v) == ALPHABET[v]
  {
    if v < 26 {
      SmallLetter(v);
    } else if v < 52 {
      SmallLetter(v - 26);
    }
  }

  /** The reader takes the alphabet, and + and / beside - and _. */
  lemma SymbolValueIff(c: char, v: int)
    ensures SymbolValue(c) == Some(v)
       <==> 0 <= v < 64 && (c == ALPHABET[v] || (v == 62 && c == '+') || (v == 63 && c == '/'))
  {
    if 0 <= v < 64 {
      SymbolIsStandard(v);
      SymbolRoundTrip(v);
    }
    if SymbolValue(c).Some? { SymbolIsStandard(SymbolValue(c).value); }
  }

  /** A number of up to 24 bits as the symbols of its base-64 digits. */
  predicate Spells(text: string, n: int, symbols: nat)
    requires symbols <= |text| <= 4 && 2 <= symbols
  {
    && (forall k :: 0 <= k < symbols ==> SymbolValue(text[k]).Some?)
    && (forall k :: symbols <= k < |text| ==> text[k] == '=')
    && n == 262144 * SymbolValue(text[0]).value + 4096 * SymbolValue(text[1]).value
            + (if symbols > 2 then 64 * SymbolValue(text[2]).value else 0)
            + (if symbols > 3 then SymbolValue(text[3]).value else 0)
  }

  function Value(x: int, y: int, z: int): int {
    65536 * x + 256 * y + z
  }

  function ByteOr0(bytes: seq<Byte>, k: nat): int {
    if k < |bytes| then bytes[k] else 0
  }

  /** Three bytes are one number of 24 bits, spelt in four symbols; what is missing at the end counts as zero. */
  lemma EncodeSpells(bytes: seq<Byte>)
    requires bytes != []
    ensures |Encode(bytes)| >= 4
    ensures
      var n := |bytes|;
      && Spells(Encode(bytes)[..4],
                Value(ByteOr0(bytes, 0), ByteOr0(bytes, 1), ByteOr0(bytes, 2)),
                if n > 2 then 4 else n + 1)
      && Encode(bytes)[4..] == if n > 3 then Encode(bytes[3..]) else ""
  {
    hide Symbol, SymbolValue, Spells;
    var x, y, z: Byte := bytes[0], if |bytes| > 1 then bytes[1] else 0, if |bytes| > 2 then bytes[2] else 0;
    GroupSpells(x, y, z);
    if |bytes| == 1 {
      assert Encode(bytes)[..4] == [Symbol(x / 4), Symbol(x % 4 * 16), '=', '='];
    } else if |bytes| == 2 {
      assert Encode(bytes)[..4] == [Symbol(x / 4), Symbol(x % 4 * 16 + y / 16), Symbol(y % 16 * 4), '='];
    } else {
      assert Encode(bytes)[..4]
          == [Symbol(x / 4), Symbol(x % 4 * 16 + y / 16), Symbol(y % 16 * 4 + z / 64), Symbol(z % 64)];
    }
  }

  lemma GroupSpells(x: Byte, y: Byte, z: Byte)
    ensures Spells([Symbol(x / 4), Symbol(x % 4 * 16), '=', '='], Value(x, 0, 0), 2)
    ensures Spells([Symbol(x / 4), Symbol(x % 4 * 16 + y / 16), Symbol(y % 16 * 4), '='], Value(x, y, 0), 3)
    ensures Spells([Symbol(x / 4), Symbol(x % 4 * 16 + y / 16), Symbol(y % 16 * 4 + z / 64), Symbol(z % 64)],
                   Value(x, y, z), 4)
  {
    hide Symbol, SymbolValue;
    SymbolRoundTrip(x / 4);
    SymbolRoundTrip(x % 4 * 16);
    SymbolRoundTrip(x % 4 * 16 + y / 16);
    SymbolRoundTrip(y % 16 * 4);
    SymbolRoundTrip(y % 16 * 4 + z / 64);
    SymbolRoundTrip(z % 64);
  }

  predicate IsSymbol(c: char) {
    c in ALPHABET || c == '+' || c == '/'
  }

  /** Whole groups of symbols, of which the last may end in one or two padding characters. */
  ghost predicate WellPadded(text: string) {
    && |text| % 4 == 0
    && forall k :: 0 <= k < |text| ==>
         || IsSymbol(text[k])
         || (text[k] == '=' && (k == |text| - 1 || (k == |text| - 2 && text[|text| - 1] == '=')))
  }

  lemma SymbolReads(c: char)
    ensures IsSymbol(c) <==> SymbolValue(c).Some?
    ensures IsSymbol(c) ==> c != '='
  {
    if SymbolValue(c).Some? { SymbolValueIff(c, SymbolValue(c).value); }
    if c in ALPHABET {
      var v :| 0 <= v < 64 && ALPHABET[v] == c;
      SymbolValueIff(c, v);
    }
  }

  /** Exactly the well-padded texts decode. */
  lemma {:induction false} DecodesIff(text: string)
    ensures Decode(text).Some? <==> WellPadded(text)
    decreases |text|
  {
    hide SymbolValue, IsSymbol;
    forall c ensures (IsSymbol(c) <==> SymbolValue(c).Some?) && (IsSymbol(c) ==> c != '=') {
      SymbolReads(c);
    }
    if |text| >= 4 {
      DecodesIff(text[4..]);
      var rest := text[4..];
      assert forall k :: 0 <= k < |rest| ==> rest[k] == text[k + 4];
      assert forall k :: 4 <= k < |text| ==> text[k] == rest[k - 4];
    }
  }

  lemma SymbolIsUrlSafe(v: int)
    requires 0 <= v < 64
    ensures var c := Symbol(v); 'A' <= c <= 'Z' || 'a' <= c <= 'z' || '0' <= c <= '9' || c in {'-', '_'}
  {
  }

  /** The text needs no quoting in a URL query, save for the padding. */
  lemma {:induction false} EncodedIsUrlSafe(bytes: seq<Byte>)
    ensures |Encode(bytes)| % 4 == 0
    ensures forall c :: c in Encode(bytes) ==>
              'A' <= c <= 'Z' || 'a' <= c <= 'z' || '0' <= c <= '9' || c in {'-', '_', '='}
    decreases |bytes|
  {
    hide Symbol;
    forall v: int | 0 <= v < 64
      ensures var c := Symbol(v); 'A' <= c <= 'Z' || 'a' <= c <= 'z' || '0' <= c <= '9' || c in {'-', '_'}
    {
      SymbolIsUrlSafe(v);
    }
    if |bytes| > 2 { EncodedIsUrlSafe(bytes[3..]); }
  }
}
