/**
 * The application/x-www-form-urlencoded format of the WHATWG URL Standard,
 * section 5: the serializer behind `URLSearchParams.prototype.toString()`
 * (section 5.2) and the parser a wallet applies to a query string
 * (section 5.1), over UTF-8.  The main result is that parsing a serialized
 * list of name/value pairs gives the list back, whatever the strings hold.
 */
module FormUrlEncoded {
  import opened Strings

  type Byte = b: int | 0 <= b < 256

  // ---- UTF-8 ----

  /** The UTF-8 encoding of one Unicode scalar value. */
  function Utf8EncodeChar(c: char): (r: seq<Byte>)
    ensures 1 <= |r| <= 4
    ensures (c as int < 0x80) == (|r| == 1)
  {
    var cp := c as int;
    if cp < 0x80 then [cp]
    else if cp < 0x800 then [0xC0 + cp / 64, 0x80 + cp % 64]
    else if cp < 0x10000 then [0xE0 + cp / 4096, 0x80 + (cp / 64) % 64, 0x80 + cp % 64]
    else [0xF0 + cp / 0x40000, 0x80 + (cp / 4096) % 64, 0x80 + (cp / 64) % 64, 0x80 + cp % 64]
  }

  function Utf8Encode(s: string): seq<Byte>
    decreases |s|
  {
    if |s| == 0 then [] else Utf8EncodeChar(s[0]) + Utf8Encode(s[1..])
  }

  predicate IsContinuation(b: Byte) {
    0x80 <= b < 0xC0
  }

  const REPLACEMENT_CHARACTER: char := 0xFFFD as char

  /**
   * Decodes the character the bytes start with and says how many bytes it
   * took; a malformed start yields U+FFFD and consumes one byte.
   */
  function DecodeOne(b: seq<Byte>): (r: (char, nat))
    requires |b| > 0
    ensures 1 <= r.1 <= |b|
  {
    var b0 := b[0] as int;
    if b0 < 0x80 then (b0 as char, 1)
    else if 0xC2 <= b0 < 0xE0 && |b| >= 2 && IsContinuation(b[1]) then
      (((b0 - 0xC0) * 64 + (b[1] as int - 0x80)) as char, 2)
    else if 0xE0 <= b0 < 0xF0 && |b| >= 3 && IsContinuation(b[1]) && IsContinuation(b[2]) then
      var cp := (b0 - 0xE0) * 4096 + (b[1] as int - 0x80) * 64 + (b[2] as int - 0x80);
      if 0x800 <= cp < 0xD800 || 0xE000 <= cp then (cp as char, 3) else (REPLACEMENT_CHARACTER, 1)
    else if 0xF0 <= b0 < 0xF5 && |b| >= 4 && IsContinuation(b[1]) && IsContinuation(b[2]) && IsContinuation(b[3]) then
      var cp := (b0 - 0xF0) * 0x40000 + (b[1] as int - 0x80) * 4096 + (b[2] as int - 0x80) * 64 + (b[3] as int - 0x80);
      if 0x10000 <= cp < 0x110000 then (cp as char, 4) else (REPLACEMENT_CHARACTER, 1)
    else (REPLACEMENT_CHARACTER, 1)
  }

  /**
   * "UTF-8 decode without BOM" for well-formed input; in a malformed
   * sequence every byte that does not start a valid character becomes its
   * own U+FFFD, where the standard replaces a maximal subpart only once.
   */
  function Utf8Decode(b: seq<Byte>): string
    decreases |b|
  {
    if |b| == 0 then ""
    else
      var (c, n) := DecodeOne(b);
      [c] + Utf8Decode(b[n..])
  }

  lemma DecodeOneTwoBytes(c: char, rest: seq<Byte>)
    requires 0x80 <= c as int < 0x800
    ensures DecodeOne(Utf8EncodeChar(c) + rest) == (c, 2)
  {
    var cp := c as int;
    assert (cp / 64) * 64 + cp % 64 == cp;
  }

  lemma DecodeOneThreeBytes(c: char, rest: seq<Byte>)
    requires 0x800 <= c as int < 0x10000
    ensures DecodeOne(Utf8EncodeChar(c) + rest) == (c, 3)
  {
    var cp := c as int;
    var hi, mid, lo := cp / 4096, (cp / 64) % 64, cp % 64;
    assert cp / 64 == hi * 64 + mid;
    assert hi * 4096 + mid * 64 + lo == cp;
  }

  lemma DecodeOneFourBytes(c: char, rest: seq<Byte>)
    requires 0x10000 <= c as int
    ensures DecodeOne(Utf8EncodeChar(c) + rest) == (c, 4)
  {
    var cp := c as int;
    var b0, b1, b2, b3 := cp / 0x40000, (cp / 4096) % 64, (cp / 64) % 64, cp % 64;
    assert cp / 4096 == b0 * 64 + b1;
    assert cp / 64 == (cp / 4096) * 64 + b2;
    assert b0 * 0x40000 + b1 * 4096 + b2 * 64 + b3 == cp;
  }

  /** Decoding the encoding of a character gives that character and consumes exactly its bytes. */
  lemma DecodeOneEncoded(c: char, rest: seq<Byte>)
    ensures DecodeOne(Utf8EncodeChar(c) + rest) == (c, |Utf8EncodeChar(c)|)
  {
    var cp := c as int;
    if cp < 0x80 {
    } else if cp < 0x800 {
      DecodeOneTwoBytes(c, rest);
    } else if cp < 0x10000 {
      DecodeOneThreeBytes(c, rest);
    } else {
      DecodeOneFourBytes(c, rest);
    }
  }

  /** UTF-8 decoding inverts UTF-8 encoding. */
  lemma {:induction false} Utf8RoundTrip(s: string)
    ensures Utf8Decode(Utf8Encode(s)) == s
    decreases |s|
  {
    if |s| > 0 {
      var e, rest := Utf8EncodeChar(s[0]), Utf8Encode(s[1..]);
      DecodeOneEncoded(s[0], rest);
      assert (e + rest)[|e|..] == rest;
      Utf8RoundTrip(s[1..]);
      assert s == [s[0]] + s[1..];
    }
  }

  lemma {:induction false} Utf8EncodeConcat(a: string, b: string)
    ensures Utf8Encode(a + b) == Utf8Encode(a) + Utf8Encode(b)
    decreases |a|
  {
    if |a| > 0 {
      assert (a + b)[0] == a[0] && (a + b)[1..] == a[1..] + b;
      Utf8EncodeConcat(a[1..], b);
    } else {
      assert a + b == b;
    }
  }

  // ---- percent-encoding ----

  /** An upper-case hexadecimal digit. */
  function HexDigit(d: int): (c: char)
    requires 0 <= d < 16
  {
    if d < 10 then (d + '0' as int) as char else (d - 10 + 'A' as int) as char
  }

  predicate IsHexByte(b: Byte) {
    (0x30 <= b <= 0x39) || (0x41 <= b <= 0x46) || (0x61 <= b <= 0x66)
  }

  function HexValue(b: Byte): (v: int)
    requires IsHexByte(b)
    ensures 0 <= v < 16
  {
    if b <= 0x39 then b - 0x30 else if b <= 0x46 then b - 0x41 + 10 else b - 0x61 + 10
  }

  /** Characters the serializer writes as they are: ASCII letters and digits, `*`, `-`, `.` and `_`. */
  predicate IsUnreserved(c: char) {
    ('a' <= c <= 'z') || ('A' <= c <= 'Z') || ('0' <= c <= '9') || c == '*' || c == '-' || c == '.' || c == '_'
  }

  /** `%` followed by the byte's two upper-case hexadecimal digits. */
  function PercentEncodeByte(b: Byte): string {
    ['%', HexDigit(b / 16), HexDigit(b % 16)]
  }

  function PercentEncodeBytes(bs: seq<Byte>): string
    decreases |bs|
  {
    if |bs| == 0 then "" else PercentEncodeByte(bs[0]) + PercentEncodeBytes(bs[1..])
  }

  /** The serializer's treatment of one character: space as `+`, the unreserved set as is, the rest percent-encoded. */
  function EncodeChar(c: char): string {
    if c == ' ' then "+"
    else if IsUnreserved(c) then [c]
    else PercentEncodeBytes(Utf8EncodeChar(c))
  }

  /** Percent-encodes a name or a value with the form-urlencoded percent-encode set and space as `+`. */
  function Encode(s: string): string
    decreases |s|
  {
    if |s| == 0 then "" else EncodeChar(s[0]) + Encode(s[1..])
  }

  /** The application/x-www-form-urlencoded serializer: `name=value` pairs joined by `&`. */
  function Serialize(pairs: seq<(string, string)>): string {
    Join(seq(|pairs|, i requires 0 <= i < |pairs| => Encode(pairs[i].0) + "=" + Encode(pairs[i].1)), '&')
  }

  // ---- parsing ----

  /** Percent-decoding of a byte sequence: `%XY` with two hexadecimal digits becomes one byte. */
  function PercentDecode(bs: seq<Byte>): seq<Byte>
    decreases |bs|
  {
    if |bs| == 0 then []
    else if bs[0] == 0x25 && |bs| >= 3 && IsHexByte(bs[1]) && IsHexByte(bs[2]) then
      [HexValue(bs[1]) * 16 + HexValue(bs[2])] + PercentDecode(bs[3..])
    else [bs[0]] + PercentDecode(bs[1..])
  }

  /** Every `+` becomes a space. */
  function ReplacePlus(s: string): (r: string)
    ensures |r| == |s|
    ensures forall i :: 0 <= i < |s| ==> r[i] == if s[i] == '+' then ' ' else s[i]
  {
    seq(|s|, i requires 0 <= i < |s| => if s[i] == '+' then ' ' else s[i])
  }

  /** How the parser turns an encoded name or value back into a string. */
  function DecodeComponent(s: string): string {
    Utf8Decode(PercentDecode(Utf8Encode(ReplacePlus(s))))
  }

  /** One `&`-separated piece: split at the first `=`; a piece without `=` has the empty value. */
  function ParsePiece(piece: string): (string, string) {
    var k := IndexOfChar(piece, '=');
    if k < |piece| then (DecodeComponent(piece[..k]), DecodeComponent(piece[k + 1..]))
    else (DecodeComponent(piece), "")
  }

  function ParsePieces(pieces: seq<string>): seq<(string, string)>
    decreases |pieces|
  {
    if |pieces| == 0 then []
    else (if pieces[0] == "" then [] else [ParsePiece(pieces[0])]) + ParsePieces(pieces[1..])
  }

  /** The application/x-www-form-urlencoded parser: empty pieces are skipped. */
  function Parse(input: string): seq<(string, string)> {
    ParsePieces(Split(input, '&'))
  }

  // ---- the round trip ----

  /** Characters that can appear in serializer output for one name or value. */
  predicate IsEncodedChar(c: char) {
    c == '+' || c == '%' || IsUnreserved(c)
  }

  lemma {:induction false} PercentEncodedChars(bs: seq<Byte>)
    ensures forall i :: 0 <= i < |PercentEncodeBytes(bs)| ==> IsEncodedChar(PercentEncodeBytes(bs)[i])
    decreases |bs|
  {
    if |bs| > 0 {
      PercentEncodedChars(bs[1..]);
    }
  }

  /** An encoded name or value holds no `&` and no `=`. */
  lemma {:induction false} EncodedChars(s: string)
    ensures forall i :: 0 <= i < |Encode(s)| ==> IsEncodedChar(Encode(s)[i])
    ensures '&' !in Encode(s) && '=' !in Encode(s)
    decreases |s|
  {
    if |s| > 0 {
      EncodedChars(s[1..]);
      PercentEncodedChars(Utf8EncodeChar(s[0]));
    }
  }

  lemma ReplacePlusConcat(a: string, b: string)
    ensures ReplacePlus(a + b) == ReplacePlus(a) + ReplacePlus(b)
  {
  }

  lemma HexDigitByte(d: int)
    requires 0 <= d < 16
    ensures Utf8Encode([HexDigit(d)]) == [HexDigit(d) as int]
    ensures IsHexByte(HexDigit(d) as int) && HexValue(HexDigit(d) as int) == d
  {
  }

  /** One percent-encoded byte: three ASCII characters, none of them `+`, that percent-decode to the byte. */
  lemma PercentEncodedByte(b: Byte, rest: seq<Byte>)
    ensures ReplacePlus(PercentEncodeByte(b)) == PercentEncodeByte(b)
    ensures PercentDecode(Utf8Encode(PercentEncodeByte(b)) + rest) == [b] + PercentDecode(rest)
  {
    var hi, lo := HexDigit(b / 16), HexDigit(b % 16);
    HexDigitByte(b / 16);
    HexDigitByte(b % 16);
    assert Utf8Encode(PercentEncodeByte(b)) == [0x25, hi as int, lo as int];
    var u := [0x25, hi as int, lo as int] + rest;
    assert u[3..] == rest;
  }

  /** A percent-encoded byte string holds no `+`. */
  lemma {:induction false} PercentEncodedNoPlus(bs: seq<Byte>)
    ensures ReplacePlus(PercentEncodeBytes(bs)) == PercentEncodeBytes(bs)
    decreases |bs|
  {
    if |bs| > 0 {
      var head, tail := PercentEncodeByte(bs[0]), PercentEncodeBytes(bs[1..]);
      PercentEncodedNoPlus(bs[1..]);
      ReplacePlusConcat(head, tail);
      PercentEncodedByte(bs[0], []);
      assert PercentEncodeBytes(bs) == head + tail;
    }
  }

  /** Percent-decoding a percent-encoded byte string gives the bytes back, and stops where they end. */
  lemma {:induction false} PercentDecodeEncoded(bs: seq<Byte>, rest: seq<Byte>)
    ensures PercentDecode(Utf8Encode(PercentEncodeBytes(bs)) + rest) == bs + PercentDecode(rest)
    decreases |bs|
  {
    if |bs| > 0 {
      var head, tail := PercentEncodeByte(bs[0]), PercentEncodeBytes(bs[1..]);
      var after := Utf8Encode(tail) + rest;
      PercentDecodeEncoded(bs[1..], rest);
      assert PercentEncodeBytes(bs) == head + tail;
      DecodeHeadThenTail(head, tail, rest);
      PercentEncodedByte(bs[0], after);
      ConsAppend(bs, PercentDecode(rest));
    } else {
      assert Utf8Encode(PercentEncodeBytes(bs)) + rest == rest;
      assert bs + PercentDecode(rest) == PercentDecode(rest);
    }
  }

  lemma ConsAppend<T>(s: seq<T>, t: seq<T>)
    requires |s| > 0
    ensures [s[0]] + (s[1..] + t) == s + t
  {
  }

  lemma DecodeHeadThenTail(head: string, tail: string, rest: seq<Byte>)
    ensures Utf8Encode(head + tail) + rest == Utf8Encode(head) + (Utf8Encode(tail) + rest)
  {
    Utf8EncodeConcat(head, tail);
  }

  /** The parser's decoding of one encoded character yields that character's UTF-8 bytes. */
  lemma DecodeEncodedChar(c: char, rest: seq<Byte>)
    ensures PercentDecode(Utf8Encode(ReplacePlus(EncodeChar(c))) + rest) == Utf8EncodeChar(c) + PercentDecode(rest)
  {
    if c == ' ' {
      assert ReplacePlus(EncodeChar(c)) == [' '];
    } else if IsUnreserved(c) {
      assert ReplacePlus(EncodeChar(c)) == [c];
    } else {
      PercentEncodedNoPlus(Utf8EncodeChar(c));
      PercentDecodeEncoded(Utf8EncodeChar(c), rest);
    }
  }

  lemma {:induction false} PercentDecodeEncode(s: string)
    ensures PercentDecode(Utf8Encode(ReplacePlus(Encode(s)))) == Utf8Encode(s)
    decreases |s|
  {
    if |s| > 0 {
      var head, tail := EncodeChar(s[0]), Encode(s[1..]);
      ReplacePlusConcat(head, tail);
      Utf8EncodeConcat(ReplacePlus(head), ReplacePlus(tail));
      DecodeEncodedChar(s[0], Utf8Encode(ReplacePlus(tail)));
      PercentDecodeEncode(s[1..]);
    }
  }

  /** The parser's decoding of a serialized name or value gives the original string. */
  lemma DecodeEncode(s: string)
    ensures DecodeComponent(Encode(s)) == s
  {
    PercentDecodeEncode(s);
    Utf8RoundTrip(s);
  }

  lemma {:induction false} ParsePiecesEncoded(pairs: seq<(string, string)>, pieces: seq<string>)
    requires |pieces| == |pairs|
    requires forall i :: 0 <= i < |pairs| ==> pieces[i] == Encode(pairs[i].0) + "=" + Encode(pairs[i].1)
    ensures ParsePieces(pieces) == pairs
    decreases |pairs|
  {
    if |pairs| > 0 {
      ParsePieceEncoded(pairs[0].0, pairs[0].1);
      ParsePiecesEncoded(pairs[1..], pieces[1..]);
    }
  }

  /** One serialized pair parses back to the pair. */
  lemma ParsePieceEncoded(name: string, value: string)
    ensures Encode(name) + "=" + Encode(value) != ""
    ensures ParsePiece(Encode(name) + "=" + Encode(value)) == (name, value)
  {
    var n, v := Encode(name), Encode(value);
    EncodedChars(name);
    var piece := n + "=" + v;
    assert piece[|n|] == '=';
    assert IndexOfChar(piece, '=') == |n|;
    assert piece[..|n|] == n && piece[|n| + 1..] == v;
    DecodeEncode(name);
    DecodeEncode(value);
  }

  /** Parsing the serialization of a list of name/value pairs gives back exactly that list, in order. */
  lemma ParseSerialize(pairs: seq<(string, string)>)
    ensures Parse(Serialize(pairs)) == pairs
  {
    var pieces := seq(|pairs|, i requires 0 <= i < |pairs| => Encode(pairs[i].0) + "=" + Encode(pairs[i].1));
    if |pairs| == 0 {
      assert Serialize(pairs) == "";
    } else {
      forall i | 0 <= i < |pieces| ensures '&' !in pieces[i] {
        EncodedChars(pairs[i].0);
        EncodedChars(pairs[i].1);
      }
      SplitJoin(pieces, '&');
      ParsePiecesEncoded(pairs, pieces);
    }
  }
}
