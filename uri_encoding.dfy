/**
 * `encodeURIComponent` as the proxy applies it to the city name before it
 * places it in the upstream query string (percent-encoding per section 2.1 of
 * RFC 3986, of the UTF-8 bytes of every character outside the unescaped set).
 */
module UriEncoding {
  import opened Wrappers

  /** The characters `encodeURIComponent` leaves as they are. */
  predicate Unescaped(c: char)
  {
    ('A' <= c <= 'Z') || ('a' <= c <= 'z') || ('0' <= c <= '9') ||
    c == '-' || c == '_' || c == '.' || c == '!' || c == '~' ||
    c == '*' || c == '\'' || c == '(' || c == ')'
  }

  predicate UpperHexDigit(c: char)
  {
    ('0' <= c <= '9') || ('A' <= c <= 'F')
  }

  /** What can appear in an encoded component. */
  predicate EncodedChar(c: char)
  {
    Unescaped(c) || c == '%' || UpperHexDigit(c)
  }

  function HexDigit(n: int): (c: char)
    requires 0 <= n < 16
    ensures UpperHexDigit(c)
  {
    if n < 10 then ('0' as int + n) as char else ('A' as int + n - 10) as char
  }

  /** One byte as `%XY`, upper-case hexadecimal. */
  function PercentByte(b: int): (r: string)
    requires 0 <= b < 256
    ensures |r| == 3 && r[0] == '%'
    ensures forall k :: 0 <= k < 3 ==> EncodedChar(r[k])
  {
    ['%', HexDigit(b / 16), HexDigit(b % 16)]
  }

  /** The UTF-8 bytes of one Unicode scalar value. */
  function Utf8(c: char): (bytes: seq<int>)
    ensures 1 <= |bytes| <= 4
    ensures forall k :: 0 <= k < |bytes| ==> 0 <= bytes[k] < 256
    ensures (c as int < 0x80) <==> |bytes| == 1
  {
    var cp := c as int;
    if cp < 0x80 then [cp]
    else if cp < 0x800 then [0xC0 + cp / 0x40, 0x80 + cp % 0x40]
    else if cp < 0x10000 then [0xE0 + cp / 0x1000, 0x80 + (cp / 0x40) % 0x40, 0x80 + cp % 0x40]
    else [0xF0 + cp / 0x40000, 0x80 + (cp / 0x1000) % 0x40, 0x80 + (cp / 0x40) % 0x40, 0x80 + cp % 0x40]
  }

  function PercentBytes(bytes: seq<int>): (r: string)
    requires forall k :: 0 <= k < |bytes| ==> 0 <= bytes[k] < 256
    ensures |r| == 3 * |bytes|
    ensures forall k :: 0 <= k < |r| ==> EncodedChar(r[k])
  {
    if bytes == [] then [] else PercentByte(bytes[0]) + PercentBytes(bytes[1..])
  }

  function EncodeChar(c: char): (r: string)
    ensures Unescaped(c) ==> r == [c]
    ensures !Unescaped(c) ==> |r| >= 3 && r[0] == '%'
    ensures forall k :: 0 <= k < |r| ==> EncodedChar(r[k])
  {
    if Unescaped(c) then [c] else PercentBytes(Utf8(c))
  }

  /**
   * `encodeURIComponent(s)`. Every character of the result is unescaped, `%`
   * or an upper-case hexadecimal digit, so an encoded city can never contribute
   * a `&`, `=`, `#`, `?` or `/` to the upstream URL; strings made of unescaped
   * characters only are left unchanged.
   */
  function EncodeUriComponent(s: string): (r: string)
    ensures forall k :: 0 <= k < |r| ==> EncodedChar(r[k])
    ensures (forall k :: 0 <= k < |s| ==> Unescaped(s[k])) ==> r == s
    ensures |r| >= |s|
  {
    if s == [] then [] else EncodeChar(s[0]) + EncodeUriComponent(s[1..])
  }

  // ---------------------------------------------------------------------
  // Decoding, as the receiver of the URL undoes the encoding
  // (`decodeURIComponent`): the inverse the encoding is proved against.
  // ---------------------------------------------------------------------

  /** The value of a hexadecimal digit of either case. */
  function HexValue(c: char): (r: Option<int>)
    ensures r.Some? ==> 0 <= r.value < 16
  {
    if '0' <= c <= '9' then Some(c as int - '0' as int)
    else if 'A' <= c <= 'F' then Some(c as int - 'A' as int + 10)
    else if 'a' <= c <= 'f' then Some(c as int - 'a' as int + 10)
    else None
  }

  lemma HexValueOfDigit(n: int)
    requires 0 <= n < 16
    ensures HexValue(HexDigit(n)) == Some(n)
  {
  }

  /** The byte written as `%XY` at position `i`, if there is one. */
  function ByteAt(s: string, i: nat): (r: Option<int>)
    ensures r.Some? ==> i + 3 <= |s| && 0 <= r.value < 256
  {
    if i + 3 <= |s| && s[i] == '%' then
      match (HexValue(s[i + 1]), HexValue(s[i + 2]))
      case (Some(hi), Some(lo)) => Some(16 * hi + lo)
      case _ => None
    else None
  }

  /** The low six bits of a UTF-8 continuation byte at position `i`. */
  function ContinuationAt(s: string, i: nat): (r: Option<int>)
    ensures r.Some? ==> i + 3 <= |s| && 0 <= r.value < 64
  {
    match ByteAt(s, i)
    case Some(b) => if 0x80 <= b < 0xC0 then Some(b - 0x80) else None
    case None => None
  }

  /** A code point that is a Unicode scalar value (no surrogate). */
  predicate ScalarValue(cp: int)
  {
    (0 <= cp < 0xD800) || (0xE000 <= cp < 0x110000)
  }

  /** A two-byte sequence led by `b0`: 110xxxxx 10xxxxxx, not overlong. */
  function DecodeTwo(s: string, b0: int): (r: Option<(char, nat)>)
    requires 0xC0 <= b0 < 0xE0
    ensures r.Some? ==> r.value.1 == 6 <= |s|
  {
    match ContinuationAt(s, 3)
    case None => None
    case Some(c1) =>
      var cp := (b0 - 0xC0) * 0x40 + c1;
      if cp < 0x80 then None else Some((cp as char, 6))
  }

  /** A three-byte sequence led by `b0`: not overlong, not a surrogate. */
  function DecodeThree(s: string, b0: int): (r: Option<(char, nat)>)
    requires 0xE0 <= b0 < 0xF0
    ensures r.Some? ==> r.value.1 == 9 <= |s|
  {
    match (ContinuationAt(s, 3), ContinuationAt(s, 6))
    case (Some(c1), Some(c2)) =>
      var cp := (b0 - 0xE0) * 0x1000 + c1 * 0x40 + c2;
      if cp < 0x800 || !ScalarValue(cp) then None else Some((cp as char, 9))
    case _ => None
  }

  /** A four-byte sequence led by `b0`: not overlong, at most U+10FFFF. */
  function DecodeFour(s: string, b0: int): (r: Option<(char, nat)>)
    requires 0xF0 <= b0 < 0xF8
    ensures r.Some? ==> r.value.1 == 12 <= |s|
  {
    match (ContinuationAt(s, 3), ContinuationAt(s, 6), ContinuationAt(s, 9))
    case (Some(c1), Some(c2), Some(c3)) =>
      var cp := (b0 - 0xF0) * 0x40000 + c1 * 0x1000 + c2 * 0x40 + c3;
      if cp < 0x10000 || !ScalarValue(cp) then None else Some((cp as char, 12))
    case _ => None
  }

  /**
   * The character encoded by the escape sequence at the start of `s` and the
   * number of characters it takes; `None` for a malformed or overlong sequence.
   */
  function DecodeEscape(s: string): (r: Option<(char, nat)>)
    ensures r.Some? ==> 3 <= r.value.1 <= |s|
  {
    match ByteAt(s, 0)
    case None => None
    case Some(b0) =>
      if b0 < 0x80 then Some((b0 as char, 3))
      else if 0xC0 <= b0 < 0xE0 then DecodeTwo(s, b0)
      else if 0xE0 <= b0 < 0xF0 then DecodeThree(s, b0)
      else if 0xF0 <= b0 < 0xF8 then DecodeFour(s, b0)
      else None
  }

  /** `decodeURIComponent`: `None` where it would throw a `URIError`. */
  function DecodeUriComponent(s: string): (r: Option<string>)
    ensures r.Some? ==> |r.value| <= |s|
    ensures (forall k :: 0 <= k < |s| ==> s[k] != '%') ==> r == Some(s)
    decreases |s|
  {
    if s == [] then Some([])
    else if s[0] != '%' then
      match DecodeUriComponent(s[1..])
      case None => None
      case Some(t) => assert s == [s[0]] + s[1..]; Some([s[0]] + t)
    else
      match DecodeEscape(s)
      case None => None
      case Some((c, n)) =>
        match DecodeUriComponent(s[n..])
        case None => None
        case Some(t) => Some([c] + t)
  }

  /** The three characters that encode byte `k` sit at position 3k. */
  lemma {:induction false} PercentBytesChars(bytes: seq<int>, k: nat)
    requires forall j :: 0 <= j < |bytes| ==> 0 <= bytes[j] < 256
    requires k < |bytes|
    ensures var s := PercentBytes(bytes);
      s[3 * k] == '%' && s[3 * k + 1] == HexDigit(bytes[k] / 16) && s[3 * k + 2] == HexDigit(bytes[k] % 16)
    decreases k
  {
    if k > 0 {
      PercentBytesChars(bytes[1..], k - 1);
      var x, tail := PercentBytes(bytes), PercentBytes(bytes[1..]);
      assert x == PercentByte(bytes[0]) + tail;
      var j := 3 * (k - 1);
      assert 3 * k == 3 + j;
      assert x[3 + j] == tail[j] && x[4 + j] == tail[j + 1] && x[5 + j] == tail[j + 2];
    }
  }

  /** `%` and the two hex digits of `b` at position `i` are read back as `b`. */
  lemma ByteAtPercent(s: string, i: nat, b: int)
    requires 0 <= b < 256 && i + 3 <= |s|
    requires s[i] == '%' && s[i + 1] == HexDigit(b / 16) && s[i + 2] == HexDigit(b % 16)
    ensures ByteAt(s, i) == Some(b)
  {
    HexValueOfDigit(b / 16);
    HexValueOfDigit(b % 16);
  }

  lemma AppendAt(x: string, rest: string, i: nat)
    requires i < |x|
    ensures (x + rest)[i] == x[i]
  {
  }

  /** The escape sequence of byte `k` decodes to that byte, whatever follows the encoding. */
  lemma PercentBytesAt(bytes: seq<int>, k: nat, rest: string)
    requires forall j :: 0 <= j < |bytes| ==> 0 <= bytes[j] < 256
    requires k < |bytes|
    ensures ByteAt(PercentBytes(bytes) + rest, 3 * k) == Some(bytes[k])
  {
    var x := PercentBytes(bytes);
    PercentBytesChars(bytes, k);
    AppendAt(x, rest, 3 * k);
    AppendAt(x, rest, 3 * k + 1);
    AppendAt(x, rest, 3 * k + 2);
    ByteAtPercent(x + rest, 3 * k, bytes[k]);
  }

  /** A two-byte code point is its lead bits and its six low bits. */
  lemma SplitTwo(cp: int)
    requires 0x80 <= cp < 0x800
    ensures 0 <= cp / 0x40 < 0x20 && (cp / 0x40) * 0x40 + cp % 0x40 == cp
  {
  }

  /** A three-byte code point is its lead bits and two groups of six bits. */
  lemma SplitThree(cp: int)
    requires 0x800 <= cp < 0x10000
    ensures 0 <= cp / 0x1000 < 0x10
    ensures (cp / 0x1000) * 0x1000 + ((cp / 0x40) % 0x40) * 0x40 + cp % 0x40 == cp
  {
    assert cp / 0x40 == (cp / 0x1000) * 0x40 + (cp / 0x40) % 0x40;
  }

  /** A four-byte code point is its lead bits and three groups of six bits. */
  lemma SplitFour(cp: int)
    requires 0x10000 <= cp < 0x110000
    ensures 0 <= cp / 0x40000 < 0x8
    ensures (cp / 0x40000) * 0x40000 + ((cp / 0x1000) % 0x40) * 0x1000 + ((cp / 0x40) % 0x40) * 0x40 + cp % 0x40 == cp
  {
    assert cp / 0x1000 == (cp / 0x40000) * 0x40 + (cp / 0x1000) % 0x40;
    assert cp / 0x40 == (cp / 0x1000) * 0x40 + (cp / 0x40) % 0x40;
  }

  /** Two escaped bytes 110xxxxx 10xxxxxx decode to the code point their bits spell. */
  lemma DecodeTwoBytes(s: string, hi: int, c1: int)
    requires 0 <= hi < 0x20 && 0 <= c1 < 0x40
    requires 0x80 <= hi * 0x40 + c1
    requires ByteAt(s, 0) == Some(0xC0 + hi) && ByteAt(s, 3) == Some(0x80 + c1)
    ensures DecodeEscape(s) == Some(((hi * 0x40 + c1) as char, 6))
  {
    assert ContinuationAt(s, 3) == Some(c1);
  }

  lemma DecodeEscapeTwo(c: char, rest: string)
    requires 0x80 <= c as int < 0x800
    ensures DecodeEscape(PercentBytes(Utf8(c)) + rest) == Some((c, 6))
  {
    var cp := c as int;
    var hi, c1 := cp / 0x40, cp % 0x40;
    SplitTwo(cp);
    var bytes := Utf8(c);
    assert bytes == [0xC0 + hi, 0x80 + c1];
    PercentBytesAt(bytes, 0, rest);
    PercentBytesAt(bytes, 1, rest);
    DecodeTwoBytes(PercentBytes(bytes) + rest, hi, c1);
  }

  /** Three escaped bytes 1110xxxx 10xxxxxx 10xxxxxx decode to the code point their bits spell. */
  lemma DecodeThreeBytes(s: string, hi: int, c1: int, c2: int)
    requires 0 <= hi < 0x10 && 0 <= c1 < 0x40 && 0 <= c2 < 0x40
    requires 0x800 <= hi * 0x1000 + c1 * 0x40 + c2 && ScalarValue(hi * 0x1000 + c1 * 0x40 + c2)
    requires ByteAt(s, 0) == Some(0xE0 + hi) && ByteAt(s, 3) == Some(0x80 + c1) && ByteAt(s, 6) == Some(0x80 + c2)
    ensures DecodeEscape(s) == Some(((hi * 0x1000 + c1 * 0x40 + c2) as char, 9))
  {
    assert ContinuationAt(s, 3) == Some(c1);
    assert ContinuationAt(s, 6) == Some(c2);
  }

  lemma DecodeEscapeThree(c: char, rest: string)
    requires 0x800 <= c as int < 0x10000
    ensures DecodeEscape(PercentBytes(Utf8(c)) + rest) == Some((c, 9))
  {
    var cp := c as int;
    var hi, c1, c2 := cp / 0x1000, (cp / 0x40) % 0x40, cp % 0x40;
    SplitThree(cp);
    var bytes := Utf8(c);
    assert bytes == [0xE0 + hi, 0x80 + c1, 0x80 + c2];
    PercentBytesAt(bytes, 0, rest);
    PercentBytesAt(bytes, 1, rest);
    PercentBytesAt(bytes, 2, rest);
    DecodeThreeBytes(PercentBytes(bytes) + rest, hi, c1, c2);
  }

  /** Four escaped bytes 11110xxx 10xxxxxx 10xxxxxx 10xxxxxx decode to the code point their bits spell. */
  lemma DecodeFourBytes(s: string, hi: int, c1: int, c2: int, c3: int)
    requires 0 <= hi < 8 && 0 <= c1 < 0x40 && 0 <= c2 < 0x40 && 0 <= c3 < 0x40
    requires 0x10000 <= hi * 0x40000 + c1 * 0x1000 + c2 * 0x40 + c3 < 0x110000
    requires ByteAt(s, 0) == Some(0xF0 + hi) && ByteAt(s, 3) == Some(0x80 + c1)
    requires ByteAt(s, 6) == Some(0x80 + c2) && ByteAt(s, 9) == Some(0x80 + c3)
    ensures DecodeEscape(s) == Some(((hi * 0x40000 + c1 * 0x1000 + c2 * 0x40 + c3) as char, 12))
  {
    assert ContinuationAt(s, 3) == Some(c1);
    assert ContinuationAt(s, 6) == Some(c2);
    assert ContinuationAt(s, 9) == Some(c3);
  }

  lemma DecodeEscapeFour(c: char, rest: string)
    requires 0x10000 <= c as int
    ensures DecodeEscape(PercentBytes(Utf8(c)) + rest) == Some((c, 12))
  {
    var cp := c as int;
    var hi, c1, c2, c3 := cp / 0x40000, (cp / 0x1000) % 0x40, (cp / 0x40) % 0x40, cp % 0x40;
    SplitFour(cp);
    var bytes := Utf8(c);
    assert bytes == [0xF0 + hi, 0x80 + c1, 0x80 + c2, 0x80 + c3];
    PercentBytesAt(bytes, 0, rest);
    PercentBytesAt(bytes, 1, rest);
    PercentBytesAt(bytes, 2, rest);
    PercentBytesAt(bytes, 3, rest);
    DecodeFourBytes(PercentBytes(bytes) + rest, hi, c1, c2, c3);
  }

  /** The escape sequences of a character's UTF-8 bytes decode back to that character. */
  lemma DecodeEscapeOfChar(c: char, rest: string)
    requires !Unescaped(c)
    ensures DecodeEscape(EncodeChar(c) + rest) == Some((c, |EncodeChar(c)|))
  {
    var cp := c as int;
    if cp < 0x80 {
      PercentBytesAt(Utf8(c), 0, rest);
    } else if cp < 0x800 {
      DecodeEscapeTwo(c, rest);
    } else if cp < 0x10000 {
      DecodeEscapeThree(c, rest);
    } else {
      DecodeEscapeFour(c, rest);
    }
  }

  /** Decoding the encoding of one character, followed by anything, yields the character first. */
  lemma DecodeEncodedChar(c: char, rest: string)
    ensures DecodeUriComponent(EncodeChar(c) + rest) ==
      match DecodeUriComponent(rest)
      case None => None
      case Some(t) => Some([c] + t)
  {
    var x := EncodeChar(c);
    var s := x + rest;
    if Unescaped(c) {
      assert s[0] == c && s[1..] == rest;
    } else {
      DecodeEscapeOfChar(c, rest);
      assert s[0] == '%';
      assert s[|x|..] == rest;
    }
  }

  /**
   * The upstream gets back exactly the city that was sent: decoding the
   * encoding of any string gives the string.
   */
  lemma {:induction false} DecodeEncode(s: string)
    ensures DecodeUriComponent(EncodeUriComponent(s)) == Some(s)
  {
    if s != [] {
      DecodeEncode(s[1..]);
      DecodeEncodedChar(s[0], EncodeUriComponent(s[1..]));
      assert [s[0]] + s[1..] == s;
    }
  }

  /** Different cities never produce the same query value. */
  lemma EncodeInjective(a: string, b: string)
    requires EncodeUriComponent(a) == EncodeUriComponent(b)
    ensures a == b
  {
    DecodeEncode(a);
    DecodeEncode(b);
  }
}
