/**
 * `encodeURIComponent` (section 19.2.6.5 of ECMA-262, 2023 edition, through
 * the abstract operation Encode of section 19.2.6.1.1): every character
 * outside the unreserved set is written as the UTF-8 bytes of its code
 * point, each as `%` and two upper-case hexadecimal digits.
 *
 * A Dafny `char` is a Unicode scalar value, so strings here never hold the
 * lone surrogates for which the JavaScript function throws.
 *
 * The decoder below is the reference the encoder is proved against: it
 * reads `%XY` escapes and plain ASCII characters back into bytes and
 * decodes those as UTF-8.
 */
module UriEncoding {
  import opened ProfileTypes

  type byte = x: int | 0 <= x < 256

  /** The characters `encodeURIComponent` leaves as they are: ASCII letters,
      decimal digits and `- _ . ! ~ * ' ( )`. */
  predicate IsUnreserved(c: char) {
    || ('A' <= c <= 'Z') || ('a' <= c <= 'z') || ('0' <= c <= '9')
    || c == '-' || c == '_' || c == '.' || c == '!' || c == '~' || c == '*'
    || c == '\'' || c == '(' || c == ')'
  }

  predicate IsUpperHexDigit(c: char) {
    ('0' <= c <= '9') || ('A' <= c <= 'F')
  }

  function HexDigit(n: int): (c: char)
    requires 0 <= n < 16
    ensures IsUpperHexDigit(c)
  {
    if n < 10 then ('0' as int + n) as char else ('A' as int + n - 10) as char
  }

  /** The value of a hexadecimal digit of either case; the decoder's side. */
  function HexValue(c: char): (n: int)
    ensures 0 <= n < 16
  {
    if '0' <= c <= '9' then c as int - '0' as int
    else if 'A' <= c <= 'F' then c as int - 'A' as int + 10
    else if 'a' <= c <= 'f' then c as int - 'a' as int + 10
    else 0
  }

  predicate IsHexDigit(c: char) {
    ('0' <= c <= '9') || ('A' <= c <= 'F') || ('a' <= c <= 'f')
  }

  /** A continuation byte of UTF-8: `10xxxxxx`. */
  predicate IsContinuation(b: byte) {
    0x80 <= b < 0xC0
  }

  /** The UTF-8 bytes of one code point: one to four bytes by its range. */
  function Utf8Char(c: char): (bs: seq<byte>)
    ensures 1 <= |bs| <= 4
    ensures |bs| == 1 <==> c as int < 0x80
    ensures |bs| == 1 ==> bs[0] == c as int
    ensures forall k :: 1 <= k < |bs| ==> IsContinuation(bs[k])
  {
    var cp := c as int;
    if cp < 0x80 then [cp]
    else if cp < 0x800 then [0xC0 + cp / 64, 0x80 + cp % 64]
    else if cp < 0x10000 then [0xE0 + cp / 4096, 0x80 + (cp / 64) % 64, 0x80 + cp % 64]
    else [0xF0 + cp / 262144, 0x80 + (cp / 4096) % 64, 0x80 + (cp / 64) % 64, 0x80 + cp % 64]
  }

  /** The UTF-8 encoding of a whole string. */
  function Utf8(s: string): seq<byte> {
    if s == [] then [] else Utf8Char(s[0]) + Utf8(s[1..])
  }

  /** Each byte written as `%` and two upper-case hexadecimal digits. */
  function PercentEncodeBytes(bs: seq<byte>): (r: string)
    ensures |r| == 3 * |bs|
    ensures forall k :: 0 <= k < |r| ==> r[k] == '%' || IsUpperHexDigit(r[k])
  {
    if bs == [] then [] else ['%', HexDigit(bs[0] / 16), HexDigit(bs[0] % 16)] + PercentEncodeBytes(bs[1..])
  }

  function EncodeChar(c: char): string {
    if IsUnreserved(c) then [c] else PercentEncodeBytes(Utf8Char(c))
  }

  /** The characters `encodeURIComponent` can produce. */
  predicate IsEncodedChar(c: char) {
    IsUnreserved(c) || c == '%'
  }

  /** `encodeURIComponent`: its output consists of unreserved characters and
      `%` escapes only, and its unreserved characters are those of the input,
      which are kept where they are when nothing else occurs. */
  function EncodeUriComponent(s: string): (r: string)
    ensures forall k :: 0 <= k < |r| ==> IsEncodedChar(r[k])
    ensures (forall k :: 0 <= k < |s| ==> IsUnreserved(s[k])) ==> r == s
  {
    if s == [] then []
    else
      var head := EncodeChar(s[0]);
      assert forall k :: 0 <= k < |head| ==> IsEncodedChar(head[k]);
      head + EncodeUriComponent(s[1..])
  }

  // ---------------------------------------------------------------------
  // The decoder
  // ---------------------------------------------------------------------

  function Prepend<T>(xs: seq<T>, rest: Option<seq<T>>): Option<seq<T>> {
    match rest
    case None => None
    case Some(ys) => Some(xs + ys)
  }

  /** `%XY` escapes and plain ASCII characters back to bytes; `None` for a
      broken escape or a character outside ASCII. */
  function PercentDecode(s: string): Option<seq<byte>>
    decreases |s|
  {
    if s == [] then Some([])
    else if s[0] == '%' then
      if |s| >= 3 && IsHexDigit(s[1]) && IsHexDigit(s[2])
      then Prepend([HexValue(s[1]) * 16 + HexValue(s[2])], PercentDecode(s[3..]))
      else None
    else if s[0] as int < 0x80 then Prepend([s[0] as int], PercentDecode(s[1..]))
    else None
  }

  /** UTF-8 decoding; `None` for a malformed, overlong or surrogate sequence. */
  function Utf8Decode(bs: seq<byte>): Option<string>
    decreases |bs|
  {
    if bs == [] then Some([])
    else
      var b0: int := bs[0];
      if b0 < 0x80 then Prepend([b0 as char], Utf8Decode(bs[1..]))
      else if 0xC2 <= b0 < 0xE0 && |bs| >= 2 && IsContinuation(bs[1]) then
        var cp := (b0 - 0xC0) * 64 + (bs[1] as int - 0x80);
        Prepend([cp as char], Utf8Decode(bs[2..]))
      else if 0xE0 <= b0 < 0xF0 && |bs| >= 3 && IsContinuation(bs[1]) && IsContinuation(bs[2]) then
        var cp := (b0 - 0xE0) * 4096 + (bs[1] as int - 0x80) * 64 + (bs[2] as int - 0x80);
        if cp < 0x800 || (0xD800 <= cp < 0xE000) then None
        else Prepend([cp as char], Utf8Decode(bs[3..]))
      else if 0xF0 <= b0 < 0xF5 && |bs| >= 4
              && IsContinuation(bs[1]) && IsContinuation(bs[2]) && IsContinuation(bs[3]) then
        var cp := (b0 - 0xF0) * 262144 + (bs[1] as int - 0x80) * 4096 + (bs[2] as int - 0x80) * 64 + (bs[3] as int - 0x80);
        if cp < 0x10000 || cp >= 0x110000 then None
        else Prepend([cp as char], Utf8Decode(bs[4..]))
      else None
  }

  /** `decodeURIComponent` restricted to what the decoder above accepts. */
  function DecodeUriComponent(s: string): Option<string> {
    match PercentDecode(s)
    case None => None
    case Some(bs) => Utf8Decode(bs)
  }

  // ---------------------------------------------------------------------
  // Round trip
  // ---------------------------------------------------------------------

  lemma PrependPrepend<T>(xs: seq<T>, ys: seq<T>, rest: Option<seq<T>>)
    ensures Prepend(xs, Prepend(ys, rest)) == Prepend(xs + ys, rest)
    ensures Prepend([], rest) == rest
  {
    match rest
    case None =>
    case Some(zs) =>
      assert xs + (ys + zs) == (xs + ys) + zs;
      assert [] + zs == zs;
  }

  lemma HexValueOfDigit(n: int)
    requires 0 <= n < 16
    ensures IsHexDigit(HexDigit(n)) && HexValue(HexDigit(n)) == n
  {
  }

  lemma {:induction false} PercentDecodeEncodedBytes(bs: seq<byte>, rest: string)
    ensures PercentDecode(PercentEncodeBytes(bs) + rest) == Prepend(bs, PercentDecode(rest))
  {
    if bs != [] {
      var b := bs[0];
      var tail := PercentEncodeBytes(bs[1..]) + rest;
      var s := PercentEncodeBytes(bs) + rest;
      var hi, lo := HexDigit(b / 16), HexDigit(b % 16);
      assert s == ['%', hi, lo] + tail;
      assert s[1] == hi && s[2] == lo && s[3..] == tail;
      HexValueOfDigit(b / 16);
      HexValueOfDigit(b % 16);
      assert HexValue(hi) * 16 + HexValue(lo) == b;
      PercentDecodeEncodedBytes(bs[1..], rest);
      assert [b] + bs[1..] == bs;
      assert PercentDecode(s) == Prepend([b], PercentDecode(tail));
      PrependPrepend([b], bs[1..], PercentDecode(rest));
    } else {
      assert PercentEncodeBytes(bs) + rest == rest;
      PrependPrepend([], [], PercentDecode(rest));
    }
  }

  lemma PercentDecodeEncodedChar(c: char, rest: string)
    ensures PercentDecode(EncodeChar(c) + rest) == Prepend(Utf8Char(c), PercentDecode(rest))
  {
    if IsUnreserved(c) {
      assert ([c] + rest)[1..] == rest;
    } else {
      PercentDecodeEncodedBytes(Utf8Char(c), rest);
    }
  }

  /** The escapes of `encodeURIComponent` read back as the UTF-8 bytes of the input. */
  lemma {:induction false} PercentDecodeEncode(s: string)
    ensures PercentDecode(EncodeUriComponent(s)) == Some(Utf8(s))
  {
    if s != [] {
      PercentDecodeEncode(s[1..]);
      PercentDecodeEncodedChar(s[0], EncodeUriComponent(s[1..]));
    }
  }

  lemma Utf8DecodeChar(c: char, rest: seq<byte>)
    ensures Utf8Decode(Utf8Char(c) + rest) == Prepend([c], Utf8Decode(rest))
  {
    var cp := c as int;
    if cp < 0x80 {
      assert (Utf8Char(c) + rest)[1..] == rest;
    } else if cp < 0x800 {
      Utf8DecodeTwoBytes(c, rest);
    } else if cp < 0x10000 {
      Utf8DecodeThreeBytes(c, rest);
    } else {
      Utf8DecodeFourBytes(c, rest);
    }
  }

  /** The six low bits and the rest of a number. */
  lemma SplitLowSix(n: int)
    requires n >= 0
    ensures n == (n / 64) * 64 + n % 64 && 0 <= n % 64 < 64
    ensures n / 4096 == (n / 64) / 64
  {
  }

  lemma Utf8DecodeTwoBytes(c: char, rest: seq<byte>)
    requires 0x80 <= c as int < 0x800
    ensures Utf8Decode(Utf8Char(c) + rest) == Prepend([c], Utf8Decode(rest))
  {
    var cp := c as int;
    var bs := Utf8Char(c) + rest;
    SplitLowSix(cp);
    assert bs[0] == 0xC0 + cp / 64 && bs[1] == 0x80 + cp % 64;
    assert (bs[0] as int - 0xC0) * 64 + (bs[1] as int - 0x80) == cp;
    assert bs[2..] == rest;
  }

  lemma Utf8DecodeThreeBytes(c: char, rest: seq<byte>)
    requires 0x800 <= c as int < 0x10000
    ensures Utf8Decode(Utf8Char(c) + rest) == Prepend([c], Utf8Decode(rest))
  {
    var cp := c as int;
    var bs := Utf8Char(c) + rest;
    SplitLowSix(cp);
    SplitLowSix(cp / 64);
    assert bs[0] == 0xE0 + cp / 4096 && bs[1] == 0x80 + (cp / 64) % 64 && bs[2] == 0x80 + cp % 64;
    assert (bs[0] as int - 0xE0) * 4096 + (bs[1] as int - 0x80) * 64 + (bs[2] as int - 0x80) == cp;
    assert bs[3..] == rest;
  }

  lemma Utf8DecodeFourBytes(c: char, rest: seq<byte>)
    requires 0x10000 <= c as int
    ensures Utf8Decode(Utf8Char(c) + rest) == Prepend([c], Utf8Decode(rest))
  {
    var cp := c as int;
    var bs := Utf8Char(c) + rest;
    SplitLowSix(cp);
    SplitLowSix(cp / 64);
    SplitLowSix(cp / 4096);
    assert cp / 262144 == (cp / 4096) / 64;
    assert bs[0] == 0xF0 + cp / 262144 && bs[1] == 0x80 + (cp / 4096) % 64;
    assert bs[2] == 0x80 + (cp / 64) % 64 && bs[3] == 0x80 + cp % 64;
    assert (bs[0] as int - 0xF0) * 262144 + (bs[1] as int - 0x80) * 4096 + (bs[2] as int - 0x80) * 64 + (bs[3] as int - 0x80) == cp;
    assert bs[4..] == rest;
  }

  /** UTF-8 decoding undoes UTF-8 encoding. */
  lemma {:induction false} Utf8DecodeEncode(s: string)
    ensures Utf8Decode(Utf8(s)) == Some(s)
  {
    if s != [] {
      Utf8DecodeEncode(s[1..]);
      Utf8DecodeChar(s[0], Utf8(s[1..]));
      assert [s[0]] + s[1..] == s;
    }
  }

  /** Decoding the output of `encodeURIComponent` gives back the input, so no
      two strings have the same encoding. */
  lemma DecodeEncode(s: string)
    ensures DecodeUriComponent(EncodeUriComponent(s)) == Some(s)
  {
    PercentDecodeEncode(s);
    Utf8DecodeEncode(s);
  }
}
