/**
 * PHP's `rawurlencode`: the percent-encoding of section 2.1 of RFC 3986,
 * leaving exactly the unreserved characters of section 2.3 of RFC 3986 as
 * they are. Its partner is the percent-decoding of `rawurldecode`.
 */
module UrlEncoding {
  import opened ByteStrings

  /** The unreserved characters `A-Z a-z 0-9 - _ . ~`. */
  predicate IsUnreserved(c: Byte) {
    || ('A' <= c <= 'Z')
    || ('a' <= c <= 'z')
    || ('0' <= c <= '9')
    || c == '-' || c == '_' || c == '.' || c == '~'
  }

  /** The upper-case hexadecimal digit for `n`. */
  function HexDigit(n: nat): (c: Byte)
    requires n < 16
    ensures IsUnreserved(c)
  {
    "0123456789ABCDEF"[n]
  }

  predicate IsHexDigit(c: Byte) {
    ('0' <= c <= '9') || ('A' <= c <= 'F') || ('a' <= c <= 'f')
  }

  function HexValue(c: Byte): (n: nat)
    requires IsHexDigit(c)
    ensures n < 16
  {
    if '0' <= c <= '9' then c as int - '0' as int
    else if 'A' <= c <= 'F' then c as int - 'A' as int + 10
    else c as int - 'a' as int + 10
  }

  lemma HexValueOfDigit(n: nat)
    requires n < 16
    ensures IsHexDigit(HexDigit(n)) && HexValue(HexDigit(n)) == n
  {
  }

  /** The encoding of one byte: itself if unreserved, `%XX` otherwise. */
  function EncodeByte(b: Byte): (r: Bytes)
  {
    if IsUnreserved(b) then [b]
    else ['%', HexDigit(b as int / 16), HexDigit(b as int % 16)]
  }

  /**
   * `rawurlencode(s)`. Every byte of the result is unreserved or `%`, so the
   * result never holds a space, `/`, `&` or `=`.
   */
  function RawUrlEncode(s: Bytes): (r: Bytes)
    ensures forall i :: 0 <= i < |r| ==> IsUnreserved(r[i]) || r[i] == '%'
  {
    if |s| == 0 then []
    else
      assert s == [s[0]] + s[1..];
      EncodeByte(s[0]) + RawUrlEncode(s[1..])
  }

  /**
   * `rawurldecode(s)`: every `%` followed by two hexadecimal digits becomes
   * the byte they denote; everything else is kept.
   */
  function PercentDecode(s: Bytes): Bytes
  {
    if |s| >= 3 && s[0] == '%' && IsHexDigit(s[1]) && IsHexDigit(s[2]) then
      [(HexValue(s[1]) * 16 + HexValue(s[2])) as char] + PercentDecode(s[3..])
    else if |s| == 0 then []
    else [s[0]] + PercentDecode(s[1..])
  }

  lemma DecodeEncodedByte(b: Byte, rest: Bytes)
    ensures PercentDecode(EncodeByte(b) + rest) == [b] + PercentDecode(rest)
  {
    var e := EncodeByte(b) + rest;
    if IsUnreserved(b) {
      assert e[0] == b && e[1..] == rest;
    } else {
      var hi, lo := b as int / 16, b as int % 16;
      HexValueOfDigit(hi);
      HexValueOfDigit(lo);
      assert e[0] == '%' && e[1] == HexDigit(hi) && e[2] == HexDigit(lo) && e[3..] == rest;
      assert hi * 16 + lo == b as int;
    }
  }

  /** Decoding undoes encoding, so the encoding loses nothing. */
  lemma {:induction false} DecodeEncode(s: Bytes)
    ensures PercentDecode(RawUrlEncode(s)) == s
  {
    if |s| > 0 {
      DecodeEncode(s[1..]);
      DecodeEncodedByte(s[0], RawUrlEncode(s[1..]));
      assert [s[0]] + s[1..] == s;
    }
  }

  /** Encoding is injective: different values never serialise alike. */
  lemma EncodeInjective(s: Bytes, t: Bytes)
    requires RawUrlEncode(s) == RawUrlEncode(t)
    ensures s == t
  {
    DecodeEncode(s);
    DecodeEncode(t);
  }

  /** `rawurlencode` writes a space as `%20`, never as `+`. */
  lemma EncodeSpace()
    ensures EncodeByte(' ') == "%20"
  {
    assert !IsUnreserved(' ');
    assert ' ' as int / 16 == 2 && ' ' as int % 16 == 0;
  }

  /** A slash is encoded too, as `%2F`. */
  lemma EncodeSlash()
    ensures EncodeByte('/') == "%2F"
  {
    assert !IsUnreserved('/');
    assert '/' as int / 16 == 2 && '/' as int % 16 == 15;
  }

  /** A string made only of unreserved bytes is left unchanged. */
  lemma {:induction false} EncodeUnreserved(s: Bytes)
    requires forall i :: 0 <= i < |s| ==> IsUnreserved(s[i])
    ensures RawUrlEncode(s) == s
  {
    if |s| > 0 {
      assert IsUnreserved(s[0]);
      EncodeUnreserved(s[1..]);
    }
  }
}
