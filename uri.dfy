/**
 * `encodeURIComponent`: every character outside the unreserved set becomes
 * the percent-escaped bytes of its UTF-8 encoding, with upper-case hex
 * digits. Its partner `DecodeURIComponent` reads the escapes back into bytes
 * and decodes them as UTF-8.
 *
 * A Dafny `char` is a Unicode scalar value, so the lone surrogates on which
 * the JavaScript function throws cannot occur.
 */
module Uri {
  import opened Wrappers
  import opened Text

  /** The characters `encodeURIComponent` leaves as they are. */
  predicate IsUnreserved(c: char)
  {
    || ('A' <= c <= 'Z') || ('a' <= c <= 'z') || ('0' <= c <= '9')
    || c in {'-', '_', '.', '!', '~', '*', '\'', '(', ')'}
  }

  predicate IsUpperHex(c: char)
  {
    IsDigit(c) || 'A' <= c <= 'F'
  }

  function UpperHexDigit(d: nat): (c: char)
    requires d < 16
    ensures IsUpperHex(c)
  {
    if d < 10 then DigitChar(d) else (d - 10 + 'A' as int) as char
  }

  /** A hex digit of either case, as the decoder accepts them. */
  predicate IsHexDigit(c: char)
  {
    IsDigit(c) || 'A' <= c <= 'F' || 'a' <= c <= 'f'
  }

  function HexDigitValue(c: char): (d: nat)
    requires IsHexDigit(c)
    ensures d < 16
  {
    if IsDigit(c) then c as int - '0' as int
    else if 'A' <= c <= 'F' then c as int - 'A' as int + 10
    else c as int - 'a' as int + 10
  }

  lemma UpperHexDigitValue(d: nat)
    requires d < 16
    ensures IsHexDigit(UpperHexDigit(d)) && HexDigitValue(UpperHexDigit(d)) == d
  {
  }

  // ---------------------------------------------------------------------
  // UTF-8
  // ---------------------------------------------------------------------

  /** The UTF-8 encoding of one code point: one to four bytes. */
  function Utf8(c: char): (r: seq<Byte>)
    ensures 1 <= |r| <= 4
    ensures |r| == 1 <==> c as int < 0x80
    ensures |r| == 1 ==> r[0] == c as int
  {
    var n := c as int;
    if n < 0x80 then [n]
    else if n < 0x800 then [0xC0 + n / 64, 0x80 + n % 64]
    else if n < 0x1_0000 then [0xE0 + n / 4096, 0x80 + (n / 64) % 64, 0x80 + n % 64]
    else [0xF0 + n / 262144, 0x80 + (n / 4096) % 64, 0x80 + (n / 64) % 64, 0x80 + n % 64]
  }

  /** The UTF-8 encoding of a string. */
  function Utf8String(s: string): seq<Byte>
  {
    if s == [] then [] else Utf8(s[0]) + Utf8String(s[1..])
  }

  /** A continuation byte `10xxxxxx`. */
  predicate IsContinuation(b: Byte)
  {
    0x80 <= b < 0xC0
  }

  /** How many bytes a sequence starting with lead byte `b` takes, 0 for a byte that cannot lead. */
  function SequenceLength(b: Byte): (n: nat)
    ensures n <= 4
  {
    if b < 0x80 then 1
    else if 0xC0 <= b < 0xE0 then 2
    else if 0xE0 <= b < 0xF0 then 3
    else if 0xF0 <= b < 0xF8 then 4
    else 0
  }

  /** The code point carried by a complete sequence. */
  function CodePoint(bs: seq<Byte>): int
    requires 1 <= |bs| <= 4
  {
    var b: seq<int> := bs;
    if |b| == 1 then b[0]
    else if |b| == 2 then (b[0] - 0xC0) * 64 + (b[1] - 0x80)
    else if |b| == 3 then (b[0] - 0xE0) * 4096 + (b[1] - 0x80) * 64 + (b[2] - 0x80)
    else (b[0] - 0xF0) * 262144 + (b[1] - 0x80) * 4096 + (b[2] - 0x80) * 64 + (b[3] - 0x80)
  }

  predicate IsScalarValue(n: int)
  {
    0 <= n < 0xD800 || 0xE000 <= n < 0x11_0000
  }

  /** Decodes UTF-8; `None` on a bad lead byte, a truncated sequence or a surrogate. */
  function DecodeUtf8(bs: seq<Byte>): Option<string>
    decreases |bs|
  {
    if bs == [] then Some([])
    else
      var len := SequenceLength(bs[0]);
      if len == 0 || |bs| < len || !(forall k :: 1 <= k < len ==> IsContinuation(bs[k])) then None
      else
        var n := CodePoint(bs[..len]);
        if !IsScalarValue(n) then None
        else match DecodeUtf8(bs[len..])
          case None => None
          case Some(rest) => Some([n as char] + rest)
  }

  /** `bs` is a well-formed sequence carrying `n`. */
  predicate Carries(bs: seq<Byte>, n: int)
  {
    && 1 <= |bs| <= 4
    && SequenceLength(bs[0]) == |bs|
    && (forall k :: 1 <= k < |bs| ==> IsContinuation(bs[k]))
    && CodePoint(bs) == n
  }

  lemma TwoBytes(n: int)
    requires 0x80 <= n < 0x800
    ensures Carries([0xC0 + n / 64, 0x80 + n % 64], n)
  {
    assert n == (n / 64) * 64 + n % 64;
  }

  lemma ThreeBytes(n: int)
    requires 0x800 <= n < 0x1_0000
    ensures Carries([0xE0 + n / 4096, 0x80 + (n / 64) % 64, 0x80 + n % 64], n)
  {
    var m := n / 64;
    assert n == m * 64 + n % 64;
    assert m == (m / 64) * 64 + m % 64;
    assert m / 64 == n / 4096;
  }

  lemma FourBytes(n: int)
    requires 0x1_0000 <= n < 0x11_0000
    ensures Carries([0xF0 + n / 262144, 0x80 + (n / 4096) % 64, 0x80 + (n / 64) % 64, 0x80 + n % 64], n)
  {
    var m := n / 64;
    var q := m / 64;
    assert n == m * 64 + n % 64;
    assert m == q * 64 + m % 64;
    assert q == (q / 64) * 64 + q % 64;
    assert q == n / 4096 && q / 64 == n / 262144;
  }

  /** The bytes of one code point are a well-formed sequence that carries it. */
  lemma Utf8Char(c: char)
    ensures Carries(Utf8(c), c as int)
  {
    var n := c as int;
    if n < 0x80 {
    } else if n < 0x800 {
      TwoBytes(n);
    } else if n < 0x1_0000 {
      ThreeBytes(n);
    } else {
      FourBytes(n);
    }
  }

  /** Decoding one encoded code point and then the rest. */
  lemma DecodeUtf8Char(c: char, rest: seq<Byte>)
    ensures DecodeUtf8(Utf8(c) + rest) ==
      match DecodeUtf8(rest)
      case None => None
      case Some(s) => Some([c] + s)
  {
    var bs := Utf8(c) + rest;
    Utf8Char(c);
    var len := |Utf8(c)|;
    assert bs[..len] == Utf8(c);
    assert bs[len..] == rest;
    assert SequenceLength(bs[0]) == len;
    assert forall k :: 1 <= k < len ==> IsContinuation(bs[k]);
  }

  lemma {:induction false} Utf8RoundTrip(s: string)
    ensures DecodeUtf8(Utf8String(s)) == Some(s)
  {
    if s != [] {
      Utf8RoundTrip(s[1..]);
      DecodeUtf8Char(s[0], Utf8String(s[1..]));
      assert [s[0]] + s[1..] == s;
    }
  }

  // ---------------------------------------------------------------------
  // Percent-encoding
  // ---------------------------------------------------------------------

  /** `%XX` for each byte, upper-case hex. */
  function Percent(bs: seq<Byte>): (r: string)
    ensures |r| == 3 * |bs|
  {
    if bs == [] then []
    else ['%', UpperHexDigit(bs[0] / 16), UpperHexDigit(bs[0] % 16)] + Percent(bs[1..])
  }

  function EncodeChar(c: char): string
  {
    if IsUnreserved(c) then [c] else Percent(Utf8(c))
  }

  /** Only unreserved characters and `%` appear. */
  predicate UrlSafe(s: string)
  {
    forall i :: 0 <= i < |s| ==> IsUnreserved(s[i]) || s[i] == '%'
  }

  lemma {:induction false} PercentSafe(bs: seq<Byte>)
    ensures UrlSafe(Percent(bs))
  {
    if bs != [] {
      PercentSafe(bs[1..]);
      var p := Percent(bs);
      assert p[3..] == Percent(bs[1..]);
      assert forall i :: 0 <= i < 3 ==> IsUnreserved(p[i]) || p[i] == '%';
    }
  }

  /** `encodeURIComponent(s)`. */
  function EncodeURIComponent(s: string): (r: string)
    ensures UrlSafe(r)
    ensures |r| >= |s|
  {
    if s == [] then []
    else
      var head := EncodeChar(s[0]);
      assert UrlSafe(head) by {
        if !IsUnreserved(s[0]) {
          PercentSafe(Utf8(s[0]));
        }
      }
      head + EncodeURIComponent(s[1..])
  }

  /** A text of unreserved characters only is left as it is. */
  lemma {:induction false} EncodeUnreservedUnchanged(s: string)
    requires forall i :: 0 <= i < |s| ==> IsUnreserved(s[i])
    ensures EncodeURIComponent(s) == s
  {
    if s != [] {
      EncodeUnreservedUnchanged(s[1..]);
      assert [s[0]] + s[1..] == s;
    }
  }

  /**
   * The bytes a percent-encoded text stands for: each `%XX` is a byte, any
   * other character its UTF-8 bytes. `None` on a `%` without two hex digits.
   */
  function PercentBytes(s: string): Option<seq<Byte>>
    decreases |s|
  {
    if s == [] then Some([])
    else if s[0] == '%' then
      if |s| < 3 || !IsHexDigit(s[1]) || !IsHexDigit(s[2]) then None
      else match PercentBytes(s[3..])
        case None => None
        case Some(r) => Some([HexDigitValue(s[1]) * 16 + HexDigitValue(s[2])] + r)
    else match PercentBytes(s[1..])
      case None => None
      case Some(r) => Some(Utf8(s[0]) + r)
  }

  /** `decodeURIComponent(s)`, with `None` where it throws a `URIError`. */
  function DecodeURIComponent(s: string): Option<string>
  {
    match PercentBytes(s)
    case None => None
    case Some(bs) => DecodeUtf8(bs)
  }

  lemma {:induction false} PercentBytesOfPercent(bs: seq<Byte>, rest: string)
    ensures PercentBytes(Percent(bs) + rest) ==
      match PercentBytes(rest)
      case None => None
      case Some(r) => Some(bs + r)
  {
    if bs != [] {
      PercentBytesOfPercent(bs[1..], rest);
      var s := Percent(bs) + rest;
      assert s[3..] == Percent(bs[1..]) + rest;
      UpperHexDigitValue(bs[0] / 16);
      UpperHexDigitValue(bs[0] % 16);
      assert s[0] == '%' && IsHexDigit(s[1]) && IsHexDigit(s[2]);
      assert HexDigitValue(s[1]) * 16 + HexDigitValue(s[2]) == bs[0];
      match PercentBytes(rest) {
        case None =>
        case Some(r) => assert [bs[0]] + (bs[1..] + r) == bs + r;
      }
    } else {
      assert Percent(bs) + rest == rest;
      match PercentBytes(rest) {
        case None =>
        case Some(r) => assert bs + r == r;
      }
    }
  }

  lemma {:induction false} PercentBytesOfEncoded(s: string)
    ensures PercentBytes(EncodeURIComponent(s)) == Some(Utf8String(s))
  {
    if s != [] {
      PercentBytesOfEncoded(s[1..]);
      var c := s[0];
      var rest := EncodeURIComponent(s[1..]);
      assert EncodeURIComponent(s) == EncodeChar(c) + rest;
      if IsUnreserved(c) {
        assert (EncodeChar(c) + rest)[1..] == rest;
      } else {
        PercentBytesOfPercent(Utf8(c), rest);
      }
    }
  }

  /** Decoding undoes encoding. */
  lemma EncodeRoundTrip(s: string)
    ensures DecodeURIComponent(EncodeURIComponent(s)) == Some(s)
  {
    PercentBytesOfEncoded(s);
    Utf8RoundTrip(s);
  }
}
