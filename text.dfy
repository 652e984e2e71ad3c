/**
 * String operations the JavaScript sources use, written out explicitly:
 * ASCII case folding, substring search, `Array.prototype.join`,
 * `String(n)` for integers, `padStart(2, '0')`, hexadecimal encoding of
 * bytes, `split(c).pop()` and Node's `path.extname`.
 */
module Text {

  // ---------------------------------------------------------------------
  // Case folding (ASCII only)
  // ---------------------------------------------------------------------

  predicate IsUpper(c: char)
  {
    'A' <= c <= 'Z'
  }

  /** `toLowerCase` on one character, restricted to the ASCII letters. */
  function LowerChar(c: char): (r: char)
    ensures !IsUpper(r)
    ensures !IsUpper(c) ==> r == c
    ensures IsUpper(c) ==> 'a' <= r <= 'z' && r as int - c as int == 'a' as int - 'A' as int
  {
    if IsUpper(c) then (c as int + ('a' as int - 'A' as int)) as char else c
  }

  /** `toLowerCase` on a string, restricted to the ASCII letters. */
  function Lower(s: string): (r: string)
    ensures |r| == |s|
    ensures forall i :: 0 <= i < |s| ==> r[i] == LowerChar(s[i])
  {
    seq(|s|, i requires 0 <= i < |s| => LowerChar(s[i]))
  }

  /** Lowering twice is lowering once. */
  lemma LowerIdempotent(s: string)
    ensures Lower(Lower(s)) == Lower(s)
  {
  }

  /** Two strings that differ only in the case of ASCII letters lower to the same string. */
  predicate SameIgnoringCase(s: string, t: string)
  {
    Lower(s) == Lower(t)
  }

  // ---------------------------------------------------------------------
  // Substring search: `String.prototype.includes`
  // ---------------------------------------------------------------------

  /** `t` occurs in `s` starting at index `i`. */
  predicate OccursAt(s: string, t: string, i: int)
  {
    0 <= i && i + |t| <= |s| && s[i..i + |t|] == t
  }

  lemma ShiftOccurs(s: string, t: string)
    requires |s| >= 1
    ensures forall i :: 1 <= i ==> (OccursAt(s, t, i) <==> OccursAt(s[1..], t, i - 1))
  {
    forall i | 1 <= i
      ensures OccursAt(s, t, i) <==> OccursAt(s[1..], t, i - 1)
    {
      if i + |t| <= |s| {
        assert s[1..][i - 1..i - 1 + |t|] == s[i..i + |t|];
      }
    }
  }

  /** `s.includes(t)`: the empty string occurs in every string. */
  function Contains(s: string, t: string): (b: bool)
    ensures b <==> exists i :: OccursAt(s, t, i)
    decreases |s|
  {
    if |t| > |s| then
      false
    else if s[..|t|] == t then
      assert OccursAt(s, t, 0);
      true
    else
      ShiftOccurs(s, t);
      var rest := Contains(s[1..], t);
      assert rest ==> exists i :: OccursAt(s, t, i) by {
        if rest {
          var j :| OccursAt(s[1..], t, j);
          assert OccursAt(s, t, j + 1);
        }
      }
      assert (exists i :: OccursAt(s, t, i)) ==> rest by {
        if exists i :: OccursAt(s, t, i) {
          var i :| OccursAt(s, t, i);
          assert i != 0;
          assert OccursAt(s[1..], t, i - 1);
        }
      }
      rest
  }

  // ---------------------------------------------------------------------
  // `Array.prototype.join`
  // ---------------------------------------------------------------------

  /** `parts.join(sep)`. */
  function Join(sep: string, parts: seq<string>): string
  {
    if |parts| == 0 then ""
    else if |parts| == 1 then parts[0]
    else parts[0] + sep + Join(sep, parts[1..])
  }

  /** Joining does not invent characters: a character of the result comes from a part or the separator. */
  lemma {:induction false} JoinChars(sep: string, parts: seq<string>, c: char)
    requires c in Join(sep, parts)
    ensures c in sep || exists k :: 0 <= k < |parts| && c in parts[k]
  {
    if |parts| > 1 {
      var tail := Join(sep, parts[1..]);
      assert Join(sep, parts) == parts[0] + sep + tail;
      if c in tail {
        JoinChars(sep, parts[1..], c);
        if !(c in sep) {
          var k :| 0 <= k < |parts[1..]| && c in parts[1..][k];
          assert c in parts[k + 1];
        }
      } else if c in parts[0] {
        assert c in parts[0];
      }
    } else if |parts| == 1 {
      assert c in parts[0];
    }
  }

  // ---------------------------------------------------------------------
  // Decimal rendering: `String(n)` / `n.toString()` for integers
  // ---------------------------------------------------------------------

  predicate IsDigit(c: char)
  {
    '0' <= c <= '9'
  }

  predicate IsDigits(s: string)
  {
    forall i :: 0 <= i < |s| ==> IsDigit(s[i])
  }

  function DigitChar(d: nat): (c: char)
    requires d < 10
    ensures IsDigit(c) && c as int - '0' as int == d
  {
    (d + '0' as int) as char
  }

  /** Decimal digits of `n`, most significant first, without leading zeros. */
  function NatToString(n: nat): (r: string)
    ensures |r| >= 1 && IsDigits(r)
    ensures r[0] == '0' ==> n == 0 && r == "0"
    decreases n
  {
    if n < 10 then [DigitChar(n)] else NatToString(n / 10) + [DigitChar(n % 10)]
  }

  /** The number a string of decimal digits denotes. */
  function DigitsValue(s: string): nat
    requires IsDigits(s)
  {
    if s == [] then 0 else 10 * DigitsValue(s[..|s| - 1]) + (s[|s| - 1] as int - '0' as int)
  }

  /** Reading the digits back gives the number: `NatToString` is injective. */
  lemma {:induction false} NatToStringRoundTrip(n: nat)
    ensures DigitsValue(NatToString(n)) == n
    decreases n
  {
    if n >= 10 {
      NatToStringRoundTrip(n / 10);
      var s := NatToString(n);
      assert s[..|s| - 1] == NatToString(n / 10);
    }
  }

  lemma NatToStringInjective(m: nat, n: nat)
    requires NatToString(m) == NatToString(n)
    ensures m == n
  {
    NatToStringRoundTrip(m);
    NatToStringRoundTrip(n);
  }

  /** `String(i)` for an integer `i`. */
  function IntToString(i: int): (r: string)
    ensures |r| >= 1
    ensures i >= 0 ==> IsDigits(r)
    ensures i < 0 ==> r[0] == '-' && IsDigits(r[1..])
  {
    if i < 0 then "-" + NatToString(-i) else NatToString(i)
  }

  /** `String(n).padStart(2, '0')`. */
  function Pad2(n: nat): (r: string)
    ensures IsDigits(r) && |r| >= 2
    ensures n < 100 ==> |r| == 2
  {
    var s := NatToString(n);
    assert 10 <= n < 100 ==> |s| == 2 by {
      if 10 <= n < 100 {
        assert |NatToString(n / 10)| == 1;
      }
    }
    if |s| < 2 then "0" + s else s
  }

  lemma {:induction false} Pad2RoundTrip(n: nat)
    ensures DigitsValue(Pad2(n)) == n
  {
    NatToStringRoundTrip(n);
    var s := NatToString(n);
    if |s| < 2 {
      assert |s| == 1;
      assert Pad2(n) == ['0', s[0]];
      assert Pad2(n)[..1] == ['0'];
      assert s[..0] == [];
    }
  }

  // ---------------------------------------------------------------------
  // Hexadecimal: `Buffer.toString('hex')`
  // ---------------------------------------------------------------------

  /** An octet, as `crypto.randomBytes` produces them. */
  type Byte = b: int | 0 <= b < 256

  predicate IsLowerHex(c: char)
  {
    IsDigit(c) || 'a' <= c <= 'f'
  }

  function HexDigit(d: nat): (c: char)
    requires d < 16
    ensures IsLowerHex(c)
  {
    if d < 10 then DigitChar(d) else (d - 10 + 'a' as int) as char
  }

  function HexValue(c: char): nat
    requires IsLowerHex(c)
  {
    if IsDigit(c) then c as int - '0' as int else c as int - 'a' as int + 10
  }

  /** Two lower-case hexadecimal digits per byte, high nibble first. */
  function Hex(bytes: seq<Byte>): (r: string)
    ensures |r| == 2 * |bytes|
    ensures forall i :: 0 <= i < |r| ==> IsLowerHex(r[i])
  {
    if bytes == [] then []
    else [HexDigit(bytes[0] / 16), HexDigit(bytes[0] % 16)] + Hex(bytes[1..])
  }

  /** The inverse of `Hex`. */
  function Unhex(s: string): seq<Byte>
    requires |s| % 2 == 0
    requires forall i :: 0 <= i < |s| ==> IsLowerHex(s[i])
  {
    if s == [] then []
    else
      var hi, lo := HexValue(s[0]), HexValue(s[1]);
      assert hi < 16 && lo < 16;
      [hi * 16 + lo] + Unhex(s[2..])
  }

  lemma {:induction false} HexRoundTrip(bytes: seq<Byte>)
    ensures Unhex(Hex(bytes)) == bytes
  {
    if bytes != [] {
      HexRoundTrip(bytes[1..]);
      var h := Hex(bytes);
      assert h[2..] == Hex(bytes[1..]);
      assert HexValue(h[0]) == bytes[0] / 16 && HexValue(h[1]) == bytes[0] % 16;
    }
  }

  // ---------------------------------------------------------------------
  // `s.split(c).pop()` and Node's `path.extname`
  // ---------------------------------------------------------------------

  /** `s.split(c).pop()`: the text after the last `c`, or all of `s` when `c` does not occur. */
  function LastSegment(s: string, c: char): (r: string)
    ensures |r| <= |s| && r == s[|s| - |r|..]
    ensures c !in r
    ensures |r| < |s| ==> s[|s| - |r| - 1] == c
  {
    if s == [] then []
    else if s[|s| - 1] == c then []
    else LastSegment(s[..|s| - 1], c) + [s[|s| - 1]]
  }

  /** Whatever precedes the last `c`, the last segment is what follows it. */
  lemma {:induction false} LastSegmentOfSuffix(p: string, c: char, t: string)
    requires c !in t
    ensures LastSegment(p + [c] + t, c) == t
  {
    if t != [] {
      var s := p + [c] + t;
      assert s[..|s| - 1] == p + [c] + t[..|t| - 1];
      LastSegmentOfSuffix(p, c, t[..|t| - 1]);
    } else {
      assert (p + [c] + t)[|p|] == c;
    }
  }

  /** Without a `c` in `s`, the last segment is all of `s`. */
  lemma LastSegmentWithout(s: string, c: char)
    requires c !in s
    ensures LastSegment(s, c) == s
  {
  }

  /** Lowering neither adds nor removes a character that is not a letter. */
  lemma LowerKeepsNonLetter(s: string, c: char)
    requires !IsUpper(c) && !('a' <= c <= 'z')
    ensures c in Lower(s) <==> c in s
  {
    if c in Lower(s) {
      var i :| 0 <= i < |s| && Lower(s)[i] == c;
      assert s[i] == c;
    }
    if c in s {
      var i :| 0 <= i < |s| && s[i] == c;
      assert Lower(s)[i] == c;
    }
  }

  /** Lowering commutes with dropping a prefix. */
  lemma LowerSuffix(s: string, i: nat)
    requires i <= |s|
    ensures Lower(s)[i..] == Lower(s[i..])
  {
  }

  /** `s.split(c)[0]`: the text before the first `c`, or all of `s` when `c` does not occur. */
  function FirstSegment(s: string, c: char): (r: string)
    ensures r <= s && c !in r
    ensures |r| < |s| ==> s[|r|] == c
  {
    if s == [] || s[0] == c then [] else [s[0]] + FirstSegment(s[1..], c)
  }

  /** Whatever follows the first `c`, the first segment is what precedes it. */
  lemma {:induction false} FirstSegmentOfPrefix(t: string, c: char, p: string)
    requires c !in t
    ensures FirstSegment(t + [c] + p, c) == t
  {
    if t != [] {
      assert (t + [c] + p)[1..] == t[1..] + [c] + p;
      FirstSegmentOfPrefix(t[1..], c, p);
    }
  }

  /** Lowering commutes with taking a prefix. */
  lemma LowerPrefix(s: string, i: nat)
    requires i <= |s|
    ensures Lower(s)[..i] == Lower(s[..i])
  {
  }

  /** Lowering distributes over concatenation. */
  lemma LowerAppend(a: string, b: string)
    ensures Lower(a + b) == Lower(a) + Lower(b)
  {
  }

  /** A separator that is not a letter is unaffected by lowering, so lowering commutes with `split(c).pop()`. */
  lemma {:induction false} LowerLastSegment(s: string, c: char)
    requires !IsUpper(c) && !('a' <= c <= 'z')
    ensures Lower(LastSegment(s, c)) == LastSegment(Lower(s), c)
  {
    if s != [] {
      var init, last := s[..|s| - 1], s[|s| - 1];
      assert s == init + [last];
      if last == c {
        LowerEndsWith(init, c);
      } else {
        LowerLastSegment(init, c);
        LastSegmentSnoc(init, last, c);
        LowerSnoc(LastSegment(init, c), last);
        LowerSnoc(init, last);
        LastSegmentSnoc(Lower(init), LowerChar(last), c);
      }
    }
  }

  lemma LowerEndsWith(init: string, c: char)
    requires !IsUpper(c) && !('a' <= c <= 'z')
    ensures LastSegment(Lower(init + [c]), c) == []
  {
    var ls := Lower(init + [c]);
    assert ls[|ls| - 1] == c;
  }

  /** Appending a character other than `c` extends the last segment by it. */
  lemma LastSegmentSnoc(t: string, x: char, c: char)
    requires x != c
    ensures LastSegment(t + [x], c) == LastSegment(t, c) + [x]
  {
    assert (t + [x])[..|t|] == t;
  }

  lemma LowerSnoc(t: string, x: char)
    ensures Lower(t + [x]) == Lower(t) + [LowerChar(x)]
  {
    LowerAppend(t, [x]);
  }

  /** The length of the run of decimal digits at the start of `s`. */
  function DigitRun(s: string): (k: nat)
    ensures k <= |s| && IsDigits(s[..k])
    ensures k < |s| ==> !IsDigit(s[k])
  {
    if s == [] || !IsDigit(s[0]) then 0
    else
      var k := 1 + DigitRun(s[1..]);
      assert s[..k] == [s[0]] + s[1..][..k - 1];
      k
  }

  /** A digit string followed by a non-digit is exactly the leading run. */
  lemma {:induction false} DigitRunOfDigits(d: string, rest: string)
    requires IsDigits(d)
    requires rest == [] || !IsDigit(rest[0])
    ensures DigitRun(d + rest) == |d|
  {
    if d != [] {
      assert (d + rest)[1..] == d[1..] + rest;
      DigitRunOfDigits(d[1..], rest);
    } else {
      assert d + rest == rest;
    }
  }

  /** `s` with every trailing `/` removed. */
  function TrimTrailingSlashes(s: string): (r: string)
    ensures |r| <= |s| && r == s[..|r|]
    ensures r == [] || r[|r| - 1] != '/'
  {
    if s != [] && s[|s| - 1] == '/' then TrimTrailingSlashes(s[..|s| - 1]) else s
  }

  /**
   * Node's POSIX `path.extname`: from the last `.` of the last path segment
   * to its end; empty when the segment has no `.`, when its only `.` is its
   * first character, or when the segment is `..`.
   */
  function Extname(path: string): (r: string)
    ensures r == [] || (r[0] == '.' && '.' !in r[1..] && '/' !in r)
  {
    var base := LastSegment(TrimTrailingSlashes(path), '/');
    var ext := LastSegment(base, '.');
    if |ext| == |base| || |ext| + 1 == |base| || base == ".." then ""
    else base[|base| - |ext| - 1..]
  }
}
