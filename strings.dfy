/**
 * The pieces of Go's `strings`, `strconv`, `fmt` and `encoding/hex` that the
 * core relies on, over strings of Unicode scalar values.  Go strings are
 * UTF-8 byte strings; where the source measures a length in bytes the model
 * measures `Utf8Len`.
 */
module Strings {

  /** `unicode.IsSpace`: the characters `strings.TrimSpace` removes. */
  predicate IsSpace(c: char)
  {
    || c == ' ' || c == '\t' || c == '\n' || c == '\r'
    || c == '\U{000B}' || c == '\U{000C}' || c == '\U{0085}' || c == '\U{00A0}'
    || c == '\U{1680}' || ('\U{2000}' <= c <= '\U{200A}')
    || c == '\U{2028}' || c == '\U{2029}' || c == '\U{202F}' || c == '\U{205F}'
    || c == '\U{3000}'
  }

  predicate AllSpace(s: string)
  {
    forall i :: 0 <= i < |s| ==> IsSpace(s[i])
  }

  /** The number of white-space characters `strings.TrimLeft` drops from the front. */
  function LeadingSpace(s: string): (k: nat)
    ensures k <= |s|
    ensures forall i :: 0 <= i < k ==> IsSpace(s[i])
    ensures k < |s| ==> !IsSpace(s[k])
  {
    if s != [] && IsSpace(s[0]) then 1 + LeadingSpace(s[1..]) else 0
  }

  /** Where the white space `strings.TrimRight` drops from the back begins. */
  function TrailingSpace(s: string): (e: nat)
    ensures e <= |s|
    ensures forall i :: e <= i < |s| ==> IsSpace(s[i])
    ensures e > 0 ==> !IsSpace(s[e - 1])
  {
    if s != [] && IsSpace(s[|s| - 1]) then TrailingSpace(s[..|s| - 1]) else |s|
  }

  /** `strings.TrimSpace`: drops leading and trailing white space. */
  function TrimSpace(s: string): (r: string)
    ensures r == [] <==> AllSpace(s)
    ensures r != [] ==> !IsSpace(r[0]) && !IsSpace(r[|r| - 1])
    ensures IsSubstring(r, s)
    // only white space around `r` is removed
    ensures exists i :: 0 <= i <= |s| - |r| && r == s[i..i + |r|] && AllSpace(s[..i]) && AllSpace(s[i + |r|..])
  {
    var k := LeadingSpace(s);
    var e := TrailingSpace(s);
    if e <= k then
      assert OccursAt([], s, 0);
      assert AllSpace(s[..0]) && AllSpace(s[0..]);
      []
    else
      assert OccursAt(s[k..e], s, k);
      assert AllSpace(s[..k]) && AllSpace(s[e..]);
      s[k..e]
  }

  /** Trimming twice trims no more than trimming once. */
  lemma {:induction false} TrimSpaceIdempotent(s: string)
    ensures TrimSpace(TrimSpace(s)) == TrimSpace(s)
  {
    var t := TrimSpace(s);
    if t != [] {
      assert LeadingSpace(t) == 0;
      assert TrailingSpace(t) == |t|;
    }
  }

  /** The number of bytes the UTF-8 encoding of `c` takes. */
  function Utf8Width(c: char): (w: nat)
    ensures 1 <= w <= 4
  {
    if c < '\U{80}' then 1
    else if c < '\U{800}' then 2
    else if c < '\U{1_0000}' then 3
    else 4
  }

  /** Go's `len` on a string: its length in UTF-8 bytes. */
  function Utf8Len(s: string): (n: nat)
    ensures |s| <= n <= 4 * |s|
  {
    if s == [] then 0 else Utf8Width(s[0]) + Utf8Len(s[1..])
  }

  predicate IsAscii(s: string)
  {
    forall i :: 0 <= i < |s| ==> s[i] < '\U{80}'
  }

  /** On ASCII text the byte length is the character count. */
  lemma {:induction false} AsciiUtf8Len(s: string)
    requires IsAscii(s)
    ensures Utf8Len(s) == |s|
  {
    if s != [] {
      assert IsAscii(s[1..]) by {
        forall i | 0 <= i < |s[1..]| ensures s[1..][i] < '\U{80}' {
          assert s[1..][i] == s[i + 1];
        }
      }
      AsciiUtf8Len(s[1..]);
    }
  }

  /** `strings.Count` for a one-character separator. */
  function CountChar(s: string, c: char): (n: nat)
    ensures n <= |s|
    ensures n == 0 <==> c !in s
  {
    if s == [] then 0 else (if s[0] == c then 1 else 0) + CountChar(s[1..], c)
  }

  /** `strings.Contains(s, p)`: `p` occurs in `s` as a contiguous block. */
  predicate IsSubstring(p: string, s: string)
  {
    exists i :: 0 <= i <= |s| - |p| && OccursAt(p, s, i)
  }

  /** `p` occurs in `s` starting at index `i`. */
  predicate OccursAt(p: string, s: string, i: int)
  {
    0 <= i <= |s| - |p| && s[i..i + |p|] == p
  }

  /** `strings.ReplaceAll(s, "+", "%20")`. */
  function ReplacePlus(s: string): (r: string)
    ensures '+' !in r
    ensures |r| == |s| + 2 * CountChar(s, '+')
  {
    if s == [] then []
    else (if s[0] == '+' then "%20" else [s[0]]) + ReplacePlus(s[1..])
  }

  /** `ReplacePlus` rewrites each character on its own: '+' becomes "%20", any other stays. */
  lemma ReplacePlusChar(c: char)
    ensures ReplacePlus([c]) == if c == '+' then "%20" else [c]
  {
    assert [c][1..] == [];
  }

  /** `ReplacePlus` of a concatenation is the concatenation of the pieces' replacements. */
  lemma {:induction false} ReplacePlusConcat(a: string, b: string)
    ensures ReplacePlus(a + b) == ReplacePlus(a) + ReplacePlus(b)
  {
    if a == [] {
      assert a + b == b;
    } else {
      var head := if a[0] == '+' then "%20" else [a[0]];
      assert (a + b)[0] == a[0];
      assert (a + b)[1..] == a[1..] + b;
      ReplacePlusConcat(a[1..], b);
      calc {
        ReplacePlus(a + b);
        head + ReplacePlus(a[1..] + b);
        head + (ReplacePlus(a[1..]) + ReplacePlus(b));
        (head + ReplacePlus(a[1..])) + ReplacePlus(b);
      }
    }
  }

  /** A string without '+' is left as it is. */
  lemma {:induction false} ReplacePlusNoPlus(s: string)
    requires '+' !in s
    ensures ReplacePlus(s) == s
  {
    if s != [] {
      ReplacePlusNoPlus(s[1..]);
      assert s == [s[0]] + s[1..];
    }
  }

  predicate IsDigit(c: char)
  {
    '0' <= c <= '9'
  }

  predicate AllDigits(s: string)
  {
    forall i :: 0 <= i < |s| ==> IsDigit(s[i])
  }

  function DigitChar(d: nat): (c: char)
    requires d < 10
    ensures IsDigit(c)
  {
    (('0' as int) + d) as char
  }

  function DigitValue(c: char): (d: nat)
    requires IsDigit(c)
    ensures d < 10
  {
    (c as int) - ('0' as int)
  }

  /**
   * `fmt.Sprintf("%d", n)` for n >= 0: the canonical decimal rendering, no sign
   * and no leading zero.
   */
  function Decimal(n: nat): (s: string)
    ensures |s| >= 1 && AllDigits(s)
    ensures s[0] == '0' ==> n == 0
  {
    if n < 10 then [DigitChar(n)] else Decimal(n / 10) + [DigitChar(n % 10)]
  }

  /** Reads a string of decimal digits back as a number. */
  function ParseDecimal(s: string): nat
    requires AllDigits(s)
  {
    if s == [] then 0 else ParseDecimal(s[..|s| - 1]) * 10 + DigitValue(s[|s| - 1])
  }

  /** Rendering a number in decimal and reading it back gives the number. */
  lemma {:induction false} DecimalRoundTrip(n: nat)
    ensures ParseDecimal(Decimal(n)) == n
  {
    var s := Decimal(n);
    if n < 10 {
      assert s[..0] == [];
      assert DigitValue(DigitChar(n)) == n;
    } else {
      DecimalRoundTrip(n / 10);
      assert s[..|s| - 1] == Decimal(n / 10);
      assert DigitValue(DigitChar(n % 10)) == n % 10;
    }
  }

  /** Distinct numbers render differently. */
  lemma DecimalInjective(m: nat, n: nat)
    requires Decimal(m) == Decimal(n)
    ensures m == n
  {
    DecimalRoundTrip(m);
    DecimalRoundTrip(n);
  }

  /** An octet. */
  newtype Byte = x: int | 0 <= x < 256

  /** An upper-case hexadecimal digit. */
  predicate IsHexUpper(c: char)
  {
    '0' <= c <= '9' || 'A' <= c <= 'F'
  }

  function HexDigit(v: nat): (c: char)
    requires v < 16
    ensures IsHexUpper(c)
  {
    if v < 10 then (('0' as int) + v) as char else (('A' as int) + v - 10) as char
  }

  function HexValue(c: char): (v: nat)
    requires IsHexUpper(c)
    ensures v < 16 && HexDigit(v) == c
  {
    if '0' <= c <= '9' then (c as int) - ('0' as int) else (c as int) - ('A' as int) + 10
  }

  /** The two upper-case hexadecimal digits of one byte, high nibble first. */
  function HexByte(b: Byte): (s: string)
    ensures |s| == 2 && IsHexUpper(s[0]) && IsHexUpper(s[1])
    ensures HexValue(s[0]) * 16 + HexValue(s[1]) == b as int
  {
    var hi, lo := (b / 16) as nat, (b % 16) as nat;
    assert HexValue(HexDigit(hi)) == hi && HexValue(HexDigit(lo)) == lo;
    [HexDigit(hi), HexDigit(lo)]
  }

  /** `strings.ToUpper(hex.EncodeToString(bs))`. */
  function HexUpper(bs: seq<Byte>): (s: string)
    ensures |s| == 2 * |bs|
    ensures forall i :: 0 <= i < |s| ==> IsHexUpper(s[i])
  {
    if bs == [] then [] else HexByte(bs[0]) + HexUpper(bs[1..])
  }

  function HexDecode(s: string): seq<Byte>
    requires |s| % 2 == 0
    requires forall i :: 0 <= i < |s| ==> IsHexUpper(s[i])
  {
    if s == [] then []
    else [(HexValue(s[0]) * 16 + HexValue(s[1])) as Byte] + HexDecode(s[2..])
  }

  /** Decoding the upper-case hex rendering gives back the bytes. */
  lemma {:induction false} HexRoundTrip(bs: seq<Byte>)
    ensures HexDecode(HexUpper(bs)) == bs
  {
    if bs != [] {
      var s := HexUpper(bs);
      assert s[..2] == HexByte(bs[0]);
      assert s[2..] == HexUpper(bs[1..]);
      HexRoundTrip(bs[1..]);
    }
  }
}
