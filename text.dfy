/**
 * String helpers shared by the command-line and desktop front ends:
 * Python's `split(sep)[0]`, substring search, ASCII `lower()`, slicing
 * with Python's clamping, `", ".join`, and decimal / two-digit hex
 * rendering of numbers.
 */
module Text {

  import opened Wrappers

  /** `s.split(sep)[0]`: the part of `s` before the first `sep`, or all of `s`. */
  function SplitHead(s: string, sep: char): (r: string)
    ensures sep !in r
    ensures r <= s
    ensures r == s || s[|r|] == sep
  {
    if s == [] then []
    else if s[0] == sep then []
    else [s[0]] + SplitHead(s[1..], sep)
  }

  /** Python's `sub in s` for strings. */
  predicate Contains(s: string, sub: string) {
    sub <= s || (s != [] && Contains(s[1..], sub))
  }

  lemma {:induction false} ContainsMiddle(a: string, b: string, c: string)
    ensures Contains(a + b + c, b)
  {
    if a == [] {
      assert a + b + c == b + c;
    } else {
      assert (a + b + c)[1..] == a[1..] + b + c;
      ContainsMiddle(a[1..], b, c);
    }
  }

  /** `str.lower()` restricted to ASCII letters. */
  function LowerChar(c: char): (r: char)
    ensures 'A' <= c <= 'Z' ==> r as int == c as int + 32
    ensures !('A' <= c <= 'Z') ==> r == c
  {
    if 'A' <= c <= 'Z' then (c as int + 32) as char else c
  }

  function Lower(s: string): (r: string)
    ensures |r| == |s|
    ensures forall i :: 0 <= i < |s| ==> r[i] == LowerChar(s[i])
  {
    if s == [] then [] else [LowerChar(s[0])] + Lower(s[1..])
  }

  /** Lowering twice is lowering once, so a lowered message classifies like the original. */
  lemma LowerIdempotent(s: string)
    ensures Lower(Lower(s)) == Lower(s)
  {
    var l := Lower(s);
    forall i | 0 <= i < |s| ensures Lower(l)[i] == l[i] {
      assert l[i] == LowerChar(s[i]);
    }
  }

  /** Python's `s[:n]`: at most the first `n` characters. */
  function Take(s: string, n: nat): (r: string)
    ensures r <= s
    ensures |r| == if |s| < n then |s| else n
  {
    if |s| <= n then s else s[..n]
  }

  /** Python's `s[i:j]` for `0 <= i <= j`, clamped to the string. */
  function Slice(s: string, i: nat, j: nat): (r: string)
    requires i <= j
    ensures |r| <= j - i
    ensures i < |s| ==> r == s[i..if j < |s| then j else |s|]
    ensures |s| <= i ==> r == []
  {
    if |s| <= i then [] else if |s| <= j then s[i..] else s[i..j]
  }

  /** `sep.join(xs)`. */
  function Join(xs: seq<string>, sep: string): (r: string)
    ensures xs == [] ==> r == []
    ensures xs != [] ==> xs[0] <= r
    ensures xs != [] ==> var last := xs[|xs| - 1]; |last| <= |r| && r[|r| - |last|..] == last
    ensures |xs| == 2 ==> r == xs[0] + sep + xs[1]
  {
    if xs == [] then []
    else if |xs| == 1 then xs[0]
    else Join(xs[..|xs| - 1], sep) + sep + xs[|xs| - 1]
  }

  /** Extending a text on the right keeps every piece it contains. */
  lemma {:induction false} ContainsExtend(a: string, b: string, x: string)
    requires Contains(a, x)
    ensures Contains(a + b, x)
  {
    if !(x <= a) {
      assert (a + b)[1..] == a[1..] + b;
      ContainsExtend(a[1..], b, x);
    }
  }

  /** Every joined element appears in the joined text. */
  lemma {:induction false} JoinContains(xs: seq<string>, sep: string, k: nat)
    requires k < |xs|
    ensures Contains(Join(xs, sep), xs[k])
  {
    if |xs| == 1 {
      ContainsMiddle([], xs[0], []);
      assert [] + xs[0] + [] == xs[0];
    } else {
      var p := xs[..|xs| - 1];
      if k == |xs| - 1 {
        ContainsMiddle(Join(p, sep) + sep, xs[k], []);
        assert Join(p, sep) + sep + xs[k] + [] == Join(xs, sep);
      } else {
        JoinContains(p, sep, k);
        assert p[k] == xs[k];
        ContainsExtend(Join(p, sep), sep + xs[|xs| - 1], xs[k]);
        assert Join(p, sep) + (sep + xs[|xs| - 1]) == Join(xs, sep);
      }
    }
  }

  predicate IsDigit(c: char) {
    '0' <= c <= '9'
  }

  function DigitChar(d: nat): (c: char)
    requires d < 10
    ensures IsDigit(c) && c as int - '0' as int == d
  {
    (d + '0' as int) as char
  }

  /** `str(n)` for a natural number: decimal digits, no leading zero. */
  function NatToString(n: nat): (r: string)
    ensures |r| >= 1
    ensures forall i :: 0 <= i < |r| ==> IsDigit(r[i])
    ensures |r| > 1 ==> r[0] != '0'
    decreases n
  {
    if n < 10 then [DigitChar(n)] else NatToString(n / 10) + [DigitChar(n % 10)]
  }

  /** The number a string of decimal digits denotes (`int(s)`). */
  function DecimalValue(s: string): nat
    requires forall i :: 0 <= i < |s| ==> IsDigit(s[i])
  {
    if s == [] then 0
    else
      assert IsDigit(s[|s| - 1]);
      DecimalValue(s[..|s| - 1]) * 10 + (s[|s| - 1] as int - '0' as int)
  }

  lemma {:induction false} DecimalRoundTrip(n: nat)
    ensures DecimalValue(NatToString(n)) == n
    decreases n
  {
    if n >= 10 {
      var p := NatToString(n / 10);
      var s := p + [DigitChar(n % 10)];
      assert s[..|s| - 1] == p;
      DecimalRoundTrip(n / 10);
    }
  }

  function HexDigit(d: nat): (c: char)
    requires d < 16
    ensures '0' <= c <= '9' || 'a' <= c <= 'f'
  {
    if d < 10 then (d + '0' as int) as char else (d - 10 + 'a' as int) as char
  }

  /** The value of one hexadecimal digit, either case, as `int(c, 16)` reads it. */
  function HexValue(c: char): (r: Option<nat>)
    ensures r.Some? ==> r.value < 16
    ensures r.Some? <==> ('0' <= c <= '9' || 'a' <= c <= 'f' || 'A' <= c <= 'F')
  {
    if '0' <= c <= '9' then Some(c as int - '0' as int)
    else if 'a' <= c <= 'f' then Some(c as int - 'a' as int + 10)
    else if 'A' <= c <= 'F' then Some(c as int - 'A' as int + 10)
    else None
  }

  lemma HexDigitValue(d: nat)
    requires d < 16
    ensures HexValue(HexDigit(d)) == Some(d)
  {
  }

  /** `f"{v:02x}"` for a byte value: two lower-case digits, zero-padded. */
  function Hex2(v: nat): (r: string)
    requires v < 256
    ensures |r| == 2
    ensures forall i :: 0 <= i < 2 ==> ('0' <= r[i] <= '9' || 'a' <= r[i] <= 'f')
  {
    [HexDigit(v / 16), HexDigit(v % 16)]
  }

  /**
   * `int(s, 16)` for a slice of at most two characters, accepting only hex
   * digits: None where Python raises ValueError.
   */
  function ParseHexField(s: string): (r: Option<nat>)
    ensures r.Some? ==> r.value < 256
    ensures r.Some? ==> 1 <= |s|
    ensures |s| == 1 ==> r == HexValue(s[0])
  {
    if |s| == 1 then HexValue(s[0])
    else if |s| == 2 && HexValue(s[0]).Some? && HexValue(s[1]).Some? then
      Some(HexValue(s[0]).value * 16 + HexValue(s[1]).value)
    else None
  }

  lemma Hex2RoundTrip(v: nat)
    requires v < 256
    ensures ParseHexField(Hex2(v)) == Some(v)
  {
    HexDigitValue(v / 16);
    HexDigitValue(v % 16);
  }
}
