// Strings: ASCII case folding, lexicographic order, decimal digits.
module Text {

  /** `toLowerCase` on ASCII text, which is all that hex addresses and hashes use. */
  function LowerChar(c: char): (r: char)
    ensures !('A' <= r <= 'Z')
  {
    if 'A' <= c <= 'Z' then (c as int + 32) as char else c
  }

  function ToLower(s: string): (r: string)
    ensures |r| == |s|
    ensures forall i :: 0 <= i < |r| ==> r[i] == LowerChar(s[i])
  {
    seq(|s|, i requires 0 <= i < |s| => LowerChar(s[i]))
  }

  lemma {:induction false} ToLowerIdempotent(s: string)
    ensures ToLower(ToLower(s)) == ToLower(s)
  {
    var l := ToLower(s);
    forall i | 0 <= i < |s| ensures ToLower(l)[i] == l[i] {
      assert l[i] == LowerChar(s[i]);
    }
  }

  /** Byte-wise order of text columns, as `ORDER BY` and `MAX` use it. */
  predicate LexLess(a: string, b: string) {
    if b == "" then false
    else if a == "" then true
    else a[0] < b[0] || (a[0] == b[0] && LexLess(a[1..], b[1..]))
  }

  predicate IsDigits(s: string) {
    forall i :: 0 <= i < |s| ==> '0' <= s[i] <= '9'
  }

  function Digit(d: nat): (c: char)
    requires d < 10
    ensures '0' <= c <= '9' && DigitValue(c) == d
  {
    ('0' as int + d) as char
  }

  function DigitValue(c: char): nat
    requires '0' <= c <= '9'
  {
    c as int - '0' as int
  }

  function Pow10(k: nat): (p: nat)
    ensures p >= 1
  {
    if k == 0 then 1 else 10 * Pow10(k - 1)
  }

  /** The number a digit string denotes, most significant digit first. */
  function Value(s: string): nat
    requires IsDigits(s)
  {
    if s == "" then 0 else 10 * Value(s[..|s| - 1]) + DigitValue(s[|s| - 1])
  }

  /** A number in decimal, without leading zeros. */
  function ToDecimal(n: nat): (s: string)
    ensures IsDigits(s) && |s| >= 1
    ensures Value(s) == n
  {
    if n < 10 then [Digit(n)]
    else
      var s := ToDecimal(n / 10) + [Digit(n % 10)];
      assert s[..|s| - 1] == ToDecimal(n / 10);
      s
  }

  /** Zeros in front up to a width. */
  function PadZeros(s: string, width: nat): (r: string)
    requires IsDigits(s)
    ensures IsDigits(r)
    ensures |r| == if |s| >= width then |s| else width
    ensures Value(r) == Value(s)
    decreases width - |s|
  {
    if |s| >= width then s
    else
      LeadingDigit('0', s);
      PadZeros(['0'] + s, width)
  }

  lemma {:induction false} LeadingDigit(c: char, s: string)
    requires '0' <= c <= '9' && IsDigits(s)
    ensures Value([c] + s) == DigitValue(c) * Pow10(|s|) + Value(s)
  {
    var t := [c] + s;
    if s != "" {
      LeadingDigit(c, s[..|s| - 1]);
      assert t[..|t| - 1] == [c] + s[..|s| - 1];
      assert DigitValue(c) * Pow10(|s|) == 10 * (DigitValue(c) * Pow10(|s| - 1));
    } else {
      assert t[..|t| - 1] == "";
    }
  }

  lemma {:induction false} ValueBound(s: string)
    requires IsDigits(s)
    ensures Value(s) < Pow10(|s|)
  {
    if s != "" {
      ValueBound(s[..|s| - 1]);
    }
  }

  lemma {:induction false} DecimalWidth(n: nat, k: nat)
    requires k >= 1 && n < Pow10(k)
    ensures |ToDecimal(n)| <= k
    decreases k
  {
    if n >= 10 {
      assert k >= 2 by { assert Pow10(1) == 10 * Pow10(0); }
      DecimalWidth(n / 10, k - 1);
    }
  }

  lemma {:induction false} LeadingDigitDecides(x: nat, y: nat, p: nat, u: nat, v: nat)
    requires u < p && v < p && x < y
    ensures x * p + u < y * p + v
  {
    assert (x + 1) * p <= y * p;
  }

  /** On digit strings of one width, text order is numeric order. */
  lemma {:induction false} TextOrderIsNumeric(a: string, b: string)
    requires IsDigits(a) && IsDigits(b) && |a| == |b|
    ensures LexLess(a, b) <==> Value(a) < Value(b)
    ensures a == b <==> Value(a) == Value(b)
  {
    if a != "" {
      var a', b' := a[1..], b[1..];
      assert a == [a[0]] + a' && b == [b[0]] + b';
      LeadingDigit(a[0], a');
      LeadingDigit(b[0], b');
      ValueBound(a');
      ValueBound(b');
      var x, y := DigitValue(a[0]), DigitValue(b[0]);
      if x < y {
        LeadingDigitDecides(x, y, Pow10(|a'|), Value(a'), Value(b'));
      } else if y < x {
        LeadingDigitDecides(y, x, Pow10(|a'|), Value(b'), Value(a'));
      } else {
        assert a[0] == b[0];
        TextOrderIsNumeric(a', b');
      }
    }
  }
}
