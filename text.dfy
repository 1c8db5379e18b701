/** Kotlin's decimal rendering of numbers inside string templates
    (`"${label}_$i"`, `"${getPeak()}"`, `"${getDia()}"`). */
module Text {

  function Digit(d: nat): (c: char)
    requires d < 10
    ensures '0' <= c <= '9'
  {
    (48 + d) as char
  }

  /** Decimal digits of a natural number, most significant first. */
  function NatText(n: nat): (s: string)
    ensures |s| >= 1
    ensures n >= 10 ==> |s| >= 2
    ensures forall k :: 0 <= k < |s| ==> '0' <= s[k] <= '9'
    decreases n
  {
    if n < 10 then [Digit(n)] else NatText(n / 10) + [Digit(n % 10)]
  }

  /** `Int.toString()`: a minus sign before the digits of a negative number. */
  function IntText(n: int): (s: string)
    ensures |s| >= 1 && (s[0] == '-' <==> n < 0)
    ensures forall k :: 0 < k < |s| ==> '0' <= s[k] <= '9'
  {
    if n < 0 then "-" + NatText(-n) else NatText(n)
  }

  /** `Double.toString()` of a value `tenths / 10.0`: whole part, a point and
      one decimal, with a minus sign when negative (`6.0`, `-0.5`, `12.3`). */
  function DiaText(tenths: int): (s: string)
    ensures |s| >= 3 && s[|s| - 2] == '.' && '0' <= s[|s| - 1] <= '9'
    ensures s[0] == '-' <==> tenths < 0
  {
    var m: nat := if tenths < 0 then -tenths else tenths;
    (if tenths < 0 then "-" else "") + NatText(m / 10) + "." + [Digit(m % 10)]
  }

  /** Distinct numbers have distinct renderings. */
  lemma {:induction false} NatTextInjective(a: nat, b: nat)
    requires NatText(a) == NatText(b)
    ensures a == b
    decreases a
  {
    if a < 10 && b < 10 {
      assert NatText(a)[0] == Digit(a);
    } else if a >= 10 && b >= 10 {
      var sa, sb := NatText(a), NatText(b);
      assert sa == NatText(a / 10) + [Digit(a % 10)];
      assert sb == NatText(b / 10) + [Digit(b % 10)];
      assert sa[|sa| - 1] == Digit(a % 10) && sb[|sb| - 1] == Digit(b % 10);
      assert NatText(a / 10) == sa[..|sa| - 1];
      assert NatText(b / 10) == sb[..|sb| - 1];
      NatTextInjective(a / 10, b / 10);
    }
  }

  /** The label `base_i` that the label generator tries for suffix `i`. */
  function Suffixed(base: string, i: int): (s: string)
    ensures |s| > |base| + 1 && s[..|base|] == base
  {
    base + "_" + IntText(i)
  }

  /** Different suffixes give different labels. */
  lemma SuffixedInjective(base: string, i: nat, j: nat)
    ensures Suffixed(base, i) == Suffixed(base, j) ==> i == j
  {
    var si, sj := Suffixed(base, i), Suffixed(base, j);
    assert si[|base| + 1..] == NatText(i);
    assert sj[|base| + 1..] == NatText(j);
    if si == sj {
      NatTextInjective(i, j);
    }
  }
}
