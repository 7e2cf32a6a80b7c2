/** Byte strings and decimal numerals shared by the other modules.
    A byte is a `char` below 256; `std::string` is `string`. */
module Text {

  function Digits(n: nat): (s: string)
    ensures |s| > 0 && AllDigits(s)
  {
    if n < 10 then [DigitChar(n)] else Digits(n / 10) + [DigitChar(n % 10)]
  }

  function DigitChar(d: nat): char
    requires d < 10
  {
    '0' + d as char
  }

  /** `%lld` and `std::to_string`. */
  function Decimal(n: int): string {
    if n < 0 then "-" + Digits(-n) else Digits(n)
  }

  predicate IsDigit(c: char) {
    '0' <= c <= '9'
  }

  predicate AllDigits(s: string) {
    forall i :: 0 <= i < |s| ==> IsDigit(s[i])
  }

  function DigitsValue(s: string): nat
    requires AllDigits(s)
  {
    if s == [] then 0 else DigitsValue(s[..|s| - 1]) * 10 + (s[|s| - 1] - '0') as nat
  }

  lemma {:induction false} DigitsReadBack(n: nat)
    ensures DigitsValue(Digits(n)) == n
  {
    var s := Digits(n);
    if n < 10 {
      assert s[..|s| - 1] == [];
    } else {
      DigitsReadBack(n / 10);
      assert s[..|s| - 1] == Digits(n / 10);
    }
  }

  lemma DecimalInjective(m: nat, n: nat)
    requires Digits(m) == Digits(n)
    ensures m == n
  {
    DigitsReadBack(m);
    DigitsReadBack(n);
  }

  /** `w` stands in `t` at offset `p`. */
  ghost predicate At(t: string, p: nat, w: string) {
    p + |w| <= |t| && t[p..p + |w|] == w
  }

  lemma AtSplit(t: string, p: nat, a: string, b: string)
    requires At(t, p, a + b)
    ensures At(t, p, a) && At(t, p + |a|, b)
  {
    var w := t[p..p + |a + b|];
    assert w[..|a|] == a && w[|a|..] == b;
    assert t[p..p + |a|] == w[..|a|];
    assert t[p + |a|..p + |a| + |b|] == w[|a|..];
  }

  lemma AtIndex(t: string, p: nat, w: string, k: nat)
    requires At(t, p, w) && k < |w|
    ensures p + k < |t| && t[p + k] == w[k]
  {
    assert t[p..p + |w|][k] == t[p + k];
  }
}
