/** Pieces of the source's language: integer division and NUL-terminated text. */
module CLang {
  const NUL := 0 as char

  /** Text as the source holds it: every character is one byte. */
  predicate Bytes(s: string) { forall i :: 0 <= i < |s| ==> s[i] as int < 256 }

  /** Division by a positive number, truncating toward zero. */
  function TruncDiv(a: int, b: int): int
    requires b > 0
  {
    if a >= 0 then a / b else -((-a) / b)
  }

  /** A C string ends at its first NUL. */
  function CString(s: string): string
    decreases |s|
  {
    if s == "" || s[0] == NUL then "" else [s[0]] + CString(s[1..])
  }

  lemma {:induction false} CStringWhole(s: string)
    requires NUL !in s
    ensures CString(s) == s
  {
    if s != "" {
      assert s[0] in s;
      CStringWhole(s[1..]);
    }
  }

  /** A quotient is below k exactly when the dividend is below k times the divisor. */
  lemma QuotientBelow(v: int, d: int, k: int)
    requires d > 0
    ensures v / d < k <==> v < k * d
  {
    QuotientParts(v, d);
    if v / d < k {
      Multiples(v / d + 1, k, d);
    } else {
      Multiples(k, v / d, d);
    }
  }

  lemma QuotientParts(v: int, d: int)
    requires d > 0
    ensures (v / d) * d <= v < (v / d + 1) * d
  {
    assert v == d * (v / d) + v % d;
  }

  lemma Multiples(a: int, b: int, d: int)
    requires a <= b && d > 0
    ensures a * d <= b * d
  {
    assert (b - a) * d >= 0;
  }
}
