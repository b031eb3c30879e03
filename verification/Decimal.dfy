/** Decimal integers as text: the printer behind `std::to_string` and the reader behind `strtol`. */
module Decimal {

  predicate IsDigit(c: char) { '0' <= c <= '9' }

  function Digit(d: int): char
    requires 0 <= d < 10
  {
    '0' + d as char
  }

  function Print(n: nat): (s: string)
    ensures s != "" && forall i :: 0 <= i < |s| ==> IsDigit(s[i])
  {
    if n < 10 then [Digit(n)] else Print(n / 10) + [Digit(n % 10)]
  }

  /** Digits from i on. */
  function DigitsEnd(s: string, i: nat): (e: nat)
    requires i <= |s|
    ensures i <= e <= |s| && (forall k :: i <= k < e ==> IsDigit(s[k])) && (e < |s| ==> !IsDigit(s[e]))
    decreases |s| - i
  {
    if i < |s| && IsDigit(s[i]) then DigitsEnd(s, i + 1) else i
  }

  function Value(s: string): nat
    requires forall i :: 0 <= i < |s| ==> IsDigit(s[i])
  {
    if s == "" then 0 else assert IsDigit(s[|s| - 1]); 10 * Value(s[..|s| - 1]) + (s[|s| - 1] - '0') as nat
  }

  lemma {:induction false} ValueOfPrint(n: nat)
    ensures Value(Print(n)) == n
  {
    if n < 10 {
      assert Print(n)[..0] == "";
    } else {
      ValueOfPrint(n / 10);
      assert Print(n)[..|Print(n)| - 1] == Print(n / 10);
    }
  }

  lemma {:induction false} PrintLength(n: nat, digits: nat, bound: nat)
    requires digits >= 1 && bound == Power10(digits) && n < bound
    ensures |Print(n)| <= digits
    decreases digits
  {
    if n >= 10 {
      assert digits > 1 by {
        assert Power10(1) == 10 * Power10(0);
      }
      PrintLength(n / 10, digits - 1, Power10(digits - 1));
    }
  }

  function Power10(k: nat): nat { if k == 0 then 1 else 10 * Power10(k - 1) }

  predicate IsSpace(c: char) { c in " \t\n\r" || c as int == 11 || c as int == 12 }

  function SkipSpaces(s: string, i: nat): (e: nat)
    requires i <= |s|
    ensures i <= e <= |s|
    decreases |s| - i
  {
    if i < |s| && IsSpace(s[i]) then SkipSpaces(s, i + 1) else i
  }

  const LONG_MAX := 0x7fff_ffff

  /** `strtol` base 10: leading blanks, an optional sign, digits. Without digits nothing is consumed. */
  function Strtol(s: string): (int, nat) {
    var a := SkipSpaces(s, 0);
    var b := if a < |s| && (s[a] == '-' || s[a] == '+') then a + 1 else a;
    var e := DigitsEnd(s, b);
    if e == b then (0, 0)
    else
      var v: int := Value(s[b..e]);
      (if s[a] == '-' then (if v > LONG_MAX + 1 then -LONG_MAX - 1 else -v) else (if v > LONG_MAX then LONG_MAX else v), e)
  }

  lemma PrintReads(n: nat)
    requires n <= LONG_MAX
    ensures Strtol(Print(n)) == (n, |Print(n)|)
  {
    var s := Print(n);
    assert IsDigit(s[0]);
    assert SkipSpaces(s, 0) == 0;
    assert DigitsEnd(s, 0) == |s|;
    assert s[0..|s|] == s;
    ValueOfPrint(n);
  }

  const ULONG_MAX := 0xffff_ffff_ffff_ffff

  /** `strtoul` base 10 on the same text: a negative number wraps. */
  function Strtoul(s: string): nat {
    var a := SkipSpaces(s, 0);
    var b := if a < |s| && (s[a] == '-' || s[a] == '+') then a + 1 else a;
    var e := DigitsEnd(s, b);
    if e == b then 0
    else
      var v := Value(s[b..e]);
      if v > ULONG_MAX then ULONG_MAX else if s[a] == '-' && v > 0 then ULONG_MAX + 1 - v else v
  }

  lemma SpacedPrintReads(n: nat)
    requires n <= ULONG_MAX
    ensures Strtoul(" " + Print(n)) == n
  {
    var s := " " + Print(n);
    assert s[1] == Print(n)[0] && IsDigit(s[1]);
    assert SkipSpaces(s, 0) == SkipSpaces(s, 1) == 1;
    assert forall i :: 1 <= i < |s| ==> s[i] == Print(n)[i - 1];
    assert DigitsEnd(s, 1) == |s|;
    assert s[1..|s|] == Print(n);
    ValueOfPrint(n);
  }
}
