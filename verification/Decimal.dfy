/** Numbers in decimal digits. */
module Decimal {
  import opened Wrappers

  const U64_MAX := 0xFFFF_FFFF_FFFF_FFFF

  predicate IsDigit(c: char) {
    '0' <= c <= '9'
  }

  predicate AllDigits(s: string) {
    forall i :: 0 <= i < |s| ==> IsDigit(s[i])
  }

  function Show(n: nat): (r: string)
    ensures |r| >= 1 && AllDigits(r)
  {
    if n < 10 then ['0' + n as char] else Show(n / 10) + ['0' + (n % 10) as char]
  }

  function Value(s: string): nat
    requires AllDigits(s)
  {
    if s == [] then 0 else Value(s[..|s| - 1]) * 10 + (s[|s| - 1] as int - '0' as int)
  }

  /** Digits with no zero in front but zero's own. */
  predicate Canonical(s: string) {
    |s| >= 1 && AllDigits(s) && (|s| == 1 || s[0] != '0')
  }

  lemma {:induction false} ValueOfShown(n: nat)
    ensures Value(Show(n)) == n && Canonical(Show(n)) && (n > 0 ==> Show(n)[0] != '0')
  {
    if n >= 10 {
      ValueOfShown(n / 10);
      assert Show(n)[..|Show(n)| - 1] == Show(n / 10);
    }
  }

  lemma {:induction false} ShownOfValue(s: string)
    requires Canonical(s)
    ensures Show(Value(s)) == s && (s[0] != '0' ==> Value(s) > 0)
  {
    var k := |s| - 1;
    if k > 0 {
      ShownOfValue(s[..k]);
      var d := s[k] as int - '0' as int;
      assert Value(s) / 10 == Value(s[..k]) && Value(s) % 10 == d;
      assert s == s[..k] + [s[k]];
    }
  }

  /** `str::parse::<u64>`: a '+' may stand in front, and so may zeros. */
  function ParseU64(s: string): Option<nat> {
    var d := if s != [] && s[0] == '+' then s[1..] else s;
    if d == [] || !AllDigits(d) || Value(d) > U64_MAX then None else Some(Value(d))
  }

  lemma ParsesShown(n: nat)
    requires n <= U64_MAX
    ensures ParseU64(Show(n)) == Some(n)
  {
    ValueOfShown(n);
    assert IsDigit(Show(n)[0]);
  }
}
