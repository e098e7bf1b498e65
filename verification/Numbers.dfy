/** `strconv.Atoi` and `strconv.Itoa` on ASCII, with the 64-bit range check. */
module Numbers {
  import opened Strings

  const MAX_INT := 0x7FFF_FFFF_FFFF_FFFF
  const MIN_INT := -0x8000_0000_0000_0000

  predicate IsDigit(c: char) {
    '0' <= c <= '9'
  }

  predicate IsNumeral(s: string) {
    s != [] && forall c :: c in s ==> IsDigit(c)
  }

  function Value(s: string): nat
    requires IsNumeral(s)
  {
    var n := |s| - 1;
    assert s[n] in s;
    (s[n] as int - '0' as int) + if n == 0 then 0 else 10 * Value(s[..n])
  }

  /** None stands for either of the two errors, syntax and range. */
  function Atoi(s: string): Option<int> {
    var signed := s != [] && (s[0] == '-' || s[0] == '+');
    var digits := if signed then s[1..] else s;
    if !IsNumeral(digits) then None
    else
      var v: int := if signed && s[0] == '-' then 0 - Value(digits) else Value(digits);
      if MIN_INT <= v <= MAX_INT then Some(v) else None
  }

  function ItoaNat(n: nat): (s: string)
    ensures IsNumeral(s)
  {
    var d := ['0' + (n % 10) as char];
    if n < 10 then d else ItoaNat(n / 10) + d
  }

  function Itoa(n: int): string {
    if n < 0 then "-" + ItoaNat(-n) else ItoaNat(n)
  }

  lemma {:induction false} ValueItoa(n: nat)
    ensures Value(ItoaNat(n)) == n
  {
    var s := ItoaNat(n);
    if n >= 10 {
      assert s[..|s| - 1] == ItoaNat(n / 10);
      ValueItoa(n / 10);
    }
  }

  /** Printing and reading back is exact over the whole 64-bit range. */
  lemma {:induction false} AtoiItoa(n: int)
    requires MIN_INT <= n <= MAX_INT
    ensures Atoi(Itoa(n)) == Some(n)
  {
    var m := if n < 0 then -n else n;
    ValueItoa(m);
    var s := ItoaNat(m);
    assert IsDigit(s[0]);
    assert n < 0 ==> Itoa(n)[1..] == s;
  }
}
