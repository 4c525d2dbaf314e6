/** Numbers as text. */
module Numerals {
  import opened Strings

  predicate Digits(s: string) {
    forall i | 0 <= i < |s| :: '0' <= s[i] <= '9'
  }

  function Value(s: string): nat
    requires Digits(s)
  {
    if s == "" then 0 else 10 * Value(s[..|s| - 1]) + (s[|s| - 1] - '0') as nat
  }

  function Decimal(n: nat): string {
    (if n < 10 then "" else Decimal(n / 10)) + ['0' + (n % 10) as char]
  }

  lemma {:induction false} DecimalDigits(n: nat)
    ensures Decimal(n) != "" && Digits(Decimal(n)) && Value(Decimal(n)) == n
  {
    var text := Decimal(n);
    var last := ['0' + (n % 10) as char];
    if n >= 10 { DecimalDigits(n / 10); }
    assert text[..|text| - 1] == (if n < 10 then "" else Decimal(n / 10));
  }

  const MAX_UINT: nat := 0xffff_ffff_ffff_ffff

  /** strconv.ParseUint in base 10: digits only, within 64 bits. */
  function ToUint(s: string): Option<nat> {
    if s != "" && Digits(s) && Value(s) <= MAX_UINT then Some(Value(s)) else None
  }

  function Zeros(n: nat): string {
    seq(n, i => '0')
  }

  /** The decimal numeral of n, with or without zeros in front. */
  ghost predicate IsNumeral(s: string, n: nat) {
    exists zeros: nat :: s == Zeros(zeros) + Decimal(n)
  }

  lemma {:induction false} NumeralIs(s: string)
    requires s != "" && Digits(s)
    ensures IsNumeral(s, Value(s))
    decreases |s|
  {
    var front, last := s[..|s| - 1], s[|s| - 1];
    assert s == front + [last] && Value(s) == 10 * Value(front) + (last - '0') as nat;
    hide Value, IsNumeral, Decimal, Zeros;
    if Value(front) == 0 {
      SmallNumeral(front, last);
    } else {
      assert front != "" by { EmptyIsZero(); }
      NumeralIs(front);
      LongerNumeral(front, Value(front), last);
    }
  }

  lemma EmptyIsZero()
    ensures Value("") == 0
  {
  }

  lemma SmallNumeral(front: string, last: char)
    requires Digits(front) && Value(front) == 0 && '0' <= last <= '9'
    ensures IsNumeral(front + [last], (last - '0') as nat)
  {
    ZeroIsZeros(front);
    assert Decimal((last - '0') as nat) == [last];
  }

  lemma LongerNumeral(front: string, n: nat, last: char)
    requires IsNumeral(front, n) && n > 0 && '0' <= last <= '9'
    ensures IsNumeral(front + [last], 10 * n + (last - '0') as nat)
  {
    var zeros: nat :| front == Zeros(zeros) + Decimal(n);
    var m := 10 * n + (last - '0') as nat;
    assert Decimal(m) == Decimal(n) + [last] by { assert m / 10 == n && m % 10 == (last - '0') as nat; }
    hide Decimal, Zeros;
    assert front + [last] == Zeros(zeros) + Decimal(m);
  }

  lemma {:induction false} ZeroIsZeros(s: string)
    requires Digits(s) && Value(s) == 0
    ensures s == Zeros(|s|)
  {
    if s != "" {
      ZeroIsZeros(s[..|s| - 1]);
      assert s == s[..|s| - 1] + [s[|s| - 1]];
    }
  }

  lemma {:induction false} NumeralValue(zeros: nat, s: string)
    requires Digits(s)
    ensures Digits(Zeros(zeros) + s)
    ensures Value(Zeros(zeros) + s) == Value(s)
    decreases |s|, zeros
  {
    var all := Zeros(zeros) + s;
    if s != "" {
      NumeralValue(zeros, s[..|s| - 1]);
      assert all[..|all| - 1] == Zeros(zeros) + s[..|s| - 1];
    } else if zeros > 0 {
      NumeralValue(zeros - 1, s);
      assert all[..|all| - 1] == Zeros(zeros - 1) + s;
    }
  }

  lemma NumeralDigits(s: string, n: nat)
    requires IsNumeral(s, n)
    ensures s != "" && Digits(s) && Value(s) == n
  {
    var zeros: nat :| s == Zeros(zeros) + Decimal(n);
    DecimalDigits(n);
    NumeralValue(zeros, Decimal(n));
  }

  /** A transport request is a number exactly when its text is a numeral within 64 bits. */
  lemma ToUintIff(s: string, n: nat)
    ensures ToUint(s) == Some(n) <==> n <= MAX_UINT && IsNumeral(s, n)
  {
    if ToUint(s) == Some(n) { NumeralIs(s); }
    if IsNumeral(s, n) { NumeralDigits(s, n); }
  }
}
