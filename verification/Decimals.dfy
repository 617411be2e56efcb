/** Numbers as decimal text. */
module Decimals {

  function Decimal(n: nat): string {
    if n < 10 then ["0123456789"[n]] else Decimal(n / 10) + ["0123456789"[n % 10]]
  }

  function SignedDecimal(n: int): string {
    if n < 0 then "-" + Decimal(-n) else Decimal(n)
  }

  lemma {:induction false} DecimalDigits(n: nat, c: char)
    requires c in Decimal(n)
    ensures '0' <= c <= '9'
  {
    if n >= 10 && c in Decimal(n / 10) { DecimalDigits(n / 10, c); }
  }

  function DigitOf(c: char): nat {
    if '0' <= c <= '9' then c as int - '0' as int else 0
  }

  /** The number that a text of digits shows. */
  function ReadDecimal(s: string): nat {
    if s == "" then 0 else 10 * ReadDecimal(s[..|s| - 1]) + DigitOf(s[|s| - 1])
  }

  function ReadSigned(s: string): int {
    if s != "" && s[0] == '-' then -(ReadDecimal(s[1..]) as int) else ReadDecimal(s)
  }

  /** Decimal text shows its number. */
  lemma {:induction false} ReadsDecimal(n: nat)
    ensures Decimal(n) != "" && ReadDecimal(Decimal(n)) == n
  {
    if n < 10 {
      DigitText(n);
      assert Decimal(n)[..0] == "";
      assert ReadDecimal(Decimal(n)) == 10 * ReadDecimal("") + DigitOf(Decimal(n)[0]);
    } else {
      DigitText(n % 10);
      ReadsDecimal(n / 10);
      assert Decimal(n)[..|Decimal(n)| - 1] == Decimal(n / 10);
    }
  }

  lemma {:induction false} DigitText(d: nat)
    requires d < 10
    ensures DigitOf("0123456789"[d]) == d
  {
  }

  lemma {:induction false} ReadsSigned(n: int)
    ensures ReadSigned(SignedDecimal(n)) == n
  {
    var m: nat := if n < 0 then -n else n;
    ReadsDecimal(m);
    DecimalDigits(m, Decimal(m)[0]);
    if n < 0 { assert SignedDecimal(n)[1..] == Decimal(m); }
  }

  lemma {:induction false} SignedDecimalPlain(n: int)
    ensures '.' !in SignedDecimal(n) && '_' !in SignedDecimal(n)
  {
    var m: nat := if n < 0 then -n else n;
    if '.' in Decimal(m) { DecimalDigits(m, '.'); }
    if '_' in Decimal(m) { DecimalDigits(m, '_'); }
  }
}
