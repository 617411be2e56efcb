/**
 Unsigned machine words as natural numbers.  The bitwise operations of C are defined one
 nibble at a time, with the four bits of a nibble written out.
 */
module Bits {

  /** The number of values of an `unsigned long`. */
  const U64: nat := 0x1_0000_0000_0000_0000

  type Nibble = n: nat | n < 16

  /** The bit of weight 2^k of a nibble. */
  function Bit3(n: Nibble): nat { n / 8 }
  function Bit2(n: Nibble): nat { n / 4 % 2 }
  function Bit1(n: Nibble): nat { n / 2 % 2 }
  function Bit0(n: Nibble): nat { n % 2 }

  function Both(b: nat, c: nat): nat {
    if b == 1 && c == 1 then 1 else 0
  }

  function Differ(b: nat, c: nat): nat {
    if b == c then 0 else 1
  }

  function AndNibble(m: Nibble, n: Nibble): Nibble {
    8 * Both(Bit3(m), Bit3(n)) + 4 * Both(Bit2(m), Bit2(n)) + 2 * Both(Bit1(m), Bit1(n)) + Both(Bit0(m), Bit0(n))
  }

  function XorNibble(m: Nibble, n: Nibble): Nibble {
    8 * Differ(Bit3(m), Bit3(n)) + 4 * Differ(Bit2(m), Bit2(n)) +
    2 * Differ(Bit1(m), Bit1(n)) + Differ(Bit0(m), Bit0(n))
  }

  function OnesNibble(n: Nibble): nat {
    Bit3(n) + Bit2(n) + Bit1(n) + Bit0(n)
  }

  /** `x & y` */
  function And(x: nat, y: nat): nat {
    if x == 0 || y == 0 then 0 else 16 * And(x / 16, y / 16) + AndNibble(x % 16, y % 16)
  }

  /** `x ^ y` */
  function Xor(x: nat, y: nat): nat {
    if x == 0 && y == 0 then 0 else 16 * Xor(x / 16, y / 16) + XorNibble(x % 16, y % 16)
  }

  /** The number of one bits. */
  function Ones(x: nat): nat {
    if x == 0 then 0 else Ones(x / 16) + OnesNibble(x % 16)
  }

  lemma {:induction false} DivMod16(x: nat, a: nat, b: Nibble)
    requires x == 16 * a + b
    ensures x / 16 == a && x % 16 == b
  {
  }

  lemma {:induction false} AndSplit(a: nat, b: Nibble, c: nat, d: Nibble, x: nat, y: nat)
    requires x == 16 * a + b && y == 16 * c + d
    ensures And(x, y) == 16 * And(a, c) + AndNibble(b, d)
  {
    DivMod16(x, a, b);
    DivMod16(y, c, d);
    if x == 0 || y == 0 { NothingInCommon(b, d); }
  }

  lemma {:induction false} NothingInCommon(m: Nibble, n: Nibble)
    requires m == 0 || n == 0
    ensures AndNibble(m, n) == 0
  {
  }

  lemma {:induction false} XorSplit(a: nat, b: Nibble, c: nat, d: Nibble, x: nat, y: nat)
    requires x == 16 * a + b && y == 16 * c + d
    ensures Xor(x, y) == 16 * Xor(a, c) + XorNibble(b, d)
  {
    assert x / 16 == a && y / 16 == c;
  }

  lemma {:induction false} OnesSplit(a: nat, b: Nibble, x: nat)
    requires x == 16 * a + b
    ensures Ones(x) == Ones(a) + OnesNibble(b)
  {
    assert x / 16 == a;
  }

  lemma {:induction false} XorOnes(a: nat, b: nat, c: nat, d: nat, a': nat, b': nat, c': nat, d': nat, m: Nibble,
                                   n: Nibble, x: Nibble)
    requires a < 2 && b < 2 && c < 2 && d < 2 && a' < 2 && b' < 2 && c' < 2 && d' < 2
    requires m == 8 * a + 4 * b + 2 * c + d && n == 8 * a' + 4 * b' + 2 * c' + d'
    requires x == XorNibble(m, n)
    ensures OnesNibble(x) == Differ(a, a') + Differ(b, b') + Differ(c, c') + Differ(d, d')
  {
    BitsOf(a, b, c, d, m);
    BitsOf(a', b', c', d', n);
    BitsOf(Differ(a, a'), Differ(b, b'), Differ(c, c'), Differ(d, d'), x);
  }

  lemma {:induction false} XorFits(x: nat, y: nat, n: nat)
    requires x < Range(n) && y < Range(n)
    ensures Xor(x, y) < Range(n)
  {
    if n > 0 && (x > 0 || y > 0) {
      XorFits(x / 16, y / 16, n - 1);
    }
  }

  /** `n` copies of the nibble `m`. */
  function Copies(m: nat, n: nat): nat {
    if n == 0 then 0 else 16 * Copies(m, n - 1) + m
  }

  /** `n` copies of the byte `m`. */
  function ByteCopies(m: nat, n: nat): nat {
    if n == 0 then 0 else 256 * ByteCopies(m, n - 1) + m
  }

  /** The number of values of a word of `n` nibbles. */
  function Range(n: nat): (r: nat)
    ensures r > 0
  {
    if n == 0 then 1 else 16 * Range(n - 1)
  }

  lemma {:induction false} FourBits(n: Nibble)
    ensures n == 8 * Bit3(n) + 4 * Bit2(n) + 2 * Bit1(n) + Bit0(n)
    ensures Bit3(n) < 2 && Bit2(n) < 2 && Bit1(n) < 2 && Bit0(n) < 2
  {
  }

  lemma {:induction false} BitsOf(b3: nat, b2: nat, b1: nat, b0: nat, n: Nibble)
    requires b3 < 2 && b2 < 2 && b1 < 2 && b0 < 2
    requires n == 8 * b3 + 4 * b2 + 2 * b1 + b0
    ensures Bit3(n) == b3 && Bit2(n) == b2 && Bit1(n) == b1 && Bit0(n) == b0
  {
  }

  lemma {:induction false} MaskFives(b: Nibble)
    ensures AndNibble(b, 5) == 4 * Bit2(b) + Bit0(b)
  {
  }

  lemma {:induction false} MaskThrees(b: Nibble)
    ensures AndNibble(b, 3) == 2 * Bit1(b) + Bit0(b)
  {
  }

  lemma {:induction false} MaskFifteens(b: Nibble)
    ensures AndNibble(b, 15) == b
  {
    FourBits(b);
    assert Bit3(15) == Bit2(15) == Bit1(15) == Bit0(15) == 1;
  }

  lemma {:induction false} MaskZeros(b: Nibble)
    ensures AndNibble(b, 0) == 0
  {
  }
}
