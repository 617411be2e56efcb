/**
 The branch-free population count that compares Hamming codes, and the proof that it
 counts the ones of every 64-bit word.

 The proof follows the data: each stage is shown to act on one nibble, byte or tail of
 the word at a time.  Intermediate words are often lemma parameters, which keeps each
 obligation a small problem of linear arithmetic.
 */
module PopulationCount {
  import opened Bits

  function PairStage(x: nat, fives: nat): int {
    x - And(x / 2, fives)
  }

  function QuadStage(x: nat, threes: nat): nat {
    And(x, threes) + And(x / 4, threes)
  }

  /** The nibble `b` after the first stage: two two-bit counts. */
  function PairCounts(b: Nibble): Nibble {
    4 * (Bit3(b) + Bit2(b)) + Bit1(b) + Bit0(b)
  }

  lemma {:induction false} PairNibble(b: Nibble, t: nat, n: Nibble)
    requires t < 2 && n == 8 * t + b / 2
    ensures b - AndNibble(n, 5) == PairCounts(b)
  {
    FourBits(b);
    BitsOf(t, Bit3(b), Bit2(b), Bit1(b), n);
    MaskFives(n);
  }

  lemma {:induction false} HalfOf(a: nat, b: Nibble, x: nat, t: nat, n: Nibble)
    requires x == 16 * a + b && t == a % 2 && n == 8 * t + b / 2
    ensures x / 2 == 16 * (a / 2) + n
  {
  }

  lemma {:induction false} PairSplit(a: nat, b: Nibble, fives: nat, x: nat, mask: nat)
    requires x == 16 * a + b && mask == 16 * fives + 5
    ensures PairStage(x, mask) == 16 * PairStage(a, fives) + PairCounts(b)
  {
    var t := a % 2;
    var n := 8 * t + b / 2;
    HalfOf(a, b, x, t, n);
    PairNibble(b, t, n);
    AndSplit(a / 2, n, fives, 5, x / 2, mask);
  }

  lemma {:induction false} QuadNibble(b: Nibble, t1: nat, t0: nat, n: Nibble)
    requires t1 < 2 && t0 < 2 && n == 8 * t1 + 4 * t0 + b / 4
    ensures AndNibble(b, 3) + AndNibble(n, 3) == 2 * Bit1(b) + Bit0(b) + 2 * Bit3(b) + Bit2(b)
  {
    FourBits(b);
    BitsOf(t1, t0, Bit3(b), Bit2(b), n);
    MaskThrees(b);
    MaskThrees(n);
  }

  lemma {:induction false} QuarterOf(a: nat, b: Nibble, x: nat, q: nat, t1: nat, t0: nat, n: Nibble)
    requires x == 16 * a + b && a == 4 * q + 2 * t1 + t0 && n == 8 * t1 + 4 * t0 + b / 4
    ensures x / 4 == 16 * q + n
  {
    assert x == 4 * (16 * q + n) + b % 4;
  }

  lemma {:induction false} QuadSplit(a: nat, b: Nibble, threes: nat, x: nat, mask: nat)
    requires x == 16 * a + b && mask == 16 * threes + 3
    ensures QuadStage(x, mask) == 16 * QuadStage(a, threes) + 2 * Bit1(b) + Bit0(b) + 2 * Bit3(b) + Bit2(b)
  {
    var t1, t0 := a / 2 % 2, a % 2;
    var n := 8 * t1 + 4 * t0 + b / 4;
    QuarterOf(a, b, x, a / 4, t1, t0, n);
    QuadNibble(b, t1, t0, n);
    AndSplit(a, b, threes, 3, x, mask);
    AndSplit(a / 4, n, threes, 3, x / 4, mask);
  }

  /** Every nibble of `x` replaced by the number of its ones. */
  function Spread(x: nat, n: nat): nat {
    if n == 0 then 0 else 16 * Spread(x / 16, n - 1) + OnesNibble(x % 16)
  }

  lemma {:induction false} PairCountsBits(b: Nibble)
    ensures 2 * Bit1(PairCounts(b)) + Bit0(PairCounts(b)) + 2 * Bit3(PairCounts(b)) + Bit2(PairCounts(b))
         == OnesNibble(b)
  {
    FourBits(b);
    FourBits(PairCounts(b));
  }

  lemma {:induction false} PairStageIsNat(x: nat, n: nat)
    ensures 0 <= PairStage(x, Copies(5, n)) <= x
  {
    if n > 0 {
      PairStageIsNat(x / 16, n - 1);
      PairSplit(x / 16, x % 16, Copies(5, n - 1), x, Copies(5, n));
      FourBits(x % 16);
    }
  }

  lemma {:induction false} QuadsSpread(x: nat, n: nat, pairs: nat)
    requires x < Range(n) && pairs == PairStage(x, Copies(5, n))
    ensures QuadStage(pairs, Copies(3, n)) == Spread(x, n)
  {
    if n > 0 {
      var a, b := x / 16, x % 16;
      PairStageIsNat(a, n - 1);
      var pairs' := PairStage(a, Copies(5, n - 1));
      QuadsSpread(a, n - 1, pairs');
      PairSplit(a, b, Copies(5, n - 1), x, Copies(5, n));
      QuadSplit(pairs', PairCounts(b), Copies(3, n - 1), pairs, Copies(3, n));
      PairCountsBits(b);
    }
  }

  lemma {:induction false} SpreadFits(x: nat, n: nat)
    ensures 2 * Spread(x, n) < Range(n)
  {
    if n > 0 {
      SpreadFits(x / 16, n - 1);
    }
  }

  /** The third stage: `mask` keeps the low nibble of every byte. */
  function ByteStage(z: nat, mask: nat): nat {
    And(z + z / 16, mask)
  }

  /** The byte `16 * lo + b` above `r`, masked to its low nibble. */
  lemma {:induction false} MaskByte(r: nat, lo: Nibble, b: Nibble, m: nat, h: nat, s: nat, mask: nat)
    requires h == 16 * r + lo && s == 16 * h + b && mask == 256 * m + 15
    ensures And(s, mask) == 256 * And(r, m) + b
  {
    AndSplit(h, b, 16 * m, 15, s, mask);
    AndSplit(r, lo, m, 0, h, 16 * m);
    MaskFifteens(b);
    MaskZeros(lo);
  }

  lemma {:induction false} ByteSplit(a: nat, a1: nat, a0: nat, c: nat, b: nat, z: nat, m: nat, mask: nat)
    requires a == 16 * a1 + a0 && a0 <= 4
    requires z == 16 * (16 * a + c) + b && b <= 4 && c <= 4
    requires mask == 256 * m + 15
    ensures ByteStage(z, mask) == 256 * ByteStage(a, m) + b + c
  {
    DivMod16(a, a1, a0);
    DivMod16(z, 16 * a + c, b);
    MaskByte(a + a1, a0 + c, b + c, m, 16 * a + c + a, z + (16 * a + c), mask);
  }

  /** Every byte of `x` replaced by the number of its ones. */
  function ByteSpread(x: nat, n: nat): nat {
    if n == 0 then 0 else 256 * ByteSpread(x / 256, n - 1) + ByteOnes(x)
  }

  function ByteOnes(x: nat): (k: nat)
    ensures k <= 8
  {
    OnesNibble(x % 16) + OnesNibble(x / 16 % 16)
  }

  lemma {:induction false} SpreadOnce(x: nat, n: nat, y: nat)
    requires n >= 1 && y == x / 16
    ensures Spread(x, n) == 16 * Spread(y, n - 1) + OnesNibble(x % 16)
  {
  }

  lemma {:induction false} TwoNibbles(x: nat)
    ensures x / 16 / 16 == x / 256
  {
  }

  lemma {:induction false} SpreadLow(x: nat, n: nat) returns (high: nat, low: nat)
    ensures Spread(x, n) == 16 * high + low && low <= 4
  {
    if n == 0 {
      high, low := 0, 0;
    } else {
      SpreadOnce(x, n, x / 16);
      high, low := Spread(x / 16, n - 1), OnesNibble(x % 16);
    }
  }

  lemma {:induction false} SpreadByte(x: nat, n: nat) returns (a: nat, c: nat, b: nat)
    requires n >= 1
    ensures a == Spread(x / 256, 2 * n - 2)
    ensures Spread(x, 2 * n) == 16 * (16 * a + c) + b
    ensures b <= 4 && c <= 4 && b + c == ByteOnes(x)
  {
    TwoNibbles(x);
    SpreadOnce(x, 2 * n, x / 16);
    SpreadOnce(x / 16, 2 * n - 1, x / 256);
    a, c, b := Spread(x / 256, 2 * n - 2), OnesNibble(x / 16 % 16), OnesNibble(x % 16);
  }

  lemma {:induction false} BytesSpread(x: nat, n: nat, z: nat, mask: nat)
    requires z == Spread(x, 2 * n) && mask == ByteCopies(15, n)
    ensures ByteStage(z, mask) == ByteSpread(x, n)
  {
    if n > 0 {
      var a, c, b := SpreadByte(x, n);
      var a1, a0 := SpreadLow(x / 256, 2 * n - 2);
      BytesSpread(x / 256, n - 1, a, ByteCopies(15, n - 1));
      ByteSplit(a, a1, a0, c, b, z, ByteCopies(15, n - 1), mask);
    }
  }

  /** The last four lines of `count_one`: all bytes are added into the lowest one. */
  function Folded(z: nat): nat {
    var z8 := (z + z / 256) % U64;
    var z16 := (z8 + z8 / 0x1_0000) % U64;
    var z32 := (z16 + z16 / 0x1_0000_0000) % U64;
    z32 % 128
  }

  /** Reduction to the width of an `unsigned long`. */
  function Wrapped(x: int): nat {
    x % U64
  }

  function NibbleSums(x: nat, fifteens: nat): nat {
    And(Wrapped(x + x / 16), fifteens)
  }

  /**
   `count_one` with its three masks.  Every addition and the subtraction are reduced
   modulo 2^64, as unsigned arithmetic does; the final `& 0x7f` is the remainder by 128.
   */
  function CountOneWith(x: nat, fives: nat, threes: nat, fifteens: nat): nat {
    Folded(NibbleSums(Wrapped(QuadStage(Wrapped(PairStage(x, fives)), threes)), fifteens))
  }

  /** `count_one` */
  function CountOne(x: nat): nat {
    CountOneWith(x, 0x5555_5555_5555_5555, 0x3333_3333_3333_3333, 0x0f0f_0f0f_0f0f_0f0f)
  }

  lemma {:induction false} Fold8(z: nat, c: nat, t: nat)
    requires c <= 8 && z == c + 256 * t && 2 * z < U64
    ensures (z + z / 256) % U64 == z + t
  {
  }

  lemma {:induction false} Fold16(y: nat, low: nat, t: nat)
    requires low < 0x1_0000 && y == 0x1_0000 * t + low && 2 * y < U64
    ensures (y + y / 0x1_0000) % U64 == y + t
  {
  }

  lemma {:induction false} Fold32(y: nat, low: nat, t: nat)
    requires low < 0x1_0000_0000 && y == 0x1_0000_0000 * t + low && 2 * y < U64
    ensures (y + y / 0x1_0000_0000) % U64 == y + t
  {
  }

  lemma {:induction false} LowByte(y: nat, low: nat, t: nat)
    requires low <= 64 && y == 256 * t + low
    ensures y % 128 == low
  {
    LowBits(y, 2 * t, low);
  }

  lemma {:induction false} LowBits(y: nat, q: nat, low: nat)
    requires low < 128 && y == 128 * q + low
    ensures y % 128 == low
  {
  }

  lemma {:induction false} TwoBytes(c0: nat, c1: nat, t1: nat, t2: nat, z: nat)
    requires z == c0 + 256 * t1 && t1 == c1 + 256 * t2
    ensures z == c0 + 256 * c1 + 0x1_0000 * t2
  {
  }

  lemma {:induction false} FourBytes(c0: nat, c1: nat, c2: nat, c3: nat, t2: nat, t4: nat, z: nat)
    requires z == c0 + 256 * c1 + 0x1_0000 * t2 && t2 == c2 + 256 * c3 + 0x1_0000 * t4
    ensures z == c0 + 256 * c1 + 0x1_0000 * c2 + 0x100_0000 * c3 + 0x1_0000_0000 * t4
  {
  }

  /** A row of bytes, lowest first: `t[k]` is the word made of byte `k` and those above it. */
  ghost predicate Row(c: seq<nat>, t: seq<nat>) {
    && |t| == |c| + 1 && t[|c|] == 0
    && forall k :: 0 <= k < |c| ==> c[k] <= 8 && t[k] == c[k] + 256 * t[k + 1]
  }

  lemma {:induction false} RowByTwo(c: seq<nat>, t: seq<nat>, k: nat)
    requires Row(c, t) && k + 1 < |c|
    ensures t[k] == c[k] + 256 * c[k + 1] + 0x1_0000 * t[k + 2]
  {
    TwoBytes(c[k], c[k + 1], t[k + 1], t[k + 2], t[k]);
  }

  lemma {:induction false} RowByFour(c: seq<nat>, t: seq<nat>, k: nat)
    requires Row(c, t) && k + 3 < |c|
    ensures t[k] == c[k] + 256 * c[k + 1] + 0x1_0000 * c[k + 2] + 0x100_0000 * c[k + 3] + 0x1_0000_0000 * t[k + 4]
  {
    RowByTwo(c, t, k);
    RowByTwo(c, t, k + 2);
    FourBytes(c[k], c[k + 1], c[k + 2], c[k + 3], t[k + 2], t[k + 4], t[k]);
  }

  lemma {:induction false} RowFits(c: seq<nat>, t: seq<nat>, k: nat)
    requires Row(c, t) && |c| == 8 && k <= 8
    ensures t[0] <= 0x0808_0808_0808_0808 && t[k] <= t[0]
  {
    RowByFour(c, t, 0);
    RowByFour(c, t, 4);
    if k > 0 {
      RowFits(c, t, k - 1);
    }
  }

  function Sum(s: seq<nat>): nat {
    if s == [] then 0 else s[0] + Sum(s[1..])
  }

  lemma {:induction false} SumOfEight(s: seq<nat>)
    requires |s| == 8
    ensures Sum(s) == s[0] + s[1] + s[2] + s[3] + s[4] + s[5] + s[6] + s[7]
  {
    SumOfTwo(s);
    SumOfTwo(s[2..]);
    SumOfTwo(s[2..][2..]);
    SumOfTwo(s[2..][2..][2..]);
  }

  lemma {:induction false} SumOfTwo(s: seq<nat>)
    requires |s| >= 2
    ensures Sum(s) == s[0] + s[1] + Sum(s[2..])
  {
    assert s[1..][1..] == s[2..];
  }

  lemma {:induction false} FoldHalves(c: seq<nat>, t: seq<nat>, y: nat)
    requires Row(c, t) && |c| == 8 && y == t[0] + t[1] && 2 * y < U64
    ensures (y + y / 0x1_0000) % U64 == y + (t[2] + t[3])
  {
    RowByTwo(c, t, 0);
    RowByTwo(c, t, 1);
    Fold16(y, c[0] + 256 * c[1] + c[1] + 256 * c[2], t[2] + t[3]);
  }

  lemma {:induction false} FourRows(c0: nat, c1: nat, c2: nat, c3: nat, c4: nat, c5: nat, c6: nat,
                 t0: nat, t1: nat, t2: nat, t3: nat, t4: nat, t5: nat, t6: nat, t7: nat, low: nat)
    requires t0 == c0 + 256 * c1 + 0x1_0000 * c2 + 0x100_0000 * c3 + 0x1_0000_0000 * t4
    requires t1 == c1 + 256 * c2 + 0x1_0000 * c3 + 0x100_0000 * c4 + 0x1_0000_0000 * t5
    requires t2 == c2 + 256 * c3 + 0x1_0000 * c4 + 0x100_0000 * c5 + 0x1_0000_0000 * t6
    requires t3 == c3 + 256 * c4 + 0x1_0000 * c5 + 0x100_0000 * c6 + 0x1_0000_0000 * t7
    requires low == c0 + c1 + c2 + c3 + 256 * (c1 + c2 + c3 + c4)
                    + 0x1_0000 * (c2 + c3 + c4 + c5) + 0x100_0000 * (c3 + c4 + c5 + c6)
    ensures t0 + t1 + (t2 + t3) == 0x1_0000_0000 * (t4 + t5 + t6 + t7) + low
  {
  }

  lemma {:induction false} FoldWords(c: seq<nat>, t: seq<nat>, y: nat)
    requires Row(c, t) && |c| == 8 && y == t[0] + t[1] + (t[2] + t[3]) && 2 * y < U64
    ensures (y + y / 0x1_0000_0000) % U64 == y + (t[4] + t[5] + t[6] + t[7])
  {
    RowByFour(c, t, 0);
    RowByFour(c, t, 1);
    RowByFour(c, t, 2);
    RowByFour(c, t, 3);
    var low := c[0] + c[1] + c[2] + c[3] + 256 * (c[1] + c[2] + c[3] + c[4])
               + 0x1_0000 * (c[2] + c[3] + c[4] + c[5]) + 0x100_0000 * (c[3] + c[4] + c[5] + c[6]);
    FourRows(c[0], c[1], c[2], c[3], c[4], c[5], c[6], t[0], t[1], t[2], t[3], t[4], t[5], t[6], t[7], low);
    Fold32(y, low, t[4] + t[5] + t[6] + t[7]);
  }

  lemma {:induction false} RowTotal(c: seq<nat>, t: seq<nat>, total: nat)
    requires Row(c, t) && |c| == 8
    requires total == t[0] + t[1] + (t[2] + t[3]) + (t[4] + t[5] + t[6] + t[7])
    ensures total % 128 == Sum(c)
  {
    SumOfEight(c);
    assert t[7] == c[7] + 256 * t[8];
    LowByte(total, Sum(c), t[1] + t[2] + t[3] + t[4] + t[5] + t[6] + t[7]);
  }

  lemma {:induction false} FoldedSteps(z: nat, z8: nat, z16: nat, z32: nat)
    requires z8 == (z + z / 256) % U64 && z16 == (z8 + z8 / 0x1_0000) % U64
    requires z32 == (z16 + z16 / 0x1_0000_0000) % U64
    ensures Folded(z) == z32 % 128
  {
  }

  lemma {:induction false} RowSums(c: seq<nat>, t: seq<nat>) returns (z: nat, z8: nat, z16: nat, z32: nat)
    requires Row(c, t) && |c| == 8
    ensures z == t[0] && z8 == z + t[1] && z16 == z8 + (t[2] + t[3])
    ensures z32 == z16 + (t[4] + t[5] + t[6] + t[7])
    ensures 2 * z < U64 && 2 * z8 < U64 && 2 * z16 < U64
    ensures z == c[0] + 256 * t[1] && c[0] <= 8
  {
    RowFits(c, t, 1);
    RowFits(c, t, 2);
    RowFits(c, t, 3);
    z := t[0];
    z8 := z + t[1];
    z16 := z8 + (t[2] + t[3]);
    z32 := z16 + (t[4] + t[5] + t[6] + t[7]);
  }

  lemma {:induction false} FoldRow(c: seq<nat>, t: seq<nat>)
    requires Row(c, t) && |c| == 8
    ensures Folded(t[0]) == Sum(c)
  {
    var z, z8, z16, z32 := RowSums(c, t);
    RowTotal(c, t, z32);
    Fold8(z, c[0], t[1]);
    FoldHalves(c, t, z8);
    FoldWords(c, t, z16);
    FoldedSteps(z, z8, z16, z32);
  }

  /** The bytes of a spread word, with their sum. */
  lemma {:induction false} RowOf(x: nat, n: nat) returns (c: seq<nat>, t: seq<nat>)
    requires x < Range(2 * n)
    ensures Row(c, t) && |c| == n && t[0] == ByteSpread(x, n) && Sum(c) == Ones(x)
  {
    if n == 0 {
      c, t := [], [0];
    } else {
      var c', t' := RowOf(x / 256, n - 1);
      c, t := [ByteOnes(x)] + c', [ByteSpread(x, n)] + t';
      assert c[1..] == c';
      OnesByte(x);
    }
  }

  lemma {:induction false} OnesByte(x: nat)
    ensures Ones(x) == ByteOnes(x) + Ones(x / 256)
  {
    TwoNibbles(x);
    OnesSplit(x / 16, x % 16, x);
    OnesSplit(x / 256, x / 16 % 16, x / 16);
  }

  lemma {:induction false} Masks()
    ensures Copies(5, 16) == 0x5555_5555_5555_5555
    ensures Copies(3, 16) == 0x3333_3333_3333_3333
    ensures ByteCopies(15, 8) == 0x0f0f_0f0f_0f0f_0f0f
    ensures Range(16) == U64
  {
    assert Copies(5, 2) == 0x55;
    assert Copies(5, 4) == 0x5555;
    assert Copies(5, 6) == 0x555555;
    assert Copies(5, 8) == 0x55555555;
    assert Copies(5, 10) == 0x5555555555;
    assert Copies(5, 12) == 0x555555555555;
    assert Copies(5, 14) == 0x55555555555555;
    assert Copies(3, 2) == 0x33;
    assert Copies(3, 4) == 0x3333;
    assert Copies(3, 6) == 0x333333;
    assert Copies(3, 8) == 0x33333333;
    assert Copies(3, 10) == 0x3333333333;
    assert Copies(3, 12) == 0x333333333333;
    assert Copies(3, 14) == 0x33333333333333;
    assert ByteCopies(15, 2) == 0xf0f;
    assert ByteCopies(15, 4) == 0xf0f0f0f;
    assert ByteCopies(15, 6) == 0xf0f0f0f0f0f;
    assert Range(2) == 0x100;
    assert Range(4) == 0x10000;
    assert Range(6) == 0x1000000;
    assert Range(8) == 0x100000000;
    assert Range(10) == 0x10000000000;
    assert Range(12) == 0x1000000000000;
    assert Range(14) == 0x100000000000000;
  }

  lemma {:induction false} NotWrapped(x: nat)
    requires x < U64
    ensures Wrapped(x) == x
  {
  }

  lemma {:induction false} CountOneSteps(x: nat, x1: nat, x2: nat, x3: nat, fives: nat, threes: nat, fifteens: nat)
    requires x1 == PairStage(x, fives) && x1 < U64
    requires x2 == QuadStage(x1, threes) && x2 + x2 / 16 < U64
    requires x3 == ByteStage(x2, fifteens)
    ensures CountOneWith(x, fives, threes, fifteens) == Folded(x3)
  {
    NotWrapped(x1);
    NotWrapped(x2);
    NotWrapped(x2 + x2 / 16);
  }

  /** `count_one` counts the ones of every 64-bit word, and no step of it wraps around. */
  lemma {:induction false} CountOneIsOnes(x: nat)
    requires x < U64
    ensures CountOne(x) == Ones(x)
  {
    Masks();
    PairStageIsNat(x, 16);
    var pairs, z := PairStage(x, Copies(5, 16)), Spread(x, 16);
    QuadsSpread(x, 16, pairs);
    SpreadFits(x, 16);
    BytesSpread(x, 8, z, ByteCopies(15, 8));
    CountOneSteps(x, pairs, z, ByteSpread(x, 8), Copies(5, 16), Copies(3, 16), ByteCopies(15, 8));
    var c, t := RowOf(x, 8);
    FoldRow(c, t);
  }
}
