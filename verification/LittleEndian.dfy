/** Numbers as bytes, lowest byte first. */
module LittleEndian {

  type Byte = x: nat | x < 256

  /** The first number that does not fit into `n` bytes. */
  function Limit(n: nat): (r: nat)
    ensures r > 0
  {
    if n == 0 then 1 else 256 * Limit(n - 1)
  }

  function Bytes(v: nat, n: nat): (s: seq<Byte>)
    ensures |s| == n
  {
    if n == 0 then [] else [v % 256] + Bytes(v / 256, n - 1)
  }

  function Number(s: seq<Byte>): nat {
    if s == [] then 0 else s[0] + 256 * Number(s[1..])
  }

  lemma {:induction false} NumberOfBytes(v: nat, n: nat)
    requires v < Limit(n)
    ensures Number(Bytes(v, n)) == v
  {
    if n > 0 {
      NumberOfBytes(v / 256, n - 1);
      assert Bytes(v, n)[1..] == Bytes(v / 256, n - 1);
    }
  }

  /** Byte `i` of a number is its digit of weight 256 to the power `i`. */
  lemma {:induction false} LowestFirst(s: seq<Byte>, i: nat)
    requires i < |s|
    ensures Number(s) / Limit(i) % 256 == s[i]
    decreases i
  {
    var rest := Number(s[1..]);
    if i == 0 {
      assert Number(s) == s[0] + 256 * rest;
    } else {
      LowestFirst(s[1..], i - 1);
      DivideTwice(Number(s), rest, s[0], Limit(i - 1), Limit(i));
    }
  }

  lemma {:induction false} DivideTwice(v: nat, q: nat, low: Byte, m: nat, n: nat)
    requires v == low + 256 * q && m > 0 && n == 256 * m
    ensures v / n == q / m
  {
    var a, b := q / m, q % m;
    assert q == m * a + b;
    assert v == n * a + (low + 256 * b);
    assert low + 256 * b < n;
    QuotientUnique(v, n, a, low + 256 * b);
  }

  lemma {:induction false} QuotientUnique(v: nat, m: nat, a: nat, r: nat)
    requires m > 0 && v == m * a + r && r < m
    ensures v / m == a
  {
    var d := v / m - a;
    assert v == m * (v / m) + v % m;
    assert m * d == r - v % m;
    AtLeastOnce(m, d);
  }

  lemma {:induction false} AtLeastOnce(m: nat, d: int)
    ensures d >= 1 ==> m * d >= m
    ensures d <= -1 ==> m * d <= -(m as int)
  {
  }

  lemma {:induction false} Limits()
    ensures Limit(1) == 0x100 && Limit(2) == 0x1_0000
    ensures Limit(4) == 0x1_0000_0000 && Limit(8) == 0x1_0000_0000_0000_0000
  {
    assert Limit(3) == 256 * Limit(2) && Limit(4) == 256 * Limit(3);
    assert Limit(5) == 256 * Limit(4) && Limit(6) == 256 * Limit(5);
    assert Limit(7) == 256 * Limit(6) && Limit(8) == 256 * Limit(7);
  }
}
