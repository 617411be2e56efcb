/** Bytes at a place of a buffer: reading numbers there, and copying there. */
module ByteBuffer {
  import opened LittleEndian

  function NumberAt(s: seq<Byte>, pos: nat, n: nat): nat
    requires pos + n <= |s|
  {
    Number(s[pos..pos + n])
  }

  /** The bytes `b` stand at `p`. */
  predicate Stands(s: seq<Byte>, p: nat, b: seq<Byte>) {
    p + |b| <= |s| && s[p..p + |b|] == b
  }

  lemma {:induction false} StandsSplit(s: seq<Byte>, p: nat, a: seq<Byte>, b: seq<Byte>)
    requires Stands(s, p, a + b)
    ensures Stands(s, p, a) && Stands(s, p + |a|, b)
  {
    var whole := s[p..p + |a + b|];
    assert a == whole[..|a|] && b == whole[|a|..];
  }

  lemma {:induction false} NumberStands(s: seq<Byte>, p: nat, v: nat, n: nat)
    requires v < Limit(n) && Stands(s, p, Bytes(v, n))
    ensures NumberAt(s, p, n) == v
  {
    NumberOfBytes(v, n);
  }

  lemma {:induction false} ByteStands(s: seq<Byte>, p: nat, b: Byte)
    requires Stands(s, p, [b])
    ensures s[p] == b
  {
    assert s[p..p + 1][0] == b;
  }

  lemma {:induction false} CodeStands(s: seq<Byte>, pos: nat, code: Byte, payload: seq<Byte>)
    requires Stands(s, pos, [code] + payload)
    ensures s[pos] == code && Stands(s, pos + 1, payload)
  {
    StandsSplit(s, pos, [code], payload);
    ByteStands(s, pos, code);
  }

  /** `memcpy` to an offset of a buffer. */
  method Copy(dst: array<Byte>, at: nat, src: seq<Byte>)
    requires at + |src| <= dst.Length
    modifies dst
    ensures dst[..at + |src|] == old(dst[..at]) + src
  {
    var i := 0;
    while i < |src|
      invariant 0 <= i <= |src|
      invariant dst[..at + i] == old(dst[..at]) + src[..i]
    {
      dst[at + i] := src[i];
      i := i + 1;
      assert dst[..at + i] == dst[..at + i - 1] + [src[i - 1]];
    }
    assert src[..i] == src;
  }
}
