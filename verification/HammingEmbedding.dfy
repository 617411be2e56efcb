/**
 The Hamming-embedding codec of the image index: sign vectors are packed into
 upper-case hexadecimal text, the text is decoded into 64-bit words, and two words are
 compared by the number of bits in which they differ.
 */
module HammingEmbedding {
  import opened Bits
  import opened PopulationCount

  /** The number of components of one code. */
  const CODE_BITS: nat := 64

  /** The number of hexadecimal digits of one code. */
  const CODE_DIGITS: nat := 16

  //////////////////////////////////////////////////////////////////////////////
  // Encoding
  //////////////////////////////////////////////////////////////////////////////

  function Weight(b: bool): nat {
    if b then 1 else 0
  }

  function NibbleOf(a: bool, b: bool, c: bool, d: bool): Nibble {
    8 * Weight(a) + 4 * Weight(b) + 2 * Weight(c) + Weight(d)
  }

  function HexDigit(n: Nibble): char {
    if n >= 10 then 'A' + (n - 10) as char else '0' + n as char
  }

  /** The nibble that four components, first one heaviest, make up. */
  function FirstNibble(signs: seq<bool>): Nibble
    requires |signs| >= 4
  {
    NibbleOf(signs[0], signs[1], signs[2], signs[3])
  }

  /** Groups of four components become digits; an incomplete group is dropped. */
  function Packed(signs: seq<bool>): (code: string)
    ensures |code| == |signs| / 4
  {
    if |signs| < 4 then "" else [HexDigit(FirstNibble(signs))] + Packed(signs[4..])
  }

  /** Component `j` of a code says whether the median exceeds the projection. */
  function Signs(projected: seq<real>, median: seq<real>): (signs: seq<bool>)
    requires |projected| == |median|
    ensures |signs| == |projected|
    ensures forall j :: 0 <= j < |signs| ==> (signs[j] <==> median[j] > projected[j])
  {
    seq(|projected|, j requires 0 <= j < |projected| => median[j] > projected[j])
  }

  lemma {:induction false} PackedAppends(front: seq<bool>, group: seq<bool>)
    requires |front| % 4 == 0 && |group| == 4
    ensures Packed(front + group) == Packed(front) + [HexDigit(FirstNibble(group))]
  {
    if front == [] {
      assert front + group == group;
      assert group[4..] == [];
    } else {
      assert (front + group)[4..] == front[4..] + group;
      PackedAppends(front[4..], group);
    }
  }

  /** The weights of the components of a group. */
  function GroupWeight(count: nat): nat {
    if count == 0 then 8 else if count == 1 then 4 else if count == 2 then 2 else 1
  }

  /** The value gathered from the leading components of a group. */
  ghost function Gathered(group: seq<bool>): nat {
    if group == [] then 0
    else Gathered(group[..|group| - 1]) + (if group[|group| - 1] then GroupWeight(|group| - 1) else 0)
  }

  lemma {:induction false} GatheredAppends(group: seq<bool>, sign: bool)
    ensures Gathered(group + [sign]) == Gathered(group) + (if sign then GroupWeight(|group|) else 0)
  {
    assert (group + [sign])[..|group|] == group;
  }

  lemma {:induction false} GatheredWhole(a: bool, b: bool, c: bool, d: bool)
    ensures Gathered([a, b, c, d]) == NibbleOf(a, b, c, d)
  {
    assert [a, b, c, d] == [] + [a] + [b] + [c] + [d];
    GatheredAppends([], a);
    GatheredAppends([] + [a], b);
    GatheredAppends([] + [a] + [b], c);
    GatheredAppends([] + [a] + [b] + [c], d);
  }

  /** After `j` components: whole groups are in `code`, the rest is gathered in `h16`. */
  ghost predicate CoderState(signs: seq<bool>, j: nat, count: nat, h16: nat, code: string) {
    && count <= 4 && count <= j <= |signs| && (j - count) % 4 == 0
    && code == Packed(signs[..j - count])
    && h16 == Gathered(signs[j - count..j])
  }

  lemma {:induction false} CoderExtends(signs: seq<bool>, j: nat, count: nat, h16: nat, code: string)
    requires CoderState(signs, j, count, h16, code) && count < 4 && j < |signs|
    ensures CoderState(signs, j + 1, count + 1, h16 + (if signs[j] then GroupWeight(count) else 0), code)
  {
    assert signs[j - count..j + 1] == signs[j - count..j] + [signs[j]];
    GatheredAppends(signs[j - count..j], signs[j]);
  }

  lemma {:induction false} CoderCompletes(signs: seq<bool>, j: nat, h16: nat, code: string)
    requires CoderState(signs, j, 4, h16, code)
    ensures h16 < 16 && CoderState(signs, j, 0, 0, code + [HexDigit(h16)])
  {
    var group := signs[j - 4..j];
    assert group == [group[0], group[1], group[2], group[3]];
    GatheredWhole(group[0], group[1], group[2], group[3]);
    PackedAppends(signs[..j - 4], group);
    assert signs[..j - 4] + group == signs[..j];
  }

  lemma {:induction false} CoderEnds(signs: seq<bool>, count: nat, h16: nat, code: string)
    requires CoderState(signs, |signs|, count, h16, code) && count < 4
    ensures code == Packed(signs)
  {
    var base := |signs| - count;
    assert signs[..base] + signs[base..] == signs;
    DropIncomplete(signs[..base], signs[base..]);
  }

  /** The packing loop of `HammingCoder`, on an already projected descriptor. */
  method HammingCoder(projected: seq<real>, median: seq<real>) returns (code: string)
    requires |projected| == |median|
    ensures code == Packed(Signs(projected, median))
  {
    ghost var signs := Signs(projected, median);
    var h16: nat, count: nat := 0, 0;
    code := "";
    for j := 0 to |projected|
      invariant count < 4 && CoderState(signs, j, count, h16, code)
    {
      CoderExtends(signs, j, count, h16, code);
      if median[j] > projected[j] {
        h16 := h16 + GroupWeight(count);
      }
      count, h16, code := CloseGroup(count + 1, h16, code, signs, j + 1);
    }
    CoderEnds(signs, count, h16, code);
  }

  /** A full group becomes a digit. */
  method CloseGroup(count: nat, h16: nat, code: string, ghost signs: seq<bool>, ghost j: nat)
    returns (nextCount: nat, nextH16: nat, nextCode: string)
    requires CoderState(signs, j, count, h16, code)
    ensures nextCount < 4 && CoderState(signs, j, nextCount, nextH16, nextCode)
  {
    if count < 4 { return count, h16, code; }
    CoderCompletes(signs, j, h16, code);
    return 0, 0, code + [HexDigit(h16)];
  }

  lemma {:induction false} DropIncomplete(front: seq<bool>, rest: seq<bool>)
    requires |front| % 4 == 0 && |rest| < 4
    ensures Packed(front + rest) == Packed(front)
  {
    if front != [] {
      assert (front + rest)[4..] == front[4..] + rest;
      DropIncomplete(front[4..], rest);
    }
  }

  //////////////////////////////////////////////////////////////////////////////
  // Decoding
  //////////////////////////////////////////////////////////////////////////////

  /** What a digit character contributes; other characters are not rejected. */
  function DigitValue(c: char): int {
    if c <= '9' then c as int - '0' as int else c as int - 'A' as int + 10
  }

  /** The word accumulated from the first `l` digits; `Range(l)` is `off_value[l]`. */
  function Accumulated(digits: string, l: nat): nat
    requires l <= |digits|
  {
    if l == 0 then 0 else (Accumulated(digits, l - 1) + DigitValue(digits[l - 1]) * Range(l - 1)) % U64
  }

  /** One word per sixteen characters; an incomplete word is dropped. */
  function Decoded(code: string): (words: seq<nat>)
    ensures |words| == |code| / CODE_DIGITS
  {
    if |code| < CODE_DIGITS then [] else [Accumulated(code[..CODE_DIGITS], CODE_DIGITS)] + Decoded(code[CODE_DIGITS..])
  }

  lemma {:induction false} DecodedAt(code: string, j: nat)
    requires j < |code| / CODE_DIGITS
    ensures Decoded(code)[j] == Accumulated(code[16 * j..16 * j + 16], 16)
  {
    if j == 0 {
      assert code[..16] == code[0..16];
    } else {
      DecodedAt(code[16..], j - 1);
      assert code[16..][16 * (j - 1)..16 * (j - 1) + 16] == code[16 * j..16 * j + 16];
    }
  }

  /**
   `HeString2Int`.  The table of powers of sixteen is filled by shifting, the words are
   cleared, and every word is then accumulated digit by digit in place.
   */
  method HeString2Int(code: string) returns (words: array<nat>)
    ensures fresh(words) && words[..] == Decoded(code)
  {
    var length := |code| / 16;
    words := new nat[length];
    var offValue := OffValues();
    ghost var off := offValue[..];
    for j := 0 to length
      invariant forall k :: 0 <= k < j ==> words[k] == 0
      invariant offValue[..] == off
    {
      words[j] := 0;
    }
    for j := 0 to length
      invariant forall k :: 0 <= k < j ==> words[k] == Decoded(code)[k]
      invariant forall k :: j <= k < length ==> words[k] == 0
      invariant offValue[..] == off
    {
      var start := j * 16;
      ghost var digits := code[start..start + 16];
      for l := 0 to 16
        invariant words[j] == Accumulated(digits, l)
        invariant forall k :: 0 <= k < j ==> words[k] == Decoded(code)[k]
        invariant forall k :: j < k < length ==> words[k] == 0
        invariant offValue[..] == off
      {
        assert offValue[l] == off[l] == Range(l);
        words[j] := (words[j] + DigitValue(code[l + start]) * offValue[l]) % U64;
      }
      DecodedAt(code, j);
    }
  }

  method OffValues() returns (offValue: array<nat>)
    ensures fresh(offValue) && offValue.Length == 16
    ensures forall k :: 0 <= k < 16 ==> offValue[k] == Range(k)
  {
    offValue := new nat[16];
    offValue[0] := 1;
    for i := 1 to 16
      invariant forall k :: 0 <= k < i ==> offValue[k] == Range(k)
    {
      var shifted := offValue[i - 1] * 16;
      RangeFits(i, shifted);
      offValue[i] := Wrapped(shifted);
    }
  }

  lemma {:induction false} RangeFits(n: nat, power: nat)
    requires 0 < n < 16 && power == 16 * Range(n - 1)
    ensures power == Range(n) && Wrapped(power) == power
  {
    Masks();
    RangeGrows(n, 15);
    NotWrapped(power);
  }

  lemma {:induction false} RangeGrows(m: nat, n: nat)
    requires m <= n
    ensures Range(m) <= Range(n)
  {
    if m < n {
      RangeGrows(m, n - 1);
    }
  }

  //////////////////////////////////////////////////////////////////////////////
  // Decoding what was encoded
  //////////////////////////////////////////////////////////////////////////////

  /** The number written with digits `ds`, lowest first. */
  ghost function Value(ds: seq<Nibble>): nat {
    if ds == [] then 0 else ds[0] + 16 * Value(ds[1..])
  }

  lemma {:induction false} ValueAppends(ds: seq<Nibble>, d: Nibble)
    ensures Value(ds + [d]) == Value(ds) + d * Range(|ds|)
  {
    if ds == [] {
      assert ds + [d] == [d];
      assert Value([d]) == d + 16 * Value([]);
    } else {
      assert (ds + [d])[1..] == ds[1..] + [d];
      ValueAppends(ds[1..], d);
      Distribute(d, Range(|ds| - 1));
    }
  }

  lemma {:induction false} Distribute(d: nat, r: nat)
    ensures 16 * (d * r) == d * (16 * r)
  {
  }

  lemma {:induction false} ValueFits(ds: seq<Nibble>)
    ensures Value(ds) < Range(|ds|)
  {
    if ds != [] {
      ValueFits(ds[1..]);
    }
  }

  /** The digits of the groups of a sign vector. */
  ghost function GroupDigits(signs: seq<bool>): (ds: seq<Nibble>)
    ensures |ds| == |signs| / 4
  {
    if |signs| < 4 then [] else [FirstNibble(signs)] + GroupDigits(signs[4..])
  }

  lemma {:induction false} HexDigitValue(n: Nibble)
    ensures DigitValue(HexDigit(n)) == n
  {
  }

  lemma {:induction false} PackedDigits(signs: seq<bool>, k: nat)
    requires k < |signs| / 4
    ensures DigitValue(Packed(signs)[k]) == GroupDigits(signs)[k]
  {
    if k == 0 {
      HexDigitValue(FirstNibble(signs));
    } else {
      PackedDigits(signs[4..], k - 1);
    }
  }

  lemma {:induction false} AccumulatedIsValue(digits: string, ds: seq<Nibble>, l: nat)
    requires l <= |digits| == |ds| && l <= 16
    requires forall k :: 0 <= k < |ds| ==> DigitValue(digits[k]) == ds[k]
    ensures Accumulated(digits, l) == Value(ds[..l])
  {
    if l > 0 {
      AccumulatedIsValue(digits, ds, l - 1);
      assert ds[..l] == ds[..l - 1] + [ds[l - 1]];
      ValueAppends(ds[..l - 1], ds[l - 1]);
      ValueNotWrapped(ds[..l], Value(ds[..l]));
    }
  }

  lemma {:induction false} ValueNotWrapped(ds: seq<Nibble>, value: nat)
    requires |ds| <= 16 && value == Value(ds)
    ensures value % U64 == value
  {
    ValueFits(ds);
    Masks();
    RangeGrows(|ds|, 16);
  }

  lemma {:induction false} HexDigitText(n: Nibble)
    ensures HexDigit(n) == "0123456789ABCDEF"[n]
  {
  }

  lemma {:induction false} FirstText(a: bool, b: bool, c: bool, e: bool) returns (d: Nibble)
    ensures d == NibbleOf(a, b, c, e) && HexDigit(d) == "0123456789ABCDEF"[d]
    ensures (a <==> d / 8 == 1) && (b <==> d / 4 % 2 == 1) && (c <==> d / 2 % 2 == 1) && (e <==> d % 2 == 1)
  {
    d := NibbleOf(a, b, c, e);
    HexDigitText(d);
    BitsOf(Weight(a), Weight(b), Weight(c), Weight(e), d);
  }

  lemma {:induction false} TextBehindFirst(signs: seq<bool>, rest: seq<bool>, k: nat)
    requires 0 < k < |signs| / 4 && rest == signs[4..]
    ensures k - 1 < |rest| / 4 && Packed(signs)[k] == Packed(rest)[k - 1]
  {
  }

  lemma {:induction false} SignsBehindFirst(signs: seq<bool>, rest: seq<bool>, k: nat)
    requires 0 < k < |signs| / 4 && rest == signs[4..]
    ensures k - 1 < |rest| / 4
    ensures signs[4 * k] == rest[4 * (k - 1)] && signs[4 * k + 1] == rest[4 * (k - 1) + 1]
    ensures signs[4 * k + 2] == rest[4 * (k - 1) + 2] && signs[4 * k + 3] == rest[4 * (k - 1) + 3]
  {
  }

  /** The text of a sign vector: digit `k` is the upper-case digit whose bits are the signs `4k` to `4k + 3`. */
  lemma {:induction false} PackedText(signs: seq<bool>, k: nat) returns (d: Nibble)
    requires k < |signs| / 4
    ensures Packed(signs)[k] == "0123456789ABCDEF"[d]
    ensures signs[4 * k] <==> d / 8 == 1
    ensures signs[4 * k + 1] <==> d / 4 % 2 == 1
    ensures signs[4 * k + 2] <==> d / 2 % 2 == 1
    ensures signs[4 * k + 3] <==> d % 2 == 1
  {
    if k == 0 {
      d := FirstText(signs[0], signs[1], signs[2], signs[3]);
    } else {
      var rest := signs[4..];
      TextBehindFirst(signs, rest, k);
      SignsBehindFirst(signs, rest, k);
      d := PackedText(rest, k - 1);
    }
  }

  /** The word a 64-component sign vector stands for. */
  lemma {:induction false} WordOfSigns(signs: seq<bool>)
    requires |signs| == CODE_BITS
    ensures Accumulated(Packed(signs), CODE_DIGITS) == Value(GroupDigits(signs)) < U64
  {
    var ds := GroupDigits(signs);
    forall k | 0 <= k < 16
      ensures DigitValue(Packed(signs)[k]) == ds[k]
    {
      PackedDigits(signs, k);
    }
    AccumulatedIsValue(Packed(signs), ds, 16);
    assert ds[..16] == ds;
    ValueFits(ds);
    Masks();
  }

  //////////////////////////////////////////////////////////////////////////////
  // Distances
  //////////////////////////////////////////////////////////////////////////////

  /** The number of components in which two sign vectors differ. */
  ghost function Differences(u: seq<bool>, v: seq<bool>): nat
    requires |u| == |v|
  {
    if u == [] then 0 else (if u[0] == v[0] then 0 else 1) + Differences(u[1..], v[1..])
  }

  lemma {:induction false} DifferencesOfFour(u: seq<bool>, v: seq<bool>)
    requires |u| == |v| >= 4
    ensures Differences(u, v) == OnesNibble(XorNibble(FirstNibble(u), FirstNibble(v))) + Differences(u[4..], v[4..])
  {
    NibbleDifferences(u[0], u[1], u[2], u[3], v[0], v[1], v[2], v[3]);
    DifferencesOfTwo(u, v);
    DifferencesOfTwo(u[2..], v[2..]);
    assert u[2..][2..] == u[4..] && v[2..][2..] == v[4..];
  }

  lemma {:induction false} DifferencesOfTwo(u: seq<bool>, v: seq<bool>)
    requires |u| == |v| >= 2
    ensures Differences(u, v)
         == (if u[0] == v[0] then 0 else 1) + (if u[1] == v[1] then 0 else 1) + Differences(u[2..], v[2..])
  {
    assert u[1..][1..] == u[2..] && v[1..][1..] == v[2..];
  }

  lemma {:induction false} NibbleDifferences(a: bool, b: bool, c: bool, d: bool, a': bool, b': bool, c': bool, d': bool)
    ensures OnesNibble(XorNibble(NibbleOf(a, b, c, d), NibbleOf(a', b', c', d')))
         == (if a == a' then 0 else 1) + (if b == b' then 0 else 1) +
            (if c == c' then 0 else 1) + (if d == d' then 0 else 1)
  {
    var m, n := NibbleOf(a, b, c, d), NibbleOf(a', b', c', d');
    XorOnes(Weight(a), Weight(b), Weight(c), Weight(d), Weight(a'), Weight(b'), Weight(c'), Weight(d'),
            m, n, XorNibble(m, n));
  }

  /** One more digit on either word adds the differences of the two digits. */
  lemma {:induction false} XorOnesStep(a: nat, b: Nibble, c: nat, d: Nibble, x: nat, y: nat)
    requires x == 16 * a + b && y == 16 * c + d
    ensures Ones(Xor(x, y)) == Ones(Xor(a, c)) + OnesNibble(XorNibble(b, d))
  {
    XorSplit(a, b, c, d, x, y);
    OnesSplit(Xor(a, c), XorNibble(b, d), Xor(x, y));
  }

  lemma {:induction false} XorCountsDifferences(u: seq<bool>, v: seq<bool>)
    requires |u| == |v| && |u| % 4 == 0
    ensures Ones(Xor(Value(GroupDigits(u)), Value(GroupDigits(v)))) == Differences(u, v)
  {
    if u != [] {
      XorCountsDifferences(u[4..], v[4..]);
      DifferencesOfFour(u, v);
      ValueOfGroups(u);
      ValueOfGroups(v);
      XorOnesStep(Value(GroupDigits(u[4..])), FirstNibble(u), Value(GroupDigits(v[4..])), FirstNibble(v),
                  Value(GroupDigits(u)), Value(GroupDigits(v)));
    }
  }

  lemma {:induction false} ValueOfGroups(u: seq<bool>)
    requires |u| >= 4
    ensures Value(GroupDigits(u)) == 16 * Value(GroupDigits(u[4..])) + FirstNibble(u)
  {
    assert GroupDigits(u)[1..] == GroupDigits(u[4..]);
  }

  //////////////////////////////////////////////////////////////////////////////
  // Counting similar pairs
  //////////////////////////////////////////////////////////////////////////////

  /** `size_t` from `int`: a negative threshold becomes a huge one. */
  function AsSizeT(n: int): nat {
    n % U64
  }

  /** A threshold that is not negative is used as it is; a negative `int` admits every pair of words. */
  lemma {:induction false} ThresholdUsed(n: int)
    requires -0x8000_0000 <= n < 0x8000_0000
    ensures n >= 0 ==> AsSizeT(n) == n
    ensures n < 0 ==> AsSizeT(n) >= CODE_BITS
  {
    if n < 0 { assert (n + U64) % U64 == n + U64; }
  }

  /** The index pairs related by `near`. */
  ghost function Pairs(he1: seq<nat>, he2: seq<nat>, near: (nat, nat) -> bool): set<(int, int)> {
    set i, j | 0 <= i < |he1| && 0 <= j < |he2| && near(he1[i], he2[j]) :: (i, j)
  }

  /** Two words are similar when they differ in at most `threshold` bits. */
  function Within(threshold: nat): (nat, nat) -> bool {
    (x: nat, y: nat) => CountOne(Xor(x, y)) <= threshold
  }

  /** The pairs whose row is before `i`, or is `i` and whose column is before `j`. */
  ghost function PairsBefore(he1: seq<nat>, he2: seq<nat>, near: (nat, nat) -> bool, i: nat, j: nat): set<(int, int)>
    requires i < |he1| && j <= |he2|
  {
    set p | p in Pairs(he1, he2, near) && (p.0 < i || (p.0 == i && p.1 < j))
  }

  lemma {:induction false} PairsBeforeNext(he1: seq<nat>, he2: seq<nat>, near: (nat, nat) -> bool, i: nat, j: nat)
    requires i < |he1| && j < |he2|
    ensures |PairsBefore(he1, he2, near, i, j + 1)|
         == |PairsBefore(he1, he2, near, i, j)| + (if near(he1[i], he2[j]) then 1 else 0)
  {
    var now, next := PairsBefore(he1, he2, near, i, j), PairsBefore(he1, he2, near, i, j + 1);
    assert (i, j) in Pairs(he1, he2, near) <==> near(he1[i], he2[j]);
    assert next == if near(he1[i], he2[j]) then now + {(i as int, j as int)} else now;
  }

  /** The two nested loops of `HeDistance`. */
  method CountPairs(he1: seq<nat>, he2: seq<nat>, near: (nat, nat) -> bool) returns (similar: nat)
    requires he1 != []
    ensures similar == |Pairs(he1, he2, near)|
  {
    similar := 0;
    assert PairsBefore(he1, he2, near, 0, 0) == {};
    for i := 0 to |he1|
      invariant i < |he1| ==> similar == |PairsBefore(he1, he2, near, i, 0)|
      invariant i == |he1| ==> similar == |Pairs(he1, he2, near)|
    {
      for j := 0 to |he2|
        invariant similar == |PairsBefore(he1, he2, near, i, j)|
      {
        PairsBeforeNext(he1, he2, near, i, j);
        if near(he1[i], he2[j]) {
          similar := similar + 1;
        }
      }
      if i + 1 < |he1| {
        assert PairsBefore(he1, he2, near, i, |he2|) == PairsBefore(he1, he2, near, i + 1, 0);
      } else {
        assert PairsBefore(he1, he2, near, i, |he2|) == Pairs(he1, he2, near);
      }
    }
  }

  /** `HeDistance`: -1 and an untouched counter when a side is empty. */
  method HeDistance(similar: nat, he1: seq<nat>, he2: seq<nat>, threshold: nat)
    returns (ret: int, similar': nat)
    ensures ret == (if he1 == [] || he2 == [] then -1 else 0)
    ensures similar' == if ret == -1 then similar else |Pairs(he1, he2, Within(threshold))|
  {
    if |he1| <= 0 || |he2| <= 0 {
      return -1, similar;
    }
    similar' := CountPairs(he1, he2, Within(threshold));
    ret := 0;
  }

  //////////////////////////////////////////////////////////////////////////////
  // Whole code strings
  //////////////////////////////////////////////////////////////////////////////

  /** The text of several sign vectors, one code after the other. */
  function PackedAll(codes: seq<seq<bool>>): string {
    if codes == [] then "" else Packed(codes[0]) + PackedAll(codes[1..])
  }

  ghost predicate AllCodes(codes: seq<seq<bool>>) {
    forall i :: 0 <= i < |codes| ==> |codes[i]| == CODE_BITS
  }

  lemma {:induction false} DecodedAll(codes: seq<seq<bool>>)
    requires AllCodes(codes)
    ensures |Decoded(PackedAll(codes))| == |codes|
    ensures forall i :: 0 <= i < |codes| ==> Decoded(PackedAll(codes))[i] == Value(GroupDigits(codes[i]))
  {
    if codes != [] {
      var code := PackedAll(codes);
      DecodedAll(codes[1..]);
      assert code[..16] == Packed(codes[0]) && code[16..] == PackedAll(codes[1..]);
      WordOfSigns(codes[0]);
    }
  }

  /** The index pairs of sign vectors that differ in at most `threshold` components. */
  ghost function ClosePairs(us: seq<seq<bool>>, vs: seq<seq<bool>>, threshold: nat): set<(int, int)>
    requires AllCodes(us) && AllCodes(vs)
  {
    set i, j | 0 <= i < |us| && 0 <= j < |vs| && Differences(us[i], vs[j]) <= threshold :: (i, j)
  }

  lemma {:induction false} WordsMeasureDifferences(u: seq<bool>, v: seq<bool>, x: nat, y: nat)
    requires |u| == |v| == CODE_BITS && x == Value(GroupDigits(u)) && y == Value(GroupDigits(v))
    ensures CountOne(Xor(x, y)) == Differences(u, v)
  {
    WordOfSigns(u);
    WordOfSigns(v);
    Masks();
    XorFits(x, y, 16);
    CountOneIsOnes(Xor(x, y));
    XorCountsDifferences(u, v);
  }

  /**
   The pairs that `HeDistance` counts on two decoded code strings are exactly the pairs
   of sign vectors within the threshold.
   */
  lemma {:induction false} HeDistanceCountsClosePairs(us: seq<seq<bool>>, vs: seq<seq<bool>>, threshold: nat)
    requires AllCodes(us) && AllCodes(vs)
    ensures Pairs(Decoded(PackedAll(us)), Decoded(PackedAll(vs)), Within(threshold)) == ClosePairs(us, vs, threshold)
  {
    DecodedAll(us);
    DecodedAll(vs);
    var xs, ys := Decoded(PackedAll(us)), Decoded(PackedAll(vs));
    var near := Within(threshold);
    forall i, j | 0 <= i < |us| && 0 <= j < |vs|
      ensures near(xs[i], ys[j]) <==> Differences(us[i], vs[j]) <= threshold
    {
      WordsMeasureDifferences(us[i], vs[j], xs[i], ys[j]);
    }
  }
}
