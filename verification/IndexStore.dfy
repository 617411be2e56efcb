/**
 The file store of the inverted index: word indexes as bytes, appended to one data file, and a
 hint table with the byte range last written for every bucket.

 Numbers are their bit patterns: 64-bit picture ids and codes, 32-bit weights (floats) and
 angles, 16-bit item lengths, 32-bit word ids and item counts.
 */
module IndexStore {
  import opened Wrappers
  import opened LittleEndian
  import opened ByteBuffer
  import HammingEmbedding

  /** `length_` is the number of codes, and of angles. */
  datatype IndexItem = IndexItem(picId: nat, weight: nat, he: seq<nat>, angle: seq<nat>)

  datatype WordIndex = WordIndex(wordId: nat, items: seq<IndexItem>)

  datatype HinterItem = HinterItem(startPos: nat, endPos: nat, bucketSize: nat)

  const SHORT_LIMIT: nat := 0x8000
  const INT_LIMIT: nat := 0x8000_0000

  /** The length of both arrays is a `short`. */
  predicate LengthFits(item: IndexItem) {
    |item.he| == |item.angle| < SHORT_LIMIT
  }

  predicate ItemFits(item: IndexItem) {
    && item.picId < Limit(8) && item.weight < Limit(4) && LengthFits(item)
    && (forall i :: 0 <= i < |item.he| ==> item.he[i] < Limit(8))
    && (forall i :: 0 <= i < |item.angle| ==> item.angle[i] < Limit(4))
  }

  //////////////////////////////////////////////////////////////////////////////
  // The layout
  //////////////////////////////////////////////////////////////////////////////

  /** Numbers of `n` bytes, one after the other. */
  function Words(s: seq<nat>, n: nat): (b: seq<Byte>)
    ensures n == 8 ==> |b| == 8 * |s|
    ensures n == 4 ==> |b| == 4 * |s|
  {
    if s == [] then [] else Bytes(s[0], n) + Words(s[1..], n)
  }

  function ItemHead(item: IndexItem): seq<Byte> {
    Bytes(item.picId, 8) + (Bytes(item.weight, 4) + Bytes(|item.he|, 2))
  }

  function ItemBytes(item: IndexItem): seq<Byte> {
    ItemHead(item) + (Words(item.he, 8) + Words(item.angle, 4))
  }

  function ItemsBytes(items: seq<IndexItem>): seq<Byte> {
    if items == [] then [] else ItemBytes(items[0]) + ItemsBytes(items[1..])
  }

  function WordBytes(index: WordIndex): seq<Byte> {
    Bytes(index.wordId, 4) + (Bytes(|index.items|, 4) + ItemsBytes(index.items))
  }

  //////////////////////////////////////////////////////////////////////////////
  // Sizes
  //////////////////////////////////////////////////////////////////////////////

  /** A number squeezed into a signed 16-bit integer. */
  function Short(n: nat): int {
    var low := n % 0x1_0000;
    if low < SHORT_LIMIT then low else low - 0x1_0000
  }

  /** `DumpData` copies both arrays up to a size held in a `short`; a negative size is undefined. */
  predicate HasDump(item: IndexItem) {
    Short(8 * |item.he|) >= 0 && Short(4 * |item.angle|) >= 0
  }

  function DumpOf(item: IndexItem): seq<Byte>
    requires HasDump(item)
  {
    ItemHead(item) + (Words(item.he, 8)[..Short(8 * |item.he|)] + Words(item.angle, 4)[..Short(4 * |item.angle|)])
  }

  function Dumped(item: IndexItem): Option<seq<Byte>> {
    if HasDump(item) then Some(DumpOf(item)) else None
  }

  function GetSize(item: IndexItem): nat {
    8 + 4 + 2 + 8 * |item.he| + 4 * |item.angle|
  }

  /** The dump is the layout, of the predicted size, exactly for items of at most 4095 codes. */
  lemma {:induction false} DumpedWhole(item: IndexItem)
    requires LengthFits(item)
    ensures |ItemBytes(item)| == GetSize(item)
    ensures Dumped(item) == Some(ItemBytes(item)) <==> |item.he| <= 4095
    ensures Dumped(item).Some? && |Dumped(item).value| == GetSize(item) <==> |item.he| <= 4095
  {
    var n := |item.he|;
    assert |ItemHead(item)| == 14;
    if n <= 4095 {
      assert Words(item.he, 8)[..8 * n] == Words(item.he, 8);
      assert Words(item.angle, 4)[..4 * n] == Words(item.angle, 4);
    } else {
      assert Short(8 * n) < 8 * n;
    }
  }

  /** An item of 4096 codes: its dump is undefined. */
  lemma {:induction false} TooManyCodes()
    ensures var item := IndexItem(0, 0, seq(4096, _ => 0), seq(4096, _ => 0));
      ItemFits(item) && Dumped(item).None?
  {
    Limits();
  }

  /** An item of 16384 codes: its dump has no code at all, 14 bytes for a predicted size of 196622. */
  lemma {:induction false} CodesCutOff()
    ensures var item := IndexItem(0, 0, seq(16384, _ => 0), seq(16384, _ => 0));
      ItemFits(item) && Dumped(item) == Some(ItemHead(item)) && GetSize(item) == 196622
  {
    Limits();
    var item := IndexItem(0, 0, seq(16384, _ => 0), seq(16384, _ => 0));
    var nothing := Words(item.he, 8)[..0] + Words(item.angle, 4)[..0];
    assert nothing == [];
    assert ItemHead(item) + nothing == ItemHead(item);
    assert Short(8 * 16384) == 0 && Short(4 * 16384) == 0;
  }

  /** An item whose arrays fit the `short` sizes. */
  predicate Storable(item: IndexItem) {
    ItemFits(item) && |item.he| <= 4095
  }

  /** Numbers within their types. */
  predicate TypesFit(index: WordIndex) {
    && index.wordId < Limit(4) && |index.items| < INT_LIMIT
    && (forall i :: 0 <= i < |index.items| ==> ItemFits(index.items[i]))
  }

  predicate IndexFits(index: WordIndex) {
    TypesFit(index) && forall i :: 0 <= i < |index.items| ==> Storable(index.items[i])
  }

  /** Every item has a defined dump. */
  predicate Dumpable(items: seq<IndexItem>) {
    forall i :: 0 <= i < |items| ==> HasDump(items[i])
  }

  /** The dumps of all items. */
  function DumpedItems(items: seq<IndexItem>): seq<Byte>
    requires Dumpable(items)
  {
    if items == [] then [] else DumpedItems(items[..|items| - 1]) + DumpOf(items[|items| - 1])
  }

  /** What `Serialize` writes. */
  function DumpedWord(index: WordIndex): seq<Byte>
    requires Dumpable(index.items)
  {
    Bytes(index.wordId, 4) + Bytes(|index.items|, 4) + DumpedItems(index.items)
  }

  lemma {:induction false} DumpedShorter(item: IndexItem)
    requires HasDump(item)
    ensures |DumpOf(item)| <= |ItemBytes(item)|
  {
  }

  /** The dumps fill the layout, and are it, exactly when every item is storable. */
  lemma {:induction false} DumpedAll(items: seq<IndexItem>)
    requires Dumpable(items) && forall i :: 0 <= i < |items| ==> LengthFits(items[i])
    ensures |DumpedItems(items)| <= |ItemsBytes(items)|
    ensures |DumpedItems(items)| == |ItemsBytes(items)| <==> AllShort(items)
    ensures AllShort(items) ==> DumpedItems(items) == ItemsBytes(items)
  {
    if items != [] {
      var front, last := items[..|items| - 1], items[|items| - 1];
      DumpedAll(front);
      var e, c := OneMoreDump(front, last, items);
      AllShortAppend(front, last, items);
      BothWhole(DumpedItems(front), e, ItemsBytes(front), c, AllShort(front), |last.he| <= 4095);
    }
  }

  lemma {:induction false} OneMoreDump(front: seq<IndexItem>, last: IndexItem, items: seq<IndexItem>)
    returns (e: seq<Byte>, c: seq<Byte>)
    requires items == front + [last] && Dumpable(items) && Dumpable(front) && LengthFits(last)
    ensures DumpedItems(items) == DumpedItems(front) + e && ItemsBytes(items) == ItemsBytes(front) + c
    ensures |e| <= |c| && (|e| == |c| <==> |last.he| <= 4095) && (|last.he| <= 4095 ==> e == c)
  {
    assert items[..|items| - 1] == front && items[|front|] == last;
    DumpedLast(last);
    ItemsAppend(front, last);
    e, c := DumpOf(last), ItemBytes(last);
  }

  /** Two parts are whole together exactly when each is. */
  lemma {:induction false} BothWhole(d: seq<Byte>, e: seq<Byte>, b: seq<Byte>, c: seq<Byte>, p: bool, q: bool)
    requires |d| <= |b| && (|d| == |b| <==> p) && (p ==> d == b)
    requires |e| <= |c| && (|e| == |c| <==> q) && (q ==> e == c)
    ensures |d + e| <= |b + c| && (|d + e| == |b + c| <==> p && q) && (p && q ==> d + e == b + c)
  {
  }

  /** No item has more codes than fit. */
  predicate AllShort(items: seq<IndexItem>) {
    forall i :: 0 <= i < |items| ==> |items[i].he| <= 4095
  }

  lemma {:induction false} AllShortAppend(front: seq<IndexItem>, last: IndexItem, items: seq<IndexItem>)
    requires items == front + [last]
    ensures AllShort(items) <==> AllShort(front) && |last.he| <= 4095
  {
    if AllShort(items) {
      forall i | 0 <= i < |front| ensures |front[i].he| <= 4095 { assert front[i] == items[i]; }
      assert items[|front|] == last;
    }
  }

  lemma {:induction false} DumpedLast(item: IndexItem)
    requires LengthFits(item) && HasDump(item)
    ensures |DumpOf(item)| <= |ItemBytes(item)|
    ensures |DumpOf(item)| == |ItemBytes(item)| <==> |item.he| <= 4095
    ensures |item.he| <= 4095 ==> DumpOf(item) == ItemBytes(item)
  {
    DumpedWhole(item);
    DumpedShorter(item);
  }

  //////////////////////////////////////////////////////////////////////////////
  // Writing
  //////////////////////////////////////////////////////////////////////////////

  method DumpData(item: IndexItem, buf: array<Byte>, cur: nat) returns (next: nat)
    requires HasDump(item) && cur + |DumpOf(item)| <= buf.Length
    modifies buf
    ensures next == cur + |DumpOf(item)|
    ensures buf[..next] == old(buf[..cur]) + DumpOf(item)
  {
    var heLen, angleLen := Short(8 * |item.he|), Short(4 * |item.angle|);
    var he, angle := Words(item.he, 8)[..heLen], Words(item.angle, 4)[..angleLen];
    ghost var before := buf[..cur];
    DumpHead(item, buf, cur);
    DumpArrays(he, angle, buf, cur + 14);
    Regroup(before, ItemHead(item), he + angle);
    return cur + 14 + heLen + angleLen;
  }

  method DumpHead(item: IndexItem, buf: array<Byte>, cur: nat)
    requires cur + 14 <= buf.Length
    modifies buf
    ensures buf[..cur + 14] == old(buf[..cur]) + ItemHead(item)
  {
    Copy(buf, cur, Bytes(item.picId, 8));
    Copy(buf, cur + 8, Bytes(item.weight, 4));
    Copy(buf, cur + 12, Bytes(|item.he|, 2));
  }

  method DumpArrays(he: seq<Byte>, angle: seq<Byte>, buf: array<Byte>, cur: nat)
    requires cur + |he| + |angle| <= buf.Length
    modifies buf
    ensures buf[..cur + |he| + |angle|] == old(buf[..cur]) + (he + angle)
  {
    Copy(buf, cur, he);
    Copy(buf, cur + |he|, angle);
  }

  lemma {:induction false} ItemsOne(item: IndexItem)
    ensures ItemsBytes([item]) == ItemBytes(item)
  {
    assert ItemsBytes([item]) == ItemBytes(item) + ItemsBytes([]);
  }

  lemma {:induction false} ItemsStep(first: IndexItem, rest: seq<IndexItem>, items: seq<IndexItem>)
    requires items == [first] + rest
    ensures ItemsBytes(items) == ItemBytes(first) + ItemsBytes(rest)
  {
    assert items[1..] == rest;
  }

  lemma {:induction false} ItemsAppend(items: seq<IndexItem>, item: IndexItem)
    ensures ItemsBytes(items + [item]) == ItemsBytes(items) + ItemBytes(item)
  {
    if items == [] {
      assert [] + [item] == [item];
      ItemsOne(item);
    } else {
      var first, rest := items[0], items[1..];
      ItemsAppend(rest, item);
      ItemsStep(first, rest, items);
      ItemsStep(first, rest + [item], items + [item]);
      Regroup(ItemBytes(first), ItemsBytes(rest), ItemBytes(item));
    }
  }

  lemma {:induction false} ItemsPrefix(items: seq<IndexItem>, i: nat)
    requires i < |items|
    ensures ItemsBytes(items[..i + 1]) == ItemsBytes(items[..i]) + ItemBytes(items[i])
  {
    ItemsAppend(items[..i], items[i]);
    assert items[..i + 1] == items[..i] + [items[i]];
  }

  method CalcWordIndexSize(index: WordIndex) returns (size: nat)
    ensures size == |WordBytes(index)|
  {
    size := 8;
    for i := 0 to |index.items|
      invariant size == 8 + |ItemsBytes(index.items[..i])|
    {
      size := size + GetSize(index.items[i]);
      ItemsPrefix(index.items, i);
      assert |ItemBytes(index.items[i])| == GetSize(index.items[i]);
    }
    assert index.items[..|index.items|] == index.items;
  }

  /** The buffer of the predicted size begins with the dumps, and is the layout if every item is storable. */
  method Serialize(index: WordIndex) returns (data: array<Byte>)
    requires TypesFit(index) && Dumpable(index.items)
    ensures fresh(data) && data.Length == |WordBytes(index)| >= |DumpedWord(index)|
    ensures data[..|DumpedWord(index)|] == DumpedWord(index)
    ensures IndexFits(index) ==> data[..] == WordBytes(index)
  {
    var size := CalcWordIndexSize(index);
    data := new Byte[size];
    DumpNumbers(index.wordId, |index.items|, data);
    DumpItems(index.items, data, 8);
    DumpedAll(index.items);
    Regroup(Bytes(index.wordId, 4), Bytes(|index.items|, 4), ItemsBytes(index.items));
    assert data[..] == data[..size];
  }

  method DumpNumbers(wordId: nat, count: nat, data: array<Byte>)
    requires data.Length >= 8
    modifies data
    ensures data[..8] == Bytes(wordId, 4) + Bytes(count, 4)
  {
    Copy(data, 0, Bytes(wordId, 4));
    Copy(data, 4, Bytes(count, 4));
  }

  method DumpItems(items: seq<IndexItem>, data: array<Byte>, start: nat)
    requires start + |ItemsBytes(items)| <= data.Length && Dumpable(items)
    modifies data
    ensures start + |DumpedItems(items)| <= data.Length
    ensures data[..start + |DumpedItems(items)|] == old(data[..start]) + DumpedItems(items)
  {
    var cur := start;
    ghost var before, done := data[..start], [];
    for i := 0 to |items|
      invariant done == DumpedItems(items[..i]) && cur == start + |done| && |done| <= |ItemsBytes(items[..i])|
      invariant cur <= data.Length && data[..cur] == before + done
    {
      DumpFits(items, i);
      ghost var bytes := DumpOf(items[i]);
      Regroup(before, done, bytes);
      cur := DumpData(items[i], data, cur);
      done := done + bytes;
    }
    assert items[..|items|] == items;
  }

  /** The next dump has room, and joins the others. */
  lemma {:induction false} DumpFits(items: seq<IndexItem>, i: nat)
    requires i < |items| && Dumpable(items)
    ensures |ItemsBytes(items[..i])| + |DumpOf(items[i])| <= |ItemsBytes(items[..i + 1])| <= |ItemsBytes(items)|
    ensures DumpedItems(items[..i + 1]) == DumpedItems(items[..i]) + DumpOf(items[i])
  {
    ItemsPrefix(items, i);
    RoomLeft(items, i);
    DumpedShorter(items[i]);
    assert items[..i + 1][..i] == items[..i];
  }

  lemma {:induction false} Regroup(a: seq<Byte>, b: seq<Byte>, c: seq<Byte>)
    ensures (a + b) + c == a + (b + c)
  {
  }

  lemma {:induction false} RoomLeft(items: seq<IndexItem>, i: nat)
    requires i < |items|
    ensures |ItemsBytes(items[..i])| + |ItemBytes(items[i])| <= |ItemsBytes(items)|
    decreases |items| - i
  {
    ItemsPrefix(items, i);
    if i + 1 == |items| {
      assert items[..i + 1] == items;
    } else {
      RoomLeft(items, i + 1);
    }
  }

  //////////////////////////////////////////////////////////////////////////////
  // Reading
  //////////////////////////////////////////////////////////////////////////////

  /** A part of the data seen as an array of numbers of `n` bytes. */
  function NumbersAt(s: seq<Byte>, pos: nat, count: nat, n: nat): seq<nat>
    decreases count
  {
    if count == 0 || pos + n > |s| then [] else [NumberAt(s, pos, n)] + NumbersAt(s, pos + n, count - 1, n)
  }

  lemma {:induction false} NumbersStand(s: seq<Byte>, pos: nat, xs: seq<nat>, n: nat)
    requires Stands(s, pos, Words(xs, n)) && forall i :: 0 <= i < |xs| ==> xs[i] < Limit(n)
    ensures NumbersAt(s, pos, |xs|, n) == xs
    decreases |xs|
  {
    if xs != [] {
      var first, rest := Bytes(xs[0], n), Words(xs[1..], n);
      StandsSplit(s, pos, first, rest);
      NumberStands(s, pos, xs[0], n);
      NumbersStand(s, pos + n, xs[1..], n);
    }
  }

  lemma {:induction false} HeadStands(s: seq<Byte>, cur: nat, item: IndexItem)
    requires Storable(item) && Stands(s, cur, ItemHead(item))
    ensures cur + 14 <= |s| && NumberAt(s, cur, 8) == item.picId && NumberAt(s, cur + 8, 4) == item.weight
    ensures NumberAt(s, cur + 12, 2) == |item.he|
  {
    StandsSplit(s, cur, Bytes(item.picId, 8), Bytes(item.weight, 4) + Bytes(|item.he|, 2));
    StandsSplit(s, cur + 8, Bytes(item.weight, 4), Bytes(|item.he|, 2));
    Limits();
    NumberStands(s, cur, item.picId, 8);
    NumberStands(s, cur + 8, item.weight, 4);
    NumberStands(s, cur + 12, |item.he|, 2);
  }

  /** The item of `n` codes at `cur`. */
  function ItemAt(s: seq<Byte>, cur: nat, n: nat): IndexItem
    requires cur + 14 + 12 * n <= |s|
  {
    IndexItem(NumberAt(s, cur, 8), NumberAt(s, cur + 8, 4),
              NumbersAt(s, cur + 14, n, 8), NumbersAt(s, cur + 14 + 8 * n, n, 4))
  }

  lemma {:induction false} ItemStands(s: seq<Byte>, cur: nat, item: IndexItem, n: nat)
    requires Storable(item) && n == |item.he| && Stands(s, cur, ItemBytes(item))
    ensures |ItemBytes(item)| == 14 + 12 * n && cur + 14 + 12 * n <= |s|
    ensures NumberAt(s, cur + 12, 2) == n && ItemAt(s, cur, n) == item
  {
    StandsSplit(s, cur, ItemHead(item), Words(item.he, 8) + Words(item.angle, 4));
    HeadStands(s, cur, item);
    ArraysStand(s, cur + 14, item.he, item.angle);
  }

  lemma {:induction false} ArraysStand(s: seq<Byte>, cur: nat, he: seq<nat>, angle: seq<nat>)
    requires Stands(s, cur, Words(he, 8) + Words(angle, 4))
    requires (forall i :: 0 <= i < |he| ==> he[i] < Limit(8)) && (forall i :: 0 <= i < |angle| ==> angle[i] < Limit(4))
    ensures NumbersAt(s, cur, |he|, 8) == he && NumbersAt(s, cur + 8 * |he|, |angle|, 4) == angle
  {
    StandsSplit(s, cur, Words(he, 8), Words(angle, 4));
    NumbersStand(s, cur, he, 8);
    NumbersStand(s, cur + 8 * |he|, angle, 4);
  }

  /** Where the fields of an item stand in its bytes. */
  lemma {:induction false} ItemLayout(item: IndexItem, k: nat)
    requires Storable(item) && k < |item.he|
    ensures var b, n := ItemBytes(item), |item.he|;
      && |b| == 14 + 12 * n
      && NumberAt(b, 0, 8) == item.picId && NumberAt(b, 8, 4) == item.weight && NumberAt(b, 12, 2) == n
      && NumberAt(b, 14 + 8 * k, 8) == item.he[k] && NumberAt(b, 14 + 8 * n + 4 * k, 4) == item.angle[k]
  {
    var b, n := ItemBytes(item), |item.he|;
    assert b[0..|b|] == b;
    ItemStands(b, 0, item, n);
    HeadOfItem(item);
    ArraysLayout(b, item, n, k);
  }

  lemma {:induction false} ArraysLayout(b: seq<Byte>, item: IndexItem, n: nat, k: nat)
    requires |b| == 14 + 12 * n && k < n && ItemAt(b, 0, n) == item
    ensures |item.he| > k && NumberAt(b, 14 + 8 * k, 8) == item.he[k]
    ensures |item.angle| > k && NumberAt(b, 14 + 8 * n + 4 * k, 4) == item.angle[k]
  {
    CodesAtPlace(b, 14, n, k);
    AnglesAtPlace(b, 14 + 8 * n, n, k);
  }

  lemma {:induction false} HeadOfItem(item: IndexItem)
    requires Storable(item)
    ensures |ItemBytes(item)| >= 14
    ensures NumberAt(ItemBytes(item), 0, 8) == item.picId && NumberAt(ItemBytes(item), 8, 4) == item.weight
  {
    var b := ItemBytes(item);
    assert b[0..14] == ItemHead(item);
    HeadStands(b, 0, item);
  }

  lemma {:induction false} CodesAtPlace(s: seq<Byte>, pos: nat, count: nat, k: nat)
    requires k < count && pos + 8 * count <= |s|
    ensures |NumbersAt(s, pos, count, 8)| > k && NumbersAt(s, pos, count, 8)[k] == NumberAt(s, pos + 8 * k, 8)
    decreases count
  {
    if k > 0 { CodesAtPlace(s, pos + 8, count - 1, k - 1); }
  }

  lemma {:induction false} AnglesAtPlace(s: seq<Byte>, pos: nat, count: nat, k: nat)
    requires k < count && pos + 4 * count <= |s|
    ensures |NumbersAt(s, pos, count, 4)| > k && NumbersAt(s, pos, count, 4)[k] == NumberAt(s, pos + 4 * k, 4)
    decreases count
  {
    if k > 0 { AnglesAtPlace(s, pos + 4, count - 1, k - 1); }
  }

  /** The bytes of an index: word id, number of items, and the items one after the other. */
  lemma {:induction false} WordLayout(index: WordIndex, i: nat)
    requires IndexFits(index) && i < |index.items|
    ensures var b := WordBytes(index);
      && |b| >= 8 && NumberAt(b, 0, 4) == index.wordId && NumberAt(b, 4, 4) == |index.items|
      && Stands(b, 8 + |ItemsBytes(index.items[..i])|, ItemBytes(index.items[i]))
  {
    var b := WordBytes(index);
    assert b[0..|b|] == b;
    WordStands(b, index);
    ItemStandsBehind(b, 8, index.items, i);
  }

  lemma {:induction false} ItemStandsBehind(s: seq<Byte>, cur: nat, items: seq<IndexItem>, i: nat)
    requires i < |items| && Stands(s, cur, ItemsBytes(items))
    ensures Stands(s, cur + |ItemsBytes(items[..i])|, ItemBytes(items[i]))
    decreases |items|
  {
    ItemsSplit(s, cur, items);
    if i == 0 {
      assert items[..0] == [];
    } else {
      var rest := items[1..];
      ItemStandsBehind(s, cur + |ItemBytes(items[0])|, rest, i - 1);
      ItemsStep(items[0], rest[..i - 1], items[..i]);
      assert rest[i - 1] == items[i];
    }
  }

  /** An item and the cursor behind it. */
  datatype Reading = Reading(item: IndexItem, next: nat)

  /** `ReinterpretData`; a negative length, or an item that goes past the data, is undefined. */
  function ReadItem(data: seq<Byte>, cur: nat): (r: Option<Reading>)
    ensures r.Some? ==> cur < r.value.next <= |data|
  {
    if cur + 14 > |data| then None
    else
      var length := NumberAt(data, cur + 12, 2);
      if length >= SHORT_LIMIT || cur + 14 + 12 * length > |data| then None
      else Some(Reading(ItemAt(data, cur, length), cur + 14 + 8 * length + 4 * length))
  }

  /** Data that holds an item reads as that item; the cursor moves behind it. */
  lemma {:induction false} ReadsItem(data: seq<Byte>, cur: nat, item: IndexItem)
    requires Storable(item) && Stands(data, cur, ItemBytes(item))
    ensures ReadItem(data, cur) == Some(Reading(item, cur + |ItemBytes(item)|))
  {
    ItemStands(data, cur, item, |item.he|);
  }

  lemma {:induction false} ItemsSplit(s: seq<Byte>, cur: nat, items: seq<IndexItem>)
    requires items != [] && Stands(s, cur, ItemsBytes(items))
    ensures Stands(s, cur, ItemBytes(items[0])) && Stands(s, cur + |ItemBytes(items[0])|, ItemsBytes(items[1..]))
  {
    var first, rest := items[0], items[1..];
    ItemsStep(first, rest, items);
    StandsSplit(s, cur, ItemBytes(first), ItemsBytes(rest));
  }

  /** `count` items from `cur` on. */
  function ReadItems(data: seq<Byte>, cur: nat, count: nat): Option<seq<IndexItem>>
    decreases count
  {
    if count == 0 then Some([])
    else
      var first := ReadItem(data, cur);
      if first.None? then None
      else Prepended([first.value.item], ReadItems(data, first.value.next, count - 1))
  }

  function Prepended(front: seq<IndexItem>, rest: Option<seq<IndexItem>>): Option<seq<IndexItem>> {
    if rest.None? then None else Some(front + rest.value)
  }

  lemma {:induction false} ReadsItems(data: seq<Byte>, cur: nat, items: seq<IndexItem>)
    requires (forall i :: 0 <= i < |items| ==> Storable(items[i])) && Stands(data, cur, ItemsBytes(items))
    ensures ReadItems(data, cur, |items|) == Some(items)
    decreases |items|
  {
    if items != [] {
      var rest := items[1..];
      var next := FirstItemReads(data, cur, items);
      ReadsItems(data, next, rest);
      ReadItemsStep(data, cur, items[0], next, rest, items);
    }
  }

  lemma {:induction false} FirstItemReads(data: seq<Byte>, cur: nat, items: seq<IndexItem>) returns (next: nat)
    requires items != [] && Storable(items[0]) && Stands(data, cur, ItemsBytes(items))
    ensures ReadItem(data, cur) == Some(Reading(items[0], next)) && Stands(data, next, ItemsBytes(items[1..]))
  {
    ItemsSplit(data, cur, items);
    ReadsItem(data, cur, items[0]);
    next := cur + |ItemBytes(items[0])|;
  }

  lemma {:induction false} ReadItemsStep(data: seq<Byte>, cur: nat, first: IndexItem, next: nat, rest: seq<IndexItem>,
                                         items: seq<IndexItem>)
    requires ReadItem(data, cur) == Some(Reading(first, next)) && ReadItems(data, next, |rest|) == Some(rest)
    requires items == [first] + rest
    ensures ReadItems(data, cur, |items|) == Some(items)
  {
  }

  /** The number of items; a negative `int` stands for none. */
  function ItemCount(data: seq<Byte>): nat
    requires |data| >= 8
  {
    if NumberAt(data, 4, 4) < INT_LIMIT then NumberAt(data, 4, 4) else 0
  }

  /** `Unserialize` as a function; reading past the data is undefined. */
  function ReadWord(data: seq<Byte>): Option<WordIndex> {
    if |data| < 8 then None
    else match ReadItems(data, 8, ItemCount(data))
      case None => None
      case Some(items) => Some(WordIndex(NumberAt(data, 0, 4), items))
  }

  /** Data that begins with a serialized word index reads as that index. */
  lemma {:induction false} ReadsWord(data: seq<Byte>, index: WordIndex)
    requires IndexFits(index) && Stands(data, 0, WordBytes(index))
    ensures ReadWord(data) == Some(index)
  {
    WordStands(data, index);
    ReadsItems(data, 8, index.items);
  }

  method Unserialize(data: seq<Byte>) returns (r: Option<WordIndex>)
    ensures r == ReadWord(data)
  {
    if |data| < 8 { return None; }
    var items := UnserializeItems(data, 8, ItemCount(data));
    return if items.None? then None else Some(WordIndex(NumberAt(data, 0, 4), items.value));
  }

  /** The loop of `Unserialize`. */
  method UnserializeItems(data: seq<Byte>, start: nat, count: nat) returns (r: Option<seq<IndexItem>>)
    ensures r == ReadItems(data, start, count)
  {
    var items: seq<IndexItem>, cur := [], start;
    ghost var all := ReadItems(data, start, count);
    PrependedNone(all);
    for i := 0 to count
      invariant Progress(data, all, items, cur, count - i)
    {
      var reading := ReadItem(data, cur);
      ProgressStep(data, all, items, cur, count - i, reading);
      if reading.None? { return None; }
      items, cur := items + [reading.value.item], reading.value.next;
    }
    assert items + [] == items;
    return Some(items);
  }

  /** The items read so far and the rest to be read are all items. */
  ghost predicate Progress(data: seq<Byte>, all: Option<seq<IndexItem>>, items: seq<IndexItem>, cur: nat, left: nat) {
    all == Prepended(items, ReadItems(data, cur, left))
  }

  lemma {:induction false} ProgressStep(data: seq<Byte>, all: Option<seq<IndexItem>>, items: seq<IndexItem>, cur: nat,
                                        left: nat, reading: Option<Reading>)
    requires Progress(data, all, items, cur, left) && left > 0 && reading == ReadItem(data, cur)
    ensures reading.None? ==> all.None?
    ensures reading.Some? ==> Progress(data, all, items + [reading.value.item], reading.value.next, left - 1)
  {
    if reading.Some? { PrependedTwice(items, [reading.value.item], ReadItems(data, reading.value.next, left - 1)); }
  }

  lemma {:induction false} PrependedNone(rest: Option<seq<IndexItem>>)
    ensures Prepended([], rest) == rest
  {
    if rest.Some? { assert [] + rest.value == rest.value; }
  }

  lemma {:induction false} PrependedTwice(a: seq<IndexItem>, b: seq<IndexItem>, rest: Option<seq<IndexItem>>)
    ensures Prepended(a, Prepended(b, rest)) == Prepended(a + b, rest)
  {
    if rest.Some? { assert a + (b + rest.value) == a + b + rest.value; }
  }

  lemma {:induction false} WordStands(data: seq<Byte>, index: WordIndex)
    requires IndexFits(index) && Stands(data, 0, WordBytes(index))
    ensures |data| >= 8 && NumberAt(data, 0, 4) == index.wordId && NumberAt(data, 4, 4) == |index.items|
    ensures Stands(data, 8, ItemsBytes(index.items))
  {
    StandsSplit(data, 0, Bytes(index.wordId, 4), Bytes(|index.items|, 4) + ItemsBytes(index.items));
    StandsSplit(data, 4, Bytes(|index.items|, 4), ItemsBytes(index.items));
    Limits();
    NumberStands(data, 0, index.wordId, 4);
    NumberStands(data, 4, |index.items|, 4);
  }

  //////////////////////////////////////////////////////////////////////////////
  // From buckets to word indexes
  //////////////////////////////////////////////////////////////////////////////

  /** A posting as text: sixteen hexadecimal digits for every code, three decimal digits for every angle. */
  datatype BucketItem = BucketItem(picId: nat, weight: nat, code: string, angles: string)

  function Digit(c: char): int {
    c as int - '0' as int
  }

  /** The angle of three digits, in 32-bit arithmetic. */
  function Angle(angles: string, j: nat): nat
    requires 3 * j + 3 <= |angles|
  {
    (Digit(angles[3 * j]) * 100 + Digit(angles[3 * j + 1]) * 10 + Digit(angles[3 * j + 2])) % Limit(4)
  }

  predicate BucketFits(b: BucketItem) {
    && b.picId < Limit(8) && b.weight < Limit(4)
    && |b.code| / 16 < SHORT_LIMIT && 3 * (|b.code| / 16) <= |b.angles|
  }

  /** The index side of a posting: its codes are decoded to the same words as on the query side. */
  ghost predicate Converts(b: BucketItem, item: IndexItem) {
    && item.picId == b.picId && item.weight == b.weight && item.he == HammingEmbedding.Decoded(b.code)
    && |item.angle| == |item.he|
    && (forall j :: 0 <= j < |item.angle| && 3 * j + 3 <= |b.angles| ==> item.angle[j] == Angle(b.angles, j))
  }

  lemma {:induction false} DecodedFits(code: string, j: nat)
    requires j < |HammingEmbedding.Decoded(code)|
    ensures HammingEmbedding.Decoded(code)[j] < Limit(8)
  {
    HammingEmbedding.DecodedAt(code, j);
    Limits();
  }

  /** The three digits of an angle below 1000. */
  function AngleText(a: nat): string
    requires a < 1000
  {
    ["0123456789"[a / 100], "0123456789"[a / 10 % 10], "0123456789"[a % 10]]
  }

  /** An angle written with three digits is converted to itself, wherever it stands. */
  lemma {:induction false} AngleReads(before: string, a: nat, after: string, j: nat)
    requires a < 1000 && |before| == 3 * j
    ensures Angle(before + AngleText(a) + after, j) == a
  {
    var text, h, t, o := before + AngleText(a) + after, a / 100, a / 10 % 10, a % 10;
    ThreeDigits(a, h, t, o);
    DigitReads(h);
    DigitReads(t);
    DigitReads(o);
    assert text[3 * j] == AngleText(a)[0] && text[3 * j + 1] == AngleText(a)[1] && text[3 * j + 2] == AngleText(a)[2];
    AngleOf(text, j, h, t, o);
  }

  lemma {:induction false} ThreeDigits(a: nat, h: nat, t: nat, o: nat)
    requires a < 1000 && h == a / 100 && t == a / 10 % 10 && o == a % 10
    ensures h < 10 && t < 10 && o < 10 && a == h * 100 + t * 10 + o
  {
  }

  lemma {:induction false} AngleOf(text: string, j: nat, h: nat, t: nat, o: nat)
    requires 3 * j + 3 <= |text| && h < 10 && t < 10 && o < 10
    requires Digit(text[3 * j]) == h && Digit(text[3 * j + 1]) == t && Digit(text[3 * j + 2]) == o
    ensures Angle(text, j) == h * 100 + t * 10 + o
  {
    Limits();
  }

  lemma {:induction false} DigitReads(d: nat)
    requires d < 10
    ensures Digit("0123456789"[d]) == d
  {
  }

  method ConvertItem(b: BucketItem) returns (item: IndexItem)
    requires BucketFits(b)
    ensures Converts(b, item) && ItemFits(item)
  {
    var he := HammingEmbedding.HeString2Int(b.code);
    var angle := new nat[he.Length];
    var codes := he[..];
    for j := 0 to angle.Length
      invariant he[..] == codes
      invariant forall k :: 0 <= k < j ==> angle[k] == Angle(b.angles, k)
    {
      angle[j] := Angle(b.angles, j);
    }
    item := IndexItem(b.picId, b.weight, codes, angle[..]);
    forall j | 0 <= j < |codes| ensures codes[j] < Limit(8) { DecodedFits(b.code, j); }
  }

  /** `ConvertB2W`, for buckets whose postings fit their fields. */
  method ConvertB2W(bucketId: nat, bucket: seq<BucketItem>) returns (word: WordIndex)
    requires bucketId < Limit(4) && |bucket| < INT_LIMIT && forall i :: 0 <= i < |bucket| ==> BucketFits(bucket[i])
    ensures TypesFit(word) && word.wordId == bucketId && |word.items| == |bucket|
    ensures forall i :: 0 <= i < |bucket| ==> Converts(bucket[i], word.items[i])
  {
    var items := [];
    for i := 0 to |bucket|
      invariant |items| == i
      invariant forall k :: 0 <= k < i ==> ItemFits(items[k]) && Converts(bucket[k], items[k])
    {
      var item := ConvertItem(bucket[i]);
      items := items + [item];
    }
    return WordIndex(bucketId, items);
  }

  //////////////////////////////////////////////////////////////////////////////
  // The store
  //////////////////////////////////////////////////////////////////////////////

  /** One write: a bucket and the word index written for it. */
  datatype Write = Write(bucket: nat, index: WordIndex)

  /** The last index written for a bucket. */
  ghost function Last(writes: seq<Write>, bucket: nat): Option<WordIndex> {
    if writes == [] then None
    else if writes[|writes| - 1].bucket == bucket then Some(writes[|writes| - 1].index)
    else Last(writes[..|writes| - 1], bucket)
  }

  /** The hint of a bucket is the range of the index last written for it, and a storable index stands there. */
  ghost predicate HintOk(h: HinterItem, data: seq<Byte>, last: Option<WordIndex>) {
    match last
    case None => h.startPos == h.endPos
    case Some(index) =>
      && h.endPos == h.startPos + |WordBytes(index)| <= |data|
      && (IndexFits(index) ==> Stands(data, h.startPos, WordBytes(index)))
  }

  lemma {:induction false} StandsExtended(s: seq<Byte>, t: seq<Byte>, p: nat, b: seq<Byte>)
    requires Stands(s, p, b)
    ensures Stands(s + t, p, b)
  {
    assert (s + t)[p..p + |b|] == s[p..p + |b|];
  }

  lemma {:induction false} HintExtended(h: HinterItem, data: seq<Byte>, more: seq<Byte>, last: Option<WordIndex>)
    requires HintOk(h, data, last)
    ensures HintOk(h, data + more, last)
  {
    if last.Some? && IndexFits(last.value) { StandsExtended(data, more, h.startPos, WordBytes(last.value)); }
  }

  lemma {:induction false} LastAppend(writes: seq<Write>, w: Write, bucket: nat)
    ensures Last(writes + [w], bucket) == if w.bucket == bucket then Some(w.index) else Last(writes, bucket)
  {
    assert (writes + [w])[..|writes|] == writes;
  }

  /** Every hint is right for the writes so far. */
  ghost predicate HintsOk(hints: seq<HinterItem>, data: seq<Byte>, writes: seq<Write>) {
    forall b :: 0 <= b < |hints| ==> HintOk(hints[b], data, Last(writes, b))
  }

  /** An append keeps every hint right and makes that of its bucket right. */
  lemma {:induction false} AppendKeepsHints(hints: seq<HinterItem>, data: seq<Byte>, writes: seq<Write>, w: Write,
                                            bytes: seq<Byte>, h: HinterItem, next: seq<HinterItem>)
    requires HintsOk(hints, data, writes) && |bytes| == |WordBytes(w.index)|
    requires IndexFits(w.index) ==> bytes == WordBytes(w.index)
    requires h.startPos == |data| && h.endPos == |data + bytes|
    requires next == if w.bucket < |hints| then hints[w.bucket := h] else hints
    ensures HintsOk(next, data + bytes, writes + [w])
  {
    assert (data + bytes)[|data|..|data + bytes|] == bytes;
    forall b | 0 <= b < |next| ensures HintOk(next[b], data + bytes, Last(writes + [w], b)) {
      LastAppend(writes, w, b);
      if b != w.bucket { HintExtended(hints[b], data, bytes, Last(writes, b)); }
    }
  }

  class IndexStore {
    var hints: seq<HinterItem>
    var data: seq<Byte>
    ghost var writes: seq<Write>

    ghost predicate Valid()
      reads this
    {
      HintsOk(hints, data, writes)
    }

    constructor (maxBucketNum: nat)
      ensures Valid() && |hints| == maxBucketNum && writes == []
    {
      hints := seq(maxBucketNum, _ => HinterItem(0, 0, 0));
      data, writes := [], [];
    }

    method SetHint(bucket: nat, item: HinterItem) returns (result: int)
      modifies this`hints
      ensures result == if bucket < |old(hints)| then 0 else -1
      ensures hints == if bucket < |old(hints)| then old(hints)[bucket := item] else old(hints)
    {
      if bucket >= |hints| { return -1; }
      hints := hints[bucket := item];
      return 0;
    }

    method GetHint(bucket: nat) returns (result: int, item: HinterItem)
      ensures result == if bucket < |hints| then 0 else -1
      ensures result == 0 ==> item == hints[bucket]
    {
      if bucket >= |hints| { return -1, HinterItem(0, 0, 0); }
      return 0, hints[bucket];
    }

    /** The body of the loop of `ParseFile`: the index is appended and its range recorded. */
    method WriteBucket(bucket: nat, index: WordIndex)
      requires Valid() && TypesFit(index) && Dumpable(index.items)
      modifies this
      ensures Valid() && |hints| == |old(hints)| && writes == old(writes) + [Write(bucket, index)]
    {
      var curPos := |data|;
      var bytes := Serialize(index);
      var item := HinterItem(curPos, |data + bytes[..]|, 0);
      AppendKeepsHints(hints, data, writes, Write(bucket, index), bytes[..], item,
                       if bucket < |hints| then hints[bucket := item] else hints);
      data := data + bytes[..];
      var _ := SetHint(bucket, item);
      writes := writes + [Write(bucket, index)];
    }

    /** The last index written for the word, if storable; -1 beyond the table, -2 if never written. */
    method LoadWord(wordId: nat) returns (result: int, index: WordIndex)
      requires Valid()
      ensures result == if wordId >= |hints| then -1 else if Last(writes, wordId).None? then -2 else 0
      ensures result == 0 && IndexFits(Last(writes, wordId).value) ==> Last(writes, wordId) == Some(index)
    {
      var got, hint := GetHint(wordId);
      index := WordIndex(0, []);
      if got != 0 { return -1, index; }
      assert HintOk(hint, data, Last(writes, wordId));
      if hint.startPos == hint.endPos { return -2, index; }
      ghost var last := Last(writes, wordId).value;
      var bytes := data[hint.startPos..hint.endPos] + [0];
      if IndexFits(last) {
        assert Stands(bytes, 0, WordBytes(last));
        ReadsWord(bytes, last);
      }
      var read := Unserialize(bytes);
      return 0, if read.Some? then read.value else index;
    }
  }
}
