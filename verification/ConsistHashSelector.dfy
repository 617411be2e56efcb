/**
 The consistent-hash selector: a ring of virtual nodes kept as a sorted vector, searched by
 bisection, and changed in place when services come and go.

 The hash of a key (the first eight hexadecimal digits of its MD5) is any function to 32-bit
 numbers.  A ring node points to the selection node of a service; here it names its owner.
 */
module ConsistHash {
  import opened Decimals

  const RING_SIZE: nat := 0x1_0000_0000

  type Hash = x: nat | x < RING_SIZE

  datatype SelectNode = SelectNode(weight: int, data: nat)

  datatype ListNode = ListNode(hash: Hash, owner: nat, node: SelectNode)

  datatype MapNode = MapNode(hash: Hash, status: int, node: SelectNode)

  //////////////////////////////////////////////////////////////////////////////
  // Bisection
  //////////////////////////////////////////////////////////////////////////////

  ghost predicate Sorted(nodes: seq<ListNode>) {
    forall i, j :: 0 <= i < j < |nodes| ==> nodes[i].hash <= nodes[j].hash
  }

  /** Where a bisection may end up: at an equal element, or between the smaller and the larger ones. */
  ghost predicate Locates(nodes: seq<ListNode>, v: Hash, pos: nat, found: bool) {
    && pos <= |nodes|
    && (found ==> pos < |nodes| && nodes[pos].hash == v)
    && (!found ==> forall i :: 0 <= i < pos ==> nodes[i].hash < v)
    && (!found ==> forall i :: pos <= i < |nodes| ==> v < nodes[i].hash)
  }

  method BinarySearch(v: Hash, nodes: seq<ListNode>) returns (pos: nat, found: bool)
    requires Sorted(nodes)
    ensures Locates(nodes, v, pos, found)
  {
    if nodes == [] { return 0, false; }
    var l, r, mid, cmp := 0, |nodes|, 0, 0;
    while l < r
      invariant 0 <= l <= r <= |nodes|
      invariant forall i :: 0 <= i < l ==> nodes[i].hash < v
      invariant forall i :: r <= i < |nodes| ==> v < nodes[i].hash
      invariant l == r ==> l == (if cmp > 0 then mid + 1 else mid)
    {
      mid := (l + r) / 2;
      cmp := if v == nodes[mid].hash then 0 else if v < nodes[mid].hash then -1 else 1;
      if cmp == 0 { return mid, true; } else if cmp < 0 { r := mid; } else { l := mid + 1; }
    }
    return if cmp > 0 then mid + 1 else mid, false;
  }

  //////////////////////////////////////////////////////////////////////////////
  // The ring
  //////////////////////////////////////////////////////////////////////////////

  ghost predicate Ascending(ring: seq<ListNode>) {
    forall i, j :: 0 <= i < j < |ring| ==> ring[i].hash < ring[j].hash
  }

  /** The first node at or after `h`, by a linear scan; past the last one the ring starts again. */
  function FirstFrom(ring: seq<ListNode>, h: Hash): nat {
    if ring == [] then 0 else if ring[0].hash >= h then 0 else 1 + FirstFrom(ring[1..], h)
  }

  function Clockwise(ring: seq<ListNode>, h: Hash): ListNode
    requires ring != []
  {
    var k := FirstFrom(ring, h);
    if k < |ring| then ring[k] else ring[0]
  }

  lemma {:induction false} FirstFromLocates(ring: seq<ListNode>, h: Hash)
    ensures FirstFrom(ring, h) <= |ring|
    ensures forall i :: 0 <= i < FirstFrom(ring, h) ==> ring[i].hash < h
    ensures FirstFrom(ring, h) < |ring| ==> ring[FirstFrom(ring, h)].hash >= h
  {
    if ring != [] && ring[0].hash < h {
      var rest := ring[1..];
      FirstFromLocates(rest, h);
      forall i | 0 <= i < FirstFrom(ring, h) ensures ring[i].hash < h {
        if i > 0 { assert ring[i] == rest[i - 1]; }
      }
    }
  }

  lemma {:induction false} FirstFromUnique(ring: seq<ListNode>, h: Hash, pos: nat)
    requires pos <= |ring| && (pos < |ring| ==> ring[pos].hash >= h)
    requires forall i :: 0 <= i < pos ==> ring[i].hash < h
    ensures pos == FirstFrom(ring, h)
  {
    if pos > 0 { FirstFromUnique(ring[1..], h, pos - 1); }
  }

  lemma {:induction false} LocatesIsFirstFrom(ring: seq<ListNode>, h: Hash, pos: nat, found: bool)
    requires Ascending(ring) && Locates(ring, h, pos, found)
    ensures pos == FirstFrom(ring, h)
  {
    FirstFromUnique(ring, h, pos);
  }

  /** How far a node lies ahead of a key, going clockwise. */
  function Ahead(h: Hash, n: ListNode): nat {
    (n.hash - h) % RING_SIZE
  }

  lemma {:induction false} AheadOf(h: Hash, n: ListNode)
    ensures Ahead(h, n) == if n.hash >= h then n.hash - h else n.hash - h + RING_SIZE
  {
  }

  /** The chosen node is the one and only nearest node clockwise. */
  lemma {:induction false} ClockwiseIsNearest(ring: seq<ListNode>, h: Hash, n: ListNode)
    requires Ascending(ring) && n in ring
    ensures Clockwise(ring, h) in ring
    ensures n != Clockwise(ring, h) ==> Ahead(h, Clockwise(ring, h)) < Ahead(h, n)
  {
    FirstFromLocates(ring, h);
    AheadOf(h, n);
    AheadOf(h, Clockwise(ring, h));
    var i :| 0 <= i < |ring| && ring[i] == n;
  }

  /** The two rings hold the same nodes, those of service `id` aside. */
  ghost predicate AgreeOff(ring: seq<ListNode>, other: seq<ListNode>, id: nat) {
    forall n: ListNode :: n.owner != id ==> (n in ring <==> n in other)
  }

  /** A key moves only away from or onto the service in which the rings differ. */
  lemma {:induction false} ChoiceMoves(ring: seq<ListNode>, other: seq<ListNode>, id: nat, h: Hash)
    requires Ascending(ring) && Ascending(other) && AgreeOff(ring, other, id)
    requires ring != [] && other != []
    ensures || Clockwise(ring, h) == Clockwise(other, h)
            || Clockwise(ring, h).owner == id
            || Clockwise(other, h).owner == id
  {
    var n, m := Clockwise(ring, h), Clockwise(other, h);
    ClockwiseIsNearest(ring, h, ring[0]);
    ClockwiseIsNearest(other, h, other[0]);
    if n.owner != id && m.owner != id {
      ClockwiseIsNearest(ring, h, m);
      ClockwiseIsNearest(other, h, n);
    }
  }

  //////////////////////////////////////////////////////////////////////////////
  // The ring and the services
  //////////////////////////////////////////////////////////////////////////////

  /** The node is a virtual node of a live service. */
  ghost predicate Owned(items: map<nat, seq<MapNode>>, n: ListNode) {
    n.owner in items && MapNode(n.hash, 1, n.node) in items[n.owner]
  }

  ghost predicate Distinct(nodes: seq<MapNode>) {
    && (forall i, j :: 0 <= i < j < |nodes| ==> nodes[i].hash != nodes[j].hash)
    && (forall i :: 0 <= i < |nodes| ==> nodes[i].status == 1)
  }

  /** The ring is strictly sorted and holds exactly the virtual nodes of the live services. */
  ghost predicate RingOk(items: map<nat, seq<MapNode>>, ring: seq<ListNode>) {
    && Ascending(ring)
    && (forall n :: n in ring <==> Owned(items, n))
    && (forall id :: id in items ==> Distinct(items[id]))
  }

  lemma {:induction false} AscendingDetermined(r: seq<ListNode>, s: seq<ListNode>)
    requires Ascending(r) && Ascending(s) && forall n :: n in r <==> n in s
    ensures r == s
  {
    if r != [] { NotEmpty(r, s); }
    if s != [] {
      NotEmpty(s, r);
      assert r[0] in s && s[0] in r;
      var i :| 0 <= i < |s| && s[i] == r[0];
      var j :| 0 <= j < |r| && r[j] == s[0];
      assert r[0] == s[0];
      forall n ensures n in r[1..] <==> n in s[1..] { TailMember(r, n); TailMember(s, n); }
      AscendingDetermined(r[1..], s[1..]);
      assert r == [r[0]] + r[1..] && s == [s[0]] + s[1..];
    }
  }

  lemma {:induction false} NotEmpty(r: seq<ListNode>, s: seq<ListNode>)
    requires r != [] && forall n :: n in r ==> n in s
    ensures s != []
  {
    assert r[0] in s;
  }

  lemma {:induction false} TailMember(r: seq<ListNode>, n: ListNode)
    requires Ascending(r) && r != []
    ensures n in r[1..] <==> n in r && n != r[0]
  {
    assert r == [r[0]] + r[1..];
    if n in r[1..] {
      var i :| 0 <= i < |r[1..]| && r[1..][i] == n;
      assert r[i + 1] == n;
    }
  }

  /** The ring, and so every choice, depends on the live services only, not on the history. */
  lemma {:induction false} RingDetermined(items: map<nat, seq<MapNode>>, r: seq<ListNode>, s: seq<ListNode>)
    requires RingOk(items, r) && RingOk(items, s)
    ensures r == s
  {
    AscendingDetermined(r, s);
  }

  lemma {:induction false} InsertKeepsOrder(ring: seq<ListNode>, pos: nat, n: ListNode, next: seq<ListNode>)
    requires Ascending(ring) && Locates(ring, n.hash, pos, false) && next == ring[..pos] + [n] + ring[pos..]
    ensures Ascending(next) && forall m :: m in next <==> m in ring || m == n
  {
    assert ring == ring[..pos] + ring[pos..];
    forall i, j | 0 <= i < j < |next| ensures next[i].hash < next[j].hash {
      assert i > pos ==> next[i] == ring[i - 1];
      assert j > pos ==> next[j] == ring[j - 1];
    }
  }

  lemma {:induction false} RemoveKeepsOrder(ring: seq<ListNode>, pos: nat, next: seq<ListNode>)
    requires Ascending(ring) && pos < |ring| && next == ring[..pos] + ring[pos + 1..]
    ensures Ascending(next) && forall m :: m in next <==> m in ring && m != ring[pos]
  {
    assert ring == ring[..pos] + [ring[pos]] + ring[pos + 1..];
    assert forall i :: pos <= i < |next| ==> next[i] == ring[i + 1];
  }

  /** The services with the virtual nodes of one of them replaced; a service without nodes has no entry. */
  function Having(items: map<nat, seq<MapNode>>, id: nat, nodes: seq<MapNode>): map<nat, seq<MapNode>> {
    if nodes == [] then items - {id} else items[id := nodes]
  }

  lemma {:induction false} OwnedHaving(items: map<nat, seq<MapNode>>, id: nat, nodes: seq<MapNode>, n: ListNode)
    ensures Owned(Having(items, id, nodes), n) <==>
      if n.owner == id then MapNode(n.hash, 1, n.node) in nodes else Owned(items, n)
  {
  }

  lemma {:induction false} DistinctHaving(items: map<nat, seq<MapNode>>, id: nat, nodes: seq<MapNode>,
                                          next: seq<MapNode>)
    requires Distinct(next) && var all := Having(items, id, nodes); forall i :: i in all ==> Distinct(all[i])
    ensures var all := Having(items, id, next); forall i :: i in all ==> Distinct(all[i])
  {
    var all := Having(items, id, next);
    forall i | i in all && i != id ensures Distinct(all[i]) {
      assert i in Having(items, id, nodes) && Having(items, id, nodes)[i] == all[i];
    }
  }

  /** A virtual node joins its service and the ring. */
  lemma {:induction false} AddNode(items: map<nat, seq<MapNode>>, id: nat, nodes: seq<MapNode>, m: MapNode,
                ring: seq<ListNode>, pos: nat, next: seq<ListNode>)
    requires RingOk(Having(items, id, nodes), ring) && Distinct(nodes) && m.status == 1
    requires Locates(ring, m.hash, pos, false)
    requires next == ring[..pos] + [ListNode(m.hash, id, m.node)] + ring[pos..]
    ensures Distinct(nodes + [m]) && RingOk(Having(items, id, nodes + [m]), next)
  {
    InsertKeepsOrder(ring, pos, ListNode(m.hash, id, m.node), next);
    NewHash(items, id, nodes, m, ring, pos);
    forall n ensures n in next <==> Owned(Having(items, id, nodes + [m]), n) {
      OwnedHaving(items, id, nodes, n);
      OwnedHaving(items, id, nodes + [m], n);
    }
    DistinctHaving(items, id, nodes, nodes + [m]);
  }

  lemma {:induction false} NewHash(items: map<nat, seq<MapNode>>, id: nat, nodes: seq<MapNode>, m: MapNode,
                                   ring: seq<ListNode>, pos: nat)
    requires RingOk(Having(items, id, nodes), ring) && Distinct(nodes) && m.status == 1
    requires Locates(ring, m.hash, pos, false)
    ensures Distinct(nodes + [m])
  {
    forall i | 0 <= i < |nodes| ensures nodes[i].hash != m.hash {
      var n := ListNode(nodes[i].hash, id, nodes[i].node);
      OwnedHaving(items, id, nodes, n);
      assert MapNode(n.hash, 1, n.node) == nodes[i];
      assert n in ring;
    }
  }

  /** The first virtual node of a service leaves it and the ring. */
  lemma {:induction false} DropNode(items: map<nat, seq<MapNode>>, id: nat, nodes: seq<MapNode>,
                 ring: seq<ListNode>, pos: nat, next: seq<ListNode>)
    requires RingOk(Having(items, id, nodes), ring) && nodes != [] && Distinct(nodes)
    requires pos < |ring| && ring[pos] == ListNode(nodes[0].hash, id, nodes[0].node)
    requires next == ring[..pos] + ring[pos + 1..]
    ensures Distinct(nodes[1..]) && RingOk(Having(items, id, nodes[1..]), next)
  {
    RemoveKeepsOrder(ring, pos, next);
    assert nodes == [nodes[0]] + nodes[1..];
    forall n ensures n in next <==> Owned(Having(items, id, nodes[1..]), n) {
      OwnedHaving(items, id, nodes, n);
      OwnedHaving(items, id, nodes[1..], n);
    }
    DistinctHaving(items, id, nodes, nodes[1..]);
  }

  /** Bisection finds each virtual node of a live service. */
  lemma {:induction false} FindsNode(items: map<nat, seq<MapNode>>, id: nat, nodes: seq<MapNode>, ring: seq<ListNode>,
                                     pos: nat, found: bool)
    requires RingOk(Having(items, id, nodes), ring) && nodes != [] && Distinct(nodes)
    requires Locates(ring, nodes[0].hash, pos, found)
    ensures found && ring[pos] == ListNode(nodes[0].hash, id, nodes[0].node)
  {
    var n := ListNode(nodes[0].hash, id, nodes[0].node);
    OwnedHaving(items, id, nodes, n);
    assert n in ring;
    var i :| 0 <= i < |ring| && ring[i] == n;
  }

  //////////////////////////////////////////////////////////////////////////////
  // Minimal disruption
  //////////////////////////////////////////////////////////////////////////////

  /** Every key keeps its node or is now on service `id`. */
  ghost predicate MovesOnlyOnto(ring: seq<ListNode>, next: seq<ListNode>, id: nat) {
    ring != [] ==>
      && next != []
      && (forall h: Hash :: Clockwise(next, h) == Clockwise(ring, h) || Clockwise(next, h).owner == id)
  }

  /** Every key that was not on service `id` keeps its node. */
  ghost predicate MovesOnlyFrom(ring: seq<ListNode>, next: seq<ListNode>, id: nat) {
    ring != [] ==> forall h: Hash ::
      Clockwise(ring, h).owner == id || (next != [] && Clockwise(next, h) == Clockwise(ring, h))
  }

  lemma {:induction false} HavingAgrees(items: map<nat, seq<MapNode>>, id: nat, nodes: seq<MapNode>,
                                        ring: seq<ListNode>, next: seq<ListNode>)
    requires RingOk(items, ring) && RingOk(Having(items, id, nodes), next)
    ensures AgreeOff(ring, next, id)
  {
    forall n: ListNode | n.owner != id ensures n in ring <==> n in next { OwnedHaving(items, id, nodes, n); }
  }

  /** Whatever virtual nodes a new service brings, keys move only onto it. */
  lemma {:induction false} AddingMovesOntoNew(items: map<nat, seq<MapNode>>, id: nat, nodes: seq<MapNode>,
                           ring: seq<ListNode>, next: seq<ListNode>)
    requires RingOk(items, ring) && id !in items && RingOk(Having(items, id, nodes), next)
    ensures MovesOnlyOnto(ring, next, id)
  {
    HavingAgrees(items, id, nodes, ring, next);
    if ring != [] {
      assert Owned(items, ring[0]);
      assert ring[0] in next;
      forall h: Hash ensures Clockwise(next, h) == Clockwise(ring, h) || Clockwise(next, h).owner == id {
        ChoiceMoves(ring, next, id, h);
        ClockwiseIsNearest(ring, h, ring[0]);
        assert Owned(items, Clockwise(ring, h));
      }
    }
  }

  /** When a service is removed, only its own keys move. */
  lemma {:induction false} RemovingMovesOnlyOwn(items: map<nat, seq<MapNode>>, id: nat, ring: seq<ListNode>,
                                                next: seq<ListNode>)
    requires RingOk(items, ring) && RingOk(Having(items, id, []), next)
    ensures MovesOnlyFrom(ring, next, id)
  {
    HavingAgrees(items, id, [], ring, next);
    if ring != [] {
      forall h: Hash | Clockwise(ring, h).owner != id ensures next != [] && Clockwise(next, h) == Clockwise(ring, h) {
        ClockwiseIsNearest(ring, h, ring[0]);
        assert Clockwise(ring, h) in next;
        ChoiceMoves(ring, next, id, h);
        ClockwiseIsNearest(next, h, next[0]);
        assert Owned(Having(items, id, []), Clockwise(next, h));
      }
    }
  }

  //////////////////////////////////////////////////////////////////////////////
  // The selector
  //////////////////////////////////////////////////////////////////////////////

  /** The text that places virtual node `i`: the address without its scheme, and the number. */
  function VirtualKey(addr: string, i: nat): string
    requires |addr| >= 6
  {
    addr[6..] + "#" + Decimal(i)
  }

  /** The text is the rest of the address, a mark, and digits that show the number. */
  lemma {:induction false} VirtualKeyReads(addr: string, i: nat)
    requires |addr| >= 6
    ensures var key, n := VirtualKey(addr, i), |addr| - 6;
      |key| > n + 1 && key[..n] == addr[6..] && key[n] == '#' && ReadDecimal(key[n + 1..]) == i
  {
    ReadsDecimal(i);
    assert VirtualKey(addr, i)[|addr| - 5..] == Decimal(i);
  }

  lemma {:induction false} VirtualKeyText()
    ensures VirtualKey("tcp://host:80", 7) == "host:80#7"
  {
    assert Decimal(7) == "7";
  }

  /** Different virtual nodes of a service have different texts. */
  lemma {:induction false} VirtualKeysDiffer(addr: string, i: nat, j: nat)
    requires |addr| >= 6 && i != j
    ensures VirtualKey(addr, i) != VirtualKey(addr, j)
  {
    VirtualKeyReads(addr, i);
    VirtualKeyReads(addr, j);
  }

  /** The hash tells the texts of the first `count` virtual nodes apart. */
  ghost predicate HashesApart(hash: string -> Hash, addr: string, count: nat)
    requires |addr| >= 6
  {
    forall i, j :: 0 <= i < count && 0 <= j < count && VirtualKey(addr, i) != VirtualKey(addr, j) ==>
      hash(VirtualKey(addr, i)) != hash(VirtualKey(addr, j))
  }

  /** On an empty ring nothing clashes if the hash tells the texts apart. */
  lemma {:induction false} ApartIsClashless(hash: string -> Hash, addr: string, node: SelectNode, count: nat)
    requires |addr| >= 6 && HashesApart(hash, addr, count)
    ensures Clashless([], VirtualNodes(hash, addr, node, count))
  {
    var nodes := VirtualNodes(hash, addr, node, count);
    forall i, j | 0 <= i < j < |nodes| ensures nodes[i].hash != nodes[j].hash {
      VirtualKeysDiffer(addr, i, j);
    }
  }

  function VirtualNodes(hash: string -> Hash, addr: string, node: SelectNode, count: nat): seq<MapNode>
    requires |addr| >= 6
  {
    seq(count, i requires 0 <= i => MapNode(hash(VirtualKey(addr, i)), 1, node))
  }

  ghost predicate HasHash(ring: seq<ListNode>, h: Hash) {
    exists i :: 0 <= i < |ring| && ring[i].hash == h
  }

  /** None of the nodes has the hash of another one or of a node of the ring. */
  ghost predicate Clashless(ring: seq<ListNode>, nodes: seq<MapNode>) {
    && (forall i :: 0 <= i < |nodes| ==> !HasHash(ring, nodes[i].hash))
    && (forall i, j :: 0 <= i < j < |nodes| ==> nodes[i].hash != nodes[j].hash)
  }

  /** A hash that is free on the grown ring is free among the old and the new nodes. */
  lemma {:induction false} StaysClashless(items: map<nat, seq<MapNode>>, id: nat, nodes: seq<MapNode>, m: MapNode,
                       ring: seq<ListNode>, now: seq<ListNode>, pos: nat)
    requires RingOk(items, ring) && id !in items && RingOk(Having(items, id, nodes), now) && Distinct(nodes)
    requires Clashless(ring, nodes) && m.status == 1 && Locates(now, m.hash, pos, false)
    ensures Clashless(ring, nodes + [m])
  {
    NewHash(items, id, nodes, m, now, pos);
    forall i | 0 <= i < |ring| ensures ring[i].hash != m.hash {
      assert Owned(items, ring[i]);
      OwnedHaving(items, id, nodes, ring[i]);
      assert ring[i] in now;
    }
  }

  /** A hash that is taken on the grown ring is taken by an old or by a new node. */
  lemma {:induction false} Clashes(items: map<nat, seq<MapNode>>, id: nat, nodes: seq<MapNode>, k: nat,
                                   ring: seq<ListNode>, now: seq<ListNode>, pos: nat)
    requires RingOk(items, ring) && k < |nodes| && RingOk(Having(items, id, nodes[..k]), now)
    requires pos < |now| && now[pos].hash == nodes[k].hash
    ensures !Clashless(ring, nodes)
  {
    var n := now[pos];
    assert n in now;
    OwnedHaving(items, id, nodes[..k], n);
    if n.owner == id {
      var j :| 0 <= j < k && nodes[j] == MapNode(n.hash, 1, n.node);
    } else {
      assert n in ring;
    }
  }

  lemma {:induction false} WrapsTo(pos: nat, size: nat)
    requires pos <= size && size > 0
    ensures pos % size == if pos < size then pos else 0
  {
  }

  /** A position past the end means the first node. */
  lemma {:induction false} WrapsAround(ring: seq<ListNode>, h: Hash, pos: nat, size: nat)
    requires size == |ring| > 0 && pos == FirstFrom(ring, h) <= size
    ensures ring[pos % size] == Clockwise(ring, h)
  {
    WrapsTo(pos, size);
  }

  /** What holds of a half-built service. */
  ghost predicate Building(before: map<nat, seq<MapNode>>, id: nat, nodes: seq<MapNode>, ring: seq<ListNode>,
                           now: seq<ListNode>) {
    && RingOk(before, ring) && id !in before && RingOk(Having(before, id, nodes), now)
    && Distinct(nodes) && Clashless(ring, nodes)
  }

  lemma {:induction false} BuildsOn(before: map<nat, seq<MapNode>>, id: nat, nodes: seq<MapNode>, m: MapNode,
                 ring: seq<ListNode>, now: seq<ListNode>, pos: nat)
    requires Building(before, id, nodes, ring, now) && m.status == 1 && Locates(now, m.hash, pos, false)
    ensures Building(before, id, nodes + [m], ring, now[..pos] + [ListNode(m.hash, id, m.node)] + now[pos..])
  {
    StaysClashless(before, id, nodes, m, ring, now, pos);
    AddNode(before, id, nodes, m, now, pos, now[..pos] + [ListNode(m.hash, id, m.node)] + now[pos..]);
  }

  lemma {:induction false} PushNode(before: map<nat, seq<MapNode>>, id: nat, nodes: seq<MapNode>, m: MapNode)
    requires id !in before
    ensures var items := Having(before, id, nodes);
      Having(before, id, nodes + [m]) == items[id := if nodes == [] then [m] else items[id] + [m]]
  {
    if nodes == [] {
      assert nodes + [m] == [m];
      assert before - {id} == before;
    } else {
      assert before[id := nodes][id := nodes + [m]] == before[id := nodes + [m]];
    }
  }

  class ConsistHashSelector {
    var items: map<nat, seq<MapNode>>
    var availItems: seq<ListNode>
    var errorItems: seq<ListNode>
    var nextId: nat
    const hash: string -> Hash

    ghost predicate Valid()
      reads this
    {
      && RingOk(items, availItems)
      && errorItems == []
      && (forall id :: id in items ==> id <= nextId && items[id] != [])
    }

    constructor (hash: string -> Hash)
      ensures Valid() && items == map[] && availItems == [] && nextId == 0 && this.hash == hash
    {
      items, availItems, errorItems, nextId := map[], [], [], 0;
      this.hash := hash;
    }

    /**
     A new service with its virtual nodes, under a new id.  At the first hash that is already
     on the ring it gives up and leaves the `placed` nodes before it.
     */
    method AddItem(data: nat, weight: int, addr: string, virtualCount: int)
      returns (result: int, id: nat, ghost placed: nat)
      requires Valid() && |addr| >= 6
      modifies this
      ensures Valid() && nextId == id == old(nextId) + 1
      ensures var count: nat := if virtualCount > 0 then virtualCount else 0;
        && placed <= count
        && (result == 0 || result == 1)
        && (result == 0 <==> Clashless(old(availItems), VirtualNodes(hash, addr, SelectNode(weight, data), count)))
        && (result == 0 <==> placed == count)
      ensures items == Having(old(items), id, VirtualNodes(hash, addr, SelectNode(weight, data), placed))
      ensures |availItems| == |old(availItems)| + placed
      ensures MovesOnlyOnto(old(availItems), availItems, id)
    {
      nextId := nextId + 1;
      id := nextId;
      var node := SelectNode(weight, data);
      ghost var count := if virtualCount > 0 then virtualCount else 0;
      ghost var before, ring := items, availItems;
      ghost var all := VirtualNodes(hash, addr, node, count);
      assert Having(before, id, all[..0]) == before;
      var i := 0;
      while i < virtualCount
        invariant 0 <= i <= count && id == nextId == old(nextId) + 1 && errorItems == []
        invariant |availItems| == |ring| + i
        invariant items == Having(before, id, all[..i]) && Building(before, id, all[..i], ring, availItems)
      {
        var hashVal := hash(VirtualKey(addr, i));
        var pos, found := BinarySearch(hashVal, availItems);
        if found {
          Clashes(before, id, all, i, ring, availItems, pos);
          AddingMovesOntoNew(before, id, all[..i], ring, availItems);
          assert all[..i] == VirtualNodes(hash, addr, node, i);
          return 1, id, i;
        }
        var mapNode := MapNode(hashVal, 1, node);
        assert all[..i + 1] == all[..i] + [mapNode];
        BuildsOn(before, id, all[..i], mapNode, ring, availItems, pos);
        PushNode(before, id, all[..i], mapNode);
        items := items[id := if i == 0 then [mapNode] else items[id] + [mapNode]];
        availItems := availItems[..pos] + [ListNode(hashVal, id, node)] + availItems[pos..];
        i := i + 1;
      }
      assert all[..i] == all;
      AddingMovesOntoNew(before, id, all, ring, availItems);
      return 0, id, count;
    }

    method RemoveItem(id: nat) returns (result: int)
      requires Valid()
      modifies this
      ensures Valid() && nextId == old(nextId)
      ensures result == if id in old(items) then 0 else 1
      ensures items == old(items) - {id}
      ensures MovesOnlyFrom(old(availItems), availItems, id)
    {
      if id !in items { return 1; }
      var nodes := items[id];
      var i := 0;
      assert nodes[0..] == nodes;
      while i < |nodes|
        invariant 0 <= i <= |nodes|
        invariant items == old(items) && errorItems == [] && nextId == old(nextId)
        invariant RingOk(Having(items, id, nodes[i..]), availItems) && Distinct(nodes[i..])
      {
        ghost var rest := nodes[i..];
        assert rest[0] == nodes[i] && rest[1..] == nodes[i + 1..];
        var pos, found := BinarySearch(nodes[i].hash, availItems);
        FindsNode(items, id, rest, availItems, pos, found);
        DropNode(items, id, rest, availItems, pos, availItems[..pos] + availItems[pos + 1..]);
        availItems := availItems[..pos] + availItems[pos + 1..];
        i := i + 1;
      }
      RemovingMovesOnlyOwn(items, id, old(availItems), availItems);
      items := items - {id};
      return 0;
    }

    method Select(key: string) returns (result: int, node: SelectNode)
      requires Valid()
      ensures result == if availItems == [] then 1 else 0
      ensures result == 0 ==> node == Clockwise(availItems, hash(key)).node
    {
      if availItems != [] {
        var pos, found := BinarySearch(hash(key), availItems);
        LocatesIsFirstFrom(availItems, hash(key), pos, found);
        WrapsAround(availItems, hash(key), pos, |availItems|);
        return 0, availItems[pos % |availItems|].node;
      }
      return 1, SelectNode(1, 0);
    }
  }

  /** The first service gets all its virtual nodes if the hash tells their texts apart. */
  method AddFirst(hash: string -> Hash, data: nat, weight: int, addr: string, virtualCount: nat)
    returns (c: ConsistHashSelector, result: int)
    requires |addr| >= 6 && HashesApart(hash, addr, virtualCount)
    ensures fresh(c) && c.Valid() && result == 0 && |c.availItems| == virtualCount
  {
    c := new ConsistHashSelector(hash);
    ApartIsClashless(hash, addr, SelectNode(weight, data), virtualCount);
    var id;
    ghost var placed;
    result, id, placed := c.AddItem(data, weight, addr, virtualCount);
  }
}
