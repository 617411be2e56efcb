/**
 The weighted round-robin selector: two circular lists of nodes, those with a positive mark
 and the others, each with a cursor and the number of times its node was repeated.

 A list iterator is the index of its element, the end being the length, and moves along when
 elements before it are inserted or removed.  Map entries hold their node.
 */
module RoundRobin {
  import opened Sequences

  datatype SelectNode = SelectNode(mark: int, weight: int, data: nat)

  /** The node of a service and the list it is on. */
  datatype MapNode = MapNode(node: SelectNode, onAvail: bool)

  /** A list of service ids with its counter, its cursor and the used count of the cursor. */
  datatype Wheel = Wheel(items: seq<nat>, count: int, iter: nat, used: int)

  type Services = map<nat, MapNode>

  /** The count is right and the cursor is on an element, if there is any. */
  ghost predicate WheelOk(w: Wheel) {
    NoDup(w.items) && w.count == |w.items| && w.used >= 0 && (w.iter < |w.items| || (w.items == [] && w.iter == 0))
  }

  //////////////////////////////////////////////////////////////////////////////
  // Turning a wheel
  //////////////////////////////////////////////////////////////////////////////

  /** One selection: the node under the cursor again, or the next one. */
  function Turned(w: Wheel, services: Services): Wheel
    requires w.iter < |w.items| && w.items[w.iter] in services
  {
    if w.used < services[w.items[w.iter]].node.weight then w.(used := w.used + 1)
    else w.(iter := if w.iter + 1 == |w.items| then 0 else w.iter + 1, used := 0)
  }

  ghost predicate Turns(w: Wheel, services: Services) {
    WheelOk(w) && w.items != [] && forall i :: 0 <= i < |w.items| ==> w.items[i] in services
  }

  /** The nodes that the next `n` selections choose. */
  ghost function Picks(w: Wheel, services: Services, n: nat): seq<nat>
    requires Turns(w, services)
    decreases n
  {
    if n == 0 then [] else
      var next := Turned(w, services);
      [next.items[next.iter]] + Picks(next, services, n - 1)
  }

  /** How often a node is chosen in a row: once, and once more for each unit of weight. */
  function Share(services: Services, id: nat): nat
    requires id in services
  {
    1 + if services[id].node.weight > 0 then services[id].node.weight else 0
  }

  /** One round of the wheel, written out: every node as often as its share. */
  function Round(items: seq<nat>, services: Services): seq<nat>
    requires forall i :: 0 <= i < |items| ==> items[i] in services
  {
    if items == [] then []
    else Round(items[..|items| - 1], services) + Copies(items[|items| - 1], Share(services, items[|items| - 1]))
  }

  ghost function Prefix(w: Wheel, services: Services, k: nat): seq<nat>
    requires Turns(w, services) && k <= |w.items|
  {
    Round(w.items[..k], services)
  }

  lemma {:induction false} PrefixStep(w: Wheel, services: Services, k: nat)
    requires Turns(w, services) && k < |w.items|
    ensures Prefix(w, services, k + 1) == Prefix(w, services, k) + Copies(w.items[k], Share(services, w.items[k]))
  {
    assert w.items[..k + 1][..k] == w.items[..k];
  }

  lemma {:induction false} PrefixOfRound(w: Wheel, services: Services, k: nat, n: nat)
    requires Turns(w, services) && k <= n <= |w.items|
    ensures Prefix(w, services, k) <= Prefix(w, services, n)
  {
    if k < n {
      PrefixOfRound(w, services, k, n - 1);
      PrefixStep(w, services, n - 1);
    }
  }

  /** The place of the cursor within the round; a used count beyond the share counts as the share. */
  ghost function Slot(w: Wheel, services: Services): nat
    requires Turns(w, services)
  {
    var share := Share(services, w.items[w.iter]);
    |Prefix(w, services, w.iter)| + if w.used < share then w.used else share - 1
  }

  /** The place lies within the copies of the node under the cursor. */
  lemma {:induction false} SlotHolds(w: Wheel, services: Services, round: seq<nat>)
    requires Turns(w, services) && round == Round(w.items, services)
    ensures Slot(w, services) < |Prefix(w, services, w.iter + 1)| <= |round|
    ensures round[Slot(w, services)] == w.items[w.iter]
  {
    PrefixStep(w, services, w.iter);
    PrefixOfRound(w, services, w.iter + 1, |w.items|);
    assert w.items[..|w.items|] == w.items;
  }

  function NextSlot(p: nat, size: nat): nat {
    if p + 1 < size then p + 1 else 0
  }

  /** A selection moves one place on in the round. */
  lemma {:induction false} TurnAdvances(w: Wheel, services: Services, round: seq<nat>)
    requires Turns(w, services) && round == Round(w.items, services)
    ensures Turns(Turned(w, services), services)
    ensures Slot(Turned(w, services), services) == NextSlot(Slot(w, services), |round|)
  {
    var next := Turned(w, services);
    PrefixStep(w, services, w.iter);
    SlotHolds(w, services, round);
    if w.used >= Share(services, w.items[w.iter]) - 1 {
      if w.iter + 1 == |w.items| {
        assert w.items[..|w.items|] == w.items && w.items[..0] == [];
      } else {
        SlotHolds(next, services, round);
      }
    } else {
      SlotHolds(next, services, round);
    }
  }

  /** The next `n` entries of a list read in circles, from after place `p`. */
  function Circling(round: seq<nat>, p: nat, n: nat): seq<nat>
    requires p < |round|
    decreases n
  {
    if n == 0 then [] else
      var next := NextSlot(p, |round|);
      [round[next]] + Circling(round, next, n - 1)
  }

  lemma {:induction false} PicksCircle(w: Wheel, services: Services, n: nat, round: seq<nat>, p: nat)
    requires Turns(w, services) && round == Round(w.items, services) && p == Slot(w, services) && p < |round|
    ensures Picks(w, services, n) == Circling(round, p, n)
    decreases n
  {
    if n > 0 {
      var next := Turned(w, services);
      TurnAdvances(w, services, round);
      SlotHolds(next, services, round);
      PicksCircle(next, services, n - 1, round, NextSlot(p, |round|));
    }
  }

  lemma {:induction false} CirclingStraight(round: seq<nat>, p: nat, n: nat, m: nat)
    requires p + n < |round|
    ensures Circling(round, p, n + m) == round[p + 1..p + 1 + n] + Circling(round, p + n, m)
    decreases n
  {
    if n > 0 {
      CirclingStraight(round, p + 1, n - 1, m);
      SliceStep(round, p + 1, p + 1 + n);
      assert NextSlot(p, |round|) == p + 1;
      assert Circling(round, p, n + m) == [round[p + 1]] + Circling(round, p + 1, n - 1 + m);
    }
  }

  lemma {:induction false} SliceStep(s: seq<nat>, a: nat, b: nat)
    requires a < b <= |s|
    ensures s[a..b] == [s[a]] + s[a + 1..b]
  {
  }

  /** Once around is a rotation. */
  lemma {:induction false} CirclingRound(round: seq<nat>, p: nat)
    requires p < |round|
    ensures Circling(round, p, |round|) == round[p + 1..] + round[..p + 1]
  {
    var last := |round| - 1;
    var ahead := last - p;
    CirclingStraight(round, p, ahead, p + 1);
    assert round[p + 1..p + 1 + ahead] == round[p + 1..];
    CirclingFront(round, p);
    assert ahead + (p + 1) == |round|;
  }

  lemma {:induction false} CirclingFront(round: seq<nat>, p: nat)
    requires p < |round|
    ensures Circling(round, |round| - 1, p + 1) == round[..p + 1]
  {
    CirclingStraight(round, 0, p, 0);
    assert Circling(round, 0, p + 0) == round[1..p + 1] + [];
    assert Circling(round, |round| - 1, p + 1) == [round[0]] + Circling(round, 0, p);
    assert round[..p + 1] == [round[0]] + round[1..p + 1];
  }

  /** The sum of the shares. */
  function Period(items: seq<nat>, services: Services): nat
    requires forall i :: 0 <= i < |items| ==> items[i] in services
  {
    if items == [] then 0
    else Period(items[..|items| - 1], services) + Share(services, items[|items| - 1])
  }

  /** A round lasts a period and has every node exactly as often as its share. */
  lemma {:induction false} RoundCounts(items: seq<nat>, services: Services, id: nat)
    requires NoDup(items) && forall i :: 0 <= i < |items| ==> items[i] in services
    ensures |Round(items, services)| == Period(items, services)
    ensures multiset(Round(items, services))[id] == if id in items then Share(services, id) else 0
  {
    if items != [] {
      var n := |items| - 1;
      RoundCounts(items[..n], services, id);
      CopiesCount(items[n], Share(services, items[n]), id);
      assert items == items[..n] + [items[n]];
    }
  }

  /** From any state, a period of selections chooses every node exactly as often as its share. */
  lemma {:induction false} FairOverPeriod(w: Wheel, services: Services, id: nat)
    requires Turns(w, services)
    ensures multiset(Picks(w, services, Period(w.items, services)))[id] ==
            if id !in w.items then 0
            else if services[id].node.weight > 0 then services[id].node.weight + 1 else 1
  {
    var round := Round(w.items, services);
    RoundCounts(w.items, services, id);
    SlotHolds(w, services, round);
    var p := Slot(w, services);
    PicksCircle(w, services, |round|, round, p);
    CirclingRound(round, p);
    RotationKeeps(round, p + 1);
  }

  lemma {:induction false} RotationKeeps(round: seq<nat>, p: nat)
    requires p <= |round|
    ensures multiset(round[p..] + round[..p]) == multiset(round)
  {
    assert round == round[..p] + round[p..];
  }

  //////////////////////////////////////////////////////////////////////////////
  // Changing the lists
  //////////////////////////////////////////////////////////////////////////////

  /** `AddItem` puts the new node in front; a cursor at the end moves to the beginning. */
  function PutInFront(w: Wheel, id: nat): Wheel {
    w.(items := [id] + w.items, count := w.count + 1, iter := if w.iter == |w.items| then 0 else w.iter + 1)
  }

  /** A node spliced to the end of a list. */
  function Appended(w: Wheel, id: nat): Wheel {
    w.(items := w.items + [id], count := w.count + 1, iter := if w.iter == |w.items| then 0 else w.iter)
  }

  /** The cursor after the element at `k` has left: on its element, or on the one after it, or around. */
  function CursorWithout(iter: nat, k: nat, size: nat): nat {
    var moved: nat := if iter > k then iter - 1 else iter;
    if moved + 1 >= size then 0 else moved
  }

  function TakenOut(w: Wheel, k: nat): Wheel
    requires k < |w.items|
  {
    w.(items := w.items[..k] + w.items[k + 1..], count := w.count - 1, iter := CursorWithout(w.iter, k, |w.items|))
  }

  lemma {:induction false} PutInFrontOk(w: Wheel, id: nat)
    requires WheelOk(w) && id !in w.items
    ensures WheelOk(PutInFront(w, id)) && PutInFront(w, id).items == [id] + w.items && PutInFront(w, id).used == w.used
    ensures w.items != [] ==> PutInFront(w, id).items[PutInFront(w, id).iter] == w.items[w.iter]
  {
  }

  lemma {:induction false} AppendedOk(w: Wheel, id: nat)
    requires WheelOk(w) && id !in w.items
    ensures WheelOk(Appended(w, id)) && Appended(w, id).items == w.items + [id] && Appended(w, id).used == w.used
    ensures w.items != [] ==> Appended(w, id).items[Appended(w, id).iter] == w.items[w.iter]
  {
  }

  /** The other nodes stay in order, and the cursor stays where it is or moves to the next node in the circle. */
  lemma {:induction false} TakenOutOk(w: Wheel, k: nat, v: Wheel)
    requires WheelOk(w) && k < |w.items| && v == TakenOut(w, k)
    ensures WheelOk(v) && v.used == w.used && v.items == w.items[..k] + w.items[k + 1..]
    ensures forall id :: id in v.items <==> id in w.items && id != w.items[k]
    ensures v.items != [] && w.iter != k ==> v.items[v.iter] == w.items[w.iter]
    ensures v.items != [] && w.iter == k ==> v.items[v.iter] == w.items[if k + 1 == |w.items| then 0 else k + 1]
  {
    assert w.items == w.items[..k] + [w.items[k]] + w.items[k + 1..];
    assert forall i :: k <= i < |v.items| ==> v.items[i] == w.items[i + 1];
  }

  /** The list position that a map entry's iterator stands for. */
  function PositionOf(items: seq<nat>, id: nat): nat
    requires id in items
    ensures PositionOf(items, id) < |items| && items[PositionOf(items, id)] == id
  {
    if items[0] == id then 0 else 1 + PositionOf(items[1..], id)
  }

  //////////////////////////////////////////////////////////////////////////////
  // The invariant
  //////////////////////////////////////////////////////////////////////////////

  ghost predicate ServiceOk(m: MapNode) {
    -100 <= m.node.mark <= 100 && (m.onAvail <==> m.node.mark > 0)
  }

  /** Every service is on exactly one list, on the first exactly when its mark is positive. */
  ghost predicate Inv(services: Services, avail: Wheel, unavail: Wheel, nextId: nat) {
    && WheelOk(avail) && WheelOk(unavail)
    && (forall id :: id in services ==> id <= nextId && ServiceOk(services[id]))
    && (forall id :: id in avail.items <==> id in services && services[id].onAvail)
    && (forall id :: id in unavail.items <==> id in services && !services[id].onAvail)
  }

  /** A mark after a change, kept between -100 and 100. */
  function Remarked(mark: int, delta: int): int {
    if mark + delta < -100 then -100 else if mark + delta > 100 then 100 else mark + delta
  }

  /** The entry of a service after its mark has changed; its list follows the mark. */
  function Moved(m: MapNode, delta: int): MapNode {
    var mark := Remarked(m.node.mark, delta);
    MapNode(m.node.(mark := mark), mark > 0)
  }

  /**
   The new mark is the sum of the old one and the change, as far as that is between -100 and 100;
   the rest of the node stays, and the service is available exactly when its mark is positive.
   */
  ghost predicate ClampedSum(before: MapNode, delta: int, after: MapNode) {
    && (-100 <= before.node.mark + delta <= 100 ==> after.node.mark == before.node.mark + delta)
    && (before.node.mark + delta < -100 ==> after.node.mark == -100)
    && (before.node.mark + delta > 100 ==> after.node.mark == 100)
    && after.node.weight == before.node.weight && after.node.data == before.node.data
    && (after.onAvail <==> after.node.mark > 0)
  }

  lemma {:induction false} AddKeepsInv(services: Services, avail: Wheel, unavail: Wheel, nextId: nat, weight: int,
                                       data: nat)
    requires Inv(services, avail, unavail, nextId)
    ensures Inv(services[nextId + 1 := MapNode(SelectNode(100, weight, data), true)],
                PutInFront(avail, nextId + 1), unavail, nextId + 1)
  {
    PutInFrontOk(avail, nextId + 1);
  }

  lemma {:induction false} StayKeepsInv(services: Services, avail: Wheel, unavail: Wheel, nextId: nat, id: nat,
                                        delta: int)
    requires Inv(services, avail, unavail, nextId) && id in services
    requires Moved(services[id], delta).onAvail == services[id].onAvail
    ensures Inv(services[id := Moved(services[id], delta)], avail, unavail, nextId)
  {
  }

  lemma {:induction false} DownKeepsInv(services: Services, avail: Wheel, unavail: Wheel, nextId: nat, id: nat,
                                        delta: int)
    requires Inv(services, avail, unavail, nextId) && id in services
    requires services[id].onAvail && !Moved(services[id], delta).onAvail
    ensures id in avail.items
    ensures Inv(services[id := Moved(services[id], delta)], TakenOut(avail, PositionOf(avail.items, id)),
                Appended(unavail, id), nextId)
  {
    TakenOutOk(avail, PositionOf(avail.items, id), TakenOut(avail, PositionOf(avail.items, id)));
    AppendedOk(unavail, id);
  }

  lemma {:induction false} UpKeepsInv(services: Services, avail: Wheel, unavail: Wheel, nextId: nat, id: nat,
                                      delta: int)
    requires Inv(services, avail, unavail, nextId) && id in services
    requires !services[id].onAvail && Moved(services[id], delta).onAvail
    ensures id in unavail.items
    ensures Inv(services[id := Moved(services[id], delta)], Appended(avail, id),
                TakenOut(unavail, PositionOf(unavail.items, id)), nextId)
  {
    TakenOutOk(unavail, PositionOf(unavail.items, id), TakenOut(unavail, PositionOf(unavail.items, id)));
    AppendedOk(avail, id);
  }

  lemma {:induction false} TurnKeepsInv(services: Services, avail: Wheel, unavail: Wheel, nextId: nat)
    requires Inv(services, avail, unavail, nextId)
    ensures avail.items != [] ==> Turns(avail, services) && Inv(services, Turned(avail, services), unavail, nextId)
    ensures unavail.items != [] ==> Turns(unavail, services) && Inv(services, avail, Turned(unavail, services), nextId)
  {
  }

  /** Some service has a positive mark. */
  ghost predicate SomeAlive(services: Services) {
    exists id :: id in services && services[id].node.mark > 0
  }

  lemma {:induction false} ListsFollowMarks(services: Services, avail: Wheel, unavail: Wheel, nextId: nat)
    requires Inv(services, avail, unavail, nextId)
    ensures SomeAlive(services) <==> avail.items != []
    ensures services == map[] <==> avail.items == [] && unavail.items == []
    ensures avail.items != [] ==> Turns(avail, services) && ListMark(Turned(avail, services), services) > 0
    ensures unavail.items != [] ==> Turns(unavail, services) && ListMark(Turned(unavail, services), services) <= 0
  {
    if avail.items != [] {
      assert avail.items[0] in services;
      assert Turned(avail, services).items[Turned(avail, services).iter] in avail.items;
    }
    if unavail.items != [] {
      assert unavail.items[0] in services;
      assert Turned(unavail, services).items[Turned(unavail, services).iter] in unavail.items;
    }
  }

  /** The mark of the node under the cursor. */
  ghost function ListMark(w: Wheel, services: Services): int
    requires w.iter < |w.items| && w.items[w.iter] in services
  {
    services[w.items[w.iter]].node.mark
  }

  /** A selection from one wheel: it turns by one place and its node is the result. */
  ghost predicate Chooses(before: Wheel, after: Wheel, services: Services, node: SelectNode) {
    Turns(before, services) && after == Turned(before, services) && node == services[after.items[after.iter]].node
  }

  //////////////////////////////////////////////////////////////////////////////
  // The selector
  //////////////////////////////////////////////////////////////////////////////

  class RandomSelector {
    var services: Services
    var avail: Wheel
    var unavail: Wheel
    var nextId: nat

    ghost predicate Valid()
      reads this
    {
      Inv(services, avail, unavail, nextId)
    }

    constructor ()
      ensures Valid() && services == map[] && nextId == 0
    {
      services, nextId := map[], 0;
      avail, unavail := Wheel([], 0, 0, 0), Wheel([], 0, 0, 0);
    }

    method AddItem(data: nat, weight: int) returns (id: nat)
      requires Valid()
      modifies this
      ensures Valid() && id == nextId == old(nextId) + 1 && id !in old(services)
      ensures services == old(services)[id := MapNode(SelectNode(100, weight, data), true)]
      ensures avail == PutInFront(old(avail), id) && unavail == old(unavail)
    {
      AddKeepsInv(services, avail, unavail, nextId, weight, data);
      nextId := nextId + 1;
      id := nextId;
      var atEnd := avail.iter == |avail.items|;
      avail := avail.(items := [id] + avail.items, iter := avail.iter + 1);
      services := services[id := MapNode(SelectNode(100, weight, data), true)];
      if atEnd { avail := avail.(iter := 0); }
      avail := avail.(count := avail.count + 1);
    }

    /** A node with a positive mark if there is one; in the order of the wheel. */
    method Select() returns (result: int, node: SelectNode)
      requires Valid()
      modifies this
      ensures Valid() && services == old(services) && nextId == old(nextId)
      ensures result == if services == map[] then -1 else 0
      ensures SomeAlive(services) ==>
        Chooses(old(avail), avail, services, node) && node.mark > 0 && unavail == old(unavail)
      ensures services != map[] && !SomeAlive(services) ==>
        Chooses(old(unavail), unavail, services, node) && node.mark <= 0 && avail == old(avail)
    {
      ListsFollowMarks(services, avail, unavail, nextId);
      TurnKeepsInv(services, avail, unavail, nextId);
      if avail.count > 0 {
        avail := Turn(avail);
        return 0, services[avail.items[avail.iter]].node;
      }
      if unavail.count > 0 {
        unavail := Turn(unavail);
        return 0, services[unavail.items[unavail.iter]].node;
      }
      return -1, SelectNode(100, 1, 0);
    }

    method Turn(w: Wheel) returns (next: Wheel)
      requires Turns(w, services)
      ensures next == Turned(w, services)
    {
      if w.used < services[w.items[w.iter]].node.weight {
        return w.(used := w.used + 1);
      }
      next := w.(iter := w.iter + 1, used := 0);
      if next.iter == |next.items| { next := next.(iter := 0); }
    }

    method UpdateMark(id: nat, delta: int) returns (result: int)
      requires Valid()
      modifies this
      ensures Valid() && nextId == old(nextId)
      ensures result == if id in services then 0 else 1
      ensures services ==
              if id in old(services) then old(services)[id := Moved(old(services)[id], delta)] else old(services)
      ensures id in services ==> ClampedSum(old(services)[id], delta, services[id])
      ensures id in services && old(services)[id].onAvail && !services[id].onAvail ==>
        avail == TakenOut(old(avail), PositionOf(old(avail).items, id)) && unavail == Appended(old(unavail), id)
      ensures id in services && !old(services)[id].onAvail && services[id].onAvail ==>
        unavail == TakenOut(old(unavail), PositionOf(old(unavail).items, id)) && avail == Appended(old(avail), id)
      ensures id !in services || old(services)[id].onAvail == services[id].onAvail ==>
        avail == old(avail) && unavail == old(unavail)
    {
      if id !in services { return 1; }
      var entry := services[id];
      var next := Moved(entry, delta);
      if !next.onAvail && entry.onAvail {
        DownKeepsInv(services, avail, unavail, nextId, id, delta);
        avail := TakenOut(avail, PositionOf(avail.items, id));
        unavail := Appended(unavail, id);
      } else if next.onAvail && !entry.onAvail {
        UpKeepsInv(services, avail, unavail, nextId, id, delta);
        unavail := TakenOut(unavail, PositionOf(unavail.items, id));
        avail := Appended(avail, id);
      } else {
        StayKeepsInv(services, avail, unavail, nextId, id, delta);
      }
      services := services[id := next];
      return 0;
    }

    /** The map is walked in any order. */
    method UpdateAllMark(delta: int)
      requires Valid()
      modifies this
      ensures Valid() && nextId == old(nextId)
      ensures services == map id | id in old(services) :: Moved(old(services)[id], delta)
      ensures forall id :: id in services ==> ClampedSum(old(services)[id], delta, services[id])
    {
      var todo := services.Keys;
      while todo != {}
        invariant Valid() && nextId == old(nextId) && todo <= old(services).Keys == services.Keys
        invariant forall id :: id in services ==>
          services[id] == if id in todo then old(services)[id] else Moved(old(services)[id], delta)
      {
        var id :| id in todo;
        var _ := UpdateMark(id, delta);
        todo := todo - {id};
      }
    }
  }
}
