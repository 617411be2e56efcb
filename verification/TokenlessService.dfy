/**
 The connection pool of one remote service and the life of the calls made through it.

 Every handler of `TokenlessConn` and `TokenlessService` is one atomic step.  Framework
 calls are modelled by what they report: `Connect` and `SendMsg` by their results, `SetTimer`
 and new connections by fresh positive ids, posted tasks by lists that later steps consume.
 Callbacks are recorded in `log`; the reference to the outgoing message that `RealQuery`
 takes is counted in `refs`.
 */
module TokenlessRpc {
  import opened Wrappers
  import opened Sequences

  datatype Status = Closed | Connecting | Connected | Sending

  /** A call: `id` stands for its message and callback. */
  datatype Rpc = Rpc(id: nat, expire: nat)

  /** `timerId` is 0 when no timer is set; `onBusy` says whether `iter_` points into the busy list. */
  datatype Conn = Conn(status: Status, ioId: nat, rpc: Option<Rpc>, timerId: nat, onBusy: bool)

  /** A posted `ExecDelayReqCallback`: this connection is promised to this call. */
  datatype Handoff = Handoff(conn: nat, rpc: Rpc)

  /** A user callback: with an error, or with a message that was received on `io`. */
  datatype Outcome = Failed(rpc: nat) | Replied(rpc: nat, io: nat)

  /** What the network answers: 1 in progress, 0 done, anything else an error. */
  datatype Net = Net(connect: int, send: int)

  /** Where a call is. */
  datatype Place = AtConn(conn: nat) | Delayed | HandedOff | Posted | Done

  const MAX_CONN_ID: nat := 400

  //////////////////////////////////////////////////////////////////////////////
  // Lists without duplicates
  //////////////////////////////////////////////////////////////////////////////

  /** Erases the list node of `c`. */
  function Without(s: seq<nat>, c: nat): seq<nat> {
    if s == [] then [] else if s[0] == c then s[1..] else [s[0]] + Without(s[1..], c)
  }

  lemma {:induction false} NoDupCons(x: nat, s: seq<nat>)
    requires NoDup(s) && x !in s
    ensures NoDup([x] + s) && NoDup(s + [x])
  {
    assert forall i :: 0 <= i < |s| ==> s[i] in s;
  }

  lemma {:induction false} NoDupTail(s: seq<nat>)
    requires NoDup(s) && s != []
    ensures NoDup(s[1..]) && s[0] !in s[1..]
    ensures forall d :: d in s <==> d == s[0] || d in s[1..]
  {
    assert s == [s[0]] + s[1..];
    forall i | 1 <= i < |s| ensures s[i] != s[0] { }
  }

  lemma {:induction false} WithoutRemoves(s: seq<nat>, c: nat)
    requires NoDup(s) && c in s
    ensures NoDup(Without(s, c)) && |Without(s, c)| == |s| - 1
    ensures forall d :: d in Without(s, c) <==> d in s && d != c
  {
    NoDupTail(s);
    if s[0] != c {
      WithoutRemoves(s[1..], c);
      NoDupCons(s[0], Without(s[1..], c));
    }
  }

  //////////////////////////////////////////////////////////////////////////////
  // Callbacks
  //////////////////////////////////////////////////////////////////////////////

  /** How often the callback of a call has been invoked. */
  function Calls(log: seq<Outcome>, id: nat): nat {
    if log == [] then 0 else Calls(log[..|log| - 1], id) + (if log[|log| - 1].rpc == id then 1 else 0)
  }

  lemma {:induction false} CallsAppend(log: seq<Outcome>, o: Outcome, id: nat)
    ensures Calls(log + [o], id) == Calls(log, id) + (if o.rpc == id then 1 else 0)
  {
    assert (log + [o])[..|log|] == log;
  }

  const TWO_31: nat := 0x8000_0000
  const TWO_32: nat := 0x1_0000_0000
  const TWO_64: nat := 0x1_0000_0000_0000_0000

  /** The lower half of a 64-bit deadline. */
  function LowHalf(expire: nat): nat {
    expire % TWO_32
  }

  /** `expire_time_` of a delayed request: the 64-bit deadline squeezed through a 32-bit `int`. */
  function Squeezed(expire: nat): nat {
    if LowHalf(expire) < TWO_31 then LowHalf(expire) else LowHalf(expire) + (TWO_64 - TWO_32)
  }

  /** A deadline survives the squeeze exactly when it is a sign-extended 32-bit number. */
  lemma {:induction false} SqueezedIsDeadline(expire: nat)
    ensures Squeezed(expire) == expire <==> expire < TWO_31 || TWO_64 - TWO_31 <= expire < TWO_64
  {
    if TWO_64 - TWO_32 <= expire < TWO_64 { LowOf(expire, expire - (TWO_64 - TWO_32), TWO_32 - 1); }
  }

  lemma {:induction false} LowOf(expire: nat, low: nat, high: nat)
    requires low < TWO_32 && expire == TWO_32 * high + low
    ensures LowHalf(expire) == low
  {
  }

  /** When the clock of a return agrees with the deadline of a delayed call about its expiry. */
  predicate ExpirySeen(expire: nat, now: nat) {
    if LowHalf(expire) < TWO_31 then now < LowHalf(expire) || now >= expire
    else now < expire || now >= Squeezed(expire)
  }

  /** The squeezed deadline has passed exactly when the real one has, if and only if `ExpirySeen`. */
  lemma {:induction false} ExpiryIff(expire: nat, now: nat)
    requires expire < TWO_64
    ensures (now >= Squeezed(expire) <==> now >= expire) <==> ExpirySeen(expire, now)
  {
    var high := expire / TWO_32;
    assert expire == TWO_32 * high + LowHalf(expire) && high < TWO_32;
  }

  /** For a clock in milliseconds since 1970, past its first 50 days, one bit of the deadline decides, not the clock. */
  lemma {:induction false} EpochExpiry(expire: nat, now: nat)
    requires TWO_32 <= now < TWO_64 / 2
    ensures now >= Squeezed(expire) <==> LowHalf(expire) < TWO_31
  {
  }

  //////////////////////////////////////////////////////////////////////////////
  // The invariant, piece by piece
  //////////////////////////////////////////////////////////////////////////////

  /** Every connection is on exactly one list, and the counters count. */
  ghost predicate ListsOk(conns: map<nat, Conn>, idle: seq<nat>, busy: seq<nat>,
                          idleCount: int, busyCount: int, nextConnId: nat)
  {
    && nextConnId <= MAX_CONN_ID + 1
    && idleCount == |idle| && busyCount == |busy| && idleCount + busyCount == nextConnId
    && NoDup(idle) && NoDup(busy)
    && (forall c :: c in conns <==> 1 <= c <= nextConnId)
    && (forall c :: c in idle <==> c in conns && !conns[c].onBusy)
    && (forall c :: c in busy <==> c in conns && conns[c].onBusy)
  }

  /** A connection by itself. */
  ghost predicate ConnOk(conn: Conn, sent: set<(nat, nat)>) {
    && (conn.status == Closed <==> conn.ioId == 0)
    && (conn.rpc.Some? <==> conn.timerId != 0)
    && (conn.rpc.Some? ==> conn.onBusy)
    && (conn.rpc.Some? <==> conn.status == Connecting || conn.status == Sending)
    && (conn.status == Sending ==> (conn.ioId, conn.rpc.value.id) in sent)
  }

  ghost predicate ConnsOk(conns: map<nat, Conn>, sent: set<(nat, nat)>) {
    forall c :: c in conns ==> ConnOk(conns[c], sent)
  }

  /** A call is at a connection exactly when the connection carries it. */
  ghost predicate CarriedOk(conns: map<nat, Conn>, place: map<nat, Place>) {
    && (forall c :: c in conns && conns[c].rpc.Some? ==>
          conns[c].rpc.value.id in place && place[conns[c].rpc.value.id] == AtConn(c))
    && (forall id :: id in place && place[id].AtConn? ==>
          place[id].conn in conns && conns[place[id].conn].rpc.Some? && conns[place[id].conn].rpc.value.id == id)
  }

  /** The delay queue holds exactly the delayed calls, once each. */
  ghost predicate DelayOk(delay: seq<Rpc>, place: map<nat, Place>) {
    && (forall i :: 0 <= i < |delay| ==> delay[i].id in place && place[delay[i].id] == Delayed)
    && (forall i, j :: 0 <= i < j < |delay| ==> delay[i].id != delay[j].id)
    && (forall id :: id in place && place[id] == Delayed ==> exists i :: 0 <= i < |delay| && delay[i].id == id)
  }

  /** The posted tasks hold exactly the handed-off calls; each promises a busy connection without a call. */
  ghost predicate HandoffsOk(handoffs: seq<Handoff>, place: map<nat, Place>, conns: map<nat, Conn>) {
    && (forall i :: 0 <= i < |handoffs| ==> handoffs[i].rpc.id in place && place[handoffs[i].rpc.id] == HandedOff)
    && (forall i, j :: 0 <= i < j < |handoffs| ==>
          handoffs[i].rpc.id != handoffs[j].rpc.id && handoffs[i].conn != handoffs[j].conn)
    && (forall id :: id in place && place[id] == HandedOff ==>
          exists i :: 0 <= i < |handoffs| && handoffs[i].rpc.id == id)
    && (forall i :: 0 <= i < |handoffs| ==>
          handoffs[i].conn in conns && conns[handoffs[i].conn].onBusy && conns[handoffs[i].conn].rpc.None?)
  }

  /** The posted failure tasks hold exactly the posted calls. */
  ghost predicate PostedOk(posted: seq<nat>, place: map<nat, Place>) {
    && NoDup(posted)
    && (forall id :: id in posted <==> id in place && place[id] == Posted)
  }

  /** A call has been answered once when it is done and never before; its reference is held until it leaves. */
  ghost predicate AnswersOk(log: seq<Outcome>, refs: map<nat, int>, place: map<nat, Place>, nextRpc: nat) {
    && (forall id :: id in place ==> id < nextRpc && Calls(log, id) == (if place[id] == Done then 1 else 0))
    && (forall id :: id in place ==>
          id in refs && refs[id] == (if place[id] == Done || place[id] == Posted then 0 else 1))
    && (forall id :: id >= nextRpc ==> Calls(log, id) == 0)
  }

  /** A successful answer carries a message of a connection over which the call was sent. */
  ghost predicate RepliesOk(log: seq<Outcome>, sent: set<(nat, nat)>) {
    forall i :: 0 <= i < |log| && log[i].Replied? ==> (log[i].io, log[i].rpc) in sent
  }

  /** All of it; the last two components only record history. */
  datatype State = State(
    conns: map<nat, Conn>, idle: seq<nat>, busy: seq<nat>, idleCount: int, busyCount: int, nextConnId: nat,
    delay: seq<Rpc>, handoffs: seq<Handoff>, posted: seq<nat>, nextRpc: nat, nextIo: nat, nextTimer: nat,
    log: seq<Outcome>, refs: map<nat, int>, place: map<nat, Place>, sent: set<(nat, nat)>)

  ghost predicate Inv(s: State) {
    && ListsOk(s.conns, s.idle, s.busy, s.idleCount, s.busyCount, s.nextConnId)
    && ConnsOk(s.conns, s.sent)
    && CarriedOk(s.conns, s.place)
    && DelayOk(s.delay, s.place)
    && HandoffsOk(s.handoffs, s.place, s.conns)
    && PostedOk(s.posted, s.place)
    && AnswersOk(s.log, s.refs, s.place, s.nextRpc)
    && RepliesOk(s.log, s.sent)
    && s.nextIo > 0 && s.nextTimer > 0
  }

  /** Between two handlers every call ever made has a place. */
  ghost predicate Settled(s: State) {
    forall id: nat :: id < s.nextRpc ==> id in s.place
  }

  /** Within a handler: the call has been taken from its place and not yet been put down. */
  ghost predicate InHand(s: State, id: nat) {
    id < s.nextRpc && id !in s.place && Calls(s.log, id) == 0 && id in s.refs && s.refs[id] == 1
  }

  /** The connection is promised to a delayed call. */
  predicate PromisedBy(handoffs: seq<Handoff>, c: nat) {
    exists i :: 0 <= i < |handoffs| && handoffs[i].conn == c
  }

  /** A connection that carries no call and is not promised. */
  ghost predicate Free(s: State, c: nat) {
    c in s.conns && s.conns[c].rpc.None? && !PromisedBy(s.handoffs, c)
  }

  //////////////////////////////////////////////////////////////////////////////
  // The basic changes and why they keep the invariant
  //////////////////////////////////////////////////////////////////////////////

  /** The user callback runs and the reference is released. */
  ghost function Answered(s: State, o: Outcome): State {
    s.(log := s.log + [o], refs := Released(s.refs, o.rpc), place := s.place[o.rpc := Done])
  }

  function Released(refs: map<nat, int>, id: nat): map<nat, int> {
    refs[id := (if id in refs then refs[id] else 0) - 1]
  }

  lemma {:induction false} AnswersFinish(log: seq<Outcome>, refs: map<nat, int>, place: map<nat, Place>, nextRpc: nat,
                                         o: Outcome)
    requires AnswersOk(log, refs, place, nextRpc) && o.rpc < nextRpc
    requires Calls(log, o.rpc) == 0
    ensures AnswersOk(log + [o], refs[o.rpc := 0], place[o.rpc := Done], nextRpc)
  {
    forall id ensures Calls(log + [o], id) == Calls(log, id) + (if o.rpc == id then 1 else 0) {
      CallsAppend(log, o, id);
    }
  }

  lemma {:induction false} AnsweredInv(s: State, o: Outcome)
    requires Inv(s) && InHand(s, o.rpc) && (o.Replied? ==> (o.io, o.rpc) in s.sent)
    ensures Inv(Answered(s, o))
  {
    AnswersFinish(s.log, s.refs, s.place, s.nextRpc, o);
    AnsweredPlaces(s, o.rpc);
  }

  lemma {:induction false} AnsweredPlaces(s: State, id: nat)
    requires CarriedOk(s.conns, s.place) && DelayOk(s.delay, s.place) && HandoffsOk(s.handoffs, s.place, s.conns)
    requires PostedOk(s.posted, s.place) && id !in s.place
    ensures var place := s.place[id := Done];
      && CarriedOk(s.conns, place) && DelayOk(s.delay, place)
      && HandoffsOk(s.handoffs, place, s.conns) && PostedOk(s.posted, place)
  {
  }

  /** A connection record changes without touching its call or its list. */
  ghost function Rewired(s: State, c: nat, status: Status, ioId: nat, timerId: nat): State
    requires c in s.conns
  {
    s.(conns := s.conns[c := s.conns[c].(status := status, ioId := ioId, timerId := timerId)])
  }

  lemma {:induction false} ListsKeep(s: State, c: nat, conn: Conn)
    requires ListsOk(s.conns, s.idle, s.busy, s.idleCount, s.busyCount, s.nextConnId)
    requires c in s.conns && conn.onBusy == s.conns[c].onBusy
    ensures ListsOk(s.conns[c := conn], s.idle, s.busy, s.idleCount, s.busyCount, s.nextConnId)
  {
  }

  lemma {:induction false} RewiredInv(s: State, c: nat, status: Status, ioId: nat)
    requires Inv(s) && c in s.conns && s.conns[c].rpc.None?
    requires status in {Closed, Connected} && (status == Closed <==> ioId == 0)
    ensures Inv(Rewired(s, c, status, ioId, 0))
  {
    ListsKeep(s, c, s.conns[c].(status := status, ioId := ioId, timerId := 0));
  }

  /** The call is taken from its connection, which is closed or kept open. */
  ghost function Cleared(s: State, c: nat, status: Status, ioId: nat): State
    requires c in s.conns && s.conns[c].rpc.Some?
  {
    s.(conns := s.conns[c := s.conns[c].(status := status, ioId := ioId, rpc := None, timerId := 0)],
       place := s.place - {s.conns[c].rpc.value.id})
  }

  lemma {:induction false} ClearedInv(s: State, c: nat, status: Status, ioId: nat)
    requires Inv(s) && c in s.conns && s.conns[c].rpc.Some?
    requires status in {Closed, Connected} && (status == Closed <==> ioId == 0)
    ensures Inv(Cleared(s, c, status, ioId)) && InHand(Cleared(s, c, status, ioId), s.conns[c].rpc.value.id)
    ensures Free(Cleared(s, c, status, ioId), c)
  {
    ListsKeep(s, c, s.conns[c].(status := status, ioId := ioId, rpc := None, timerId := 0));
    ClearedPlaces(s, c, status, ioId);
  }

  lemma {:induction false} ClearedPlaces(s: State, c: nat, status: Status, ioId: nat)
    requires CarriedOk(s.conns, s.place) && DelayOk(s.delay, s.place) && HandoffsOk(s.handoffs, s.place, s.conns)
    requires c in s.conns && s.conns[c].rpc.Some?
    ensures var t := Cleared(s, c, status, ioId);
      CarriedOk(t.conns, t.place) && DelayOk(t.delay, t.place) && HandoffsOk(t.handoffs, t.place, t.conns)
  {
    ClearedCarried(s.conns, s.place, c, s.conns[c].(status := status, ioId := ioId, rpc := None, timerId := 0));
    ClearedTasks(s, c, s.conns[c].rpc.value.id, s.conns[c].(status := status, ioId := ioId, rpc := None, timerId := 0));
  }

  lemma {:induction false} ClearedCarried(conns: map<nat, Conn>, place: map<nat, Place>, c: nat, next: Conn)
    requires CarriedOk(conns, place) && c in conns && conns[c].rpc.Some? && next.rpc.None?
    ensures CarriedOk(conns[c := next], place - {conns[c].rpc.value.id})
  {
  }

  lemma {:induction false} ClearedTasks(s: State, c: nat, id: nat, next: Conn)
    requires DelayOk(s.delay, s.place) && HandoffsOk(s.handoffs, s.place, s.conns) && c in s.conns
    requires s.conns[c].rpc.Some? && id in s.place && s.place[id].AtConn?
    ensures DelayOk(s.delay, s.place - {id}) && HandoffsOk(s.handoffs, s.place - {id}, s.conns[c := next])
  {
  }

  /** A busy connection is returned to the idle list. */
  ghost function Returned(s: State, c: nat): State
    requires c in s.conns
  {
    s.(conns := s.conns[c := s.conns[c].(onBusy := false)], idle := s.idle + [c], busy := Without(s.busy, c),
       idleCount := s.idleCount + 1, busyCount := s.busyCount - 1)
  }

  lemma {:induction false} ReturnedInv(s: State, c: nat)
    requires Inv(s) && Free(s, c) && s.conns[c].onBusy
    ensures Inv(Returned(s, c))
  {
    ReturnedLists(s, c);
  }

  lemma {:induction false} ReturnedLists(s: State, c: nat)
    requires ListsOk(s.conns, s.idle, s.busy, s.idleCount, s.busyCount, s.nextConnId)
    requires c in s.conns && s.conns[c].onBusy
    ensures var t := Returned(s, c); ListsOk(t.conns, t.idle, t.busy, t.idleCount, t.busyCount, t.nextConnId)
  {
    WithoutRemoves(s.busy, c);
    NoDupCons(c, s.idle);
  }

  /** The first idle connection becomes busy. */
  ghost function Fetched(s: State): State
    requires s.idle != [] && s.idle[0] in s.conns
  {
    var c := s.idle[0];
    s.(conns := s.conns[c := s.conns[c].(onBusy := true)], idle := s.idle[1..], busy := s.busy + [c],
       idleCount := s.idleCount - 1, busyCount := s.busyCount + 1)
  }

  lemma {:induction false} FetchedInv(s: State)
    requires Inv(s) && s.idle != []
    ensures s.idle[0] in s.conns && Inv(Fetched(s)) && Free(Fetched(s), s.idle[0])
  {
    NoDupTail(s.idle);
    NoDupCons(s.idle[0], s.busy);
  }

  const NewConn: Conn := Conn(Closed, 0, None, 0, true)

  /** A new busy connection. */
  ghost function Created(s: State): State {
    var c := s.nextConnId + 1;
    s.(conns := s.conns[c := NewConn], busy := s.busy + [c], busyCount := s.busyCount + 1, nextConnId := c)
  }

  lemma {:induction false} CreatedInv(s: State)
    requires Inv(s) && s.nextConnId <= MAX_CONN_ID
    ensures Inv(Created(s)) && Free(Created(s), s.nextConnId + 1)
  {
    CreatedLists(s);
  }

  lemma {:induction false} CreatedLists(s: State)
    requires ListsOk(s.conns, s.idle, s.busy, s.idleCount, s.busyCount, s.nextConnId) && s.nextConnId <= MAX_CONN_ID
    ensures var t := Created(s); ListsOk(t.conns, t.idle, t.busy, t.idleCount, t.busyCount, t.nextConnId)
  {
    NoDupCons(s.nextConnId + 1, s.busy);
  }

  /** A call in hand is given to a free busy connection. */
  ghost function Assigned(s: State, c: nat, rpc: Rpc, status: Status, ioId: nat): State
    requires c in s.conns
  {
    s.(conns := s.conns[c := Conn(status, ioId, Some(rpc), s.nextTimer, s.conns[c].onBusy)],
       nextTimer := s.nextTimer + 1, place := s.place[rpc.id := AtConn(c)],
       sent := if status == Sending then s.sent + {(ioId, rpc.id)} else s.sent)
  }

  lemma {:induction false} AssignedInv(s: State, c: nat, rpc: Rpc, status: Status, ioId: nat)
    requires Inv(s) && Free(s, c) && s.conns[c].onBusy && InHand(s, rpc.id)
    requires status in {Connecting, Sending} && ioId > 0
    ensures Inv(Assigned(s, c, rpc, status, ioId))
  {
    ListsKeep(s, c, Conn(status, ioId, Some(rpc), s.nextTimer, s.conns[c].onBusy));
    AssignedPlaces(s, c, rpc, status, ioId);
    AssignedConns(s, c, rpc, status, ioId);
  }

  lemma {:induction false} AssignedPlaces(s: State, c: nat, rpc: Rpc, status: Status, ioId: nat)
    requires CarriedOk(s.conns, s.place) && DelayOk(s.delay, s.place) && HandoffsOk(s.handoffs, s.place, s.conns)
    requires Free(s, c) && InHand(s, rpc.id)
    ensures var t := Assigned(s, c, rpc, status, ioId);
      CarriedOk(t.conns, t.place) && DelayOk(t.delay, t.place) && HandoffsOk(t.handoffs, t.place, t.conns)
  {
  }

  lemma {:induction false} AssignedConns(s: State, c: nat, rpc: Rpc, status: Status, ioId: nat)
    requires ConnsOk(s.conns, s.sent) && c in s.conns && s.conns[c].onBusy && s.nextTimer > 0
    requires status in {Connecting, Sending} && ioId > 0
    ensures var t := Assigned(s, c, rpc, status, ioId); ConnsOk(t.conns, t.sent)
  {
  }

  /** A call in hand joins the delay queue. */
  ghost function Queued(s: State, rpc: Rpc): State {
    s.(delay := s.delay + [rpc], place := s.place[rpc.id := Delayed])
  }

  lemma {:induction false} QueuedInv(s: State, rpc: Rpc)
    requires Inv(s) && InHand(s, rpc.id)
    ensures Inv(Queued(s, rpc))
  {
    DelayAppend(s.delay, s.place, rpc);
  }

  lemma {:induction false} DelayAppend(delay: seq<Rpc>, place: map<nat, Place>, rpc: Rpc)
    requires DelayOk(delay, place) && rpc.id !in place
    ensures DelayOk(delay + [rpc], place[rpc.id := Delayed])
  {
    var next := delay + [rpc];
    assert next[|delay|] == rpc;
    forall id | id in place && place[id] == Delayed ensures exists i :: 0 <= i < |next| && next[i].id == id {
      var i :| 0 <= i < |delay| && delay[i].id == id;
      assert next[i].id == id;
    }
  }

  /** The first delayed call is taken in hand. */
  ghost function Dequeued(s: State): State
    requires s.delay != []
  {
    s.(delay := s.delay[1..], place := s.place - {s.delay[0].id})
  }

  lemma {:induction false} DequeuedInv(s: State)
    requires Inv(s) && s.delay != []
    ensures Inv(Dequeued(s)) && InHand(Dequeued(s), s.delay[0].id)
  {
    DelayTail(s.delay, s.place);
  }

  lemma {:induction false} DelayTail(delay: seq<Rpc>, place: map<nat, Place>)
    requires DelayOk(delay, place) && delay != []
    ensures DelayOk(delay[1..], place - {delay[0].id})
  {
    var rest := delay[1..];
    forall id | id in place && id != delay[0].id && place[id] == Delayed
      ensures exists i :: 0 <= i < |rest| && rest[i].id == id
    {
      var i :| 0 <= i < |delay| && delay[i].id == id;
      assert rest[i - 1].id == id;
    }
  }

  /** A call in hand is handed off to a free busy connection by a posted task. */
  ghost function Promised(s: State, c: nat, rpc: Rpc): State {
    s.(handoffs := s.handoffs + [Handoff(c, rpc)], place := s.place[rpc.id := HandedOff])
  }

  lemma {:induction false} PromisedInv(s: State, c: nat, rpc: Rpc)
    requires Inv(s) && InHand(s, rpc.id) && Free(s, c) && s.conns[c].onBusy
    ensures Inv(Promised(s, c, rpc))
  {
    HandoffsAppend(s.handoffs, s.place, s.conns, c, rpc);
    PromisedOthers(s, rpc.id);
  }

  lemma {:induction false} PromisedOthers(s: State, id: nat)
    requires Inv(s) && InHand(s, id)
    ensures var place := s.place[id := HandedOff];
      CarriedOk(s.conns, place) && DelayOk(s.delay, place) && PostedOk(s.posted, place)
      && AnswersOk(s.log, s.refs, place, s.nextRpc)
  {
  }

  lemma {:induction false} HandoffsAppend(handoffs: seq<Handoff>, place: map<nat, Place>, conns: map<nat, Conn>,
                                          c: nat, rpc: Rpc)
    requires HandoffsOk(handoffs, place, conns) && rpc.id !in place && !PromisedBy(handoffs, c)
    requires c in conns && conns[c].onBusy && conns[c].rpc.None?
    ensures HandoffsOk(handoffs + [Handoff(c, rpc)], place[rpc.id := HandedOff], conns)
  {
    var next := handoffs + [Handoff(c, rpc)];
    assert next[|handoffs|] == Handoff(c, rpc);
    forall id | id in place && place[id] == HandedOff ensures exists i :: 0 <= i < |next| && next[i].rpc.id == id {
      var i :| 0 <= i < |handoffs| && handoffs[i].rpc.id == id;
      assert next[i].rpc.id == id;
    }
  }

  /** A posted task runs: its call is taken in hand and its connection is free again. */
  ghost function Redeemed(s: State, k: nat): State
    requires k < |s.handoffs|
  {
    s.(handoffs := s.handoffs[..k] + s.handoffs[k + 1..], place := s.place - {s.handoffs[k].rpc.id})
  }

  lemma {:induction false} RedeemedInv(s: State, k: nat)
    requires Inv(s) && k < |s.handoffs|
    ensures Inv(Redeemed(s, k)) && InHand(Redeemed(s, k), s.handoffs[k].rpc.id)
    ensures Free(Redeemed(s, k), s.handoffs[k].conn) && s.conns[s.handoffs[k].conn].onBusy
  {
    HandoffsRemove(s.handoffs, s.place, s.conns, k);
    RedeemedOthers(s, s.handoffs[k].rpc.id);
  }

  lemma {:induction false} RedeemedOthers(s: State, id: nat)
    requires Inv(s) && id in s.place && s.place[id] == HandedOff
    ensures var place := s.place - {id};
      CarriedOk(s.conns, place) && DelayOk(s.delay, place) && PostedOk(s.posted, place)
      && AnswersOk(s.log, s.refs, place, s.nextRpc)
  {
  }

  lemma {:induction false} HandoffsRemove(handoffs: seq<Handoff>, place: map<nat, Place>, conns: map<nat, Conn>, k: nat)
    requires HandoffsOk(handoffs, place, conns) && k < |handoffs|
    ensures HandoffsOk(handoffs[..k] + handoffs[k + 1..], place - {handoffs[k].rpc.id}, conns)
    ensures !PromisedBy(handoffs[..k] + handoffs[k + 1..], handoffs[k].conn)
  {
    var rest := handoffs[..k] + handoffs[k + 1..];
    RestOf(handoffs, k, rest);
    forall id | id in place && id != handoffs[k].rpc.id && place[id] == HandedOff
      ensures exists i :: 0 <= i < |rest| && rest[i].rpc.id == id
    {
      var i :| 0 <= i < |handoffs| && handoffs[i].rpc.id == id;
      assert handoffs[i] in rest;
    }
  }

  /** What is left of a list of tasks for distinct calls and connections when one is removed. */
  lemma {:induction false} RestOf(handoffs: seq<Handoff>, k: nat, rest: seq<Handoff>)
    requires k < |handoffs| && rest == handoffs[..k] + handoffs[k + 1..]
    requires forall i, j :: 0 <= i < j < |handoffs| ==>
      handoffs[i].rpc.id != handoffs[j].rpc.id && handoffs[i].conn != handoffs[j].conn
    ensures forall h :: h in rest <==> h in handoffs && h != handoffs[k]
    ensures forall i, j :: 0 <= i < j < |rest| ==> rest[i].rpc.id != rest[j].rpc.id && rest[i].conn != rest[j].conn
    ensures forall i :: 0 <= i < |rest| ==> rest[i].rpc.id != handoffs[k].rpc.id && rest[i].conn != handoffs[k].conn
  {
    assert handoffs == handoffs[..k] + [handoffs[k]] + handoffs[k + 1..];
  }

  /** A call in hand is rejected: its reference is released at once, its callback is posted as a task. */
  ghost function Rejected(s: State, id: nat): State {
    s.(posted := s.posted + [id], refs := Released(s.refs, id), place := s.place[id := Posted])
  }

  lemma {:induction false} RejectedInv(s: State, id: nat)
    requires Inv(s) && InHand(s, id)
    ensures Inv(Rejected(s, id))
  {
    NoDupCons(id, s.posted);
    RejectedAnswers(s, id);
  }

  lemma {:induction false} RejectedAnswers(s: State, id: nat)
    requires AnswersOk(s.log, s.refs, s.place, s.nextRpc) && InHand(s, id)
    ensures AnswersOk(s.log, Released(s.refs, id), s.place[id := Posted], s.nextRpc)
  {
  }

  /** The posted task of a rejected call runs its callback. */
  ghost function Reported(s: State, k: nat): State
    requires k < |s.posted|
  {
    s.(posted := Without(s.posted, s.posted[k]), log := s.log + [Failed(s.posted[k])],
       place := s.place[s.posted[k] := Done])
  }

  lemma {:induction false} ReportedInv(s: State, k: nat)
    requires Inv(s) && k < |s.posted|
    ensures Inv(Reported(s, k))
  {
    var id := s.posted[k];
    WithoutRemoves(s.posted, id);
    AnswersFinish(s.log, s.refs, s.place, s.nextRpc, Failed(id));
    assert s.refs[id := 0] == s.refs;
  }

  /** A new call, with its reference taken. */
  ghost function Begun(s: State): State {
    s.(nextRpc := s.nextRpc + 1, refs := s.refs[s.nextRpc := 1])
  }

  lemma {:induction false} BegunInv(s: State)
    requires Inv(s)
    ensures Inv(Begun(s)) && InHand(Begun(s), s.nextRpc)
  {
  }

  /** The call of a connection goes out over its io. */
  ghost function SentOver(s: State, c: nat): State
    requires c in s.conns && s.conns[c].rpc.Some?
  {
    s.(conns := s.conns[c := s.conns[c].(status := Sending)],
       sent := s.sent + {(s.conns[c].ioId, s.conns[c].rpc.value.id)})
  }

  lemma {:induction false} SentOverInv(s: State, c: nat)
    requires Inv(s) && c in s.conns && s.conns[c].rpc.Some?
    ensures Inv(SentOver(s, c))
  {
    ListsKeep(s, c, s.conns[c].(status := Sending));
  }

  //////////////////////////////////////////////////////////////////////////////
  // What the composite steps do
  //////////////////////////////////////////////////////////////////////////////

  /** The calls of two states are the same calls. */
  ghost predicate SameCalls(s: State, t: State) {
    t.place.Keys == s.place.Keys && t.nextRpc == s.nextRpc
  }

  /**
   `ReturnIdleConn`: a connection that is not busy is left alone; with no delayed call it
   becomes idle; a delayed call whose squeezed deadline has passed is answered first; any
   other is promised to it.
   */
  ghost function AfterReturn(s: State, c: nat, now: nat): State
    requires c in s.conns
  {
    if !s.conns[c].onBusy then s
    else if s.delay == [] then Returned(s, c)
    else if now >= Squeezed(s.delay[0].expire) then Returned(Answered(Dequeued(s), Failed(s.delay[0].id)), c)
    else Promised(Dequeued(s), c, s.delay[0])
  }

  lemma {:induction false} DequeuedAnsweredInv(s: State)
    requires Inv(s) && s.delay != []
    ensures var t := Answered(Dequeued(s), Failed(s.delay[0].id)); Inv(t) && SameCalls(s, t)
  {
    DequeuedInv(s);
    AnsweredInv(Dequeued(s), Failed(s.delay[0].id));
  }

  lemma {:induction false} DequeuedPromisedInv(s: State, c: nat)
    requires Inv(s) && s.delay != [] && Free(s, c) && s.conns[c].onBusy
    ensures var t := Promised(Dequeued(s), c, s.delay[0]); Inv(t) && SameCalls(s, t)
  {
    DequeuedInv(s);
    PromisedInv(Dequeued(s), c, s.delay[0]);
  }

  lemma {:induction false} AfterReturnInv(s: State, c: nat, now: nat)
    requires Inv(s) && Free(s, c)
    ensures Inv(AfterReturn(s, c, now)) && SameCalls(s, AfterReturn(s, c, now))
  {
    if s.conns[c].onBusy {
      if s.delay == [] {
        ReturnedInv(s, c);
      } else if now >= Squeezed(s.delay[0].expire) {
        DequeuedAnsweredInv(s);
        ReturnedInv(Answered(Dequeued(s), Failed(s.delay[0].id)), c);
      } else {
        DequeuedPromisedInv(s, c);
      }
    }
  }

  /** The call of a connection is answered and the connection closed or kept. */
  ghost function Concluded(s: State, c: nat, o: Outcome, status: Status, ioId: nat): State
    requires c in s.conns && s.conns[c].rpc.Some?
  {
    Answered(Cleared(s, c, status, ioId), o)
  }

  lemma {:induction false} ConcludedInv(s: State, c: nat, o: Outcome, status: Status, ioId: nat)
    requires Inv(s) && c in s.conns && s.conns[c].rpc.Some? && o.rpc == s.conns[c].rpc.value.id
    requires o.Replied? ==> (o.io, o.rpc) in s.sent
    requires status in {Closed, Connected} && (status == Closed <==> ioId == 0)
    ensures var t := Concluded(s, c, o, status, ioId); Inv(t) && Free(t, c) && SameCalls(s, t)
  {
    ClearedInv(s, c, status, ioId);
    var mid := Cleared(s, c, status, ioId);
    AnsweredInv(mid, o);
    ConcludedCalls(s, c, o, status, ioId);
  }

  lemma {:induction false} ConcludedCalls(s: State, c: nat, o: Outcome, status: Status, ioId: nat)
    requires CarriedOk(s.conns, s.place) && c in s.conns && s.conns[c].rpc.Some? && o.rpc == s.conns[c].rpc.value.id
    requires Free(Cleared(s, c, status, ioId), c)
    ensures var t := Concluded(s, c, o, status, ioId); Free(t, c) && SameCalls(s, t)
  {
  }

  /** `Reset`: the call, if any, fails; the connection is closed and returned. */
  ghost function AfterReset(s: State, c: nat, now: nat): State
    requires c in s.conns
  {
    if s.conns[c].rpc.Some? then AfterReturn(Concluded(s, c, Failed(s.conns[c].rpc.value.id), Closed, 0), c, now)
    else AfterReturn(Rewired(s, c, Closed, 0, 0), c, now)
  }

  lemma {:induction false} AfterResetInv(s: State, c: nat, now: nat)
    requires Inv(s) && c in s.conns && !PromisedBy(s.handoffs, c)
    ensures Inv(AfterReset(s, c, now)) && SameCalls(s, AfterReset(s, c, now))
  {
    if s.conns[c].rpc.Some? {
      var o := Failed(s.conns[c].rpc.value.id);
      ConcludedInv(s, c, o, Closed, 0);
      AfterReturnInv(Concluded(s, c, o, Closed, 0), c, now);
    } else {
      RewiredInv(s, c, Closed, 0);
      AfterReturnInv(Rewired(s, c, Closed, 0, 0), c, now);
    }
  }

  /** The connection has opened this io, carries a call, and the call can be sent. */
  predicate Sends(conn: Conn, io: nat, net: Net) {
    io == conn.ioId && conn.rpc.Some? && net.send == 0
  }

  /** `OnOpened`: a waiting call goes out; a foreign io or a failing send resets the connection. */
  ghost function AfterOpened(s: State, c: nat, io: nat, net: Net, now: nat): State
    requires c in s.conns
  {
    if s.conns[c].timerId == 0 then s
    else if Sends(s.conns[c], io, net) then SentOver(s, c)
    else AfterReset(s, c, now)
  }

  lemma {:induction false} Unpromised(s: State, c: nat)
    requires Inv(s) && c in s.conns && s.conns[c].rpc.Some?
    ensures !PromisedBy(s.handoffs, c)
  {
  }

  lemma {:induction false} AfterOpenedInv(s: State, c: nat, io: nat, net: Net, now: nat)
    requires Inv(s) && c in s.conns
    ensures Inv(AfterOpened(s, c, io, net, now)) && SameCalls(s, AfterOpened(s, c, io, net, now))
  {
    if s.conns[c].timerId != 0 {
      assert ConnOk(s.conns[c], s.sent);
      Unpromised(s, c);
      if io == s.conns[c].ioId && net.send == 0 {
        SentOverInv(s, c);
      } else {
        AfterResetInv(s, c, now);
      }
    }
  }

  /** The message answers the call that the connection has sent over this io. */
  predicate Answers(conn: Conn, io: nat) {
    io == conn.ioId && conn.status == Sending && conn.rpc.Some?
  }

  /**
   `ProcessMsg`: without a timer the connection is forgotten; otherwise its call is answered,
   with the message if it answers the call and with an error if not, and the connection is
   kept only after an answer, for long connections without an end of file.
   */
  ghost function AfterMessage(s: State, c: nat, io: nat, close: bool, now: nat): State
    requires c in s.conns
  {
    if s.conns[c].timerId == 0 then Rewired(s, c, Closed, 0, 0) else AfterReturn(Received(s, c, io, close), c, now)
  }

  /** `ProcessMsg` up to the point where the connection is returned. */
  ghost function Received(s: State, c: nat, io: nat, close: bool): State
    requires c in s.conns
  {
    var conn := s.conns[c];
    if conn.rpc.None? then Rewired(s, c, Closed, 0, 0)
    else if !Answers(conn, io) then Concluded(s, c, Failed(conn.rpc.value.id), Closed, 0)
    else if close then Concluded(s, c, Replied(conn.rpc.value.id, io), Closed, 0)
    else Concluded(s, c, Replied(conn.rpc.value.id, io), Connected, conn.ioId)
  }

  lemma {:induction false} AfterMessageInv(s: State, c: nat, io: nat, close: bool, now: nat)
    requires Inv(s) && c in s.conns
    ensures Inv(AfterMessage(s, c, io, close, now)) && SameCalls(s, AfterMessage(s, c, io, close, now))
  {
    var conn := s.conns[c];
    assert ConnOk(conn, s.sent);
    if conn.timerId == 0 {
      RewiredInv(s, c, Closed, 0);
    } else {
      var o := if Answers(conn, io) then Replied(conn.rpc.value.id, io) else Failed(conn.rpc.value.id);
      if close || !Answers(conn, io) {
        ConcludedInv(s, c, o, Closed, 0);
        AfterReturnInv(Concluded(s, c, o, Closed, 0), c, now);
      } else {
        ConcludedInv(s, c, o, Connected, conn.ioId);
        AfterReturnInv(Concluded(s, c, o, Connected, conn.ioId), c, now);
      }
    }
  }

  /** `OnTimer`: a stale timer is ignored, the current one resets the connection. */
  ghost function AfterTimer(s: State, c: nat, timer: nat, now: nat): State
    requires c in s.conns
  {
    if s.conns[c].timerId != timer then s else AfterReset(s, c, now)
  }

  /** Whether the network lets a call go out on a connection of this status. */
  predicate Reached(status: Status, net: Net) {
    match status
    case Closed => net.connect == 1 || (net.connect == 0 && net.send == 0)
    case Connected => net.send == 0
    case _ => false
  }

  /** The result of `TokenlessConn::Query`. */
  function QueryResult(status: Status, rpc: Rpc, now: nat, net: Net): int {
    if now >= rpc.expire then -100 else if Reached(status, net) then 0 else -1
  }

  /** `TokenlessConn::Query`: the call waits for the connection or goes out; a failure closes the connection. */
  ghost function AfterConnQuery(s: State, c: nat, rpc: Rpc, now: nat, net: Net): State
    requires c in s.conns
  {
    var conn := s.conns[c];
    var dialled := if conn.status == Closed then s.(nextIo := s.nextIo + 1) else s;
    var io := if conn.status == Closed then s.nextIo else conn.ioId;
    if now >= rpc.expire then s
    else if Reached(conn.status, net) then
      Assigned(dialled, c, rpc, if conn.status == Closed && net.connect == 1 then Connecting else Sending, io)
    else Rewired(dialled, c, Closed, 0, conn.timerId)
  }

  lemma {:induction false} AfterConnQueryInv(s: State, c: nat, rpc: Rpc, now: nat, net: Net)
    requires Inv(s) && Free(s, c) && s.conns[c].onBusy && InHand(s, rpc.id)
    ensures var t := AfterConnQuery(s, c, rpc, now, net);
      && Inv(t) && t.nextRpc == s.nextRpc
      && if QueryResult(s.conns[c].status, rpc, now, net) == 0 then t.place.Keys == s.place.Keys + {rpc.id}
         else Free(t, c) && InHand(t, rpc.id) && t.place == s.place
  {
    var conn := s.conns[c];
    assert ConnOk(conn, s.sent);
    assert conn.timerId == 0;
    var dialled := if conn.status == Closed then s.(nextIo := s.nextIo + 1) else s;
    var io := if conn.status == Closed then s.nextIo else conn.ioId;
    if now < rpc.expire {
      assert Inv(dialled);
      if Reached(conn.status, net) {
        AssignedInv(dialled, c, rpc, if conn.status == Closed && net.connect == 1 then Connecting else Sending, io);
      } else {
        RewiredInv(dialled, c, Closed, 0);
      }
    }
  }

  lemma {:induction false} AfterReturnKeepsHand(s: State, c: nat, now: nat, id: nat)
    requires DelayOk(s.delay, s.place) && c in s.conns && InHand(s, id)
    ensures InHand(AfterReturn(s, c, now), id)
  {
    if s.delay != [] {
      var other := s.delay[0].id;
      assert other in s.place && other != id;
      CallsAppend(s.log, Failed(other), id);
    }
  }

  //////////////////////////////////////////////////////////////////////////////
  // What the service does
  //////////////////////////////////////////////////////////////////////////////

  /** No connection is idle and no more may be created. */
  predicate Exhausted(idle: seq<nat>, nextConnId: nat) {
    idle == [] && nextConnId > MAX_CONN_ID
  }

  /** The idle list and the hand-offs only name existing connections that carry no call. */
  ghost predicate Known(s: State) {
    && (forall c :: c in s.idle ==> c in s.conns && s.conns[c].rpc.None?)
    && (forall i :: 0 <= i < |s.handoffs| ==>
          s.handoffs[i].conn in s.conns && s.conns[s.handoffs[i].conn].rpc.None?)
  }

  /** `GetIdleConn`, when it finds a connection, and the connection it finds. */
  ghost function AfterGet(s: State): State
    requires Known(s)
  {
    if s.idle == [] then Created(s) else Fetched(s)
  }

  function Gotten(idle: seq<nat>, nextConnId: nat): nat {
    if idle == [] then nextConnId + 1 else idle[0]
  }

  lemma {:induction false} AfterGetInv(s: State)
    requires Inv(s) && Known(s) && !Exhausted(s.idle, s.nextConnId)
    ensures var t := AfterGet(s); var c := Gotten(s.idle, s.nextConnId);
      && Inv(t) && Free(t, c) && t.conns[c].onBusy && SameCalls(s, t)
      && t.place == s.place && t.log == s.log && t.refs == s.refs
  {
    if s.idle == [] { CreatedInv(s); } else { FetchedInv(s); }
  }

  /** A call in hand meets a connection; the connection is returned if that fails. */
  ghost function AfterTry(s: State, c: nat, rpc: Rpc, now: nat, later: nat, net: Net): State
    requires c in s.conns
  {
    var t := AfterConnQuery(s, c, rpc, now, net);
    if QueryResult(s.conns[c].status, rpc, now, net) == 0 then t else AfterReturn(t, c, later)
  }

  lemma {:induction false} AfterTryInv(s: State, c: nat, rpc: Rpc, now: nat, later: nat, net: Net)
    requires Inv(s) && Free(s, c) && s.conns[c].onBusy && InHand(s, rpc.id)
    ensures var t := AfterTry(s, c, rpc, now, later, net);
      && Inv(t) && t.nextRpc == s.nextRpc
      && if QueryResult(s.conns[c].status, rpc, now, net) == 0 then t.place.Keys == s.place.Keys + {rpc.id}
         else InHand(t, rpc.id) && t.place.Keys == s.place.Keys
  {
    AfterConnQueryInv(s, c, rpc, now, net);
    if QueryResult(s.conns[c].status, rpc, now, net) != 0 {
      var t := AfterConnQuery(s, c, rpc, now, net);
      AfterReturnInv(t, c, later);
      AfterReturnKeepsHand(t, c, later, rpc.id);
    }
  }

  /** The result of `TokenlessService::Query`. */
  ghost function ServiceResult(s: State, rpc: Rpc, now: nat, net: Net): int
    requires Known(s)
  {
    if Exhausted(s.idle, s.nextConnId) then if now >= rpc.expire then -100 else 0
    else QueryResult(AfterGet(s).conns[Gotten(s.idle, s.nextConnId)].status, rpc, now, net)
  }

  /** `TokenlessService::Query`: a connection is tried, or the call is delayed when there is none. */
  ghost function AfterQuery(s: State, rpc: Rpc, now: nat, later: nat, net: Net): State
    requires Known(s)
  {
    if Exhausted(s.idle, s.nextConnId) then if now >= rpc.expire then s else Queued(s, rpc)
    else AfterTry(AfterGet(s), Gotten(s.idle, s.nextConnId), rpc, now, later, net)
  }

  lemma {:induction false} AfterQueryInv(s: State, rpc: Rpc, now: nat, later: nat, net: Net)
    requires Inv(s) && Known(s) && InHand(s, rpc.id)
    ensures var t := AfterQuery(s, rpc, now, later, net);
      && Inv(t) && t.nextRpc == s.nextRpc
      && if ServiceResult(s, rpc, now, net) == 0 then t.place.Keys == s.place.Keys + {rpc.id}
         else InHand(t, rpc.id) && t.place.Keys == s.place.Keys
  {
    if Exhausted(s.idle, s.nextConnId) {
      QueuedInv(s, rpc);
    } else {
      AfterGetInv(s);
      AfterTryInv(AfterGet(s), Gotten(s.idle, s.nextConnId), rpc, now, later, net);
    }
  }

  /** The deadline of a call: one second when no timeout is given. */
  function Deadline(timeout: int, called: nat): nat {
    called + if timeout <= 0 then 1000 else timeout
  }

  /** `RealQuery` after the service has answered: the callback of a refused call is posted. */
  ghost function AfterAnswer(s: State, id: nat, result: int): State {
    if result == 0 then s else Rejected(s, id)
  }

  /** `RealQuery`: a new call, offered to the service. */
  ghost function AfterCall(s: State, timeout: int, called: nat, now: nat, later: nat, net: Net): State
    requires Known(s)
  {
    var rpc := Rpc(s.nextRpc, Deadline(timeout, called));
    AfterAnswer(AfterQuery(Begun(s), rpc, now, later, net), rpc.id, ServiceResult(Begun(s), rpc, now, net))
  }

  lemma {:induction false} AfterAnswerInv(s: State, b: State, t: State, id: nat, result: int)
    requires Settled(s) && id == s.nextRpc && b.nextRpc == id + 1 && b.place == s.place
    requires Inv(t) && t.nextRpc == b.nextRpc
    requires if result == 0 then t.place.Keys == b.place.Keys + {id} else InHand(t, id) && t.place.Keys == b.place.Keys
    ensures Inv(AfterAnswer(t, id, result)) && Settled(AfterAnswer(t, id, result))
  {
    if result != 0 { RejectedInv(t, id); }
  }

  lemma {:induction false} AfterCallInv(s: State, b: State, rpc: Rpc, now: nat, later: nat, net: Net)
    requires Inv(s) && Settled(s) && b == Begun(s) && Known(b) && rpc.id == s.nextRpc
    ensures var t := AfterAnswer(AfterQuery(b, rpc, now, later, net), rpc.id, ServiceResult(b, rpc, now, net));
      Inv(t) && Settled(t)
  {
    BegunInv(s);
    AfterQueryInv(b, rpc, now, later, net);
    AfterAnswerInv(s, b, AfterQuery(b, rpc, now, later, net), rpc.id, ServiceResult(b, rpc, now, net));
  }

  /** `ExecDelayReqCallback` after the connection was tried: a failing call is answered before the return. */
  ghost function AfterDelayQuery(s: State, h: Handoff, result: int, later: nat): State
    requires h.conn in s.conns
  {
    if result == 0 then s else AfterReturn(Answered(s, Failed(h.rpc.id)), h.conn, later)
  }

  /** `ExecDelayReqCallback`: the promised connection is tried. */
  ghost function AfterDelayTask(s: State, k: nat, now: nat, later: nat, net: Net): State
    requires k < |s.handoffs| && s.handoffs[k].conn in s.conns
  {
    var h := s.handoffs[k];
    AfterDelayQuery(AfterConnQuery(Redeemed(s, k), h.conn, h.rpc, now, net), h,
                    QueryResult(s.conns[h.conn].status, h.rpc, now, net), later)
  }

  lemma {:induction false} AfterDelayQueryInv(s: State, t: State, h: Handoff, result: int, later: nat)
    requires h.rpc.id in s.place && Inv(t) && t.nextRpc == s.nextRpc && h.conn in t.conns
    requires if result == 0 then t.place.Keys == s.place.Keys
             else Free(t, h.conn) && InHand(t, h.rpc.id) && t.place.Keys == s.place.Keys - {h.rpc.id}
    ensures Inv(AfterDelayQuery(t, h, result, later)) && SameCalls(s, AfterDelayQuery(t, h, result, later))
  {
    if result != 0 {
      AnsweredInv(t, Failed(h.rpc.id));
      AfterReturnInv(Answered(t, Failed(h.rpc.id)), h.conn, later);
    }
  }

  lemma {:induction false} TriedAfterHandoff(s: State, k: nat, h: Handoff, now: nat, net: Net, t: State)
    requires Inv(s) && k < |s.handoffs| && h == s.handoffs[k] && h.conn in s.conns
    requires t == AfterConnQuery(Redeemed(s, k), h.conn, h.rpc, now, net)
    ensures h.rpc.id in s.place && Inv(t) && t.nextRpc == s.nextRpc && h.conn in t.conns
    ensures if QueryResult(s.conns[h.conn].status, h.rpc, now, net) == 0 then t.place.Keys == s.place.Keys
            else Free(t, h.conn) && InHand(t, h.rpc.id) && t.place.Keys == s.place.Keys - {h.rpc.id}
  {
    RedeemedInv(s, k);
    assert h.rpc.id in s.place;
    AfterConnQueryInv(Redeemed(s, k), h.conn, h.rpc, now, net);
  }

  lemma {:induction false} AfterDelayTaskInv(s: State, k: nat, now: nat, later: nat, net: Net)
    requires Inv(s) && Known(s) && k < |s.handoffs|
    ensures var t := AfterDelayTask(s, k, now, later, net); Inv(t) && SameCalls(s, t)
  {
    var h := s.handoffs[k];
    var t := AfterConnQuery(Redeemed(s, k), h.conn, h.rpc, now, net);
    TriedAfterHandoff(s, k, h, now, net, t);
    AfterDelayQueryInv(s, t, h, QueryResult(s.conns[h.conn].status, h.rpc, now, net), later);
  }

  lemma {:induction false} InvKnown(s: State)
    requires Inv(s)
    ensures Known(s)
  {
    forall c | c in s.idle ensures c in s.conns && s.conns[c].rpc.None? {
      assert ConnOk(s.conns[c], s.sent);
    }
  }

  //////////////////////////////////////////////////////////////////////////////
  // Runs
  //////////////////////////////////////////////////////////////////////////////

  /** What may happen next, in any order; ids need not be current. */
  datatype Event =
    | Call(timeout: int, called: nat, now: nat, later: nat, net: Net)
    | OpenEvent(conn: nat, io: nat, net: Net, now: nat)
    | CloseEvent(conn: nat, io: nat, now: nat)
    | MessageEvent(conn: nat, io: nat, close: bool, now: nat)
    | TimerEvent(conn: nat, timer: nat, now: nat)
    | DelayTask(task: nat, now: nat, later: nat, net: Net)
    | FailureTask(task: nat)

  /** Ids are positive, events reach existing connections and tasks, and no promised connection loses its io. */
  predicate Enabled(s: State, e: Event) {
    match e
    case Call(_, _, _, _, _) => true
    case OpenEvent(c, io, _, _) => c in s.conns && io > 0
    case CloseEvent(c, io, _) => c in s.conns && io > 0 && (io == s.conns[c].ioId ==> !PromisedBy(s.handoffs, c))
    case MessageEvent(c, io, _, _) => c in s.conns && io > 0
    case TimerEvent(c, timer, _) => c in s.conns && timer > 0
    case DelayTask(k, _, _, _) => k < |s.handoffs|
    case FailureTask(k) => k < |s.posted|
  }

  /** `OnClosed`: only the current io matters. */
  ghost function AfterClosed(s: State, c: nat, io: nat, now: nat): State
    requires c in s.conns
  {
    if io == s.conns[c].ioId then AfterReset(s, c, now) else s
  }

  /** One handler, from start to end. */
  ghost function Step(s: State, e: Event): State
    requires Known(s) && Enabled(s, e)
  {
    match e
    case Call(timeout, called, now, later, net) => AfterCall(s, timeout, called, now, later, net)
    case OpenEvent(c, io, net, now) => AfterOpened(s, c, io, net, now)
    case CloseEvent(c, io, now) => AfterClosed(s, c, io, now)
    case MessageEvent(c, io, close, now) => AfterMessage(s, c, io, close, now)
    case TimerEvent(c, timer, now) => AfterTimer(s, c, timer, now)
    case DelayTask(k, now, later, net) => AfterDelayTask(s, k, now, later, net)
    case FailureTask(k) => Reported(s, k)
  }

  lemma {:induction false} SameCallsSettled(s: State, t: State)
    requires Settled(s) && SameCalls(s, t)
    ensures Settled(t)
  {
  }

  /** The events that reach a connection. */
  lemma {:induction false} ConnStepInv(s: State, e: Event, t: State)
    requires Inv(s) && Known(s) && Enabled(s, e) && t == Step(s, e)
    requires e.OpenEvent? || e.CloseEvent? || e.MessageEvent? || e.TimerEvent?
    ensures Inv(t) && SameCalls(s, t)
  {
    match e {
      case OpenEvent(c, io, net, now) => AfterOpenedInv(s, c, io, net, now);
      case CloseEvent(c, io, now) => if io == s.conns[c].ioId { AfterResetInv(s, c, now); }
      case MessageEvent(c, io, close, now) => AfterMessageInv(s, c, io, close, now);
      case TimerEvent(c, timer, now) => AfterTimerInv(s, c, timer, now);
    }
  }

  /** The events that run a posted callback. */
  lemma {:induction false} TaskStepInv(s: State, e: Event, t: State)
    requires Inv(s) && Known(s) && Enabled(s, e) && t == Step(s, e)
    requires e.DelayTask? || e.FailureTask?
    ensures Inv(t) && SameCalls(s, t)
  {
    match e {
      case DelayTask(k, now, later, net) => AfterDelayTaskInv(s, k, now, later, net);
      case FailureTask(k) => ReportedInv(s, k); assert s.posted[k] in s.place;
    }
  }

  lemma {:induction false} CallStepInv(s: State, e: Event, t: State)
    requires Inv(s) && Settled(s) && Known(s) && e.Call? && t == Step(s, e)
    ensures Inv(t) && Settled(t)
  {
    AfterCallInv(s, Begun(s), Rpc(s.nextRpc, Deadline(e.timeout, e.called)), e.now, e.later, e.net);
  }

  lemma {:induction false} StepInv(s: State, e: Event, t: State)
    requires Inv(s) && Settled(s) && Known(s) && Enabled(s, e) && t == Step(s, e)
    ensures Inv(t) && Settled(t)
  {
    if e.Call? {
      CallStepInv(s, e, t);
    } else {
      if e.DelayTask? || e.FailureTask? { TaskStepInv(s, e, t); } else { ConnStepInv(s, e, t); }
      SameCallsSettled(s, t);
    }
  }

  lemma {:induction false} AfterTimerInv(s: State, c: nat, timer: nat, now: nat)
    requires Inv(s) && c in s.conns && timer > 0
    ensures Inv(AfterTimer(s, c, timer, now)) && SameCalls(s, AfterTimer(s, c, timer, now))
  {
    if s.conns[c].timerId == timer {
      assert ConnOk(s.conns[c], s.sent);
      Unpromised(s, c);
      AfterResetInv(s, c, now);
    }
  }

  /** A service before its first call. */
  const Initial: State :=
    State(map[], [], [], 0, 0, 0, [], [], [], 0, 1, 1, [], map[], map[], {})

  /** The state after a run; an event that is not enabled does not happen. */
  ghost function After(events: seq<Event>): State {
    if events == [] then Initial
    else
      var s, e := After(events[..|events| - 1]), events[|events| - 1];
      if Known(s) && Enabled(s, e) then Step(s, e) else s
  }

  lemma {:induction false} RunInv(events: seq<Event>)
    ensures Inv(After(events)) && Settled(After(events))
  {
    if events != [] {
      var s, e := After(events[..|events| - 1]), events[|events| - 1];
      RunInv(events[..|events| - 1]);
      if Known(s) && Enabled(s, e) { StepInv(s, e, Step(s, e)); }
    }
  }

  //////////////////////////////////////////////////////////////////////////////
  // What holds of every run
  //////////////////////////////////////////////////////////////////////////////

  ghost predicate Carried(s: State, id: nat) {
    exists c :: c in s.conns && s.conns[c].rpc.Some? && s.conns[c].rpc.value.id == id
  }

  ghost predicate InQueue(s: State, id: nat) {
    exists i :: 0 <= i < |s.delay| && s.delay[i].id == id
  }

  ghost predicate InTask(s: State, id: nat) {
    exists i :: 0 <= i < |s.handoffs| && s.handoffs[i].rpc.id == id
  }

  /** The call still has its reference: a connection carries it, it is delayed, or a task holds it. */
  ghost predicate Pending(s: State, id: nat) {
    Carried(s, id) || InQueue(s, id) || InTask(s, id)
  }

  lemma {:induction false} PendingIsPlaced(s: State, id: nat)
    requires Inv(s) && id in s.place
    ensures Pending(s, id) <==> s.place[id] != Done && s.place[id] != Posted
    ensures id in s.posted <==> s.place[id] == Posted
  {
    match s.place[id]
    case AtConn(c) => assert s.conns[c].rpc.value.id == id;
    case _ =>
  }

  /**
   In every run the callback of a call runs at most once; it has not run exactly while the call
   is pending or its failure is posted, and the reference is held exactly while it is pending.
   */
  lemma {:induction false} CalledBackExactlyOnce(events: seq<Event>, id: nat)
    ensures var s := After(events);
      && Calls(s.log, id) <= 1
      && (id < s.nextRpc ==> (Calls(s.log, id) == 0 <==> Pending(s, id) || id in s.posted))
      && (id < s.nextRpc ==> id in s.refs && s.refs[id] == if Pending(s, id) then 1 else 0)
      && (id >= s.nextRpc ==> Calls(s.log, id) == 0)
  {
    RunInv(events);
    var s := After(events);
    if id < s.nextRpc { PendingIsPlaced(s, id); }
  }

  /** A successful callback carries a message received on an io over which that very call was sent. */
  lemma {:induction false} RepliesMatchRequests(events: seq<Event>, k: nat)
    ensures var s := After(events);
      k < |s.log| && s.log[k].Replied? ==> (s.log[k].io, s.log[k].rpc) in s.sent
  {
    RunInv(events);
  }

  /** Every connection is on exactly one list; idle ones carry no call; closed ones have no io. */
  lemma {:induction false} PoolConserved(events: seq<Event>, c: nat)
    ensures var s := After(events);
      && s.idleCount == |s.idle| && s.busyCount == |s.busy|
      && s.idleCount + s.busyCount == s.nextConnId <= MAX_CONN_ID + 1
      && NoDup(s.idle) && NoDup(s.busy)
      && (c in s.conns <==> 1 <= c <= s.nextConnId)
      && (c in s.conns <==> c in s.idle || c in s.busy) && !(c in s.idle && c in s.busy)
      && (c in s.idle ==> s.conns[c].rpc.None? && s.conns[c].timerId == 0)
      && (c in s.conns ==> (s.conns[c].status == Closed <==> s.conns[c].ioId == 0))
  {
    RunInv(events);
    if c in After(events).conns { assert ConnOk(After(events).conns[c], After(events).sent); }
  }

  /** The event ends the call that connection `c` carries: it is closed, answered or timed out. */
  predicate Ends(s: State, e: Event, c: nat)
    requires c in s.conns
  {
    match e
    case CloseEvent(d, io, _) => d == c && io == s.conns[c].ioId
    case MessageEvent(d, _, _, _) => d == c
    case TimerEvent(d, timer, _) => d == c && timer == s.conns[c].timerId
    case OpenEvent(d, io, net, _) => d == c && (io != s.conns[c].ioId || net.send != 0)
    case _ => false
  }

  /** What the callback is told then: the message if it answers the call, an error otherwise. */
  function Verdict(conn: Conn, e: Event): Outcome
    requires conn.rpc.Some?
  {
    if e.MessageEvent? && Answers(conn, e.io) then Replied(conn.rpc.value.id, e.io) else Failed(conn.rpc.value.id)
  }

  /** The connection is open with its io, or closed without one. */
  predicate KeptAfter(before: Conn, after: Conn, kept: bool) {
    if kept then after.status == Connected && after.ioId == before.ioId else after.status == Closed && after.ioId == 0
  }

  lemma {:induction false} AfterReturnKeepsDone(s: State, c: nat, now: nat, id: nat)
    requires Inv(s) && c in s.conns && id in s.place && s.place[id] == Done
    ensures var t := AfterReturn(s, c, now);
      && id in t.place && t.place[id] == Done && s.log <= t.log
      && c in t.conns && t.conns[c] == s.conns[c].(onBusy := t.conns[c].onBusy)
  {
  }

  lemma {:induction false} EndedCall(s: State, c: nat, o: Outcome, status: Status, ioId: nat, now: nat, t: State)
    requires Inv(s) && c in s.conns && s.conns[c].rpc.Some? && o.rpc == s.conns[c].rpc.value.id
    requires o.Replied? ==> (o.io, o.rpc) in s.sent
    requires status in {Closed, Connected} && (status == Closed <==> ioId == 0)
    requires t == AfterReturn(Concluded(s, c, o, status, ioId), c, now)
    ensures o.rpc in t.place && t.place[o.rpc] == Done && s.log + [o] <= t.log
    ensures c in t.conns && t.conns[c].rpc.None? && t.conns[c].status == status && t.conns[c].ioId == ioId
  {
    ConcludedInv(s, c, o, status, ioId);
    AfterReturnKeepsDone(Concluded(s, c, o, status, ioId), c, now, o.rpc);
  }

  lemma {:induction false} EndsConcludes(s: State, e: Event, c: nat)
    requires Inv(s) && Known(s) && Enabled(s, e) && c in s.conns && s.conns[c].rpc.Some? && Ends(s, e, c)
    ensures var t := Step(s, e); var o := Verdict(s.conns[c], e);
      && o.rpc in t.place && t.place[o.rpc] == Done && s.log + [o] <= t.log
      && c in t.conns && t.conns[c].rpc.None? && KeptAfter(s.conns[c], t.conns[c], o.Replied? && !e.close)
  {
    var conn := s.conns[c];
    assert ConnOk(conn, s.sent);
    var status, ioId := Closed, 0;
    if e.MessageEvent? && !e.close && Answers(conn, e.io) { status, ioId := Connected, conn.ioId; }
    EndedCall(s, c, Verdict(conn, e), status, ioId, e.now, Step(s, e));
  }

  /**
   When the connection of a call is reset, answered or timed out, the callback runs then, with
   that verdict, for the only time; and the reference is released then.
   */
  lemma {:induction false} EndsCall(events: seq<Event>, e: Event, c: nat)
    ensures var s, t := After(events), After(events + [e]);
      c in s.conns && s.conns[c].rpc.Some? && Enabled(s, e) && Ends(s, e, c) ==>
        var o := Verdict(s.conns[c], e);
        && Calls(s.log, o.rpc) == 0 && Calls(t.log, o.rpc) == 1 && s.log + [o] <= t.log
        && o.rpc in s.refs && s.refs[o.rpc] == 1 && o.rpc in t.refs && t.refs[o.rpc] == 0
        && c in t.conns && t.conns[c].rpc.None? && KeptAfter(s.conns[c], t.conns[c], o.Replied? && !e.close)
  {
    var s := After(events);
    RunInv(events);
    InvKnown(s);
    assert (events + [e])[..|events|] == events;
    RunInv(events + [e]);
    if c in s.conns && s.conns[c].rpc.Some? && Enabled(s, e) && Ends(s, e, c) {
      EndsConcludes(s, e, c);
      assert s.place[s.conns[c].rpc.value.id] == AtConn(c);
    }
  }

  /** The status of the connection that the next call would get. */
  function NextStatus(s: State): Status {
    if s.idle == [] || s.idle[0] !in s.conns then Closed else s.conns[s.idle[0]].status
  }

  lemma {:induction false} QueryPlaces(s: State, rpc: Rpc, now: nat, later: nat, net: Net)
    requires Known(s)
    ensures ServiceResult(s, rpc, now, net) == 0 <==> Serviceable(s, now, rpc.expire, net)
    ensures ServiceResult(s, rpc, now, net) == 0 ==>
      var place := AfterQuery(s, rpc, now, later, net).place;
      rpc.id in place && (place[rpc.id].AtConn? || place[rpc.id].Delayed?)
  {
    if !Exhausted(s.idle, s.nextConnId) {
      GottenStatus(s, AfterGet(s), Gotten(s.idle, s.nextConnId));
      TryPlaces(AfterGet(s), Gotten(s.idle, s.nextConnId), rpc, now, later, net);
    }
  }

  lemma {:induction false} GottenStatus(s: State, t: State, c: nat)
    requires Known(s) && t == AfterGet(s) && c == Gotten(s.idle, s.nextConnId)
    ensures c in t.conns && t.conns[c].status == NextStatus(s)
  {
    if s.idle != [] { assert s.idle[0] in s.idle; }
  }

  lemma {:induction false} TryPlaces(s: State, c: nat, rpc: Rpc, now: nat, later: nat, net: Net)
    requires c in s.conns
    ensures QueryResult(s.conns[c].status, rpc, now, net) == 0 ==>
      var place := AfterTry(s, c, rpc, now, later, net).place; rpc.id in place && place[rpc.id].AtConn?
  {
  }

  /** The call is in time, and there is no connection to give or the one it gets lets it go out. */
  predicate Serviceable(s: State, now: nat, expire: nat, net: Net) {
    now < expire && (Exhausted(s.idle, s.nextConnId) || Reached(NextStatus(s), net))
  }

  /** A call is accepted, and then pending, exactly when it is serviceable; otherwise its failure is posted. */
  lemma {:induction false} CallIsAccepted(events: seq<Event>, e: Event)
    ensures var s, t := After(events), After(events + [e]);
      e.Call? ==>
        && t.nextRpc == s.nextRpc + 1
        && (Pending(t, s.nextRpc) <==> Serviceable(s, e.now, Deadline(e.timeout, e.called), e.net))
        && (s.nextRpc in t.posted <==> !Serviceable(s, e.now, Deadline(e.timeout, e.called), e.net))
  {
    var s, t := After(events), After(events + [e]);
    RunInv(events);
    InvKnown(s);
    assert (events + [e])[..|events|] == events;
    RunInv(events + [e]);
    if e.Call? { AcceptedStep(s, e, t); }
  }

  lemma {:induction false} AcceptedStep(s: State, e: Event, t: State)
    requires Inv(s) && Known(s) && Inv(t) && e.Call? && t == Step(s, e)
    ensures t.nextRpc == s.nextRpc + 1
    ensures Pending(t, s.nextRpc) <==> Serviceable(s, e.now, Deadline(e.timeout, e.called), e.net)
    ensures s.nextRpc in t.posted <==> !Serviceable(s, e.now, Deadline(e.timeout, e.called), e.net)
  {
    CallPlaces(s, Begun(s), Rpc(s.nextRpc, Deadline(e.timeout, e.called)), e.now, e.later, e.net);
    PendingIsPlaced(t, s.nextRpc);
  }

  lemma {:induction false} CallPlaces(s: State, b: State, rpc: Rpc, now: nat, later: nat, net: Net)
    requires Inv(s) && Known(s) && b == Begun(s) && Known(b) && rpc.id == s.nextRpc
    ensures var t := AfterAnswer(AfterQuery(b, rpc, now, later, net), rpc.id, ServiceResult(b, rpc, now, net));
      && t.nextRpc == s.nextRpc + 1 && rpc.id in t.place && t.place[rpc.id] != Done
      && (t.place[rpc.id] == Posted <==> !Serviceable(s, now, rpc.expire, net))
  {
    BegunInv(s);
    AfterQueryInv(b, rpc, now, later, net);
    QueryPlaces(b, rpc, now, later, net);
  }

  /**
   A call without a timeout is in time for 1000 milliseconds, any other for its timeout: while the
   network serves it, it is accepted exactly so long.
   */
  lemma {:induction false} CallInTime(events: seq<Event>, e: Event)
    ensures var s, t := After(events), After(events + [e]);
      e.Call? && (Exhausted(s.idle, s.nextConnId) || Reached(NextStatus(s), e.net)) ==>
        && (e.timeout <= 0 ==> (Pending(t, s.nextRpc) <==> e.now < e.called + 1000))
        && (e.timeout > 0 ==> (Pending(t, s.nextRpc) <==> e.now < e.called + e.timeout))
  {
    CallIsAccepted(events, e);
  }

  /** The network lets a call go out at once: over an open connection, or over one that opens at once. */
  predicate SendsAtOnce(status: Status, net: Net) {
    net.send == 0 && (status == Connected || (status == Closed && net.connect == 0))
  }

  /** The connection has just sent the call over its io, and has a timer for it. */
  ghost predicate JustSent(t: State, c: nat, id: nat, io: nat, timer: nat) {
    && c in t.conns && t.conns[c].status == Sending && t.conns[c].ioId == io && t.conns[c].timerId == timer
    && t.conns[c].rpc.Some? && t.conns[c].rpc.value.id == id && (io, id) in t.sent
  }

  /** The io over which a connection talks after a query: its own, or a new one. */
  function IoOf(s: State, c: nat): nat
    requires c in s.conns
  {
    if s.conns[c].status == Closed then s.nextIo else s.conns[c].ioId
  }

  lemma {:induction false} ConnQuerySends(s: State, c: nat, rpc: Rpc, now: nat, net: Net, t: State)
    requires c in s.conns && t == AfterConnQuery(s, c, rpc, now, net)
    requires now < rpc.expire && SendsAtOnce(s.conns[c].status, net)
    ensures QueryResult(s.conns[c].status, rpc, now, net) == 0
    ensures JustSent(t, c, rpc.id, IoOf(s, c), s.nextTimer) && t.log == s.log
  {
  }

  lemma {:induction false} CallSends(s: State, e: Event, t: State)
    requires Known(s) && e.Call? && t == Step(s, e) && !Exhausted(s.idle, s.nextConnId)
    requires e.now < Deadline(e.timeout, e.called) && SendsAtOnce(NextStatus(s), e.net)
    ensures JustSent(t, Gotten(s.idle, s.nextConnId), s.nextRpc, NextIo(s), s.nextTimer) && t.log == s.log
  {
    var b, rpc := Begun(s), Rpc(s.nextRpc, Deadline(e.timeout, e.called));
    var g, c := AfterGet(b), Gotten(s.idle, s.nextConnId);
    GottenStatus(b, g, c);
    ConnQuerySends(g, c, rpc, e.now, e.net, AfterConnQuery(g, c, rpc, e.now, e.net));
  }

  /** The io that the next call would go out over: that of the first idle connection, or a new one. */
  function NextIo(s: State): nat {
    if s.idle == [] || s.idle[0] !in s.conns || s.conns[s.idle[0]].status == Closed then s.nextIo
    else s.conns[s.idle[0]].ioId
  }

  /** In every run a call in time that gets a connection over which it can go out has been sent over its io. */
  lemma {:induction false} CallIsSent(events: seq<Event>, e: Event)
    ensures var s, t := After(events), After(events + [e]);
      e.Call? && !Exhausted(s.idle, s.nextConnId) && SendsAtOnce(NextStatus(s), e.net) &&
      e.now < e.called + (if e.timeout <= 0 then 1000 else e.timeout) ==>
        JustSent(t, Gotten(s.idle, s.nextConnId), s.nextRpc, NextIo(s), s.nextTimer) && t.log == s.log
  {
    var s := After(events);
    RunInv(events);
    InvKnown(s);
    if e.Call? {
      AfterNext(events, e, s);
      var sends := !Exhausted(s.idle, s.nextConnId) && SendsAtOnce(NextStatus(s), e.net);
      if sends && e.now < Deadline(e.timeout, e.called) { CallSends(s, e, Step(s, e)); }
    }
  }

  /**
   What the network decides about a call in time that gets a connection: a closed one must connect,
   at once and with a successful send or later; an open one must send.
   */
  lemma {:induction false} NetworkDecides(events: seq<Event>, e: Event)
    ensures var s, t := After(events), After(events + [e]);
      e.Call? && !Exhausted(s.idle, s.nextConnId) && e.now < e.called + (if e.timeout <= 0 then 1000 else e.timeout) ==>
        && (NextStatus(s) == Closed || NextStatus(s) == Connected)
        && (NextStatus(s) == Closed ==>
            (Pending(t, s.nextRpc) <==> e.net.connect == 1 || (e.net.connect == 0 && e.net.send == 0)))
        && (NextStatus(s) == Connected ==> (Pending(t, s.nextRpc) <==> e.net.send == 0))
  {
    var s := After(events);
    CallIsAccepted(events, e);
    RunInv(events);
    if s.idle != [] && s.idle[0] in s.conns {
      assert s.idle[0] in s.idle;
      assert ConnOk(s.conns[s.idle[0]], s.sent);
    }
  }

  /** A query that fails in time leaves the connection closed; one that comes too late leaves it as it was. */
  lemma {:induction false} FailedQueryCloses(s: State, c: nat, rpc: Rpc, now: nat, net: Net)
    requires c in s.conns && QueryResult(s.conns[c].status, rpc, now, net) != 0
    ensures var t := AfterConnQuery(s, c, rpc, now, net);
      && t.sent == s.sent && t.log == s.log && t.place == s.place
      && (now >= rpc.expire ==> QueryResult(s.conns[c].status, rpc, now, net) == -100 && t == s)
      && (now < rpc.expire ==>
          && QueryResult(s.conns[c].status, rpc, now, net) == -1
          && t.conns == s.conns[c := s.conns[c].(status := Closed, ioId := 0)])
  {
  }

  /** In every run a handed-off call that is late or cannot go out is answered with an error at once. */
  lemma {:induction false} DelayedCallFails(events: seq<Event>, e: Event)
    ensures var s, t := After(events), After(events + [e]);
      e.DelayTask? && e.task < |s.handoffs| && s.handoffs[e.task].conn in s.conns &&
      (e.now >= s.handoffs[e.task].rpc.expire || !Reached(s.conns[s.handoffs[e.task].conn].status, e.net)) ==>
        s.log + [Failed(s.handoffs[e.task].rpc.id)] <= t.log
  {
    var s := After(events);
    if e.DelayTask? && e.task < |s.handoffs| && s.handoffs[e.task].conn in s.conns {
      AfterNext(events, e, s);
      var h, mid := s.handoffs[e.task], Redeemed(s, e.task);
      if e.now >= h.rpc.expire || !Reached(s.conns[h.conn].status, e.net) {
        FailedQueryCloses(mid, h.conn, h.rpc, e.now, e.net);
        var u := AfterConnQuery(mid, h.conn, h.rpc, e.now, e.net);
        ReturnExtends(Answered(u, Failed(h.rpc.id)), h.conn, e.later);
      }
    }
  }

  /** In every run a handed-off call in time whose connection lets it go out has been sent over that connection. */
  lemma {:induction false} DelayedCallIsSent(events: seq<Event>, e: Event)
    ensures var s, t := After(events), After(events + [e]);
      e.DelayTask? && e.task < |s.handoffs| && s.handoffs[e.task].conn in s.conns &&
      e.now < s.handoffs[e.task].rpc.expire && SendsAtOnce(s.conns[s.handoffs[e.task].conn].status, e.net) ==>
        var h := s.handoffs[e.task];
        JustSent(t, h.conn, h.rpc.id, IoOf(s, h.conn), s.nextTimer) && t.log == s.log
  {
    var s := After(events);
    if e.DelayTask? && e.task < |s.handoffs| && s.handoffs[e.task].conn in s.conns {
      AfterNext(events, e, s);
      var h := s.handoffs[e.task];
      if e.now < h.rpc.expire && SendsAtOnce(s.conns[h.conn].status, e.net) {
        var mid := Redeemed(s, e.task);
        ConnQuerySends(mid, h.conn, h.rpc, e.now, e.net, AfterConnQuery(mid, h.conn, h.rpc, e.now, e.net));
      }
    }
  }

  /** In every run a message on the io over which a call has just been sent answers that call. */
  lemma {:induction false} ReplySucceeds(events: seq<Event>, c: nat, id: nat, io: nat, timer: nat, e: Event)
    requires e.MessageEvent? && e.conn == c && e.io == io
    ensures var s := After(events);
      JustSent(s, c, id, io, timer) ==> s.log + [Replied(id, io)] <= After(events + [e]).log
  {
    var s := After(events);
    RunInv(events);
    if JustSent(s, c, id, io, timer) {
      assert ConnOk(s.conns[c], s.sent);
      EndsCall(events, e, c);
    }
  }

  /** Events with ids that are not current change nothing, but for a message after its call, which drops the io. */
  lemma {:induction false} StaleIgnored(events: seq<Event>, e: Event)
    ensures var s, t := After(events), After(events + [e]);
      && (e.TimerEvent? && e.conn in s.conns && e.timer != s.conns[e.conn].timerId ==> t == s)
      && (e.CloseEvent? && e.conn in s.conns && e.io != s.conns[e.conn].ioId ==> t == s)
      && (e.OpenEvent? && e.conn in s.conns && s.conns[e.conn].timerId == 0 ==> t == s)
      && (e.MessageEvent? && e.conn in s.conns && e.io > 0 && s.conns[e.conn].timerId == 0 ==>
          t == s.(conns := s.conns[e.conn := s.conns[e.conn].(status := Closed, ioId := 0)]))
  {
    var s := After(events);
    assert (events + [e])[..|events|] == events;
    RunInv(events);
    InvKnown(s);
    if e.MessageEvent? && e.conn in s.conns {
      var conn := s.conns[e.conn];
      assert conn.timerId == 0 ==>
        conn.(status := Closed, ioId := 0, timerId := 0) == conn.(status := Closed, ioId := 0);
    }
  }

  /** Delayed calls leave in the order of their arrival, and connections become idle in the order of their return. */
  lemma {:induction false} ReturnsInOrder(s: State, c: nat, now: nat)
    requires c in s.conns && s.conns[c].onBusy
    ensures var t := AfterReturn(s, c, now);
      && (s.delay == [] ==> t.idle == s.idle + [c] && t.handoffs == s.handoffs && t.log == s.log)
      && (s.delay != [] ==> t.delay == s.delay[1..])
      && (s.delay != [] && t.log == s.log ==> t.handoffs == s.handoffs + [Handoff(c, s.delay[0])] && t.idle == s.idle)
      && (s.delay != [] && t.log != s.log ==> t.handoffs == s.handoffs && t.idle == s.idle + [c])
  {
    assert |s.log + [Failed(if s.delay == [] then 0 else s.delay[0].id)]| != |s.log|;
  }

  /** The connection that has been idle longest is taken first. */
  lemma {:induction false} TakesInOrder(s: State)
    requires Known(s)
    ensures var t, c := AfterGet(s), Gotten(s.idle, s.nextConnId);
      && t.busy == s.busy + [c] && t.delay == s.delay
      && (if s.idle == [] then t.idle == [] && c == t.nextConnId == s.nextConnId + 1
          else c == s.idle[0] && t.idle == s.idle[1..] && t.nextConnId == s.nextConnId)
  {
  }

  //////////////////////////////////////////////////////////////////////////////
  // Fresh ids
  //////////////////////////////////////////////////////////////////////////////

  /** Every timer and every io in use is older than the next one. */
  ghost predicate Fresh(s: State) {
    forall c :: c in s.conns ==> s.conns[c].timerId < s.nextTimer && s.conns[c].ioId < s.nextIo
  }

  /** The two counters only grow. */
  ghost predicate Later(s: State, t: State) {
    s.nextTimer <= t.nextTimer && s.nextIo <= t.nextIo
  }

  lemma {:induction false} ReturnFresh(s: State, c: nat, now: nat)
    requires Fresh(s) && c in s.conns
    ensures Fresh(AfterReturn(s, c, now)) && Later(s, AfterReturn(s, c, now))
  {
  }

  lemma {:induction false} ResetFresh(s: State, c: nat, now: nat)
    requires Fresh(s) && s.nextTimer > 0 && s.nextIo > 0 && c in s.conns
    ensures Fresh(AfterReset(s, c, now)) && Later(s, AfterReset(s, c, now))
  {
    var t := if s.conns[c].rpc.Some? then Concluded(s, c, Failed(s.conns[c].rpc.value.id), Closed, 0)
             else Rewired(s, c, Closed, 0, 0);
    assert Fresh(t);
    ReturnFresh(t, c, now);
  }

  lemma {:induction false} MessageFresh(s: State, c: nat, io: nat, close: bool, now: nat)
    requires Fresh(s) && s.nextTimer > 0 && s.nextIo > 0 && c in s.conns
    ensures Fresh(AfterMessage(s, c, io, close, now)) && Later(s, AfterMessage(s, c, io, close, now))
  {
    var t := Received(s, c, io, close);
    assert Fresh(t);
    ReturnFresh(t, c, now);
  }

  lemma {:induction false} ConnQueryFresh(s: State, c: nat, rpc: Rpc, now: nat, net: Net, t: State)
    requires Fresh(s) && s.nextTimer > 0 && s.nextIo > 0 && c in s.conns && t == AfterConnQuery(s, c, rpc, now, net)
    ensures Fresh(t) && Later(s, t) && c in t.conns
  {
  }

  lemma {:induction false} GetFresh(s: State, t: State)
    requires Fresh(s) && s.nextTimer > 0 && s.nextIo > 0 && Known(s) && t == AfterGet(s)
    ensures Fresh(t) && Later(s, t) && t.nextTimer > 0 && t.nextIo > 0
  {
  }

  lemma {:induction false} TryFresh(s: State, c: nat, rpc: Rpc, now: nat, later: nat, net: Net)
    requires Fresh(s) && s.nextTimer > 0 && s.nextIo > 0 && c in s.conns
    ensures Fresh(AfterTry(s, c, rpc, now, later, net)) && Later(s, AfterTry(s, c, rpc, now, later, net))
  {
    var u := AfterConnQuery(s, c, rpc, now, net);
    ConnQueryFresh(s, c, rpc, now, net, u);
    ReturnFresh(u, c, later);
  }

  lemma {:induction false} QueryFresh(s: State, rpc: Rpc, now: nat, later: nat, net: Net, t: State)
    requires Fresh(s) && s.nextTimer > 0 && s.nextIo > 0 && Known(s) && t == AfterQuery(s, rpc, now, later, net)
    ensures Fresh(t) && Later(s, t)
  {
    if Exhausted(s.idle, s.nextConnId) {
      assert t.conns == s.conns;
    } else {
      var g := AfterGet(s);
      GetFresh(s, g);
      TriedFresh(s, g, Gotten(s.idle, s.nextConnId), rpc, now, later, net, t);
    }
  }

  lemma {:induction false} TriedFresh(s: State, g: State, c: nat, rpc: Rpc, now: nat, later: nat, net: Net, t: State)
    requires Later(s, g) && Fresh(g) && g.nextTimer > 0 && g.nextIo > 0
    requires c in g.conns && t == AfterTry(g, c, rpc, now, later, net)
    ensures Fresh(t) && Later(s, t)
  {
    TryFresh(g, c, rpc, now, later, net);
  }

  lemma {:induction false} CallFresh(s: State, e: Event, t: State)
    requires Fresh(s) && s.nextTimer > 0 && s.nextIo > 0 && Known(s) && e.Call? && t == Step(s, e)
    ensures Fresh(t) && Later(s, t)
  {
    var b, rpc := Begun(s), Rpc(s.nextRpc, Deadline(e.timeout, e.called));
    QueryFresh(b, rpc, e.now, e.later, e.net, AfterQuery(b, rpc, e.now, e.later, e.net));
  }

  lemma {:induction false} DelayTaskFresh(s: State, k: nat, now: nat, later: nat, net: Net)
    requires Fresh(s) && s.nextTimer > 0 && s.nextIo > 0 && k < |s.handoffs| && s.handoffs[k].conn in s.conns
    ensures var t := AfterDelayTask(s, k, now, later, net); Fresh(t) && Later(s, t)
  {
    var h, mid := s.handoffs[k], Redeemed(s, k);
    var u := AfterConnQuery(mid, h.conn, h.rpc, now, net);
    ConnQueryFresh(mid, h.conn, h.rpc, now, net, u);
    ReturnFresh(Answered(u, Failed(h.rpc.id)), h.conn, later);
  }

  lemma {:induction false} StepFresh(s: State, e: Event, t: State)
    requires Fresh(s) && s.nextTimer > 0 && s.nextIo > 0 && Known(s) && Enabled(s, e) && t == Step(s, e)
    ensures Fresh(t) && Later(s, t)
  {
    match e
    case Call(_, _, _, _, _) => CallFresh(s, e, t);
    case OpenEvent(c, _, _, now) => ResetFresh(s, c, now);
    case CloseEvent(c, _, now) => ResetFresh(s, c, now);
    case TimerEvent(c, _, now) => ResetFresh(s, c, now);
    case MessageEvent(c, io, close, now) => MessageFresh(s, c, io, close, now);
    case DelayTask(k, now, later, net) => DelayTaskFresh(s, k, now, later, net);
    case FailureTask(_) =>
  }

  /** In every run the timer and the io of a new call differ from all that were ever in use: an old timer is stale. */
  lemma {:induction false} RunFresh(events: seq<Event>, more: seq<Event>)
    ensures Fresh(After(events)) && Later(After(events), After(events + more))
    decreases |events| + |more|, |more|
  {
    if more != [] {
      var n := |more| - 1;
      RunFresh(events, more[..n]);
      var all, e := events + more[..n], more[n];
      RunFresh(all, []);
      assert events + more == all + [e];
      NextFresh(all, e);
    } else if events != [] {
      assert events + more == events;
      var n := |events| - 1;
      RunFresh(events[..n], []);
      assert events == events[..n] + [events[n]];
      NextFresh(events[..n], events[n]);
    } else {
      assert events + more == [];
    }
  }

  lemma {:induction false} NextFresh(events: seq<Event>, e: Event)
    requires Fresh(After(events))
    ensures Fresh(After(events + [e])) && Later(After(events), After(events + [e]))
  {
    var s := After(events);
    RunInv(events);
    assert (events + [e])[..|events|] == events;
    if Known(s) && Enabled(s, e) { StepFresh(s, e, Step(s, e)); }
  }

  /** When its connection opens, a waiting call goes out over it, and nothing else happens. */
  lemma {:induction false} OpenSendsCall(events: seq<Event>, c: nat, net: Net, now: nat)
    ensures var s := After(events);
      c in s.conns && s.conns[c].rpc.Some? && net.send == 0 ==>
        var t := After(events + [OpenEvent(c, s.conns[c].ioId, net, now)]);
        && t.conns == s.conns[c := s.conns[c].(status := Sending)]
        && t.sent == s.sent + {(s.conns[c].ioId, s.conns[c].rpc.value.id)} && t.log == s.log
  {
    var s := After(events);
    RunInv(events);
    InvKnown(s);
    if c in s.conns && s.conns[c].rpc.Some? && net.send == 0 {
      assert ConnOk(s.conns[c], s.sent);
      var e := OpenEvent(c, s.conns[c].ioId, net, now);
      assert (events + [e])[..|events|] == events;
    }
  }

  lemma {:induction false} PromisedTwice(handoffs: seq<Handoff>, c: nat, rpc: Rpc, place: map<nat, Place>,
                                         conns: map<nat, Conn>)
    requires PromisedBy(handoffs, c)
    ensures !HandoffsOk(handoffs + [Handoff(c, rpc)], place, conns)
  {
    var next := handoffs + [Handoff(c, rpc)];
    var i :| 0 <= i < |handoffs| && handoffs[i].conn == c;
    assert next[i].conn == c && next[|handoffs|].conn == c;
  }

  lemma {:induction false} PromisedReset(s: State, c: nat, now: nat)
    requires Inv(s) && c in s.conns && PromisedBy(s.handoffs, c)
    ensures !Inv(AfterReset(s, c, now))
  {
    var i :| 0 <= i < |s.handoffs| && s.handoffs[i].conn == c;
    assert s.conns[c].onBusy && s.conns[c].rpc.None?;
    var t := AfterReset(s, c, now);
    if s.delay == [] || now >= Squeezed(s.delay[0].expire) {
      assert t.handoffs[i].conn == c && !t.conns[c].onBusy;
    } else {
      PromisedTwice(s.handoffs, c, s.delay[0], t.place, t.conns);
    }
  }

  /** A close keeps the invariant exactly when it is stale or the connection is not promised to a delayed call. */
  lemma {:induction false} ClosingIsSafeUnlessPromised(s: State, c: nat, io: nat, now: nat)
    requires Inv(s) && c in s.conns
    ensures Inv(AfterClosed(s, c, io, now)) <==> (io == s.conns[c].ioId ==> !PromisedBy(s.handoffs, c))
  {
    if io == s.conns[c].ioId {
      if PromisedBy(s.handoffs, c) { PromisedReset(s, c, now); } else { AfterResetInv(s, c, now); }
    }
  }

  //////////////////////////////////////////////////////////////////////////////
  // Delayed calls: when their deadlines are honoured and when they are stranded
  //////////////////////////////////////////////////////////////////////////////

  /** A returned connection finds its first delayed call expired. */
  ghost predicate AnswersHead(s: State, t: State) {
    s.delay != [] && t.log == s.log + [Failed(s.delay[0].id)]
  }

  /** A return answers the first delayed call exactly when its deadline has passed, if and only if `ExpirySeen`. */
  lemma {:induction false} ReturnHonoursDeadline(s: State, c: nat, now: nat)
    requires c in s.conns && s.conns[c].onBusy && s.delay != [] && s.delay[0].expire < TWO_64
    ensures (AnswersHead(s, AfterReturn(s, c, now)) <==> now >= s.delay[0].expire) <==>
            ExpirySeen(s.delay[0].expire, now)
  {
    ExpiryIff(s.delay[0].expire, now);
    assert |s.log + [Failed(s.delay[0].id)]| != |s.log|;
  }

  /** A call that is answered as expired a second before its deadline. */
  lemma {:induction false} AnsweredEarly(s: State, c: nat)
    requires c in s.conns && s.conns[c].onBusy && s.delay != [] && s.delay[0].expire == 1_697_000_000_000
    ensures AnswersHead(s, AfterReturn(s, c, 1_696_999_999_000))
  {
    LowOf(1_697_000_000_000, 487_918_080, 395);
  }

  /** A call that is handed off a second after its deadline. */
  lemma {:induction false} HandedOffLate(s: State, c: nat)
    requires c in s.conns && s.conns[c].onBusy && s.delay != [] && s.delay[0].expire == 1_700_000_000_000
    ensures AfterReturn(s, c, 1_700_000_001_000) == Promised(Dequeued(s), c, s.delay[0])
  {
    LowOf(1_700_000_000_000, 3_487_918_080, 395);
  }

  /** No delayed call waits beside an idle connection. */
  ghost predicate NoneStranded(s: State) {
    s.delay != [] ==> s.idle == []
  }

  /** A return strands delayed calls exactly when the first of at least two is found expired. */
  lemma {:induction false} ReturnStrands(s: State, c: nat, now: nat)
    requires c in s.conns && s.conns[c].onBusy && NoneStranded(s)
    ensures NoneStranded(AfterReturn(s, c, now)) <==> !(|s.delay| >= 2 && now >= Squeezed(s.delay[0].expire))
  {
  }

  /** Calls are delayed only when no more connections may be created. */
  ghost predicate Full(s: State) {
    s.delay != [] ==> s.nextConnId > MAX_CONN_ID
  }

  /** The delay queue has lost its head or is the same, and no connection is gone. */
  ghost predicate Drains(s: State, t: State) {
    t.nextConnId >= s.nextConnId && (t.delay == s.delay || (s.delay != [] && t.delay == s.delay[1..]))
  }

  lemma {:induction false} TryDrains(s: State, c: nat, rpc: Rpc, now: nat, later: nat, net: Net)
    requires c in s.conns
    ensures Drains(s, AfterTry(s, c, rpc, now, later, net))
    ensures s.delay == [] ==> AfterTry(s, c, rpc, now, later, net).delay == []
  {
    var t := AfterConnQuery(s, c, rpc, now, net);
    assert t.delay == s.delay && t.nextConnId == s.nextConnId && c in t.conns;
  }

  /** A call is delayed when all connections are taken; otherwise it leaves the queue alone when that is empty. */
  lemma {:induction false} QueryDelays(s: State, rpc: Rpc, now: nat, later: nat, net: Net, t: State)
    requires Known(s) && t == AfterQuery(s, rpc, now, later, net)
    ensures if Exhausted(s.idle, s.nextConnId) then t.nextConnId == s.nextConnId && t.idle == []
            else Drains(s, t) && (s.delay == [] ==> t.delay == [])
  {
    if !Exhausted(s.idle, s.nextConnId) {
      TryDrains(AfterGet(s), Gotten(s.idle, s.nextConnId), rpc, now, later, net);
    }
  }

  lemma {:induction false} CallDelays(s: State, e: Event, t: State)
    requires Known(s) && e.Call? && t == Step(s, e)
    ensures if Exhausted(s.idle, s.nextConnId) then t.nextConnId == s.nextConnId && t.idle == []
            else Drains(s, t) && (s.delay == [] ==> t.delay == [])
  {
    var b, rpc := Begun(s), Rpc(s.nextRpc, Deadline(e.timeout, e.called));
    QueryDelays(b, rpc, e.now, e.later, e.net, AfterQuery(b, rpc, e.now, e.later, e.net));
  }

  lemma {:induction false} ResetDrains(s: State, c: nat, now: nat)
    requires c in s.conns
    ensures Drains(s, AfterReset(s, c, now))
  {
  }

  lemma {:induction false} DelayTaskDrains(s: State, k: nat, now: nat, later: nat, net: Net)
    requires k < |s.handoffs| && s.handoffs[k].conn in s.conns
    ensures Drains(s, AfterDelayTask(s, k, now, later, net))
  {
    var h := s.handoffs[k];
    var t := AfterConnQuery(Redeemed(s, k), h.conn, h.rpc, now, net);
    assert t.delay == s.delay && t.nextConnId == s.nextConnId;
  }

  lemma {:induction false} StepFull(s: State, e: Event, t: State)
    requires Known(s) && Enabled(s, e) && t == Step(s, e) && Full(s)
    ensures Full(t)
  {
    match e
    case Call(_, _, _, _, _) => CallDelays(s, e, t);
    case OpenEvent(c, _, _, now) => ResetDrains(s, c, now);
    case CloseEvent(c, _, now) => ResetDrains(s, c, now);
    case TimerEvent(c, _, now) => ResetDrains(s, c, now);
    case MessageEvent(_, _, _, _) =>
    case DelayTask(k, now, later, net) => DelayTaskDrains(s, k, now, later, net);
    case FailureTask(_) =>
  }

  lemma {:induction false} RunFull(events: seq<Event>)
    ensures Full(After(events))
  {
    if events != [] {
      var s, e := After(events[..|events| - 1]), events[|events| - 1];
      RunFull(events[..|events| - 1]);
      if Known(s) && Enabled(s, e) { StepFull(s, e, Step(s, e)); }
    }
  }

  /** The first of at least two delayed calls is found expired. */
  predicate HeadExpires(s: State, now: nat) {
    |s.delay| >= 2 && now >= Squeezed(s.delay[0].expire)
  }

  /** The event returns a busy connection to a queue whose head is found expired and that has more calls. */
  predicate Strands(s: State, e: Event)
    requires Enabled(s, e)
  {
    match e
    case OpenEvent(c, io, net, now) =>
      s.conns[c].onBusy && s.conns[c].timerId != 0 && !Sends(s.conns[c], io, net) && HeadExpires(s, now)
    case CloseEvent(c, io, now) => s.conns[c].onBusy && io == s.conns[c].ioId && HeadExpires(s, now)
    case MessageEvent(c, _, _, now) => s.conns[c].onBusy && s.conns[c].timerId != 0 && HeadExpires(s, now)
    case TimerEvent(c, timer, now) => s.conns[c].onBusy && s.conns[c].timerId == timer && HeadExpires(s, now)
    case DelayTask(k, now, later, net) =>
      var h := s.handoffs[k];
      && h.conn in s.conns && s.conns[h.conn].onBusy
      && QueryResult(s.conns[h.conn].status, h.rpc, now, net) != 0 && HeadExpires(s, later)
    case _ => false
  }

  lemma {:induction false} ResetStrands(s: State, c: nat, now: nat)
    requires c in s.conns && NoneStranded(s)
    ensures NoneStranded(AfterReset(s, c, now)) <==> !(s.conns[c].onBusy && HeadExpires(s, now))
  {
    if s.conns[c].onBusy {
      var t := if s.conns[c].rpc.Some? then Concluded(s, c, Failed(s.conns[c].rpc.value.id), Closed, 0)
               else Rewired(s, c, Closed, 0, 0);
      ReturnStrands(t, c, now);
    }
  }

  lemma {:induction false} MessageStrands(s: State, c: nat, io: nat, close: bool, now: nat)
    requires c in s.conns && NoneStranded(s)
    ensures NoneStranded(AfterMessage(s, c, io, close, now)) <==>
      !(s.conns[c].onBusy && s.conns[c].timerId != 0 && HeadExpires(s, now))
  {
    if s.conns[c].onBusy && s.conns[c].timerId != 0 { ReturnStrands(Received(s, c, io, close), c, now); }
  }

  lemma {:induction false} DelayTaskStrands(s: State, k: nat, h: Handoff, now: nat, later: nat, net: Net, t: State)
    requires k < |s.handoffs| && h == s.handoffs[k] && h.conn in s.conns && NoneStranded(s)
    requires t == AfterConnQuery(Redeemed(s, k), h.conn, h.rpc, now, net)
    ensures h.conn in t.conns
    ensures var result := QueryResult(s.conns[h.conn].status, h.rpc, now, net);
      NoneStranded(AfterDelayQuery(t, h, result, later)) <==>
      !(result != 0 && s.conns[h.conn].onBusy && HeadExpires(s, later))
  {
    assert t.delay == s.delay && t.idle == s.idle && t.conns[h.conn].onBusy == s.conns[h.conn].onBusy;
    if s.conns[h.conn].onBusy { ReturnStrands(Answered(t, Failed(h.rpc.id)), h.conn, later); }
  }

  lemma {:induction false} StepStrands(s: State, e: Event, t: State)
    requires Known(s) && Full(s) && Enabled(s, e) && t == Step(s, e) && NoneStranded(s)
    ensures NoneStranded(t) <==> !Strands(s, e)
  {
    match e
    case Call(_, _, _, _, _) => CallDelays(s, e, t);
    case OpenEvent(c, _, _, now) => ResetStrands(s, c, now);
    case CloseEvent(c, _, now) => ResetStrands(s, c, now);
    case TimerEvent(c, _, now) => ResetStrands(s, c, now);
    case MessageEvent(c, io, close, now) => MessageStrands(s, c, io, close, now);
    case DelayTask(k, now, later, net) =>
      var h := s.handoffs[k];
      DelayTaskStrands(s, k, h, now, later, net, AfterConnQuery(Redeemed(s, k), h.conn, h.rpc, now, net));
    case FailureTask(_) =>
  }

  /** In every run, delayed calls come to wait beside an idle connection exactly by an event that strands them. */
  lemma {:induction false} StrandedIff(events: seq<Event>, e: Event)
    ensures var s := After(events);
      NoneStranded(s) && Enabled(s, e) ==> (NoneStranded(After(events + [e])) <==> !Strands(s, e))
  {
    var s := After(events);
    RunFull(events);
    if NoneStranded(s) && Enabled(s, e) {
      AfterNext(events, e, s);
      StepStrands(s, e, Step(s, e));
    }
  }

  /** A call that waits for a connection to open, for a millisecond. */
  const ShortCall: Event := Call(1, 0, 0, 0, Net(1, 0))

  function ShortCalls(n: nat): seq<Event> {
    seq(n, _ => ShortCall)
  }

  /** With nothing idle and a connection to spare, a short call gets a new connection and a new timer. */
  lemma {:induction false} ShortCallConnects(s: State, t: State)
    requires Known(s) && t == Step(s, ShortCall) && s.idle == [] && s.nextConnId <= MAX_CONN_ID
    ensures t.idle == [] && t.delay == s.delay && t.nextConnId == s.nextConnId + 1 && t.nextTimer == s.nextTimer + 1
    ensures t.conns == s.conns[t.nextConnId := Conn(Connecting, s.nextIo, Some(Rpc(s.nextRpc, 1)), s.nextTimer, true)]
  {
    var b, rpc := Begun(s), Rpc(s.nextRpc, 1);
    assert AfterGet(b) == Created(b);
    assert t == AfterConnQuery(Created(b), b.nextConnId + 1, rpc, 0, Net(1, 0));
  }

  /** With nothing idle and no connection to spare, it is delayed. */
  lemma {:induction false} ShortCallDelayed(s: State, t: State)
    requires Known(s) && t == Step(s, ShortCall) && Exhausted(s.idle, s.nextConnId)
    ensures t.idle == [] && t.delay == s.delay + [Rpc(s.nextRpc, 1)]
    ensures t.nextConnId == s.nextConnId && t.conns == s.conns
  {
  }

  lemma {:induction false} AfterNext(events: seq<Event>, e: Event, s: State)
    requires s == After(events) && Enabled(s, e)
    ensures Known(s) && After(events + [e]) == Step(s, e)
  {
    RunInv(events);
    InvKnown(s);
    assert (events + [e])[..|events|] == events;
  }

  lemma {:induction false} NextShortCall(n: nat) returns (s: State, t: State)
    ensures s == After(ShortCalls(n)) && t == After(ShortCalls(n + 1)) && Known(s) && t == Step(s, ShortCall)
  {
    s := After(ShortCalls(n));
    AfterNext(ShortCalls(n), ShortCall, s);
    assert ShortCalls(n + 1) == ShortCalls(n) + [ShortCall];
    t := After(ShortCalls(n + 1));
  }

  /** The first connection waits for its io with the first timer. */
  ghost predicate FirstWaits(s: State) {
    1 in s.conns && s.conns[1].onBusy && s.conns[1].timerId == 1 && s.conns[1].rpc.Some?
  }

  /** All of `n` connections are taken and nothing is delayed. */
  ghost predicate AllTaken(s: State, n: nat) {
    && s.idle == [] && s.delay == [] && s.nextConnId == n && s.nextTimer == n + 1
    && (n > 0 ==> FirstWaits(s))
  }

  lemma {:induction false} OneMoreTaken(s: State, t: State, n: nat)
    requires Known(s) && AllTaken(s, n) && n <= MAX_CONN_ID && t == Step(s, ShortCall)
    ensures AllTaken(t, n + 1)
  {
    ShortCallConnects(s, t);
  }

  lemma {:induction false} AfterShortCalls(n: nat)
    requires n <= MAX_CONN_ID + 1
    ensures AllTaken(After(ShortCalls(n)), n)
  {
    if n > 0 {
      AfterShortCalls(n - 1);
      var s, t := NextShortCall(n - 1);
      OneMoreTaken(s, t, n - 1);
    } else {
      assert ShortCalls(0) == [];
    }
  }

  lemma {:induction false} TwoDelayed()
    ensures var s := After(ShortCalls(MAX_CONN_ID + 3));
      |s.delay| == 2 && s.delay[0].expire == 1 && FirstWaits(s)
  {
    var n := MAX_CONN_ID + 1;
    AfterShortCalls(n);
    var s, t := NextShortCall(n);
    ShortCallDelayed(s, t);
    var t', u := NextShortCall(n + 1);
    ShortCallDelayed(t', u);
  }

  /** A run that strands a call: 403 calls, and then the first one times out. */
  lemma {:induction false} StrandedInARun()
    ensures exists events :: !NoneStranded(After(events))
  {
    var events, e := ShortCalls(MAX_CONN_ID + 3), TimerEvent(1, 1, 1);
    TwoDelayed();
    AfterNext(events, e, After(events));
    TimeoutStrands(After(events), After(events + [e]));
  }

  lemma {:induction false} TimeoutStrands(s: State, t: State)
    requires FirstWaits(s) && |s.delay| == 2 && s.delay[0].expire == 1 && t == AfterTimer(s, 1, 1, 1)
    ensures !NoneStranded(t)
  {
    LowOf(1, 1, 0);
  }

  /** What has been called back stays called back, and what has been sent stays sent. */
  ghost predicate Extends(s: State, t: State) {
    s.log <= t.log && s.sent <= t.sent
  }

  lemma {:induction false} HistoryGrows(events: seq<Event>, e: Event)
    ensures Extends(After(events), After(events + [e]))
  {
    assert (events + [e])[..|events|] == events;
    var s := After(events);
    if Known(s) && Enabled(s, e) { StepExtends(s, e, Step(s, e)); }
  }

  lemma {:induction false} StepExtends(s: State, e: Event, t: State)
    requires Known(s) && Enabled(s, e) && t == Step(s, e)
    ensures Extends(s, t)
  {
    match e
    case Call(timeout, called, now, later, net) =>
      QueryExtends(Begun(s), Rpc(s.nextRpc, Deadline(timeout, called)), now, later, net);
    case DelayTask(k, now, later, net) => DelayTaskExtends(s, k, now, later, net);
    case FailureTask(_) =>
    case MessageEvent(c, io, close, now) => MessageExtends(s, c, io, close, now);
    case OpenEvent(c, _, _, now) => ResetExtends(s, c, now);
    case CloseEvent(c, _, now) => ResetExtends(s, c, now);
    case TimerEvent(c, _, now) => ResetExtends(s, c, now);
  }

  lemma {:induction false} MessageExtends(s: State, c: nat, io: nat, close: bool, now: nat)
    requires c in s.conns
    ensures Extends(s, AfterMessage(s, c, io, close, now))
  {
    ReturnExtends(Received(s, c, io, close), c, now);
  }

  lemma {:induction false} ResetExtends(s: State, c: nat, now: nat)
    requires c in s.conns
    ensures Extends(s, AfterReset(s, c, now))
  {
  }

  lemma {:induction false} DelayTaskExtends(s: State, k: nat, now: nat, later: nat, net: Net)
    requires k < |s.handoffs| && s.handoffs[k].conn in s.conns
    ensures Extends(s, AfterDelayTask(s, k, now, later, net))
  {
    var h := s.handoffs[k];
    var t := AfterConnQuery(Redeemed(s, k), h.conn, h.rpc, now, net);
    ConnQueryExtends(Redeemed(s, k), h.conn, h.rpc, now, net, t);
    ReturnExtends(Answered(t, Failed(h.rpc.id)), h.conn, later);
  }

  lemma {:induction false} ConnQueryExtends(s: State, c: nat, rpc: Rpc, now: nat, net: Net, t: State)
    requires c in s.conns && t == AfterConnQuery(s, c, rpc, now, net)
    ensures Extends(s, t) && c in t.conns
  {
  }

  lemma {:induction false} ReturnExtends(s: State, c: nat, now: nat)
    requires c in s.conns
    ensures Extends(s, AfterReturn(s, c, now))
  {
  }

  lemma {:induction false} TryExtends(s: State, c: nat, rpc: Rpc, now: nat, later: nat, net: Net)
    requires c in s.conns
    ensures Extends(s, AfterTry(s, c, rpc, now, later, net))
  {
    var t := AfterConnQuery(s, c, rpc, now, net);
    ConnQueryExtends(s, c, rpc, now, net, t);
    ReturnExtends(t, c, later);
  }

  lemma {:induction false} QueryExtends(s: State, rpc: Rpc, now: nat, later: nat, net: Net)
    requires Known(s)
    ensures Extends(s, AfterQuery(s, rpc, now, later, net))
  {
    if !Exhausted(s.idle, s.nextConnId) {
      TryExtends(AfterGet(s), Gotten(s.idle, s.nextConnId), rpc, now, later, net);
    }
  }

  //////////////////////////////////////////////////////////////////////////////
  // The service and its connections
  //////////////////////////////////////////////////////////////////////////////

  /** One service with all its connections; `place` and `sent` only record history. */
  class TokenlessService {
    var conns: map<nat, Conn>
    var idleConns: seq<nat>
    var busyConns: seq<nat>
    var idleConnCount: int
    var busyConnCount: int
    var nextConnId: nat
    var delayReqs: seq<Rpc>
    var handoffs: seq<Handoff>
    var posted: seq<nat>
    var nextRpc: nat
    var nextIo: nat
    var nextTimer: nat
    var log: seq<Outcome>
    var refs: map<nat, int>
    ghost var place: map<nat, Place>
    ghost var sent: set<(nat, nat)>
    const shortConnect: bool

    ghost function View(): State
      reads this
    {
      State(conns, idleConns, busyConns, idleConnCount, busyConnCount, nextConnId, delayReqs, handoffs, posted,
            nextRpc, nextIo, nextTimer, log, refs, place, sent)
    }

    constructor (shortConnect: bool)
      ensures View() == Initial && this.shortConnect == shortConnect
    {
      this.shortConnect := shortConnect;
      conns, idleConns, busyConns, idleConnCount, busyConnCount, nextConnId := map[], [], [], 0, 0, 0;
      delayReqs, handoffs, posted, nextRpc, nextIo, nextTimer := [], [], [], 0, 1, 1;
      log, refs, place, sent := [], map[], map[], {};
    }

    method Callback(o: Outcome)
      modifies this
      ensures View() == Answered(old(View()), o)
    {
      refs := Released(refs, o.rpc);
      log := log + [o];
      place := place[o.rpc := Done];
    }

    method GetIdleConn() returns (c: Option<nat>)
      requires Known(View())
      modifies this
      ensures c.None? <==> Exhausted(old(idleConns), old(nextConnId))
      ensures c.None? ==> View() == old(View())
      ensures c.Some? ==> View() == AfterGet(old(View())) && c.value == Gotten(old(idleConns), old(nextConnId))
    {
      if idleConns == [] && nextConnId > MAX_CONN_ID { return None; }
      var conn;
      if idleConns == [] { conn := CreateConn(); } else { conn := FetchConn(); }
      return Some(conn);
    }

    method CreateConn() returns (conn: nat)
      modifies this
      ensures View() == Created(old(View())) && conn == old(nextConnId) + 1
    {
      nextConnId := nextConnId + 1;
      conn := nextConnId;
      conns := conns[conn := NewConn];
      busyConnCount := busyConnCount + 1;
      busyConns := busyConns + [conn];
    }

    method FetchConn() returns (conn: nat)
      requires idleConns != [] && idleConns[0] in conns
      modifies this
      ensures View() == Fetched(old(View())) && conn == old(idleConns)[0]
    {
      idleConnCount := idleConnCount - 1;
      conn := idleConns[0];
      idleConns := idleConns[1..];
      busyConnCount := busyConnCount + 1;
      conns := conns[conn := conns[conn].(onBusy := true)];
      busyConns := busyConns + [conn];
    }

    /** The end of `ReturnIdleConn`: the connection moves from the busy to the idle list. */
    method MoveToIdle(c: nat)
      requires c in conns
      modifies this
      ensures View() == Returned(old(View()), c)
    {
      busyConnCount := busyConnCount - 1;
      idleConnCount := idleConnCount + 1;
      idleConns := idleConns + [c];
      busyConns := Without(busyConns, c);
      conns := conns[c := conns[c].(onBusy := false)];
    }

    method ReturnIdleConn(c: nat, now: nat)
      requires c in conns
      modifies this
      ensures View() == AfterReturn(old(View()), c, now)
    {
      if !conns[c].onBusy { return; }
      if delayReqs == [] {
        MoveToIdle(c);
      } else {
        var req := delayReqs[0];
        delayReqs := delayReqs[1..];
        place := place - {req.id};
        if now >= Squeezed(req.expire) {
          Callback(Failed(req.id));
          MoveToIdle(c);
        } else {
          handoffs := handoffs + [Handoff(c, req)];
          place := place[req.id := HandedOff];
        }
      }
    }

    method Reset(c: nat, now: nat)
      requires c in conns
      modifies this
      ensures View() == AfterReset(old(View()), c, now)
    {
      var rpcOld := conns[c].rpc;
      conns := conns[c := conns[c].(status := Closed, ioId := 0, rpc := None, timerId := 0)];
      if rpcOld.Some? {
        place := place - {rpcOld.value.id};
        Callback(Failed(rpcOld.value.id));
      }
      ReturnIdleConn(c, now);
    }

    method OnOpened(c: nat, io: nat, net: Net, now: nat) returns (result: int)
      requires c in conns
      modifies this
      ensures View() == AfterOpened(old(View()), c, io, net, now)
      ensures result == if old(conns)[c].timerId == 0 || Sends(old(conns)[c], io, net) then 0 else -1
    {
      if conns[c].timerId == 0 { return 0; }
      if Sends(conns[c], io, net) {
        conns := conns[c := conns[c].(status := Sending)];
        sent := sent + {(io, conns[c].rpc.value.id)};
        return 0;
      }
      Reset(c, now);
      return -1;
    }

    method OnClosed(c: nat, io: nat, now: nat)
      requires c in conns
      modifies this
      ensures View() == AfterClosed(old(View()), c, io, now)
    {
      var needReset := io == conns[c].ioId;
      if needReset { Reset(c, now); }
    }

    method OnTimer(c: nat, timer: nat, now: nat)
      requires c in conns
      modifies this
      ensures View() == AfterTimer(old(View()), c, timer, now)
    {
      if conns[c].timerId != timer { return; }
      Reset(c, now);
    }

    method ProcessMsg(c: nat, io: nat, eof: bool, now: nat)
      requires c in conns
      modifies this
      ensures View() == AfterMessage(old(View()), c, io, shortConnect || eof, now)
    {
      if conns[c].timerId == 0 {
        conns := conns[c := conns[c].(ioId := 0, status := Closed)];
        return;
      }
      Receive(c, io, eof);
      ReturnIdleConn(c, now);
    }

    method Receive(c: nat, io: nat, eof: bool)
      requires c in conns
      modifies this
      ensures View() == Received(old(View()), c, io, shortConnect || eof)
    {
      var rpcOld := conns[c].rpc;
      var success := Answers(conns[c], io);
      conns := conns[c := conns[c].(status := Connected, rpc := None, timerId := 0)];
      if shortConnect || eof || !success {
        conns := conns[c := conns[c].(ioId := 0, status := Closed)];
      }
      if rpcOld.Some? {
        place := place - {rpcOld.value.id};
        Callback(if success then Replied(rpcOld.value.id, io) else Failed(rpcOld.value.id));
      }
    }

    /** `TokenlessConn::Query`, on a connection that carries no call. */
    method ConnQuery(c: nat, rpc: Rpc, now: nat, net: Net) returns (result: int)
      requires c in conns && conns[c].rpc.None?
      modifies this
      ensures View() == AfterConnQuery(old(View()), c, rpc, now, net)
      ensures result == QueryResult(old(conns)[c].status, rpc, now, net)
    {
      if now >= rpc.expire { return -100; }
      var conn := conns[c];
      if conn.status == Closed {
        conn := conn.(status := Connecting, ioId := nextIo);
        nextIo := nextIo + 1;
        if net.connect == 1 {
          AssignCall(c, conn.(rpc := Some(rpc)));
          return 0;
        } else if net.connect == 0 && net.send == 0 {
          AssignCall(c, conn.(rpc := Some(rpc), status := Sending));
          return 0;
        }
      } else if conn.status == Connected && net.send == 0 {
        AssignCall(c, conn.(rpc := Some(rpc), status := Sending));
        return 0;
      }
      conns := conns[c := conn.(status := Closed, ioId := 0)];
      return -1;
    }

    /** The connection takes the call, with a new timer. */
    method AssignCall(c: nat, conn: Conn)
      requires c in conns && conn.rpc.Some? && conn.onBusy == conns[c].onBusy
      modifies this
      ensures View() == Assigned(old(View()), c, conn.rpc.value, conn.status, conn.ioId)
    {
      conns := conns[c := conn.(timerId := nextTimer)];
      nextTimer := nextTimer + 1;
      place := place[conn.rpc.value.id := AtConn(c)];
      if conn.status == Sending { sent := sent + {(conn.ioId, conn.rpc.value.id)}; }
    }

    /** A call is tried on a connection, which is returned if that fails. */
    method TryConn(c: nat, rpc: Rpc, now: nat, later: nat, net: Net) returns (result: int)
      requires c in conns && conns[c].rpc.None?
      modifies this
      ensures View() == AfterTry(old(View()), c, rpc, now, later, net)
      ensures result == QueryResult(old(conns)[c].status, rpc, now, net)
    {
      result := ConnQuery(c, rpc, now, net);
      if result != 0 { ReturnIdleConn(c, later); }
    }

    method Query(rpc: Rpc, now: nat, later: nat, net: Net) returns (result: int)
      requires Known(View())
      modifies this
      ensures View() == AfterQuery(old(View()), rpc, now, later, net)
      ensures result == ServiceResult(old(View()), rpc, now, net)
    {
      var c := GetIdleConn();
      if c.None? {
        if now >= rpc.expire { return -100; }
        delayReqs := delayReqs + [rpc];
        place := place[rpc.id := Delayed];
        return 0;
      }
      result := TryConn(c.value, rpc, now, later, net);
    }

    /** A new call takes a reference to its message. */
    method AddRef()
      modifies this
      ensures View() == Begun(old(View()))
    {
      refs := refs[nextRpc := 1];
      nextRpc := nextRpc + 1;
    }

    /** `RealQuery`: without a message, or when the selector has no service, nothing happens. */
    method RealQuery(hasMsg: bool, selected: bool, timeout: int, called: nat, now: nat, later: nat, net: Net)
      returns (result: int)
      requires Known(View())
      modifies this
      ensures hasMsg && selected ==> View() == AfterCall(old(View()), timeout, called, now, later, net)
      ensures !hasMsg || !selected ==> View() == old(View())
      ensures result == if !hasMsg then -1 else if !selected then -2
        else if ServiceResult(Begun(old(View())), Rpc(old(nextRpc), Deadline(timeout, called)), now, net) == 0 then 0
        else -3
    {
      if !hasMsg { return -1; }
      if !selected { return -2; }
      var rpc := Rpc(nextRpc, Deadline(timeout, called));
      AddRef();
      var answer := Query(rpc, now, later, net);
      if answer == 0 { return 0; }
      AsyncCallback(rpc.id);
      return -3;
    }

    method AsyncCallback(id: nat)
      modifies this
      ensures View() == Rejected(old(View()), id)
    {
      posted := posted + [id];
      refs := Released(refs, id);
      place := place[id := Posted];
    }

    /** A task posted by `AsyncCallback` runs. */
    method RunPosted(k: nat)
      requires k < |posted|
      modifies this
      ensures View() == Reported(old(View()), k)
    {
      var id := posted[k];
      posted := Without(posted, id);
      log := log + [Failed(id)];
      place := place[id := Done];
    }

    method ExecDelayReqCallback(k: nat, now: nat, later: nat, net: Net)
      requires Known(View()) && k < |handoffs|
      modifies this
      ensures View() == AfterDelayTask(old(View()), k, now, later, net)
    {
      var h := handoffs[k];
      handoffs := handoffs[..k] + handoffs[k + 1..];
      place := place - {h.rpc.id};
      var result := ConnQuery(h.conn, h.rpc, now, net);
      if result != 0 {
        Callback(Failed(h.rpc.id));
        ReturnIdleConn(h.conn, later);
      }
    }
  }
}
