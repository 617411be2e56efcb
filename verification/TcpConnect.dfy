/**
 The sender of a TCP connection: messages wait in a queue, the front one is written buffer by
 buffer as far as the socket takes it, and a message is released when it has been written or
 when the connection is closed.

 What the socket accepts is recorded in `wire`, and `released` lists the releases in order.
 Each write may accept any part of what it is given; an interrupted system call is repeated.
 */
module TcpConnect {
  import opened Wrappers

  /** A message of at least one buffer. */
  datatype OutMsg = OutMsg(id: nat, buffers: seq<seq<nat>>)

  datatype ConnectStatus = Closed | Connecting | Connected

  //////////////////////////////////////////////////////////////////////////////
  // Messages as bytes
  //////////////////////////////////////////////////////////////////////////////

  function Whole(buffers: seq<seq<nat>>): seq<nat> {
    if buffers == [] then [] else Whole(buffers[..|buffers| - 1]) + buffers[|buffers| - 1]
  }

  /** The messages one after the other. */
  function Flat(msgs: seq<OutMsg>): seq<nat> {
    if msgs == [] then [] else Flat(msgs[..|msgs| - 1]) + Whole(msgs[|msgs| - 1].buffers)
  }

  /** What has been written of a message. */
  function Part(sending: Option<OutMsg>, index: nat, sent: nat): seq<nat> {
    if sending.Some? && index < |sending.value.buffers| && sent <= |sending.value.buffers[index]|
    then Whole(sending.value.buffers[..index]) + sending.value.buffers[index][..sent]
    else []
  }

  function Current(sending: Option<OutMsg>): seq<OutMsg> {
    if sending.Some? then [sending.value] else []
  }

  lemma {:induction false} WholeStep(buffers: seq<seq<nat>>, i: nat)
    requires i < |buffers|
    ensures Whole(buffers[..i + 1]) == Whole(buffers[..i]) + buffers[i]
  {
    assert buffers[..i + 1][..i] == buffers[..i];
  }

  lemma {:induction false} FlatAppend(msgs: seq<OutMsg>, m: OutMsg)
    ensures Flat(msgs + [m]) == Flat(msgs) + Whole(m.buffers)
  {
    assert (msgs + [m])[..|msgs|] == msgs;
  }

  lemma {:induction false} FlatPrefix(a: seq<OutMsg>, b: seq<OutMsg>)
    ensures Flat(a) <= Flat(a + b)
    decreases |b|
  {
    if b == [] {
      assert a + b == a;
    } else {
      var n := |b| - 1;
      FlatPrefix(a, b[..n]);
      FlatAppend(a + b[..n], b[n]);
      assert a + b == a + b[..n] + [b[n]];
    }
  }

  lemma {:induction false} WholePrefix(buffers: seq<seq<nat>>, i: nat)
    requires i <= |buffers|
    ensures Whole(buffers[..i]) <= Whole(buffers)
    decreases |buffers| - i
  {
    if i == |buffers| {
      assert buffers[..i] == buffers;
    } else {
      WholeStep(buffers, i);
      WholePrefix(buffers, i + 1);
    }
  }

  /** The number of buffers still to be written. */
  function BuffersLeft(queue: seq<OutMsg>, sending: Option<OutMsg>, index: nat): nat {
    QueuedBuffers(queue) +
    (if sending.Some? && index <= |sending.value.buffers| then |sending.value.buffers| - index else 0)
  }

  function QueuedBuffers(queue: seq<OutMsg>): nat {
    if queue == [] then 0 else |queue[0].buffers| + QueuedBuffers(queue[1..])
  }

  //////////////////////////////////////////////////////////////////////////////
  // The invariant
  //////////////////////////////////////////////////////////////////////////////

  /** The cursor is within the message that is being written. */
  ghost predicate CursorOk(sending: Option<OutMsg>, index: nat, sent: nat) {
    sending.Some? ==> index < |sending.value.buffers| && sent <= |sending.value.buffers[index]|
  }

  /**
   Every message is released, being written or waiting, in the order of sending.  While the
   connection is open the wire has the released messages and a part of the current one.
   */
  ghost predicate Inv(open: bool, all: seq<OutMsg>, released: seq<OutMsg>, sending: Option<OutMsg>, queue: seq<OutMsg>,
                      index: nat, sent: nat, wire: seq<nat>)
  {
    && all == released + Current(sending) + queue
    && CursorOk(sending, index, sent)
    && (forall i :: 0 <= i < |queue| ==> |queue[i].buffers| > 0)
    && (open ==> wire == Flat(released) + Part(sending, index, sent))
    && (!open ==> sending.None? && wire <= Flat(released))
  }

  /** The bytes on the wire are a prefix of the messages in the order of sending. */
  lemma {:induction false} WireIsPrefix(open: bool, all: seq<OutMsg>, released: seq<OutMsg>, sending: Option<OutMsg>,
                                        queue: seq<OutMsg>, index: nat, sent: nat, wire: seq<nat>)
    requires Inv(open, all, released, sending, queue, index, sent, wire)
    ensures wire <= Flat(all)
  {
    PartOfFlat(released, sending, index, sent);
    FlatPrefix(released, Current(sending));
    FlatPrefix(released + Current(sending), queue);
  }

  lemma {:induction false} PartOfFlat(released: seq<OutMsg>, sending: Option<OutMsg>, index: nat, sent: nat)
    requires CursorOk(sending, index, sent)
    ensures Flat(released) + Part(sending, index, sent) <= Flat(released + Current(sending))
  {
    if sending.Some? {
      var buffers := sending.value.buffers;
      FlatAppend(released, sending.value);
      WholeStep(buffers, index);
      WholePrefix(buffers, index + 1);
    } else {
      assert released + [] == released;
    }
  }

  lemma {:induction false} PopKeeps(all: seq<OutMsg>, released: seq<OutMsg>, queue: seq<OutMsg>, index: nat,
                                    sent: nat, wire: seq<nat>)
    requires Inv(true, all, released, None, queue, index, sent, wire) && queue != []
    ensures Inv(true, all, released, Some(queue[0]), queue[1..], 0, 0, wire)
    ensures BuffersLeft(queue[1..], Some(queue[0]), 0) == BuffersLeft(queue, None, index)
  {
    assert queue == [queue[0]] + queue[1..];
    assert queue[0].buffers[..0] == [];
  }

  lemma {:induction false} WriteKeeps(all: seq<OutMsg>, released: seq<OutMsg>, m: OutMsg, queue: seq<OutMsg>,
                                      index: nat, sent: nat, wire: seq<nat>, n: nat)
    requires Inv(true, all, released, Some(m), queue, index, sent, wire) && sent + n <= |m.buffers[index]|
    ensures Inv(true, all, released, Some(m), queue, index, sent + n, wire + m.buffers[index][sent..sent + n])
  {
    Extended(Flat(released), Whole(m.buffers[..index]), m.buffers[index], sent, n);
  }

  lemma {:induction false} Extended(done: seq<nat>, part: seq<nat>, b: seq<nat>, sent: nat, n: nat)
    requires sent + n <= |b|
    ensures done + (part + b[..sent + n]) == done + (part + b[..sent]) + b[sent..sent + n]
  {
    assert b[..sent + n] == b[..sent] + b[sent..sent + n];
  }

  lemma {:induction false} NextBufferKeeps(all: seq<OutMsg>, released: seq<OutMsg>, m: OutMsg, queue: seq<OutMsg>,
                                           index: nat, wire: seq<nat>)
    requires index + 1 < |m.buffers| && Inv(true, all, released, Some(m), queue, index, |m.buffers[index]|, wire)
    ensures Inv(true, all, released, Some(m), queue, index + 1, 0, wire)
  {
    var b := m.buffers[index];
    WholeStep(m.buffers, index);
    assert b[..|b|] == b;
  }

  lemma {:induction false} FinishKeeps(all: seq<OutMsg>, released: seq<OutMsg>, m: OutMsg, queue: seq<OutMsg>,
                                       index: nat, wire: seq<nat>)
    requires index + 1 == |m.buffers| && Inv(true, all, released, Some(m), queue, index, |m.buffers[index]|, wire)
    ensures Inv(true, all, released + [m], None, queue, index + 1, |m.buffers[index]|, wire)
  {
    var b := m.buffers[index];
    WholeStep(m.buffers, index);
    assert b[..|b|] == b && m.buffers[..index + 1] == m.buffers;
    FlatAppend(released, m);
  }

  lemma {:induction false} CloseKeeps(all: seq<OutMsg>, released: seq<OutMsg>, sending: Option<OutMsg>,
                                      queue: seq<OutMsg>,
                                      index: nat, sent: nat, wire: seq<nat>)
    requires Inv(true, all, released, sending, queue, index, sent, wire)
    ensures Inv(false, all, all, None, [], 0, 0, wire)
  {
    WireIsPrefix(true, all, released, sending, queue, index, sent, wire);
    assert all + [] == all;
  }

  lemma {:induction false} QueueKeeps(open: bool, all: seq<OutMsg>, released: seq<OutMsg>, sending: Option<OutMsg>,
                                      queue: seq<OutMsg>, index: nat, sent: nat, wire: seq<nat>, m: OutMsg)
    requires Inv(open, all, released, sending, queue, index, sent, wire) && |m.buffers| > 0
    ensures Inv(open, all + [m], released, sending, queue + [m], index, sent, wire)
  {
  }

  //////////////////////////////////////////////////////////////////////////////
  // What a close leaves behind
  //////////////////////////////////////////////////////////////////////////////

  /**
   Of the messages `all`, the first `accepted` were sent while the connection was open.  An open
   connection has accepted all of them; a closed one has released these and still queues the others.
   */
  ghost predicate Accounted(open: bool, all: seq<OutMsg>, accepted: nat, released: seq<OutMsg>, queue: seq<OutMsg>) {
    && accepted <= |all|
    && (open ==> accepted == |all|)
    && (!open ==> released == all[..accepted] && queue == all[accepted..])
  }

  /** On a closed connection a message has been released exactly when it was sent before the close. */
  lemma {:induction false} ReleasedIffSentOpen(all: seq<OutMsg>, accepted: nat, released: seq<OutMsg>,
                                               queue: seq<OutMsg>, k: nat)
    requires Accounted(false, all, accepted, released, queue) && k < |all|
    ensures k < |released| <==> k < accepted
    ensures if k < accepted then released[k] == all[k] else queue[k - accepted] == all[k]
  {
  }

  /** A closed connection has released every message exactly when none was sent after the close. */
  lemma {:induction false} AllReleasedIffNoneLate(all: seq<OutMsg>, accepted: nat, released: seq<OutMsg>,
                                                  queue: seq<OutMsg>)
    requires Accounted(false, all, accepted, released, queue)
    ensures released == all <==> accepted == |all|
    ensures accepted == |all| <==> queue == []
  {
    assert |released| == accepted;
    assert accepted == |all| ==> all[..accepted] == all;
  }

  //////////////////////////////////////////////////////////////////////////////
  // The connection
  //////////////////////////////////////////////////////////////////////////////

  class TcpConn {
    var fdOpen: bool
    var connectStatus: ConnectStatus
    var outMsgQueue: seq<OutMsg>
    var sendingMsg: Option<OutMsg>
    var sendingBufferIndex: nat
    var dataSent: nat
    var wire: seq<nat>
    var released: seq<OutMsg>
    /** All messages, how many of them were sent while open, and what the last write answered. */
    ghost var all: seq<OutMsg>
    ghost var accepted: nat
    ghost var lastResult: int

    ghost predicate Valid()
      reads this
    {
      && Inv(fdOpen, all, released, sendingMsg, outMsgQueue, sendingBufferIndex, dataSent, wire)
      && Accounted(fdOpen, all, accepted, released, outMsgQueue)
      && (connectStatus == Closed <==> !fdOpen)
    }

    /** After `Connect` or `PassiveConnected` has opened the socket. */
    constructor (connected: bool)
      ensures Valid() && fdOpen && all == [] && wire == []
    {
      fdOpen, connectStatus := true, if connected then Connected else Connecting;
      outMsgQueue, sendingMsg, sendingBufferIndex, dataSent := [], None, 0, 0;
      wire, released, all, accepted, lastResult := [], [], [], 0, 0;
    }

    /** `NetworkUtil::Send`: all of the data, or a part of it and the reason: 1 for a full socket, -1 for an error. */
    method Send(data: seq<nat>) returns (sent: nat, result: int)
      modifies this`wire, this`lastResult
      ensures sent <= |data| && wire == old(wire) + data[..sent]
      ensures (result == 0 <==> sent == |data|) && -1 <= result <= 1 && lastResult == result
    {
      sent, lastResult := 0, 0;
      while sent < |data|
        invariant 0 <= sent <= |data| && wire == old(wire) + data[..sent] && lastResult == 0
      {
        var accepted :| -1 <= accepted <= |data| - sent;
        if accepted <= 0 {
          lastResult := if accepted == 0 then 1 else -1;
          return sent, if accepted == 0 then 1 else -1;
        }
        wire := wire + data[sent..sent + accepted];
        assert data[..sent + accepted] == data[..sent] + data[sent..sent + accepted];
        sent := sent + accepted;
      }
      return sent, 0;
    }

    /** Takes the next message from the queue. */
    method PopMsg()
      requires Valid() && fdOpen && sendingMsg.None? && outMsgQueue != []
      modifies this
      ensures Valid() && sendingMsg.Some? && fdOpen && connectStatus == old(connectStatus)
      ensures accepted == old(accepted)
      ensures all == old(all) && wire == old(wire) && released == old(released) && lastResult == old(lastResult)
      ensures BuffersLeft(outMsgQueue, sendingMsg, sendingBufferIndex) ==
        BuffersLeft(old(outMsgQueue), None, old(sendingBufferIndex))
    {
      PopKeeps(all, released, outMsgQueue, sendingBufferIndex, dataSent, wire);
      sendingMsg := Some(outMsgQueue[0]);
      outMsgQueue := outMsgQueue[1..];
      sendingBufferIndex, dataSent := 0, 0;
    }

    /** Moves on after the current buffer has been written; the last buffer releases the message. */
    method BufferSent()
      requires Valid() && fdOpen && sendingMsg.Some? && dataSent == |sendingMsg.value.buffers[sendingBufferIndex]|
      modifies this
      ensures Valid() && fdOpen && connectStatus == old(connectStatus) && accepted == old(accepted)
      ensures all == old(all) && wire == old(wire) && old(released) <= released && lastResult == old(lastResult)
      ensures BuffersLeft(outMsgQueue, sendingMsg, sendingBufferIndex) + 1 ==
        BuffersLeft(old(outMsgQueue), old(sendingMsg), old(sendingBufferIndex))
    {
      ghost var m, i := sendingMsg.value, sendingBufferIndex;
      sendingBufferIndex := sendingBufferIndex + 1;
      if sendingBufferIndex == |sendingMsg.value.buffers| {
        FinishKeeps(all, released, m, outMsgQueue, i, wire);
        released := released + [sendingMsg.value];
        sendingMsg := None;
      } else {
        NextBufferKeeps(all, released, m, outMsgQueue, i, wire);
        dataSent := 0;
      }
    }

    /** Writes as much as the socket takes: everything, unless the last write found it full or failed. */
    method TrySend() returns (result: int)
      requires Valid() && fdOpen
      modifies this
      ensures Valid() && fdOpen && connectStatus == old(connectStatus) && accepted == old(accepted)
      ensures all == old(all) && old(wire) <= wire && old(released) <= released
      ensures -1 <= lastResult <= 1 && result == if lastResult == -1 then -1 else 0
      ensures lastResult == 0 <==> sendingMsg.None?
      ensures lastResult == 0 ==> released == all && wire == Flat(all)
    {
      lastResult := 0;
      while true
        invariant Valid() && fdOpen && connectStatus == old(connectStatus) && accepted == old(accepted)
        invariant all == old(all) && old(wire) <= wire && old(released) <= released && lastResult == 0
        decreases BuffersLeft(outMsgQueue, sendingMsg, sendingBufferIndex)
      {
        if sendingMsg.None? {
          if outMsgQueue == [] { return 0; }
          PopMsg();
        }
        var sendResult := SendBuffer();
        if sendResult == 1 { return 0; }
        if sendResult != 0 { return -1; }
      }
    }

    /** Writes the rest of the current buffer as far as the socket takes it. */
    method SendBuffer() returns (sendResult: int)
      requires Valid() && fdOpen && sendingMsg.Some?
      modifies this
      ensures Valid() && fdOpen && connectStatus == old(connectStatus) && accepted == old(accepted)
      ensures -1 <= sendResult <= 1 && lastResult == sendResult
      ensures all == old(all) && old(wire) <= wire && old(released) <= released
      ensures sendResult != 0 ==> sendingMsg.Some?
      ensures sendResult == 0 ==> BuffersLeft(outMsgQueue, sendingMsg, sendingBufferIndex) + 1 ==
                                  old(BuffersLeft(outMsgQueue, sendingMsg, sendingBufferIndex))
      ensures sendResult != 0 ==> sendingMsg == old(sendingMsg) && sendingBufferIndex == old(sendingBufferIndex) &&
                                  outMsgQueue == old(outMsgQueue) && released == old(released)
    {
      sendResult := SendData();
      if dataSent == |sendingMsg.value.buffers[sendingBufferIndex]| { BufferSent(); }
    }

    /** The write itself: the cursor moves by what the socket accepts. */
    method SendData() returns (sendResult: int)
      requires Valid() && fdOpen && sendingMsg.Some?
      modifies this`wire, this`lastResult, this`dataSent
      ensures Valid() && old(wire) <= wire && -1 <= sendResult <= 1 && lastResult == sendResult
      ensures sendResult == 0 <==> dataSent == |sendingMsg.value.buffers[sendingBufferIndex]|
    {
      var buffer := sendingMsg.value.buffers[sendingBufferIndex];
      var rest := buffer[dataSent..];
      var sent;
      sent, sendResult := Send(rest);
      WriteKeeps(all, released, sendingMsg.value, outMsgQueue, sendingBufferIndex, dataSent, old(wire), sent);
      assert rest[..sent] == buffer[dataSent..dataSent + sent];
      dataSent := dataSent + sent;
    }

    /**
     The message joins the queue; a connected socket that is not busy is written to at once, and
     -1 means that this write failed.  Only a message sent to an open connection is ever released.
     */
    method SendMsg(msg: OutMsg) returns (result: int)
      requires Valid() && |msg.buffers| > 0
      modifies this
      ensures Valid() && fdOpen == old(fdOpen) && connectStatus == old(connectStatus)
      ensures all == old(all) + [msg] && old(wire) <= wire && old(released) <= released
      ensures accepted == old(accepted) + if fdOpen then 1 else 0
      ensures !fdOpen ==> wire == old(wire) && released == old(released) && result == 0
      ensures var writes := old(sendingMsg).None? && connectStatus == Connected;
        && result == (if writes && lastResult == -1 then -1 else 0)
        && (!writes ==> wire == old(wire) && released == old(released))
    {
      QueueKeeps(fdOpen, all, released, sendingMsg, outMsgQueue, sendingBufferIndex, dataSent, wire, msg);
      outMsgQueue := outMsgQueue + [msg];
      all := all + [msg];
      if fdOpen { accepted := accepted + 1; }
      if sendingMsg.Some? { return 0; }
      if connectStatus != Connected { return 0; }
      result := TrySend();
    }

    /** The socket has become writable; a pending connection is established or has failed. */
    method OnWrite(established: bool) returns (result: int)
      requires Valid() && fdOpen
      modifies this
      ensures Valid() && fdOpen && accepted == old(accepted)
      ensures all == old(all) && old(wire) <= wire && old(released) <= released
      ensures connectStatus == if old(connectStatus) == Connecting && established then Connected else old(connectStatus)
      ensures connectStatus == Connecting ==> result == -1 && wire == old(wire) && released == old(released)
      ensures connectStatus == Connected ==> result == if lastResult == -1 then -1 else 0
      ensures connectStatus == Connected && lastResult == 0 ==> released == all && wire == Flat(all)
    {
      if connectStatus == Connecting {
        if !established { return -1; }
        connectStatus := Connected;
      }
      result := TrySend();
    }

    /** Closing releases what has not been released; closing again does nothing. */
    method CloseWithoutLock() returns (result: int)
      requires Valid()
      modifies this
      ensures Valid() && !fdOpen && all == old(all) && wire == old(wire) && accepted == old(accepted)
      ensures result == if old(fdOpen) then 0 else -1
      ensures if old(fdOpen) then released == all else released == old(released)
    {
      if !fdOpen { return -1; }
      CloseKeeps(all, released, sendingMsg, outMsgQueue, sendingBufferIndex, dataSent, wire);
      fdOpen := false;
      connectStatus := Closed;
      RemoveSentFailMsg();
      return 0;
    }

    method RemoveSentFailMsg()
      modifies this`sendingMsg, this`dataSent, this`sendingBufferIndex, this`released, this`outMsgQueue
      ensures sendingMsg.None? && outMsgQueue == []
      ensures released == old(released) + Current(old(sendingMsg)) + old(outMsgQueue)
    {
      if sendingMsg.Some? {
        released := released + [sendingMsg.value];
        sendingMsg, dataSent, sendingBufferIndex := None, 0, 0;
      }
      while outMsgQueue != []
        invariant sendingMsg.None?
        invariant released + outMsgQueue == old(released) + Current(old(sendingMsg)) + old(outMsgQueue)
      {
        var msg := outMsgQueue[0];
        outMsgQueue := outMsgQueue[1..];
        released := released + [msg];
      }
    }
  }

  /** What happens to a connection: a send, a writable socket, a close. */
  datatype Act = SendAct(msg: OutMsg) | WriteAct(established: bool) | CloseAct

  /** The messages that a run sends, and those that it sends before its first close. */
  ghost function Sends(acts: seq<Act>): seq<OutMsg> {
    if acts == [] then []
    else
      var a := acts[|acts| - 1];
      Sends(acts[..|acts| - 1]) + (if a.SendAct? then [a.msg] else [])
  }

  ghost function SendsBeforeClose(acts: seq<Act>): seq<OutMsg> {
    if acts == [] then []
    else
      var front, a := acts[..|acts| - 1], acts[|acts| - 1];
      SendsBeforeClose(front) + (if a.SendAct? && CloseAct !in front then [a.msg] else [])
  }

  /** No message is sent after a close. */
  ghost predicate NoneLate(acts: seq<Act>) {
    forall i, j :: 0 <= i < j < |acts| && acts[i].CloseAct? ==> !acts[j].SendAct?
  }

  lemma {:induction false} NoneLateAppend(front: seq<Act>, a: Act, acts: seq<Act>)
    requires acts == front + [a]
    ensures NoneLate(acts) <==> NoneLate(front) && (a.SendAct? ==> CloseAct !in front)
  {
    if NoneLate(acts) {
      forall i, j | 0 <= i < j < |front| && front[i].CloseAct? ensures !front[j].SendAct? {
        assert acts[i] == front[i] && acts[j] == front[j];
      }
      if CloseAct in front {
        var i :| 0 <= i < |front| && front[i] == CloseAct;
        assert acts[i].CloseAct? && acts[|front|] == a;
      }
    }
  }

  /** A run releases all its messages by its close exactly when it sends none after a close. */
  lemma {:induction false} LateSendsLost(acts: seq<Act>)
    ensures |SendsBeforeClose(acts)| <= |Sends(acts)|
    ensures SendsBeforeClose(acts) == Sends(acts) <==> NoneLate(acts)
  {
    if acts != [] {
      var front, a := acts[..|acts| - 1], acts[|acts| - 1];
      LateSendsLost(front);
      NoneLateAppend(front, a, acts);
      assert SendsBeforeClose(front) + [] == SendsBeforeClose(front) && Sends(front) + [] == Sends(front);
      if a.SendAct? && CloseAct !in front { SameWithOneMore(SendsBeforeClose(front), Sends(front), a.msg); }
    }
  }

  lemma {:induction false} SameWithOneMore(a: seq<OutMsg>, b: seq<OutMsg>, m: OutMsg)
    ensures a + [m] == b + [m] <==> a == b
  {
    if a + [m] == b + [m] { assert a == (a + [m])[..|a|] && b == (b + [m])[..|b|]; }
  }

  lemma {:induction false} NextSends(acts: seq<Act>, i: nat, done: seq<Act>, next: seq<Act>)
    requires i < |acts| && done == acts[..i] && next == acts[..i + 1]
    ensures Sends(next) == Sends(done) + (if acts[i].SendAct? then [acts[i].msg] else [])
    ensures SendsBeforeClose(next) ==
      SendsBeforeClose(done) + (if acts[i].SendAct? && CloseAct !in done then [acts[i].msg] else [])
    ensures CloseAct in next <==> CloseAct in done || acts[i] == CloseAct
  {
    assert next[..i] == done && next == done + [acts[i]];
  }

  /**
   Every run: the connection is closed exactly when the run has a close, and then the released
   messages are exactly those sent before the first close; the later ones wait for ever.
   */
  method Run(connected: bool, acts: seq<Act>) returns (c: TcpConn)
    requires forall i :: 0 <= i < |acts| && acts[i].SendAct? ==> |acts[i].msg.buffers| > 0
    ensures fresh(c) && c.Valid() && c.all == Sends(acts) && c.wire <= Flat(c.all)
    ensures !c.fdOpen <==> CloseAct in acts
    ensures !c.fdOpen ==> c.released == SendsBeforeClose(acts)
  {
    c := new TcpConn(connected);
    for i := 0 to |acts|
      invariant fresh(c) && c.Valid() && c.all == Sends(acts[..i])
      invariant !c.fdOpen <==> CloseAct in acts[..i]
      invariant c.all[..c.accepted] == SendsBeforeClose(acts[..i])
    {
      NextSends(acts, i, acts[..i], acts[..i + 1]);
      RunStep(c, acts[i]);
    }
    assert acts[..|acts|] == acts;
    WireIsPrefix(c.fdOpen, c.all, c.released, c.sendingMsg, c.outMsgQueue, c.sendingBufferIndex, c.dataSent, c.wire);
  }

  /** One act; a closed socket is never writable. */
  method RunStep(c: TcpConn, a: Act)
    requires c.Valid() && (a.SendAct? ==> |a.msg.buffers| > 0)
    modifies c
    ensures c.Valid() && c.all == old(c.all) + (if a.SendAct? then [a.msg] else [])
    ensures c.fdOpen == (old(c.fdOpen) && !a.CloseAct?)
    ensures c.all[..c.accepted] == old(c.all[..c.accepted]) + (if a.SendAct? && old(c.fdOpen) then [a.msg] else [])
  {
    var result;
    match a
    case SendAct(msg) => result := c.SendMsg(msg);
    case WriteAct(established) => if c.fdOpen { result := c.OnWrite(established); }
    case CloseAct => result := c.CloseWithoutLock();
  }

  /** A run that loses a message: sent after the close, it stays in the queue, also when the close is repeated. */
  method LateMessageStays(msg: OutMsg) returns (c: TcpConn)
    requires |msg.buffers| > 0
    ensures fresh(c) && c.Valid() && !c.fdOpen
    ensures c.all == [msg] && c.released == [] && c.outMsgQueue == [msg] && c.wire == []
  {
    c := new TcpConn(true);
    var closed := c.CloseWithoutLock();
    var sent := c.SendMsg(msg);
    closed := c.CloseWithoutLock();
  }
}
