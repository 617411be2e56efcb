/**
 The line framer of the memcached server protocol: bytes are received into a bounded buffer,
 every newline ends a message, and what follows the last newline stays in the buffer.
 */
module MemcachedServerMsg {
  import opened LittleEndian

  const NEWLINE: Byte := 10

  //////////////////////////////////////////////////////////////////////////////
  // Framing byte by byte
  //////////////////////////////////////////////////////////////////////////////

  /** The messages so far and the bytes after the last newline. */
  datatype Frames = Frames(msgs: seq<seq<Byte>>, pending: seq<Byte>)

  const Nothing: Frames := Frames([], [])

  function Pushed(f: Frames, b: Byte): Frames {
    if b == NEWLINE then Frames(f.msgs + [f.pending + [b]], []) else Frames(f.msgs, f.pending + [b])
  }

  function Scan(f: Frames, s: seq<Byte>): Frames {
    if s == [] then f else Pushed(Scan(f, s[..|s| - 1]), s[|s| - 1])
  }

  lemma {:induction false} ScanAppend(f: Frames, s: seq<Byte>, b: Byte)
    ensures Scan(f, s + [b]) == Pushed(Scan(f, s), b)
  {
    assert (s + [b])[..|s|] == s;
  }

  /** Framing does not depend on where the stream is cut. */
  lemma {:induction false} ScanConcat(f: Frames, a: seq<Byte>, b: seq<Byte>)
    ensures Scan(f, a + b) == Scan(Scan(f, a), b)
    decreases |b|
  {
    if b == [] {
      assert a + b == a;
    } else {
      var n := |b| - 1;
      ScanConcat(f, a, b[..n]);
      ScanAppend(f, a + b[..n], b[n]);
      assert a + b == a + b[..n] + [b[n]];
    }
  }

  function Joined(msgs: seq<seq<Byte>>): seq<Byte> {
    if msgs == [] then [] else Joined(msgs[..|msgs| - 1]) + msgs[|msgs| - 1]
  }

  /** A newline at the end and nowhere else. */
  ghost predicate IsLine(m: seq<Byte>) {
    m != [] && m[|m| - 1] == 10 && 10 !in m[..|m| - 1]
  }

  /** The frames are the stream cut behind every newline. */
  ghost predicate Cuts(f: Frames, s: seq<Byte>) {
    && Joined(f.msgs) + f.pending == s
    && (forall i :: 0 <= i < |f.msgs| ==> IsLine(f.msgs[i]))
    && 10 !in f.pending
  }

  lemma {:induction false} PushedCuts(f: Frames, s: seq<Byte>, b: Byte)
    requires Cuts(f, s)
    ensures Cuts(Pushed(f, b), s + [b])
  {
    var line := f.pending + [b];
    if b == NEWLINE {
      assert line[..|line| - 1] == f.pending;
      JoinedAppend(f.msgs, line);
    }
  }

  /** Messages and pending bytes together are the stream; every message is a line. */
  lemma {:induction false} ScanCuts(s: seq<Byte>)
    ensures Cuts(Scan(Nothing, s), s)
  {
    if s != [] {
      ScanCuts(s[..|s| - 1]);
      PushedCuts(Scan(Nothing, s[..|s| - 1]), s[..|s| - 1], s[|s| - 1]);
      assert s == s[..|s| - 1] + [s[|s| - 1]];
    }
  }

  /** What was framed before does not change how the rest is framed. */
  lemma {:induction false} ScanShift(d: seq<seq<Byte>>, p: seq<Byte>, s: seq<Byte>)
    ensures Scan(Frames(d, p), s) == Frames(d + Scan(Frames([], p), s).msgs, Scan(Frames([], p), s).pending)
  {
    if s != [] { ScanShift(d, p, s[..|s| - 1]); }
  }

  lemma {:induction false} Delivers(stream: seq<Byte>, chunk: seq<Byte>, delivered: seq<seq<Byte>>, before: seq<Byte>,
                                    msgs: seq<seq<Byte>>, rest: seq<Byte>)
    requires Scan(Nothing, stream) == Frames(delivered, before) && Scan(Frames([], before), chunk) == Frames(msgs, rest)
    ensures Scan(Nothing, stream + chunk) == Frames(delivered + msgs, rest)
  {
    ScanConcat(Nothing, stream, chunk);
    ScanShift(delivered, before, chunk);
  }

  lemma {:induction false} JoinedAppend(msgs: seq<seq<Byte>>, m: seq<Byte>)
    ensures Joined(msgs + [m]) == Joined(msgs) + m
  {
    assert (msgs + [m])[..|msgs|] == msgs;
  }

  /** The framing is the only way to cut the stream into lines and an unterminated rest. */
  lemma {:induction false} CutsDetermined(f: Frames, s: seq<Byte>)
    requires Cuts(f, s)
    ensures f == Scan(Nothing, s)
    decreases |s|
  {
    if s != [] {
      var n := |s| - 1;
      if f.pending != [] {
        var rest := f.(pending := f.pending[..|f.pending| - 1]);
        assert f.pending == rest.pending + [s[n]];
        assert Joined(f.msgs) + rest.pending == s[..n];
        CutsDetermined(rest, s[..n]);
      } else {
        LastLine(f, s);
        var m := |f.msgs| - 1;
        var line := f.msgs[m];
        var rest := Frames(f.msgs[..m], line[..|line| - 1]);
        CutsDetermined(rest, s[..n]);
        assert line == rest.pending + [s[n]];
        assert f.msgs == f.msgs[..m] + [line];
      }
    } else {
      LinesHaveBytes(f.msgs);
    }
  }

  lemma {:induction false} LinesHaveBytes(msgs: seq<seq<Byte>>)
    requires forall i :: 0 <= i < |msgs| ==> IsLine(msgs[i])
    ensures |Joined(msgs)| >= |msgs|
  {
    if msgs != [] { LinesHaveBytes(msgs[..|msgs| - 1]); }
  }

  lemma {:induction false} LastLine(f: Frames, s: seq<Byte>)
    requires Cuts(f, s) && s != [] && f.pending == []
    ensures f.msgs != []
    ensures var line := f.msgs[|f.msgs| - 1];
      IsLine(line) && line[|line| - 1] == s[|s| - 1] &&
      Cuts(Frames(f.msgs[..|f.msgs| - 1], line[..|line| - 1]), s[..|s| - 1])
  {
    var m := |f.msgs| - 1;
    var line := f.msgs[m];
    assert Joined(f.msgs) == Joined(f.msgs[..m]) + line == s;
    assert IsLine(line);
    assert Joined(f.msgs[..m]) + line[..|line| - 1] == s[..|s| - 1];
  }

  lemma {:induction false} PendingBound(f: Frames, s: seq<Byte>)
    ensures |Scan(f, s).pending| <= |f.pending| + |s|
  {
    if s != [] { PendingBound(f, s[..|s| - 1]); }
  }

  /** At some point an unterminated run has reached the limit. */
  ghost predicate Overlong(s: seq<Byte>, max: nat) {
    exists k :: 0 <= k <= |s| && |Scan(Nothing, s[..k]).pending| >= max
  }

  /** Within what `GetBuffer` grants, a run can reach the limit only at the end of a chunk. */
  lemma {:induction false} OverlongStep(s: seq<Byte>, chunk: seq<Byte>, max: nat)
    requires !Overlong(s, max) && |Scan(Nothing, s).pending| + |chunk| <= max
    ensures Overlong(s + chunk, max) <==> |Scan(Nothing, s + chunk).pending| >= max
  {
    var t := s + chunk;
    assert t[..|t|] == t;
    forall k | 0 <= k < |t| ensures |Scan(Nothing, t[..k]).pending| < max {
      if k <= |s| {
        assert t[..k] == s[..k];
      } else {
        assert t[..k] == s + chunk[..k - |s|];
        ScanConcat(Nothing, s, chunk[..k - |s|]);
        PendingBound(Scan(Nothing, s), chunk[..k - |s|]);
      }
    }
  }

  lemma {:induction false} ScanNext(f: Frames, data: seq<Byte>, start: nat, iter: nat, prev: nat, msgs: seq<seq<Byte>>)
    requires start <= iter < |data| && prev <= iter && Scan(f, data[start..iter]) == Frames(msgs, data[prev..iter])
    ensures Scan(f, data[start..iter + 1]) == if data[iter] == NEWLINE then Frames(msgs + [data[prev..iter + 1]], [])
      else Frames(msgs, data[prev..iter + 1])
  {
    ScanAppend(f, data[start..iter], data[iter]);
    assert data[start..iter + 1] == data[start..iter] + [data[iter]];
    assert data[prev..iter + 1] == data[prev..iter] + [data[iter]];
  }

  /** The scan of the buffer for newlines, from `start` on; `prev` is where the current line starts. */
  method ScanLines(data: seq<Byte>, start: nat) returns (msgs: seq<seq<Byte>>, prev: nat)
    requires start <= |data|
    ensures prev <= |data| && Scan(Frames([], data[..start]), data[start..]) == Frames(msgs, data[prev..])
    ensures prev == 0 <==> msgs == []
  {
    var iter, end := start, |data|;
    ghost var f := Frames([], data[..start]);
    msgs, prev := [], 0;
    while iter < end
      invariant start <= iter <= end && 0 <= prev <= iter
      invariant Scan(f, data[start..iter]) == Frames(msgs, data[prev..iter])
      invariant prev == 0 <==> msgs == []
    {
      ScanNext(f, data, start, iter, prev, msgs);
      if data[iter] == NEWLINE {
        msgs := msgs + [data[prev..iter + 1]];
        iter := iter + 1;
        prev := iter;
      } else {
        iter := iter + 1;
      }
    }
    assert data[start..iter] == data[start..] && data[prev..iter] == data[prev..];
  }

  //////////////////////////////////////////////////////////////////////////////
  // The decoder
  //////////////////////////////////////////////////////////////////////////////

  class MemcachedServerMsgDecoder {
    var buffer: array<Byte>
    var dataLength: nat
    const maxLength: nat
    /** The bytes received and the messages delivered so far. */
    ghost var stream: seq<Byte>
    ghost var delivered: seq<seq<Byte>>

    ghost predicate Valid()
      reads this, buffer
    {
      && buffer.Length == maxLength + 1 && dataLength <= maxLength
      && Scan(Nothing, stream) == Frames(delivered, buffer[..dataLength])
      && (Overlong(stream, maxLength) <==> dataLength == maxLength)
    }

    constructor (maxLength: nat)
      requires maxLength > 0
      ensures Valid() && stream == [] && delivered == [] && this.maxLength == maxLength
    {
      this.maxLength := maxLength;
      buffer := new Byte[maxLength + 1];
      dataLength, stream, delivered := 0, [], [];
    }

    /** The room for the next chunk; none is granted once a run has reached the limit. */
    method GetBuffer() returns (result: int, length: nat)
      requires Valid()
      ensures result == if Overlong(stream, maxLength) then -1 else 0
      ensures result == 0 ==> length == maxLength - |Scan(Nothing, stream).pending| > 0
    {
      if dataLength >= maxLength { return -1, 0; }
      return 0, maxLength - dataLength;
    }

    /** The chunk arrives behind the pending bytes. */
    method Receive(chunk: seq<Byte>)
      requires dataLength + |chunk| < buffer.Length
      modifies buffer
      ensures buffer[..dataLength + |chunk|] == old(buffer[..dataLength]) + chunk
    {
      for i := 0 to |chunk|
        invariant buffer[..dataLength + i] == old(buffer[..dataLength]) + chunk[..i]
      {
        buffer[dataLength + i] := chunk[i];
        assert buffer[..dataLength + i + 1] == buffer[..dataLength + i] + [chunk[i]];
      }
    }

    /** Keeps the bytes of the unterminated line; they move to a new buffer unless they start the old one. */
    method KeepRest(prev: nat, end: nat) returns (result: int)
      requires prev <= end <= maxLength && buffer.Length == maxLength + 1
      requires prev == 0 ==> dataLength <= end
      modifies this`buffer, this`dataLength
      ensures buffer == old(buffer) || fresh(buffer)
      ensures buffer.Length == maxLength + 1 && dataLength == end - prev
      ensures buffer[..dataLength] == old(buffer[prev..end])
      ensures result == if prev == 0 && end > 0 && dataLength >= maxLength then -1 else 0
    {
      if prev < end {
        if prev == 0 {
          dataLength := end;
          if dataLength >= maxLength { return -1; }
        } else {
          var rest := buffer[prev..end];
          buffer := new Byte[maxLength + 1];
          dataLength := end - prev;
          for i := 0 to dataLength
            invariant fresh(buffer) && buffer.Length == maxLength + 1 && dataLength == |rest|
            invariant buffer[..i] == rest[..i]
          {
            buffer[i] := rest[i];
          }
        }
      } else {
        dataLength := 0;
      }
      return 0;
    }

    /** Receives a chunk, takes out the complete lines and keeps the rest. */
    method Frame(chunk: seq<Byte>) returns (result: int, msgs: seq<seq<Byte>>)
      requires buffer.Length == maxLength + 1 && dataLength + |chunk| <= maxLength && dataLength < maxLength
      modifies this`buffer, this`dataLength, buffer
      ensures (buffer == old(buffer) || fresh(buffer)) && buffer.Length == maxLength + 1 && dataLength <= maxLength
      ensures Scan(Frames([], old(buffer[..dataLength])), chunk) == Frames(msgs, buffer[..dataLength])
      ensures result == if dataLength >= maxLength then -1 else 0
    {
      ghost var before := buffer[..dataLength];
      Receive(chunk);
      var data, prev := buffer[..dataLength + |chunk|], 0;
      assert data[..dataLength] == before && data[dataLength..] == chunk;
      msgs, prev := ScanLines(data, dataLength);
      assert data[prev..] == buffer[prev..dataLength + |chunk|];
      result := KeepRest(prev, dataLength + |chunk|);
    }

    /** The messages that the chunk completes; an error exactly when a run has reached the limit. */
    method Feed(chunk: seq<Byte>) returns (result: int, msgs: seq<seq<Byte>>)
      requires Valid() && dataLength + |chunk| <= maxLength && dataLength < maxLength
      modifies this, buffer
      ensures Valid() && (buffer == old(buffer) || fresh(buffer))
      ensures stream == old(stream) + chunk && delivered == old(delivered) + msgs
      ensures result == if Overlong(stream, maxLength) then -1 else 0
    {
      ghost var before := buffer[..dataLength];
      OverlongStep(stream, chunk, maxLength);
      result, msgs := Frame(chunk);
      Delivers(stream, chunk, delivered, before, msgs, buffer[..dataLength]);
      stream := stream + chunk;
      delivered := delivered + msgs;
    }
  }
}
