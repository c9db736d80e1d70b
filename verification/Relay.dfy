/** The byte relay between a client and its destination: two bounded queues that pass on what they are given,
    in order and completely, and end each direction only when it is drained.
 */
module Relay {
  import opened Basics

  const BUFFER: nat := 16384
  const IDLE_SECONDS: nat := 300
  const NANOSECONDS: nat := 1_000_000_000
  const MILLISECOND: nat := 1_000_000

  /** One outcome of receiving: some bytes, the end of the stream, nothing for now, or an error. */
  datatype Receipt = Received(bytes: seq<byte>) | EndOfStream | NothingYet | ReceiveError
  /** One outcome of sending: how many bytes were taken, a signal, a full socket, or an error. */
  datatype Sending = Taken(count: nat) | Interrupted | Full | SendError
  datatype Shutdown = ShutDown | PeerGone | ShutdownError

  function Least(a: nat, b: nat): (r: nat) {
    if a < b then a else b
  }

  /** How many of `waiting` bytes a row of sends takes, and whether it ends without an error. */
  function Drainage(sends: seq<Sending>, waiting: nat, clock: bool): (r: (nat, bool))
    ensures r.0 <= waiting
    decreases |sends|
  {
    if waiting == 0 || sends == [] then (0, true)
    else
      match sends[0]
      case Taken(count) =>
        if count == 0 then (0, false)
        else
          var n := Least(count, waiting);
          if !clock then (n, false)
          else
            var rest := Drainage(sends[1..], waiting - n, clock);
            (n + rest.0, rest.1)
      case Interrupted => Drainage(sends[1..], waiting, clock)
      case Full => (0, true)
      case SendError => (0, false)
  }

  lemma DrainageAt(sends: seq<Sending>, i: nat, waiting: nat, clock: bool)
    requires i <= |sends|
    ensures var r := Drainage(sends[i..], waiting, clock);
            if i == |sends| || waiting == 0 then r == (0, true)
            else
              match sends[i]
              case Taken(count) =>
                if count == 0 then r == (0, false)
                else
                  var n := Least(count, waiting);
                  var rest := Drainage(sends[i + 1..], waiting - n, clock);
                  r == if clock then (n + rest.0, rest.1) else (n, false)
              case Interrupted => r == Drainage(sends[i + 1..], waiting, clock)
              case Full => r == (0, true)
              case SendError => r == (0, false)
  {
    assert i < |sends| ==> sends[i..][0] == sends[i] && sends[i..][1..] == sends[i + 1..];
  }

  datatype Intake = Intake(bytes: seq<byte>, eof: bool, ok: bool)

  /** What a row of receipts brings into `room` bytes. */
  function Taking(receipts: seq<Receipt>, room: nat, clock: bool): (r: Intake)
    ensures |r.bytes| <= room
    decreases |receipts|
  {
    if room == 0 || receipts == [] then Intake([], false, true)
    else
      match receipts[0]
      case Received(bytes) =>
        if bytes == [] then Intake([], true, true)
        else
          var n := Least(|bytes|, room);
          if !clock then Intake(bytes[..n], false, false)
          else
            var rest := Taking(receipts[1..], room - n, clock);
            Intake(bytes[..n] + rest.bytes, rest.eof, rest.ok)
      case EndOfStream => Intake([], true, true)
      case NothingYet => Intake([], false, true)
      case ReceiveError => Intake([], false, false)
  }

  ghost function Joined(front: seq<byte>, r: Intake): (j: Intake) {
    Intake(front + r.bytes, r.eof, r.ok)
  }

  lemma JoinedStep(front: seq<byte>, bytes: seq<byte>, rest: Intake)
    ensures Joined(front, Intake(bytes + rest.bytes, rest.eof, rest.ok)) == Joined(front + bytes, rest)
    ensures Joined(front, Intake(bytes, rest.eof, rest.ok)) == Intake(front + bytes, rest.eof, rest.ok)
  {
    assert front + (bytes + rest.bytes) == (front + bytes) + rest.bytes;
  }

  lemma JoinedEnds(front: seq<byte>, eof: bool, ok: bool)
    ensures Joined(front, Intake([], eof, ok)) == Intake(front, eof, ok)
    ensures front == [] ==> forall r :: Joined(front, r) == r
  {
  }

  lemma TakingAt(receipts: seq<Receipt>, i: nat, room: nat, clock: bool)
    requires i <= |receipts|
    ensures var r := Taking(receipts[i..], room, clock);
            if i == |receipts| || room == 0 then r == Intake([], false, true)
            else
              match receipts[i]
              case Received(bytes) =>
                if bytes == [] then r == Intake([], true, true)
                else
                  var n := Least(|bytes|, room);
                  var rest := Taking(receipts[i + 1..], room - n, clock);
                  r == if clock then Intake(bytes[..n] + rest.bytes, rest.eof, rest.ok)
                       else Intake(bytes[..n], false, false)
              case EndOfStream => r == Intake([], true, true)
              case NothingYet => r == Intake([], false, true)
              case ReceiveError => r == Intake([], false, false)
  {
    assert i < |receipts| ==> receipts[i..][0] == receipts[i] && receipts[i..][1..] == receipts[i + 1..];
  }

  lemma Parted(front: seq<byte>, s: seq<byte>, n: nat)
    requires n <= |s|
    ensures front + s == (front + s[..n]) + s[n..]
  {
    assert s == s[..n] + s[n..];
  }

  // ---------------------------------------------------------------- one direction

  class Queue {
    const data: array<byte>
    var offset: nat
    var length: nat
    var peerEof: bool
    var shutdownSent: bool
    /** All that was put into this queue, and all that left it. */
    ghost var input: seq<byte>
    ghost var output: seq<byte>
    /** Whether the other side was told that nothing more will come. */
    ghost var halfClosed: bool

    /** What waits in the queue. */
    ghost function Held(): (r: seq<byte>)
      reads this, data
    {
      if offset <= length <= data.Length then data[offset..length] else []
    }

    lemma HeldSize()
      requires Valid()
      ensures offset <= length <= BUFFER == data.Length && |Held()| == length - offset && input == output + Held()
    {
    }

    /** First in, first out, nothing lost: what left and what is still here is what came in. The direction is
        ended only after the end of its input, with nothing left in the queue. */
    ghost predicate Valid()
      reads this, data
    {
      && data.Length == BUFFER && offset <= length <= BUFFER
      && input == output + Held()
      && (shutdownSent ==> peerEof && offset == length)
      && (halfClosed ==> shutdownSent)
    }

    constructor (pending: seq<byte>)
      requires |pending| <= BUFFER
      ensures Valid() && fresh(data) && input == pending && output == [] && !peerEof && !shutdownSent && !halfClosed
    {
      data := new byte[BUFFER];
      offset, length, peerEof, shutdownSent := 0, |pending|, false, false;
      input, output, halfClosed := pending, [], false;
      new;
      forall i | 0 <= i < |pending| {
        data[i] := pending[i];
      }
      assert data[0..length] == pending;
    }

    /** Moves what is left to the front of the buffer. */
    method Compact()
      requires Valid()
      modifies this`offset, this`length, data
      ensures Valid() && offset == 0 && length == old(length) - old(offset) && Held() == old(Held())
    {
      if offset == 0 {
        return;
      }
      if offset == length {
        offset, length := 0, 0;
        return;
      }
      ghost var rest := Held();
      HeldSize();
      var n := length - offset;
      Slide(offset, n);
      offset, length := 0, n;
      assert Held() == rest;
    }

    /** Moves some bytes of the buffer to its front. */
    method Slide(from: nat, n: nat)
      requires from + n <= data.Length
      modifies data
      ensures data[0..n] == old(data[from..from + n])
    {
      ghost var rest := data[from..from + n];
      forall i | 0 <= i < n {
        data[i] := data[from + i];
      }
      assert forall i :: 0 <= i < n ==> data[i] == rest[i];
    }

    /** Sends as much as the socket takes, from the front of what waits. */
    method Drain(sends: seq<Sending>, clock: bool) returns (ok: bool)
      requires Valid()
      modifies this`offset, this`length, this`output, data
      ensures Valid() && ok == Drainage(sends, |old(Held())|, clock).1
      ensures output == old(output) + old(Held())[..Drainage(sends, |old(Held())|, clock).0]
    {
      hide Drainage, Valid, Held;
      HeldSize();
      var i := 0;
      ghost var waiting, count := Held(), 0;
      ghost var whole := Drainage(sends, |waiting|, clock);
      assert sends[0..] == sends && waiting[..0] == [] && waiting[0..] == waiting;
      while offset < length && i < |sends|
        invariant 0 <= i <= |sends| && Valid() && offset <= length && length - offset == |waiting| - count
                  && 0 <= count <= |waiting|
        invariant Held() == waiting[count..] && output == old(output) + waiting[..count]
        invariant whole.0 == count + Drainage(sends[i..], length - offset, clock).0
        invariant whole.1 == Drainage(sends[i..], length - offset, clock).1
      {
        DrainageAt(sends, i, length - offset, clock);
        if sends[i].Taken? {
          if sends[i].count == 0 {
            return false;
          }
          var n := Least(sends[i].count, length - offset);
          Sent(n);
          Moved(old(output), waiting, count, n);
          count := count + n;
          if !clock {
            return false;
          }
        } else if sends[i].Full? {
          Compact();
          return true;
        } else if sends[i].SendError? {
          return false;
        }
        i := i + 1;
      }
      DrainageAt(sends, i, length - offset, clock);
      Compact();
      ok := true;
    }

    method Sent(n: nat)
      requires Valid() && n <= length - offset
      modifies this`offset, this`output
      ensures Valid() && offset == old(offset) + n <= length && n <= |old(Held())|
      ensures output == old(output) + old(Held())[..n] && Held() == old(Held())[n..]
    {
      ghost var held := Held();
      Parted(output, held, n);
      assert data[offset + n..length] == held[n..];
      output := output + held[..n];
      offset := offset + n;
      assert Held() == held[n..];
    }

    lemma Emptied()
      requires Valid()
      ensures offset == length ==> output == input
    {
      if offset == length {
        assert data[offset..length] == [];
      }
    }

    /** Receives as much as fits, behind what waits. */
    method Fill(receipts: seq<Receipt>, clock: bool) returns (ok: bool)
      requires Valid()
      modifies this`offset, this`length, this`peerEof, this`input, data
      ensures Valid() && |old(Held())| <= BUFFER
      ensures old(peerEof) ==> ok && peerEof && input == old(input)
      ensures !old(peerEof) ==>
                var r := Taking(receipts, BUFFER - |old(Held())|, clock);
                input == old(input) + r.bytes && peerEof == r.eof && ok == r.ok
    {
      hide Taking, Valid, Held, Joined;
      HeldSize();
      Compact();
      if peerEof {
        return true;
      }
      var i := 0;
      ghost var whole, got := Taking(receipts, BUFFER - length, clock), [];
      assert receipts[0..] == receipts;
      JoinedEnds([], false, true);
      while !peerEof && length < BUFFER && i < |receipts|
        invariant 0 <= i <= |receipts| && Valid() && length <= BUFFER && input == old(input) + got
        invariant if peerEof then whole == Intake(got, true, true)
                  else whole == Joined(got, Taking(receipts[i..], BUFFER - length, clock))
      {
        TakingAt(receipts, i, BUFFER - length, clock);
        if receipts[i].Received? && receipts[i].bytes != [] {
          var n := Least(|receipts[i].bytes|, BUFFER - length);
          var bytes := receipts[i].bytes[..n];
          JoinedStep(got, bytes, if clock then Taking(receipts[i + 1..], BUFFER - length - n, clock)
                                 else Intake([], false, false));
          Accept(bytes);
          assert old(input) + got + bytes == old(input) + (got + bytes);
          got := got + bytes;
          if !clock {
            return false;
          }
        } else if receipts[i].Received? || receipts[i].EndOfStream? {
          JoinedEnds(got, true, true);
          NoteEof();
        } else {
          JoinedEnds(got, false, receipts[i].NothingYet?);
          return receipts[i].NothingYet?;
        }
        i := i + 1;
      }
      TakingAt(receipts, i, BUFFER - length, clock);
      JoinedEnds(got, false, true);
      ok := true;
    }

    method NoteEof()
      requires Valid()
      modifies this`peerEof
      ensures Valid() && peerEof
    {
      peerEof := true;
    }

    method Accept(bytes: seq<byte>)
      requires Valid() && !peerEof && length + |bytes| <= BUFFER
      modifies this`length, this`input, data
      ensures Valid() && input == old(input) + bytes && length == old(length) + |bytes|
    {
      ghost var held := Held();
      forall i | 0 <= i < |bytes| {
        data[length + i] := bytes[i];
      }
      assert data[offset..length] == held;
      assert data[length..length + |bytes|] == bytes;
      assert data[offset..length + |bytes|] == held + bytes;
      length := length + |bytes|;
      input := input + bytes;
    }

    /** Passes the end of the stream on, once, after everything before it. */
    method ShutdownPropagate(outcome: Shutdown) returns (ok: bool)
      requires Valid()
      modifies this`shutdownSent, this`halfClosed
      ensures Valid() && (ok ==> (shutdownSent <==> old(shutdownSent) || (peerEof && offset == length)))
      ensures halfClosed && !old(halfClosed) ==> output == input && peerEof && !old(shutdownSent)
    {
      if !peerEof || offset < length || shutdownSent {
        return true;
      }
      Emptied();
      if outcome.ShutdownError? {
        return false;
      }
      shutdownSent := true;
      halfClosed := outcome.ShutDown?;
      ok := true;
    }
  }

  lemma Moved(front: seq<byte>, waiting: seq<byte>, count: nat, n: nat)
    requires count + n <= |waiting|
    ensures (front + waiting[..count]) + waiting[count..][..n] == front + waiting[..count + n]
    ensures waiting[count..][n..] == waiting[count + n..]
  {
    assert waiting[..count] + waiting[count..][..n] == waiting[..count + n];
  }

  // ---------------------------------------------------------------- both directions

  /** What polling reports of one socket, and what its calls then give. */
  datatype Wake = Wake(readable: bool, writable: bool, hangup: bool, invalid: bool, receipts: seq<Receipt>,
      sends: seq<Sending>)
  datatype Turn =
    | TimedOut
    | Signalled
    | PollFailed
    | Woken(client: Wake, upstream: Wake, endUpstream: Shutdown, endClient: Shutdown, clock: bool)
  datatype Status = Closed | Broken | Idle | Running

  predicate Finished(c2o: Queue, o2c: Queue)
    reads c2o, o2c
  {
    c2o.peerEof && o2c.peerEof && c2o.offset == c2o.length && o2c.offset == o2c.length && c2o.shutdownSent
      && o2c.shutdownSent
  }

  /** What a socket brings: nothing unless it is ready, its stream goes on and there is room. */
  function Brought(wake: Wake, waiting: nat, eof: bool, clock: bool): (r: Intake)
    requires waiting <= BUFFER
  {
    if waiting < BUFFER && (wake.readable || wake.hangup) && !eof then Taking(wake.receipts, BUFFER - waiting, clock)
    else Intake([], eof, true)
  }

  /** What a socket takes of the bytes that wait for it. */
  function Took(wake: Wake, waiting: nat, clock: bool): (r: (nat, bool)) {
    if waiting > 0 && (wake.writable || wake.hangup) then Drainage(wake.sends, waiting, clock) else (0, true)
  }

  /** A socket that hung up must have ended its stream, brought something or left no room for it, and must have taken
      all that waited for it. */
  predicate Served(wake: Wake, waiting: nat, brought: Intake, left: nat) {
    brought.ok && (wake.hangup ==> (brought.eof || brought.bytes != [] || waiting >= BUFFER) && left == 0)
  }

  /** Serves one socket: what it has is read into one queue, what waits for it is sent from the other. */
  method Serve(inbound: Queue, outbound: Queue, wake: Wake, clock: bool) returns (ok: bool)
    requires inbound.Valid() && outbound.Valid() && inbound != outbound && inbound.data != outbound.data
    modifies inbound, outbound, inbound.data, outbound.data
    ensures inbound.Valid() && outbound.Valid()
    ensures old(inbound.input) <= inbound.input && old(outbound.output) <= outbound.output
    ensures inbound.output == old(inbound.output) && outbound.input == old(outbound.input)
    ensures |old(inbound.Held())| <= BUFFER
    ensures var brought := Brought(wake, |old(inbound.Held())|, old(inbound.peerEof), clock);
            var took := Took(wake, |old(outbound.Held())|, clock);
            && inbound.input == old(inbound.input) + brought.bytes && inbound.peerEof == brought.eof
            && outbound.output == old(outbound.output) + old(outbound.Held())[..if brought.ok then took.0 else 0]
            && (ok <==> took.1 && Served(wake, |old(inbound.Held())|, brought, |old(outbound.Held())| - took.0))
  {
    hide Taking, Drainage, Queue.Valid, Queue.Held;
    inbound.HeldSize();
    outbound.HeldSize();
    var before := inbound.length - inbound.offset;
    if before < BUFFER && (wake.readable || wake.hangup) {
      ok := inbound.Fill(wake.receipts, clock);
      if !ok {
        return;
      }
      inbound.HeldSize();
    }
    if outbound.offset < outbound.length && (wake.writable || wake.hangup) {
      ok := outbound.Drain(wake.sends, clock);
      if !ok {
        return;
      }
      outbound.HeldSize();
    }
    if wake.hangup && !inbound.peerEof && before == inbound.length - inbound.offset && before < BUFFER {
      return false;
    }
    if wake.hangup && outbound.offset < outbound.length {
      return false;
    }
    ok := true;
  }

  method Awake(c2o: Queue, o2c: Queue, turn: Turn) returns (ok: bool)
    requires turn.Woken? && c2o.Valid() && o2c.Valid() && c2o != o2c && c2o.data != o2c.data
    modifies c2o, o2c, c2o.data, o2c.data
    ensures c2o.Valid() && o2c.Valid()
    ensures old(c2o.input) <= c2o.input && old(o2c.input) <= o2c.input && old(c2o.output) <= c2o.output
            && old(o2c.output) <= o2c.output
  {
    if turn.client.invalid || turn.upstream.invalid {
      return false;
    }
    ok := Serve(c2o, o2c, turn.client, turn.clock);
    if !ok {
      return;
    }
    ok := Serve(o2c, c2o, turn.upstream, turn.clock);
    if !ok {
      return;
    }
    ok := c2o.ShutdownPropagate(turn.endUpstream);
    if ok {
      ok := o2c.ShutdownPropagate(turn.endClient);
    }
  }

  /** Relays between two sockets for as long as `turns` go on. At every moment what was sent is a prefix of
      what was received, after the pending bytes in the direction of the destination; when both directions are closed
      nothing is missing. */
  method Run(pending: seq<byte>, turns: seq<Turn>, idle: nat -> bool) returns (status: Status, c2o: Queue, o2c: Queue)
    requires |pending| <= BUFFER
    ensures c2o.Valid() && o2c.Valid() && pending <= c2o.input
    ensures c2o.output <= c2o.input && |c2o.input| - |c2o.output| <= BUFFER && o2c.output <= o2c.input
            && |o2c.input| - |o2c.output| <= BUFFER
    ensures status.Closed? ==>
            c2o.output == c2o.input && o2c.output == o2c.input && c2o.peerEof && o2c.peerEof && c2o.shutdownSent
              && o2c.shutdownSent
    ensures c2o.halfClosed ==> c2o.peerEof && c2o.output == c2o.input
    ensures o2c.halfClosed ==> o2c.peerEof && o2c.output == o2c.input
  {
    c2o := new Queue(pending);
    o2c := new Queue([]);
    status := Running;
    var n := 0;
    while n < |turns| && status.Running?
      invariant 0 <= n <= |turns| && fresh(c2o) && fresh(o2c) && fresh(c2o.data) && fresh(o2c.data) && c2o != o2c
                && c2o.data != o2c.data
      invariant c2o.Valid() && o2c.Valid() && pending <= c2o.input
      invariant status.Closed? ==> Finished(c2o, o2c)
    {
      if Finished(c2o, o2c) {
        status := Closed;
      } else if idle(n) {
        status := Idle;
      } else {
        match turns[n] {
          case TimedOut =>
            status := Idle;
          case Signalled =>
          case PollFailed =>
            status := Broken;
          case Woken(_, _, _, _, _) =>
            var ok := Awake(c2o, o2c, turns[n]);
            if !ok {
              status := Broken;
            }
        }
      }
      n := n + 1;
    }
    c2o.Emptied();
    o2c.Emptied();
  }

  // ---------------------------------------------------------------- the idle timer

  datatype Time = Time(seconds: int, nanoseconds: nat)

  function Nanos(t: Time): (r: int) {
    t.seconds * NANOSECONDS + t.nanoseconds
  }

  /** Milliseconds until the relay counts as idle, from seconds and nanoseconds. */
  function IdleRemaining(last: Time, now: Time): (r: int) {
    var borrow := now.nanoseconds < last.nanoseconds;
    var elapsed := now.seconds - last.seconds - if borrow then 1 else 0;
    var rest := now.nanoseconds - last.nanoseconds + if borrow then NANOSECONDS else 0;
    if elapsed < 0 then 0
    else if elapsed > IDLE_SECONDS || (elapsed == IDLE_SECONDS && rest > 0) then 0
    else
      var seconds := IDLE_SECONDS - elapsed - if rest > 0 then 1 else 0;
      var nanoseconds := if rest > 0 then NANOSECONDS - rest else 0;
      seconds * 1000 + (nanoseconds + MILLISECOND - 1) / MILLISECOND
  }

  /** It is the time left until three hundred seconds after the last activity, rounded up to a millisecond, so
      waiting for it never ends early and never more than a millisecond late; zero means the time is over or the
      clock went backwards. */
  lemma IdleRemainingExactly(last: Time, now: Time)
    requires last.nanoseconds < NANOSECONDS && now.nanoseconds < NANOSECONDS
    ensures var elapsed, wait := Nanos(now) - Nanos(last), IdleRemaining(last, now);
            var left := IDLE_SECONDS * NANOSECONDS - elapsed;
            if elapsed < 0 || left <= 0 then wait == 0 else left <= wait * MILLISECOND < left + MILLISECOND
  {
    var borrow := now.nanoseconds < last.nanoseconds;
    var elapsed := now.seconds - last.seconds - if borrow then 1 else 0;
    var rest := now.nanoseconds - last.nanoseconds + if borrow then NANOSECONDS else 0;
    assert Nanos(now) - Nanos(last) == elapsed * NANOSECONDS + rest && 0 <= rest < NANOSECONDS;
  }
}
