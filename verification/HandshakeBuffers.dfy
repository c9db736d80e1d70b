/** Reading a handshake out of a receive buffer and writing it into a send buffer, by cursors. */
module HandshakeBuffers {
  import opened Basics
  import opened Varints
  import opened Framing
  import opened Handshake

  // ---------------------------------------------------------------- reading

  method NumberAt(buffer: array<byte>, at: nat, end: nat) returns (value: Option<u32>, next: nat)
    requires at <= end <= buffer.Length
    ensures value.None? ==> Number(buffer[at..end]).None?
    ensures value.Some? ==> at < next <= end && Number(buffer[at..end]) == Some((value.value, buffer[next..end]))
  {
    hide Varint;
    var r := Varint2Int(buffer, at, end);
    if !r.Read? {
      return None, at;
    }
    next := at + r.size;
    assert buffer[at..end][r.size..] == buffer[next..end];
    value := Some(r.value);
  }

  method FindByte(buffer: array<byte>, at: nat, length: nat, mark: byte) returns (found: Option<nat>)
    requires at + length <= buffer.Length
    ensures found.None? ==> mark !in buffer[at..at + length]
    ensures found.Some? ==>
            found.value < length && buffer[at + found.value] == mark
              && forall i :: at <= i < at + found.value ==> buffer[i] != mark
  {
    var k := at;
    while k < at + length
      invariant at <= k <= at + length && forall i :: at <= i < k ==> buffer[i] != mark
    {
      if buffer[k] == mark {
        return Some(k - at);
      }
      k := k + 1;
    }
    found := None;
  }

  /** The address ends at the earlier of the first zero byte and the first question mark. */
  method CutAt(buffer: array<byte>, at: nat, length: nat) returns (cut: nat)
    requires at + length <= buffer.Length
    ensures cut == Cut(buffer[at..at + length])
  {
    ghost var wire := buffer[at..at + length];
    assert forall i :: 0 <= i < length ==> wire[i] == buffer[at + i];
    var zero := FindByte(buffer, at, length, 0);
    var query := FindByte(buffer, at, length, QUERY);
    var extra := zero;
    if zero.None? || (query.Some? && query.value < zero.value) {
      extra := query;
    }
    cut := if extra.None? then length else extra.value;
    FirstIs(wire, {0, QUERY}, cut);
  }

  method EndingAt(buffer: array<byte>, at: nat, end: nat) returns (r: Option<(u16, u32)>)
    requires at <= end <= buffer.Length
    ensures r == ReadEnding(buffer[at..end])
  {
    hide Number;
    if end - at < 2 {
      return None;
    }
    assert buffer[at..end][2..] == buffer[at + 2..end];
    var state, next := NumberAt(buffer, at + 2, end);
    if state.None? || next != end {
      return None;
    }
    r := Some((Pair(buffer[at], buffer[at + 1]), state.value));
  }

  method AddressAt(buffer: array<byte>, id: u32, version: u32, at: nat, end: nat)
      returns (o: Option<Opening>, from: nat)
    requires at <= end <= buffer.Length
    ensures o == ReadAddress(id, version, buffer[at..end])
    ensures o.Some? ==> from + |o.value.wire| <= end && buffer[from..from + |o.value.wire|] == o.value.wire
  {
    hide Number, ReadEnding;
    var length, next := NumberAt(buffer, at, end);
    from := next;
    if length.None? || length.value > ADDRESS_LIMIT || length.value == 0 || end - next < length.value {
      return None, 0;
    }
    assert buffer[next..end][..length.value] == buffer[next..next + length.value];
    assert buffer[next..end][length.value..] == buffer[next + length.value..end];
    var ending := EndingAt(buffer, next + length.value, end);
    if ending.None? {
      return None, 0;
    }
    o := Some(Opening(id, version, buffer[next..next + length.value], ending.value.0, ending.value.1));
  }

  method OpeningAt(buffer: array<byte>, at: nat, end: nat) returns (o: Option<Opening>, from: nat)
    requires at <= end <= buffer.Length
    ensures o == ReadOpening(buffer[at..end])
    ensures o.Some? ==> from + |o.value.wire| <= end && buffer[from..from + |o.value.wire|] == o.value.wire
  {
    hide Number, ReadAddress;
    var id, afterId := NumberAt(buffer, at, end);
    if id.None? {
      return None, 0;
    }
    var version, next := NumberAt(buffer, afterId, end);
    if version.None? {
      return None, 0;
    }
    o, from := AddressAt(buffer, id.value, version.value, next, end);
  }

  method EntryAt(buffer: array<byte>, at: nat, end: nat) returns (e: Option<Entry>)
    requires at <= end <= buffer.Length
    ensures e == ReadEntry(buffer[at..end])
  {
    hide Number;
    var id, afterId := NumberAt(buffer, at, end);
    if id.None? {
      return None;
    }
    var length, next := NumberAt(buffer, afterId, end);
    if length.None? || length.value > NAME_LIMIT || end - next < length.value {
      return None;
    }
    var nameEnd := next + length.value;
    assert buffer[next..end][..length.value] == buffer[next..nameEnd]
           && buffer[next..end][length.value..] == buffer[nameEnd..end];
    e := Some(Entry(id.value, buffer[next..nameEnd], buffer[nameEnd..end]));
  }

  method FrameAt(buffer: array<byte>, at: nat, end: nat) returns (ok: bool, from: nat, next: nat)
    requires at <= end <= buffer.Length
    ensures !ok ==> Framed(buffer[at..end]).None?
    ensures ok ==> from <= next <= end && Framed(buffer[at..end]) == Some((buffer[from..next], buffer[next..end]))
  {
    hide Number;
    var size, start := NumberAt(buffer, at, end);
    if size.None? || end - start < size.value {
      return false, 0, 0;
    }
    ok, from, next := true, start, start + size.value;
    assert buffer[start..end][..size.value] == buffer[from..next]
           && buffer[start..end][size.value..] == buffer[next..end];
  }

  /** Reads a handshake from the bytes before `end`. `memory` tells which of the copies could be allocated. */
  method PacketRead(buffer: array<byte>, end: nat, memory: nat -> bool) returns (p: Option<Packet>)
    requires end <= buffer.Length
    ensures p.Some? ==> p == Parse(buffer[..end])
    ensures (forall k :: memory(k)) ==> p == Parse(buffer[..end])
  {
    hide Framed, ReadOpening, ReadEntry, Stripped, Cut;
    assert buffer[0..end] == buffer[..end];
    var ok, from, next := FrameAt(buffer, 0, end);
    if !ok {
      return None;
    }
    var o, wireAt := OpeningAt(buffer, from, next);
    if o.None? {
      return None;
    }
    var size := |o.value.wire|;
    var cut := CutAt(buffer, wireAt, size);
    if !memory(0) || (cut < size && !memory(1)) {
      return None;
    }
    var e: Option<Entry> := None;
    if Enters(o.value.state) {
      var login, loginFrom, loginEnd := FrameAt(buffer, next, end);
      if !login {
        return None;
      }
      e := EntryAt(buffer, loginFrom, loginEnd);
      if e.None? || !memory(2) || (e.value.rest != [] && !memory(3)) {
        return None;
      }
    }
    p := Some(Joined(o.value, e));
  }

  // ---------------------------------------------------------------- writing

  method Put(dst: array<byte>, at: nat, data: seq<byte>) returns (next: nat)
    requires at + |data| <= dst.Length
    modifies dst
    ensures next == at + |data| && dst[..next] == old(dst[..at]) + data
    ensures forall k :: next <= k < dst.Length ==> dst[k] == old(dst[k])
  {
    next := at + |data|;
    forall i | 0 <= i < |data| {
      dst[at + i] := data[i];
    }
    assert dst[..next] == dst[..at] + dst[at..next];
    assert dst[at..next] == data;
  }

  method StageOpening(stage: array<byte>, p: Packet) returns (n: nat)
    requires stage.Length == STAGE && Writable(p)
    modifies stage
    ensures n == |Part1(p)| && n <= STAGE && stage[..n] == Part1(p)
  {
    hide Printed, Text;
    PartsFit(p);
    assert stage[..0] == [];
    n := Int2Varint(p.id, stage, 0);
    n := Int2Varint(p.version, stage, n);
    n := Int2Varint(|Wire(p)|, stage, n);
    n := Put(stage, n, Text(p.address));
    n := Put(stage, n, p.extra);
    n := Put(stage, n, Port(p.port));
    n := Int2Varint(p.state, stage, n);
    OpeningGrouped(p);
  }

  lemma OpeningGrouped(p: Packet)
    ensures (((((([] + Printed(p.id)) + Printed(p.version)) + Printed(|Wire(p)|)) + Text(p.address)) + p.extra)
            + Port(p.port)) + Printed(p.state) == Part1(p)
  {
    hide Printed, Text, Port;
  }

  method StageLogin(stage: array<byte>, p: Packet) returns (n: nat)
    requires stage.Length == STAGE && Writable(p)
    modifies stage
    ensures n == |Part2(p)| && n <= STAGE && stage[..n] == Part2(p)
  {
    hide Printed, Text, Flags;
    PartsFit(p);
    assert stage[..0] == [];
    n := Int2Varint(p.loginId, stage, 0);
    if Enters(p.state) {
      n := Int2Varint(|Username(p)|, stage, n);
      n := Put(stage, n, Username(p));
      PrintedTwo(1);
      if p.signature != [] {
        if Flags(p.version) {
          n := Int2Varint(1, stage, n);
        }
        n := Put(stage, n, p.signature);
      }
      LoginGrouped(p);
    } else {
      assert Part2(p) == Printed(p.loginId);
    }
  }

  lemma LoginGrouped(p: Packet)
    requires Enters(p.state)
    ensures var named := (([] + Printed(p.loginId)) + Printed(|Username(p)|)) + Username(p);
            Part2(p) == if p.signature == [] then named
                        else if Flags(p.version) then (named + [1]) + p.signature else named + p.signature
  {
    hide Printed, Text, Flags;
  }

  /** Writes a handshake, or nothing at all. */
  method PacketWrite(dst: array<byte>, src: Option<Packet>, memory: bool) returns (size: nat)
    modifies dst
    ensures size > 0 <==> src.Some? && Writable(src.value) && memory && |Bytes(src.value)| <= dst.Length
    ensures size > 0 ==>
            size == |Bytes(src.value)| && dst[..size] == Bytes(src.value) && dst[size..] == old(dst[size..])
    ensures size == 0 ==> dst[..] == old(dst[..])
  {
    hide Printed, Text, Part1, Part2, Writable;
    if src.None? || !Writable(src.value) || !memory {
      return 0;
    }
    var p := src.value;
    PartsFit(p);
    var part1, part2 := new byte[STAGE], new byte[STAGE];
    var size1 := StageOpening(part1, p);
    var size2 := StageLogin(part2, p);
    var prefix1 := VarintSize(size1);
    var prefix2 := VarintSize(size2);
    if dst.Length < prefix1 + size1 + prefix2 + size2 {
      return 0;
    }
    size := PutFrames(dst, part1[..size1], part2[..size2]);
  }

  method PutFrames(dst: array<byte>, first: seq<byte>, second: seq<byte>) returns (size: nat)
    requires |first| <= STAGE && |second| <= STAGE
             && |Printed(|first|)| + |first| + |Printed(|second|)| + |second| <= dst.Length
    modifies dst
    ensures var frames := Printed(|first|) + (first + (Printed(|second|) + second));
            size == |frames| && dst[..size] == frames
    ensures forall k :: size <= k < dst.Length ==> dst[k] == old(dst[k])
  {
    hide Printed;
    assert dst[..0] == [];
    size := Int2Varint(|first|, dst, 0);
    size := Put(dst, size, first);
    size := Int2Varint(|second|, dst, size);
    size := Put(dst, size, second);
    assert (([] + Printed(|first|)) + first + Printed(|second|)) + second == Printed(|first|)
           + (first + (Printed(|second|) + second));
  }
}
