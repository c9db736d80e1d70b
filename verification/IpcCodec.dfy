/** The packets between the relay and its resolver helpers: one request, and a response of BEGIN,
    CNAME*, ADDRESS* or SRV*, END. Printing and parsing are inverse to each other in both directions.
 */
module IpcCodec {
  import opened Basics
  import opened Names
  import opened Wire

  type u8 = x: nat | x < 0x100

  const PACKET_LIMIT: nat := 4096
  const HEADER_SIZE: nat := 20
  const MAGIC: nat := 0x4D52_5350
  const VERSION: nat := 1
  const CLASS_IN: nat := 1
  const TYPE_A: u16 := 1
  const TYPE_AAAA: u16 := 28
  const TYPE_SRV: u16 := 33
  const CNAME_LIMIT: nat := 16
  const ADDRESS_LIMIT: nat := 128
  const SRV_LIMIT: nat := 128
  const SECOND_LIMIT: nat := 0x8000_0000_0000_0000
  const NANOSECOND_LIMIT: nat := 1_000_000_000
  const RCODE_LIMIT: nat := 15

  const REQUEST: nat := 1
  const RESPONSE_BEGIN: nat := 2
  const RESPONSE_CNAME: nat := 3
  const RESPONSE_ADDRESS: nat := 4
  const RESPONSE_SRV: nat := 5
  const RESPONSE_END: nat := 6

  datatype Status = Ok | BadArgument | OverLimit | Malformed | Unsupported
  datatype Codec<+T> = Decoded(value: T) | Failed(status: Status)

  datatype Negative = Negative(valid: bool, owner: Name, effectiveTtl: u32, minimum: u32, recordTtl: u32)
  datatype CnameRecord = CnameRecord(owner: Name, target: Name, ttl: u32)
  /** An IPv4 address has four bytes, an IPv6 address sixteen. */
  datatype AddressRecord = AddressRecord(address: seq<byte>, recordTtl: u32, effectiveTtl: u32)
  datatype SrvRecord = SrvRecord(priority: u16, weight: u16, port: u16, target: Name, recordTtl: u32, effectiveTtl: u32)

  datatype Packet =
    | Request(queryId: u64, queryType: u16, name: Name)
    | Begin(queryId: u64, queryType: u16, status: u16, rcode: u8, seconds: u64, nanoseconds: u32,
            cnameCount: u16, recordCount: u16, question: Name, canonical: Name, negative: Negative)
    | Cname(queryId: u64, index: u16, cname: CnameRecord)
    | Address(queryId: u64, index: u16, address: AddressRecord)
    | Srv(queryId: u64, index: u16, srv: SrvRecord)
    | End(queryId: u64, cnameCount: u16, recordCount: u16)

  // ---------------------------------------------------------------- layout

  const HEADER_WIDTHS: seq<nat> := [4, 2, 2, 2, 2, 8]

  function Code(p: Packet): (r: nat) {
    match p
    case Request(_, _, _) => REQUEST
    case Begin(_, _, _, _, _, _, _, _, _, _, _) => RESPONSE_BEGIN
    case Cname(_, _, _) => RESPONSE_CNAME
    case Address(_, _, _) => RESPONSE_ADDRESS
    case Srv(_, _, _) => RESPONSE_SRV
    case End(_, _, _) => RESPONSE_END
  }

  function Widths(code: nat): (r: seq<nat>) {
    if code == REQUEST then [2, 2, 2]
    else if code == RESPONSE_BEGIN then [2, 2, 2, 1, 1, 8, 4, 2, 2, 2, 2, 2, 4, 4, 4]
    else if code == RESPONSE_CNAME then [2, 4, 2, 2]
    else if code == RESPONSE_ADDRESS then [2, 2, 4, 4, 2]
    else if code == RESPONSE_SRV then [2, 2, 2, 2, 4, 4, 2]
    else [2, 2]
  }

  function Family(address: seq<byte>): (r: nat) {
    if |address| == 4 then 1 else 2
  }

  /** The fixed fields after the header, in wire order. */
  function Values(p: Packet): (r: seq<nat>)
    ensures |r| == |Widths(Code(p))|
  {
    match p
    case Request(_, queryType, name) => [CLASS_IN, queryType, |name|]
    case Begin(_, queryType, status, rcode, seconds, nanoseconds, cnames, records, question, canonical, negative) =>
      [CLASS_IN, queryType, status, rcode, if negative.valid then 1 else 0, seconds, nanoseconds, cnames, records,
       |question|, |canonical|, |negative.owner|, negative.effectiveTtl, negative.minimum, negative.recordTtl]
    case Cname(_, index, cname) => [index, cname.ttl, |cname.owner|, |cname.target|]
    case Address(_, index, a) => [index, Family(a.address), a.recordTtl, a.effectiveTtl, |a.address|]
    case Srv(_, index, s) => [index, s.priority, s.weight, s.port, s.recordTtl, s.effectiveTtl, |s.target|]
    case End(_, cnames, records) => [cnames, records]
  }

  /** The names or address after the fixed fields. */
  function Tail(p: Packet): (r: seq<byte>) {
    match p
    case Request(_, _, name) => name
    case Begin(_, _, _, _, _, _, _, _, question, canonical, negative) => question + canonical + negative.owner
    case Cname(_, _, cname) => cname.owner + cname.target
    case Address(_, _, a) => a.address
    case Srv(_, _, s) => s.target
    case End(_, _, _) => []
  }

  function Size(p: Packet): (r: nat) {
    HEADER_SIZE + Total(Widths(Code(p))) + |Tail(p)|
  }

  function Header(p: Packet): (r: seq<nat>)
    ensures |r| == |HEADER_WIDTHS|
  {
    [MAGIC, VERSION, Code(p), Size(p), 0, p.queryId]
  }

  function Body(p: Packet): (r: seq<byte>) {
    Encoded(Values(p), Widths(Code(p))) + Tail(p)
  }

  /** The packet as it goes over the socket. */
  function Bytes(p: Packet): (r: seq<byte>) {
    Encoded(Header(p), HEADER_WIDTHS) + Body(p)
  }

  // ---------------------------------------------------------------- validity

  predicate TypeValid(queryType: nat) {
    queryType == TYPE_A || queryType == TYPE_AAAA || queryType == TYPE_SRV
  }

  predicate CountsValid(queryType: nat, cnames: nat, records: nat) {
    cnames <= CNAME_LIMIT && (if queryType == TYPE_SRV then records <= SRV_LIMIT else records <= ADDRESS_LIMIT)
  }

  predicate NegativeValid(n: Negative) {
    if n.valid then n.owner != [] && n.effectiveTtl <= n.minimum && n.effectiveTtl <= n.recordTtl
    else n.owner == [] && n.effectiveTtl == 0 && n.minimum == 0 && n.recordTtl == 0
  }

  predicate NameValid(name: Name, allowEmpty: bool) {
    Storable(name) && (allowEmpty || name != [])
  }

  /** What the encoders accept. */
  predicate Valid(p: Packet) {
    && p.queryId != 0
    && match p
       case Request(_, queryType, name) => TypeValid(queryType) && NameValid(name, false)
       case Begin(_, queryType, status, rcode, seconds, nanoseconds, cnames, records, question, canonical, negative) =>
         && TypeValid(queryType) && 1 <= status <= 10 && rcode <= RCODE_LIMIT && seconds < SECOND_LIMIT
            && nanoseconds < NANOSECOND_LIMIT
         && CountsValid(queryType, cnames, records)
         && NameValid(question, true) && NameValid(canonical, true) && NameValid(negative.owner, true)
            && NegativeValid(negative)
       case Cname(_, index, cname) => index < CNAME_LIMIT && NameValid(cname.owner, false)
         && NameValid(cname.target, false)
       case Address(_, index, a) => index < ADDRESS_LIMIT && a.effectiveTtl <= a.recordTtl
         && (|a.address| == 4 || |a.address| == 16)
       case Srv(_, index, s) => index < SRV_LIMIT && s.effectiveTtl <= s.recordTtl && NameValid(s.target, false)
       case End(_, cnames, records) => cnames <= CNAME_LIMIT && (records <= ADDRESS_LIMIT || records <= SRV_LIMIT)
  }

  // ---------------------------------------------------------------- parsing

  datatype Envelope = Envelope(code: nat, queryId: u64, body: seq<byte>)

  /** The common header. */
  function Inspect(packet: seq<byte>): (r: Codec<Envelope>)
    ensures r.Decoded? ==> REQUEST <= r.value.code <= RESPONSE_END && r.value.queryId != 0
  {
    if |packet| > PACKET_LIMIT then Failed(OverLimit)
    else
      var read := Numbers(packet, HEADER_WIDTHS);
      if read.None? then Failed(Malformed)
      else
        var v := read.value.0;
        if v[0] != MAGIC || v[3] != |packet| || v[4] != 0 || v[5] == 0 || v[5] > UINT64_MAX then Failed(Malformed)
        else if v[1] != VERSION then Failed(Unsupported)
        else if !(REQUEST <= v[2] <= RESPONSE_END) then Failed(Unsupported)
        else Decoded(Envelope(v[2], v[5], read.value.1))
  }

  predicate In16(v: nat) { v < 0x1_0000 }
  predicate In32(v: nat) { v < 0x1_0000_0000 }

  function RebuildRequest(queryId: u64, v: seq<nat>, tail: seq<byte>): (r: Option<Packet>)
    requires |v| == 3
  {
    if v[0] == CLASS_IN && In16(v[1]) && TypeValid(v[1]) && |tail| == v[2] && NameValid(tail, false)
      then Some(Request(queryId, v[1], tail)) else None
  }

  function RebuildBegin(queryId: u64, v: seq<nat>, tail: seq<byte>): (r: Option<Packet>)
    requires |v| == 15
  {
    if |tail| != v[9] + v[10] + v[11] then None
    else
      var question, canonical, owner := tail[..v[9]], tail[v[9]..v[9] + v[10]], tail[v[9] + v[10]..];
      if v[0] == CLASS_IN && In16(v[1]) && TypeValid(v[1]) && 1 <= v[2] <= 10 && v[3] <= RCODE_LIMIT && v[4] <= 1
        && v[5] < SECOND_LIMIT && v[6] < NANOSECOND_LIMIT && CountsValid(v[1], v[7], v[8])
        && In32(v[12]) && In32(v[13]) && In32(v[14])
        && NameValid(question, true) && NameValid(canonical, true) && NameValid(owner, true)
        && NegativeValid(Negative(v[4] == 1, owner, v[12], v[13], v[14]))
      then Some(Begin(queryId, v[1], v[2], v[3], v[5], v[6], v[7], v[8], question, canonical,
        Negative(v[4] == 1, owner, v[12], v[13], v[14])))
      else None
  }

  function RebuildCname(queryId: u64, v: seq<nat>, tail: seq<byte>): (r: Option<Packet>)
    requires |v| == 4
  {
    if |tail| != v[2] + v[3] then None
    else
      var owner, target := tail[..v[2]], tail[v[2]..];
      if v[0] < CNAME_LIMIT && In32(v[1]) && NameValid(owner, false) && NameValid(target, false)
        then Some(Cname(queryId, v[0], CnameRecord(owner, target, v[1]))) else None
  }

  function RebuildAddress(queryId: u64, v: seq<nat>, tail: seq<byte>): (r: Option<Packet>)
    requires |v| == 5
  {
    if v[0] < ADDRESS_LIMIT && In32(v[2]) && v[3] <= v[2] && |tail| == v[4]
      && ((v[1] == 1 && |tail| == 4) || (v[1] == 2 && |tail| == 16))
    then Some(Address(queryId, v[0], AddressRecord(tail, v[2], v[3]))) else None
  }

  function RebuildSrv(queryId: u64, v: seq<nat>, tail: seq<byte>): (r: Option<Packet>)
    requires |v| == 7
  {
    if v[0] < SRV_LIMIT && In16(v[1]) && In16(v[2]) && In16(v[3]) && In32(v[4]) && v[5] <= v[4] && |tail| == v[6]
      && NameValid(tail, false)
    then Some(Srv(queryId, v[0], SrvRecord(v[1], v[2], v[3], tail, v[4], v[5]))) else None
  }

  function RebuildEnd(queryId: u64, v: seq<nat>, tail: seq<byte>): (r: Option<Packet>)
    requires |v| == 2
  {
    if v[0] <= CNAME_LIMIT && (v[1] <= ADDRESS_LIMIT || v[1] <= SRV_LIMIT) && tail == []
      then Some(End(queryId, v[0], v[1])) else None
  }

  function Rebuild(code: nat, queryId: u64, v: seq<nat>, tail: seq<byte>): (r: Option<Packet>)
    requires |v| == |Widths(code)|
  {
    if code == REQUEST then RebuildRequest(queryId, v, tail)
    else if code == RESPONSE_BEGIN then RebuildBegin(queryId, v, tail)
    else if code == RESPONSE_CNAME then RebuildCname(queryId, v, tail)
    else if code == RESPONSE_ADDRESS then RebuildAddress(queryId, v, tail)
    else if code == RESPONSE_SRV then RebuildSrv(queryId, v, tail)
    else RebuildEnd(queryId, v, tail)
  }

  /** A packet of the expected kind. */
  function Parse(packet: seq<byte>, expected: nat): (r: Codec<Packet>) {
    var header := Inspect(packet);
    if header.Failed? then Failed(header.status)
    else if header.value.code != expected then Failed(Malformed)
    else
      var read := Numbers(header.value.body, Widths(expected));
      if read.None? then Failed(Malformed)
      else
        var built := Rebuild(expected, header.value.queryId, read.value.0, read.value.1);
        if built.None? then Failed(Malformed) else Decoded(built.value)
  }

  // ---------------------------------------------------------------- inverse on the fields

  lemma RebuildOfValues(p: Packet)
    requires Valid(p)
    ensures Rebuild(Code(p), p.queryId, Values(p), Tail(p)) == Some(p)
  {
    if p.Begin? {
      BeginOfValues(p);
      hide RebuildBegin, Valid;
    } else {
      hide RebuildBegin;
      if p.Cname? {
        assert Tail(p)[..|p.cname.owner|] == p.cname.owner && Tail(p)[|p.cname.owner|..] == p.cname.target;
      }
    }
  }

  lemma BeginOfValues(p: Packet)
    requires Valid(p) && p.Begin?
    ensures RebuildBegin(p.queryId, Values(p), Tail(p)) == Some(p)
  {
    hide NameValid, NegativeValid, CountsValid, TypeValid;
    var tail, n, m := Tail(p), |p.question|, |p.canonical|;
    assert tail[..n] == p.question && tail[n..n + m] == p.canonical && tail[n + m..] == p.negative.owner;
  }

  lemma ValuesOfRebuild(code: nat, queryId: u64, v: seq<nat>, tail: seq<byte>)
    requires REQUEST <= code <= RESPONSE_END && queryId != 0 && |v| == |Widths(code)|
    requires Rebuild(code, queryId, v, tail).Some?
    ensures var p := Rebuild(code, queryId, v, tail).value;
            Valid(p) && Code(p) == code && p.queryId == queryId && Values(p) == v && Tail(p) == tail
  {
    if code == RESPONSE_BEGIN {
      ValuesOfBegin(queryId, v, tail);
      hide RebuildBegin, Valid, Values, Tail;
    } else {
      hide RebuildBegin, NameValid, TypeValid;
      if code == RESPONSE_CNAME {
        var p := RebuildCname(queryId, v, tail).value;
        assert tail == p.cname.owner + p.cname.target;
      }
    }
  }

  lemma ValuesOfBegin(queryId: u64, v: seq<nat>, tail: seq<byte>)
    requires |v| == 15 && queryId != 0 && RebuildBegin(queryId, v, tail).Some?
    ensures var p := RebuildBegin(queryId, v, tail).value;
            p.Begin? && Valid(p) && p.queryId == queryId && Values(p) == v && Tail(p) == tail
  {
    hide NameValid, NegativeValid, CountsValid, TypeValid;
    var p := RebuildBegin(queryId, v, tail).value;
    assert tail == p.question + p.canonical + p.negative.owner;
  }

  lemma Limits()
    ensures Limit(1) == 0x100 && Limit(2) == 0x1_0000 && Limit(4) == 0x1_0000_0000
            && Limit(8) == 0x1_0000_0000_0000_0000
  {
    assert Limit(2) == 256 * Limit(1);
    assert Limit(3) == 256 * Limit(2);
    assert Limit(4) == 256 * Limit(3);
    assert Limit(5) == 256 * Limit(4);
    assert Limit(6) == 256 * Limit(5);
    assert Limit(7) == 256 * Limit(6);
    assert Limit(8) == 256 * Limit(7);
  }

  lemma ValuesFit(p: Packet)
    requires Valid(p)
    ensures Fits(Values(p), Widths(Code(p)))
  {
    Limits();
  }

  lemma TotalFrom(widths: seq<nat>, k: nat)
    requires k < |widths|
    ensures Total(widths[k..]) == widths[k] + Total(widths[k + 1..])
  {
    assert widths[k..][1..] == widths[k + 1..];
  }

  lemma TotalLast(widths: seq<nat>)
    ensures Total(widths[|widths|..]) == 0 && widths[0..] == widths
  {
  }

  lemma HeaderTotal()
    ensures Total(HEADER_WIDTHS) == HEADER_SIZE
  {
    var w := HEADER_WIDTHS;
    TotalLast(w);
    TotalFrom(w, 5);
    TotalFrom(w, 4);
    TotalFrom(w, 3);
    TotalFrom(w, 2);
    TotalFrom(w, 1);
    TotalFrom(w, 0);
  }

  lemma {:induction false} TotalBound(widths: seq<nat>, most: nat)
    requires forall i :: 0 <= i < |widths| ==> widths[i] <= most
    ensures Total(widths) <= most * |widths|
  {
    if widths != [] {
      TotalBound(widths[1..], most);
      assert most * |widths| == most * (|widths| - 1) + most;
    }
  }

  /** No packet the encoders accept can exceed the packet limit. */
  lemma SizeBounded(p: Packet)
    requires Valid(p)
    ensures HEADER_SIZE <= Size(p) <= PACKET_LIMIT && |Bytes(p)| == Size(p)
  {
    HeaderTotal();
    TotalBound(Widths(Code(p)), 8);
  }

  // ---------------------------------------------------------------- inverse on the bytes

  lemma HeaderFits(p: Packet)
    requires Valid(p)
    ensures Fits(Header(p), HEADER_WIDTHS)
  {
    Limits();
    SizeBounded(p);
  }

  lemma InspectOfBytes(p: Packet)
    requires Valid(p)
    ensures Inspect(Bytes(p)) == Decoded(Envelope(Code(p), p.queryId, Body(p)))
  {
    HeaderFits(p);
    SizeBounded(p);
    NumbersOfEncoded(Header(p), HEADER_WIDTHS, Body(p));
  }

  /** Parsing what was printed gives the packet back. */
  lemma ParseOfBytes(p: Packet)
    requires Valid(p)
    ensures Parse(Bytes(p), Code(p)) == Decoded(p)
  {
    InspectOfBytes(p);
    ValuesFit(p);
    hide Inspect, Bytes, Rebuild;
    NumbersOfEncoded(Values(p), Widths(Code(p)), Tail(p));
    RebuildOfValues(p);
  }

  lemma BytesOfInspect(packet: seq<byte>)
    requires Inspect(packet).Decoded?
    ensures var e := Inspect(packet).value;
            packet == Encoded([MAGIC, VERSION, e.code, |packet|, 0, e.queryId], HEADER_WIDTHS) + e.body
              && |packet| == HEADER_SIZE + |e.body|
  {
    HeaderTotal();
    EncodedOfNumbers(packet, HEADER_WIDTHS);
    var v := Numbers(packet, HEADER_WIDTHS).value.0;
    assert v == [v[0], v[1], v[2], v[3], v[4], v[5]];
  }

  /** Every accepted packet prints back to exactly the bytes received, so each packet has one form. */
  lemma BytesOfParse(packet: seq<byte>, expected: nat)
    requires Parse(packet, expected).Decoded?
    ensures var p := Parse(packet, expected).value; Valid(p) && Code(p) == expected && Bytes(p) == packet
  {
    var e := Inspect(packet).value;
    BytesOfInspect(packet);
    hide Inspect, Rebuild, Valid;
    EncodedOfNumbers(e.body, Widths(expected));
    var (v, tail) := Numbers(e.body, Widths(expected)).value;
    ValuesOfRebuild(expected, e.queryId, v, tail);
    var p := Parse(packet, expected).value;
    assert Body(p) == e.body;
    assert |packet| == Size(p);
  }

  /** Different valid packets never share their bytes. */
  lemma BytesInjective(p: Packet, q: Packet)
    requires Valid(p) && Valid(q) && Bytes(p) == Bytes(q)
    ensures p == q
  {
    hide Bytes;
    InspectOfBytes(p);
    InspectOfBytes(q);
    ParseOfBytes(p);
    ParseOfBytes(q);
  }

  // ---------------------------------------------------------------- the encoder and the decoder

  /** Prints a packet into a buffer. */
  method Encode(p: Packet, buffer: array<byte>) returns (status: Status, size: nat)
    modifies buffer
    ensures status == if !Valid(p) then BadArgument else if buffer.Length < Size(p) then OverLimit else Ok
    ensures status.Ok? ==> size == Size(p) <= buffer.Length && buffer[..size] == Bytes(p)
    ensures !status.Ok? ==> size == 0
  {
    hide Valid, Values, Tail, Encoded, Header, Widths, Total;
    if !Valid(p) {
      return BadArgument, 0;
    }
    SizeBounded(p);
    HeaderTotal();
    var total := Size(p);
    if total > PACKET_LIMIT || buffer.Length < total {
      return OverLimit, 0;
    }
    Print(Header(p), Values(p), Widths(Code(p)), Tail(p), buffer, total);
    return Ok, total;
  }

  method Print(header: seq<nat>, values: seq<nat>, widths: seq<nat>, tail: seq<byte>, buffer: array<byte>, total: nat)
    requires |header| == |HEADER_WIDTHS| && |values| == |widths|
    requires total == Total(HEADER_WIDTHS) + Total(widths) + |tail| <= buffer.Length
    modifies buffer
    ensures buffer[..total] == Encoded(header, HEADER_WIDTHS) + (Encoded(values, widths) + tail)
  {
    hide Encoded, Total;
    var writer := new PacketWriter(buffer, total);
    var head := writer.NumberRun(header, HEADER_WIDTHS);
    var fields := writer.NumberRun(values, widths);
    var rest := writer.Bytes(tail);
    Regrouped(Encoded(header, HEADER_WIDTHS), Encoded(values, widths), tail);
    assert [] + Encoded(header, HEADER_WIDTHS) == Encoded(header, HEADER_WIDTHS);
    assert writer.Written() == buffer[..total];
  }

  /** Reads the common header. */
  method DecodeHeader(packet: seq<byte>) returns (result: Codec<Envelope>)
    ensures result == Inspect(packet)
  {
    if |packet| > PACKET_LIMIT {
      return Failed(OverLimit);
    }
    var reader := new PacketReader(packet);
    var header := reader.NumberRun(HEADER_WIDTHS);
    if header.None? {
      return Failed(Malformed);
    }
    var v := header.value;
    var body := reader.TakeRest();
    if v[0] != MAGIC || v[3] != |packet| || v[4] != 0 || v[5] == 0 || v[5] > UINT64_MAX {
      return Failed(Malformed);
    }
    if v[1] != VERSION || !(REQUEST <= v[2] <= RESPONSE_END) {
      return Failed(Unsupported);
    }
    result := Decoded(Envelope(v[2], v[5], body));
  }

  /** Parses one packet of the expected kind. */
  method Decode(packet: seq<byte>, expected: nat) returns (result: Codec<Packet>)
    ensures result == Parse(packet, expected)
  {
    hide Inspect, Rebuild, Numbers, Widths;
    var header := DecodeHeader(packet);
    if header.Failed? {
      return Failed(header.status);
    }
    if header.value.code != expected {
      return Failed(Malformed);
    }
    var reader := new PacketReader(header.value.body);
    var fields := reader.NumberRun(Widths(expected));
    if fields.None? {
      return Failed(Malformed);
    }
    var tail := reader.TakeRest();
    var built := Rebuild(expected, header.value.queryId, fields.value, tail);
    result := if built.None? then Failed(Malformed) else Decoded(built.value);
  }
}
