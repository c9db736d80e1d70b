/** Putting a helper's reply together again from its packets. The packet sequences an assembly accepts
    are exactly the ones a helper emits for a well-formed reply.
 */
module IpcAssembly {
  import opened Basics
  import opened Names
  import opened Wire
  import opened IpcCodec

  const TTL_MAX: u32 := 0xFFFF_FFFF

  const STATUS_OK: u16 := 1
  const STATUS_NODATA: u16 := 6
  const STATUS_NOT_FOUND: u16 := 7
  const STATUS_PERMANENT: u16 := 8
  const STATUS_TEMPORARY: u16 := 9

  const RCODE_NOERROR: nat := 0
  const RCODE_SERVFAIL: nat := 2
  const RCODE_NXDOMAIN: nat := 3

  datatype Record = AddressOf(a: AddressRecord) | SrvOf(s: SrvRecord)

  /** A whole lookup result. */
  datatype Reply = Reply(
    queryType: u16,
    status: u16,
    seconds: u64,
    nanoseconds: u32,
    question: Name,
    canonical: Name,
    rcode: u8,
    negative: Negative,
    cnames: seq<CnameRecord>,
    records: seq<Record>)

  // ---------------------------------------------------------------- emission

  /** The first packet; it announces how many others follow. */
  function BeginOf(r: Reply, queryId: u64, cnames: u16, records: u16): (p: Packet) {
    Begin(queryId, r.queryType, r.status, r.rcode, r.seconds, r.nanoseconds, cnames, records, r.question, r.canonical,
      r.negative)
  }

  function RecordPacket(queryId: u64, index: u16, record: Record): (p: Packet) {
    match record
    case AddressOf(a) => Address(queryId, index, a)
    case SrvOf(s) => Srv(queryId, index, s)
  }

  function CnamePackets(queryId: u64, cnames: seq<CnameRecord>): (r: seq<Packet>)
    requires |cnames| < 0x1_0000
    ensures |r| == |cnames|
  {
    seq(|cnames|, i requires 0 <= i < |cnames| => Cname(queryId, i, cnames[i]))
  }

  function RecordPackets(queryId: u64, records: seq<Record>): (r: seq<Packet>)
    requires |records| < 0x1_0000
    ensures |r| == |records|
  {
    seq(|records|, i requires 0 <= i < |records| => RecordPacket(queryId, i, records[i]))
  }

  predicate Countable(r: Reply) {
    |r.cnames| < 0x1_0000 && |r.records| < 0x1_0000
  }

  /** What a helper sends for a result. */
  function Script(r: Reply, queryId: u64): (packets: seq<Packet>)
    requires Countable(r)
  {
    [BeginOf(r, queryId, |r.cnames|, |r.records|)] + CnamePackets(queryId, r.cnames) + RecordPackets(queryId, r.records)
    + [End(queryId, |r.cnames|, |r.records|)]
  }

  function Printed(packets: seq<Packet>): (r: seq<seq<byte>>)
    ensures |r| == |packets|
  {
    seq(|packets|, i requires 0 <= i < |packets| => Bytes(packets[i]))
  }

  /** Encodes a result packet by packet, in the helper's order, and stops at the first packet the
      encoder refuses. */
  method Emit(r: Reply, queryId: u64) returns (ok: bool, sent: seq<seq<byte>>)
    requires Countable(r)
    ensures ok <==> forall p :: p in Script(r, queryId) ==> Valid(p)
    ensures ok ==> sent == Printed(Script(r, queryId))
    ensures !ok ==>
            |sent| < |Script(r, queryId)| && !Valid(Script(r, queryId)[|sent|])
              && sent == Printed(Script(r, queryId)[..|sent|])
  {
    hide Valid, Bytes, Size;
    var script := Script(r, queryId);
    sent := [];
    var k := 0;
    while k < |script|
      invariant 0 <= k <= |script| && sent == Printed(script[..k])
      invariant forall i :: 0 <= i < k ==> Valid(script[i])
    {
      var buffer := new byte[PACKET_LIMIT];
      var status, size := Encode(script[k], buffer);
      if !status.Ok? {
        Refused(script[k]);
        assert script[k] in script;
        return false, sent;
      }
      assert script[..k + 1] == script[..k] + [script[k]];
      sent := sent + [buffer[..size]];
      k := k + 1;
    }
    assert script[..k] == script;
    ok := true;
  }

  lemma Refused(p: Packet)
    ensures Valid(p) ==> Size(p) <= PACKET_LIMIT
  {
    if Valid(p) {
      SizeBounded(p);
    }
  }

  // ---------------------------------------------------------------- well-formed replies

  /** The names along an alias chain, from the question to its end. */
  function Nodes(question: Name, cnames: seq<CnameRecord>): (r: seq<Name>)
    ensures |r| == |cnames| + 1
  {
    [question] + seq(|cnames|, i requires 0 <= i < |cnames| => cnames[i].target)
  }

  /** The aliases form a simple path from the question: each starts where the one before ended, and no
      name occurs twice. */
  ghost predicate SimplePath(question: Name, cnames: seq<CnameRecord>) {
    && (forall i :: 0 <= i < |cnames| ==> cnames[i].owner == Nodes(question, cnames)[i])
    && Distinct(Nodes(question, cnames))
  }

  function Lesser(a: u32, b: u32): (r: u32) {
    if a < b then a else b
  }

  /** The least TTL along an alias chain. */
  function ChainTtl(cnames: seq<CnameRecord>): (r: u32) {
    if cnames == [] then TTL_MAX else Lesser(ChainTtl(cnames[..|cnames| - 1]), cnames[|cnames| - 1].ttl)
  }

  predicate ResolverError(status: nat) {
    status == STATUS_PERMANENT || status == STATUS_TEMPORARY
  }

  /** The parts of a reply that its BEGIN packet announces fit each other and the question asked. */
  predicate Announced(r: Reply, expected: Name, cnames: nat, records: nat) {
    if r.status == STATUS_OK || r.status == STATUS_NODATA || r.status == STATUS_NOT_FOUND then
      if r.status != STATUS_OK && r.question == [] then
        r.canonical == [] && cnames == 0 && records == 0 && !r.negative.valid && r.rcode == 0
      else
        && Normalized(r.question) && r.question == expected && Normalized(r.canonical)
        && if r.status == STATUS_OK then r.rcode == RCODE_NOERROR && records > 0 && !r.negative.valid
           else
             && records == 0
             && ((r.status == STATUS_NODATA && r.rcode == RCODE_NOERROR)
                 || (r.status == STATUS_NOT_FOUND
                    && (r.rcode == RCODE_NXDOMAIN || (r.rcode == 0 && !r.negative.valid))))
    else if ResolverError(r.status) then
      && records == 0 && !r.negative.valid
      && !(r.status == STATUS_TEMPORARY && r.rcode != 0 && r.rcode != RCODE_SERVFAIL)
      && !(r.status == STATUS_PERMANENT && (r.rcode == RCODE_NXDOMAIN || r.rcode == RCODE_SERVFAIL))
      && if r.question == [] then r.canonical == [] && cnames == 0 && r.rcode == 0
         else
           && Normalized(r.question) && r.question == expected
           && (if cnames > 0 then Normalized(r.canonical) else r.canonical == [])
    else
      cnames == 0 && records == 0 && !r.negative.valid && r.question == [] && r.canonical == [] && r.rcode == 0
  }

  predicate RecordFits(queryType: u16, chainTtl: u32, record: Record) {
    match record
    case AddressOf(a) =>
      && queryType != TYPE_SRV && |a.address| == (if queryType == TYPE_A then 4 else 16)
      && a.effectiveTtl == Lesser(a.recordTtl, chainTtl)
    case SrvOf(s) => queryType == TYPE_SRV && Normalized(s.target) && s.effectiveTtl == Lesser(s.recordTtl, chainTtl)
  }

  /** The chain ends at the canonical name, and a negative answer lives as long as its SOA and the chain allow. */
  predicate Closed(r: Reply, chainTtl: u32) {
    && (if r.cnames != [] then r.canonical == r.cnames[|r.cnames| - 1].target
        else ResolverError(r.status) || r.canonical == r.question)
    && (r.negative.valid ==>
          && Normalized(r.negative.owner) && Encloses(r.negative.owner, r.canonical)
          && r.negative.effectiveTtl == Lesser(Lesser(r.negative.minimum, r.negative.recordTtl), chainTtl))
  }

  ghost predicate WellFormed(r: Reply, expected: Name, queryId: u64) {
    && |r.cnames| <= CNAME_LIMIT && |r.records| <= (if r.queryType == TYPE_SRV then SRV_LIMIT else ADDRESS_LIMIT)
    && (forall p :: p in Script(r, queryId) ==> Valid(p))
    && Announced(r, expected, |r.cnames|, |r.records|)
    && (forall c :: c in r.cnames ==> Normalized(c.owner) && Normalized(c.target))
    && SimplePath(r.question, r.cnames)
    && (forall x :: x in r.records ==> RecordFits(r.queryType, ChainTtl(r.cnames), x))
    && Closed(r, ChainTtl(r.cnames))
  }

  // ---------------------------------------------------------------- the assembly automaton

  datatype Phase = AtBegin | AtCname | AtRecord | AtEnd | IsComplete | IsFailed | IsTaken

  datatype Assembly = Assembly(
    expected: Name,
    queryType: u16,
    queryId: u64,
    phase: Phase,
    declaredCnames: u16,
    declaredRecords: u16,
    chainTtl: u32,
    reply: Reply,
    dynamicBytes: nat)

  const NO_NEGATIVE: Negative := Negative(false, [], 0, 0, 0)

  function Blank(queryType: u16): (r: Reply) {
    Reply(queryType, 0, 0, 0, [], [], 0, NO_NEGATIVE, [], [])
  }

  function Fresh(expected: Name, queryType: u16, queryId: u64): (a: Assembly) {
    Assembly(expected, queryType, queryId, AtBegin, 0, 0, 0, Blank(queryType), 0)
  }

  /** The packet kind the automaton waits for. */
  function Awaited(a: Assembly): (code: nat) {
    match a.phase
    case AtBegin => RESPONSE_BEGIN
    case AtCname => RESPONSE_CNAME
    case AtRecord => if a.queryType == TYPE_SRV then RESPONSE_SRV else RESPONSE_ADDRESS
    case _ => RESPONSE_END
  }

  predicate Live(phase: Phase) {
    phase.AtBegin? || phase.AtCname? || phase.AtRecord? || phase.AtEnd?
  }

  function AfterCnames(records: nat): (phase: Phase) {
    if records > 0 then AtRecord else AtEnd
  }

  function AcceptBegin(a: Assembly, p: Packet): (r: Option<Assembly>)
    requires p.Begin?
  {
    var reply := Reply(a.queryType, p.status, p.seconds, p.nanoseconds, p.question, p.canonical, p.rcode, p.negative,
      [], []);
    if p.queryType != a.queryType || !Announced(reply, a.expected, p.cnameCount, p.recordCount) then None
    else Some(a.(chainTtl := TTL_MAX, declaredCnames := p.cnameCount, declaredRecords := p.recordCount, reply := reply,
                 phase := if p.cnameCount > 0 then AtCname else AfterCnames(p.recordCount)))
  }

  function NextOwner(r: Reply): (owner: Name) {
    if r.cnames == [] then r.question else r.cnames[|r.cnames| - 1].target
  }

  function AcceptCname(a: Assembly, p: Packet): (r: Option<Assembly>)
    requires p.Cname?
  {
    var c := p.cname;
    if p.index != |a.reply.cnames| || !Normalized(c.owner) || !Normalized(c.target) || c.owner != NextOwner(a.reply)
      || (exists i :: 0 <= i < |a.reply.cnames| && c.target == a.reply.cnames[i].owner) || c.target == c.owner then None
    else
      var cnames := a.reply.cnames + [c];
      Some(a.(reply := a.reply.(cnames := cnames), chainTtl := if c.ttl < a.chainTtl then c.ttl else a.chainTtl,
              phase := if |cnames| == a.declaredCnames then AfterCnames(a.declaredRecords) else a.phase))
  }

  function AcceptRecord(a: Assembly, index: u16, record: Record): (r: Option<Assembly>) {
    if index != |a.reply.records| || !RecordFits(a.queryType, a.chainTtl, record) then None
    else
      var records := a.reply.records + [record];
      var phase := if |records| == a.declaredRecords then AtEnd else a.phase;
      Some(a.(reply := a.reply.(records := records), phase := phase))
  }

  function AcceptEnd(a: Assembly, p: Packet): (r: Option<Assembly>)
    requires p.End?
  {
    if p.cnameCount != a.declaredCnames || p.recordCount != a.declaredRecords || |a.reply.cnames| != a.declaredCnames
      || |a.reply.records| != a.declaredRecords || !Closed(a.reply, a.chainTtl) then None
    else Some(a.(phase := IsComplete))
  }

  function Accept(a: Assembly, p: Packet): (r: Option<Assembly>)
    requires Live(a.phase)
  {
    if p.queryId != a.queryId || Code(p) != Awaited(a) then None
    else match p
         case Begin(_, _, _, _, _, _, _, _, _, _, _) => AcceptBegin(a, p)
         case Cname(_, _, _) => AcceptCname(a, p)
         case Address(_, index, address) => AcceptRecord(a, index, AddressOf(address))
         case Srv(_, index, srv) => AcceptRecord(a, index, SrvOf(srv))
         case End(_, _, _) => AcceptEnd(a, p)
         case Request(_, _, _) => None
  }

  /** One received packet. */
  function Consume(a: Assembly, packet: seq<byte>): (r: Option<Assembly>) {
    if !Live(a.phase) then None
    else
      var parsed := Parse(packet, Awaited(a));
      if parsed.Failed? then None else Accept(a, parsed.value)
  }

  function Feed(a: Assembly, packets: seq<seq<byte>>): (r: Option<Assembly>) {
    if packets == [] then Some(a)
    else
      var before := Feed(a, packets[..|packets| - 1]);
      if before.None? then None else Consume(before.value, packets[|packets| - 1])
  }

  // ---------------------------------------------------------------- soundness

  /** The packets an assembly has accepted, recovered from its state. */
  ghost function Sent(a: Assembly): (packets: seq<Packet>)
    requires Countable(a.reply)
  {
    if a.phase.AtBegin? then []
    else
      [BeginOf(a.reply, a.queryId, a.declaredCnames, a.declaredRecords)] + CnamePackets(a.queryId, a.reply.cnames)
        + RecordPackets(a.queryId, a.reply.records)
      + (if a.phase.IsComplete? then [End(a.queryId, a.declaredCnames, a.declaredRecords)] else [])
  }

  ghost predicate CnamesGood(a: Assembly) {
    && (forall i :: 0 <= i < |a.reply.cnames| ==>
       Normalized(a.reply.cnames[i].owner) && Normalized(a.reply.cnames[i].target))
    && (forall i :: 0 <= i < |a.reply.cnames| ==> i < CNAME_LIMIT && Valid(Cname(a.queryId, i, a.reply.cnames[i])))
    && SimplePath(a.reply.question, a.reply.cnames)
    && a.chainTtl == ChainTtl(a.reply.cnames)
  }

  ghost predicate RecordsGood(a: Assembly) {
    && |a.reply.records| < 0x1_0000
    && (forall i :: 0 <= i < |a.reply.records| ==>
       RecordFits(a.queryType, a.chainTtl, a.reply.records[i]) && Valid(RecordPacket(a.queryId, i, a.reply.records[i])))
  }

  ghost predicate InPhase(a: Assembly) {
    match a.phase
    case AtCname => |a.reply.cnames| < a.declaredCnames && a.reply.records == []
    case AtRecord => |a.reply.cnames| == a.declaredCnames && |a.reply.records| < a.declaredRecords
    case AtEnd => |a.reply.cnames| == a.declaredCnames && |a.reply.records| == a.declaredRecords
    case IsComplete =>
      && |a.reply.cnames| == a.declaredCnames && |a.reply.records| == a.declaredRecords && Closed(a.reply, a.chainTtl)
      && Valid(End(a.queryId, a.declaredCnames, a.declaredRecords))
    case _ => false
  }

  /** What holds of an assembly that has accepted every packet so far. */
  ghost predicate Good(a: Assembly) {
    if a.phase.AtBegin? then a == Fresh(a.expected, a.queryType, a.queryId).(dynamicBytes := a.dynamicBytes)
    else
      && a.reply.queryType == a.queryType
      && Valid(BeginOf(a.reply, a.queryId, a.declaredCnames, a.declaredRecords))
      && Announced(a.reply, a.expected, a.declaredCnames, a.declaredRecords)
      && CnamesGood(a) && RecordsGood(a) && InPhase(a)
  }

  lemma GoodCountable(a: Assembly)
    requires Good(a)
    ensures Countable(a.reply)
  {
    if !a.phase.AtBegin? && a.reply.cnames != [] {
      assert |a.reply.cnames| - 1 < CNAME_LIMIT;
    }
  }

  lemma BeginSound(a: Assembly, p: Packet)
    requires Good(a) && a.phase.AtBegin? && p.Begin? && p.queryId == a.queryId && Valid(p) && AcceptBegin(a, p).Some?
    ensures var b := AcceptBegin(a, p).value; Good(b) && Countable(b.reply) && Sent(b) == Sent(a) + [p]
  {
    var b := AcceptBegin(a, p).value;
    assert BeginOf(b.reply, b.queryId, b.declaredCnames, b.declaredRecords) == p;
    assert Nodes(b.reply.question, []) == [b.reply.question];
    assert CnamePackets(b.queryId, []) == [] && RecordPackets(b.queryId, []) == [];
  }

  lemma NodesExtended(question: Name, cnames: seq<CnameRecord>, c: CnameRecord)
    ensures Nodes(question, cnames + [c]) == Nodes(question, cnames) + [c.target]
  {
  }

  /** The owners along a path are its names short of the last. */
  lemma OwnersAreNodes(question: Name, cnames: seq<CnameRecord>, target: Name)
    requires forall i :: 0 <= i < |cnames| ==> cnames[i].owner == Nodes(question, cnames)[i]
    ensures (forall i :: 0 <= i < |cnames| ==> target != cnames[i].owner) <==>
            forall i :: 0 <= i < |cnames| ==> target != Nodes(question, cnames)[i]
  {
    hide Nodes;
  }

  /** Checking a new target against the earlier owners is checking it against every name on the path. */
  lemma PathExtended(question: Name, cnames: seq<CnameRecord>, c: CnameRecord)
    requires SimplePath(question, cnames) && c.owner == Nodes(question, cnames)[|cnames|]
    ensures SimplePath(question, cnames + [c]) <==>
            (c.target != c.owner && forall i :: 0 <= i < |cnames| ==> c.target != cnames[i].owner)
  {
    var nodes := Nodes(question, cnames);
    NodesExtended(question, cnames, c);
    OwnersAreNodes(question, cnames, c.target);
    OwnersExtended(question, cnames, c);
    hide Nodes;
    NewNode(nodes, c.target);
    assert c.target !in nodes <==> forall i :: 0 <= i <= |cnames| ==> c.target != nodes[i];
  }

  lemma OwnersExtended(question: Name, cnames: seq<CnameRecord>, c: CnameRecord)
    requires (forall i :: 0 <= i < |cnames| ==> cnames[i].owner == Nodes(question, cnames)[i])
             && c.owner == Nodes(question, cnames)[|cnames|]
    ensures forall i :: 0 <= i < |cnames + [c]| ==> (cnames + [c])[i].owner == Nodes(question, cnames + [c])[i]
  {
    NodesExtended(question, cnames, c);
    hide Nodes;
  }

  lemma NewNode(nodes: seq<Name>, x: Name)
    requires Distinct(nodes)
    ensures Distinct(nodes + [x]) <==> x !in nodes
  {
    if x !in nodes {
      Extended(nodes, x, nodes + [x]);
    } else {
      var i :| 0 <= i < |nodes| && nodes[i] == x;
      assert (nodes + [x])[i] == (nodes + [x])[|nodes|];
    }
  }

  lemma ChainTtlExtended(cnames: seq<CnameRecord>, c: CnameRecord)
    ensures ChainTtl(cnames + [c]) == if c.ttl < ChainTtl(cnames) then c.ttl else ChainTtl(cnames)
  {
    assert (cnames + [c])[..|cnames|] == cnames;
  }

  lemma NextOwnerIsNode(question: Name, r: Reply)
    requires r.question == question
    ensures NextOwner(r) == Nodes(question, r.cnames)[|r.cnames|]
  {
  }

  lemma CnamesGrow(a: Assembly, p: Packet)
    requires CnamesGood(a) && p.Cname? && p.queryId == a.queryId && Valid(p) && AcceptCname(a, p).Some?
    ensures CnamesGood(AcceptCname(a, p).value)
  {
    var b := AcceptCname(a, p).value;
    var c := p.cname;
    IndexValid(p);
    hide Valid, Normalize;
    NextOwnerIsNode(a.reply.question, a.reply);
    PathExtended(a.reply.question, a.reply.cnames, c);
    ChainTtlExtended(a.reply.cnames, c);
    hide SimplePath, ChainTtl;
    forall i | 0 <= i < |b.reply.cnames|
      ensures Normalized(b.reply.cnames[i].owner) && Normalized(b.reply.cnames[i].target) && i < CNAME_LIMIT
              && Valid(Cname(a.queryId, i, b.reply.cnames[i]))
    {
      if i == |a.reply.cnames| {
        assert b.reply.cnames[i] == c && Cname(a.queryId, i, c) == p;
      } else {
        assert b.reply.cnames[i] == a.reply.cnames[i];
      }
    }
  }

  lemma IndexValid(p: Packet)
    requires p.Cname? && Valid(p)
    ensures p.index < CNAME_LIMIT
  {
  }

  lemma CnameSound(a: Assembly, p: Packet)
    requires Good(a) && a.phase.AtCname? && p.Cname? && p.queryId == a.queryId && Valid(p) && AcceptCname(a, p).Some?
    ensures var b := AcceptCname(a, p).value;
            Good(b) && Countable(b.reply) && Countable(a.reply) && Sent(b) == Sent(a) + [p]
  {
    hide CnamesGood, Valid, Normalize, RecordFits;
    var b := AcceptCname(a, p).value;
    GoodCountable(a);
    CnamesGrow(a, p);
    CountsFit(a);
    AnnouncedSame(a.reply, b.reply, a.expected, a.declaredCnames, a.declaredRecords);
    hide Announced, NextOwner;
    assert CnamePackets(a.queryId, b.reply.cnames) == CnamePackets(a.queryId, a.reply.cnames) + [p];
    assert RecordPackets(a.queryId, []) == [];
  }

  lemma AnnouncedSame(r: Reply, q: Reply, expected: Name, cnames: nat, records: nat)
    requires Announced(r, expected, cnames, records) && q == r.(cnames := q.cnames, records := q.records)
    ensures Announced(q, expected, cnames, records)
  {
  }

  /** The announced counts bound everything that follows. */
  lemma CountsFit(a: Assembly)
    requires Valid(BeginOf(a.reply, a.queryId, a.declaredCnames, a.declaredRecords))
    ensures a.declaredCnames <= CNAME_LIMIT && a.declaredRecords <= ADDRESS_LIMIT
  {
  }

  lemma CnamesKept(a: Assembly, b: Assembly)
    requires CnamesGood(a) && b.reply.cnames == a.reply.cnames && b.reply.question == a.reply.question
             && b.chainTtl == a.chainTtl && b.queryId == a.queryId
    ensures CnamesGood(b)
  {
    hide Valid, Normalized, SimplePath;
    forall i | 0 <= i < |b.reply.cnames|
      ensures i < CNAME_LIMIT && Valid(Cname(b.queryId, i, b.reply.cnames[i]))
    {
      assert Normalized(a.reply.cnames[i].owner) && i < CNAME_LIMIT;
    }
    assert forall i :: 0 <= i < |b.reply.cnames| ==>
           Normalized(b.reply.cnames[i].owner) && Normalized(b.reply.cnames[i].target);
    assert SimplePath(b.reply.question, b.reply.cnames);
    assert b.chainTtl == ChainTtl(b.reply.cnames);
  }

  lemma RecordSound(a: Assembly, index: u16, record: Record)
    requires Good(a) && a.phase.AtRecord? && AcceptRecord(a, index, record).Some?
             && Valid(RecordPacket(a.queryId, index, record))
    ensures var b := AcceptRecord(a, index, record).value;
            Good(b) && Countable(b.reply) && Countable(a.reply)
              && Sent(b) == Sent(a) + [RecordPacket(a.queryId, index, record)]
  {
    hide CnamesGood, Valid, Normalize, RecordFits;
    var b := AcceptRecord(a, index, record).value;
    GoodCountable(a);
    CountsFit(a);
    CnamesKept(a, b);
    AnnouncedSame(a.reply, b.reply, a.expected, a.declaredCnames, a.declaredRecords);
    hide Announced;
    assert b.reply.records == a.reply.records + [record];
    assert RecordsGood(b);
    assert RecordPackets(a.queryId, b.reply.records) == RecordPackets(a.queryId, a.reply.records)
           + [RecordPacket(a.queryId, index, record)];
  }

  lemma EndSound(a: Assembly, p: Packet)
    requires Good(a) && a.phase.AtEnd? && p.End? && p.queryId == a.queryId && Valid(p) && AcceptEnd(a, p).Some?
    ensures var b := AcceptEnd(a, p).value;
            Good(b) && Countable(b.reply) && Countable(a.reply) && Sent(b) == Sent(a) + [p]
  {
    GoodCountable(a);
  }

  lemma AcceptSound(a: Assembly, p: Packet)
    requires Good(a) && Live(a.phase) && Valid(p) && Accept(a, p).Some?
    ensures var b := Accept(a, p).value; Good(b) && Countable(b.reply) && Countable(a.reply) && Sent(b) == Sent(a) + [p]
  {
    hide Good, Sent, Valid;
    GoodCountable(a);
    match p
    case Begin(_, _, _, _, _, _, _, _, _, _, _) => BeginSound(a, p);
    case Cname(_, _, _) => CnameSound(a, p);
    case Address(_, index, address) => RecordSound(a, index, AddressOf(address));
    case Srv(_, index, srv) => RecordSound(a, index, SrvOf(srv));
    case End(_, _, _) => EndSound(a, p);
  }

  lemma ConsumeSound(a: Assembly, packet: seq<byte>)
    requires Good(a) && Consume(a, packet).Some?
    ensures var b := Consume(a, packet).value;
            Good(b) && Countable(b.reply) && Countable(a.reply) && Printed(Sent(b)) == Printed(Sent(a)) + [packet]
  {
    hide Good, Sent, Valid, Bytes, Parse;
    BytesOfParse(packet, Awaited(a));
    AcceptSound(a, Parse(packet, Awaited(a)).value);
  }

  /** An assembly that never rejected a packet has seen exactly the packets its state stands for. */
  lemma {:induction false} FeedSound(expected: Name, queryType: u16, queryId: u64, packets: seq<seq<byte>>)
    requires Feed(Fresh(expected, queryType, queryId), packets).Some?
    ensures var a := Feed(Fresh(expected, queryType, queryId), packets).value;
            && Good(a) && Countable(a.reply) && packets == Printed(Sent(a))
            && a.expected == expected && a.queryType == queryType && a.queryId == queryId
  {
    hide Consume, Good, Sent;
    var start := Fresh(expected, queryType, queryId);
    if packets == [] {
      FreshGood(expected, queryType, queryId);
    } else {
      var before := packets[..|packets| - 1];
      FeedSound(expected, queryType, queryId, before);
      var a := Feed(start, before).value;
      ConsumeSound(a, packets[|packets| - 1]);
      ConsumeKeeps(a, packets[|packets| - 1]);
      assert packets == before + [packets[|packets| - 1]];
    }
  }

  lemma FreshGood(expected: Name, queryType: u16, queryId: u64)
    ensures var a := Fresh(expected, queryType, queryId); Good(a) && Countable(a.reply) && Printed(Sent(a)) == []
  {
  }

  lemma ConsumeKeeps(a: Assembly, packet: seq<byte>)
    requires Consume(a, packet).Some?
    ensures var b := Consume(a, packet).value;
            b.expected == a.expected && b.queryType == a.queryType && b.queryId == a.queryId
              && b.dynamicBytes == a.dynamicBytes
  {
    hide Parse;
  }

  /** Soundness: whatever packets arrive, completion is reached only after exactly the emission of a
      well-formed reply to the question asked, and that reply is the result. */
  lemma AssemblySound(expected: Name, queryType: u16, queryId: u64, packets: seq<seq<byte>>)
    requires Feed(Fresh(expected, queryType, queryId), packets).Some?
    requires Feed(Fresh(expected, queryType, queryId), packets).value.phase.IsComplete?
    ensures var r := Feed(Fresh(expected, queryType, queryId), packets).value.reply;
            r.queryType == queryType && Countable(r) && WellFormed(r, expected, queryId)
              && packets == Printed(Script(r, queryId))
  {
    hide Feed;
    FeedSound(expected, queryType, queryId, packets);
    CompleteIsWellFormed(Feed(Fresh(expected, queryType, queryId), packets).value);
  }

  lemma CompleteIsWellFormed(a: Assembly)
    requires Good(a) && a.phase.IsComplete? && Countable(a.reply)
    ensures WellFormed(a.reply, a.expected, a.queryId) && Sent(a) == Script(a.reply, a.queryId)
  {
    CountsFit(a);
    forall p | p in Script(a.reply, a.queryId)
      ensures Valid(p)
    {
      ScriptValid(a, p);
    }
  }

  lemma ScriptValid(a: Assembly, p: Packet)
    requires Good(a) && a.phase.IsComplete? && Countable(a.reply) && p in Script(a.reply, a.queryId)
    ensures Valid(p)
  {
    hide Valid, Announced, Closed;
    var cnames := CnamePackets(a.queryId, a.reply.cnames);
    var records := RecordPackets(a.queryId, a.reply.records);
    if p in cnames {
      var i :| 0 <= i < |cnames| && cnames[i] == p;
    } else if p in records {
      var i :| 0 <= i < |records| && records[i] == p;
    }
  }

  // ---------------------------------------------------------------- completeness

  /** The state after the first `i` aliases and `k` records of a reply. */
  ghost function Partway(r: Reply, expected: Name, queryId: u64, i: nat, k: nat): (a: Assembly)
    requires Countable(r) && i <= |r.cnames| && k <= |r.records|
  {
    Assembly(expected, r.queryType, queryId,
             if i < |r.cnames| then AtCname else if k < |r.records| then AtRecord else AtEnd,
             |r.cnames|, |r.records|, ChainTtl(r.cnames[..i]), r.(cnames := r.cnames[..i], records := r.records[..k]),
               0)
  }

  ghost predicate Deliverable(r: Reply, expected: Name, queryId: u64) {
    Countable(r) && WellFormed(r, expected, queryId)
  }

  lemma ScriptHas(r: Reply, queryId: u64)
    requires Countable(r)
    ensures BeginOf(r, queryId, |r.cnames|, |r.records|) in Script(r, queryId)
    ensures forall i :: 0 <= i < |r.cnames| ==> Cname(queryId, i, r.cnames[i]) in Script(r, queryId)
    ensures forall i :: 0 <= i < |r.records| ==> RecordPacket(queryId, i, r.records[i]) in Script(r, queryId)
    ensures End(queryId, |r.cnames|, |r.records|) in Script(r, queryId)
  {
    var script := Script(r, queryId);
    assert script[0] == BeginOf(r, queryId, |r.cnames|, |r.records|);
    forall i | 0 <= i < |r.cnames|
      ensures Cname(queryId, i, r.cnames[i]) in script
    {
      assert script[1 + i] == Cname(queryId, i, r.cnames[i]);
    }
    forall i | 0 <= i < |r.records|
      ensures RecordPacket(queryId, i, r.records[i]) in script
    {
      assert script[1 + |r.cnames| + i] == RecordPacket(queryId, i, r.records[i]);
    }
    assert script[|script| - 1] == End(queryId, |r.cnames|, |r.records|);
  }

  lemma ConsumePrinted(a: Assembly, p: Packet)
    requires Live(a.phase) && Valid(p) && Code(p) == Awaited(a)
    ensures Consume(a, Bytes(p)) == Accept(a, p)
  {
    hide Parse, Bytes, Valid, Accept;
    ParseOfBytes(p);
  }

  lemma BeginAccepted(r: Reply, expected: Name, queryId: u64)
    requires Deliverable(r, expected, queryId)
    ensures Consume(Fresh(expected, r.queryType, queryId), Bytes(BeginOf(r, queryId, |r.cnames|, |r.records|)))
            == Some(Partway(r, expected, queryId, 0, 0))
  {
    var p := BeginOf(r, queryId, |r.cnames|, |r.records|);
    ScriptHas(r, queryId);
    hide Valid, Bytes, Parse, SimplePath;
    ConsumePrinted(Fresh(expected, r.queryType, queryId), p);
    var begun := r.(cnames := [], records := []);
    AnnouncedSame(r, begun, expected, |r.cnames|, |r.records|);
    assert r.cnames[..0] == [] && r.records[..0] == [];
  }

  lemma PathPrefix(question: Name, cnames: seq<CnameRecord>, i: nat)
    requires SimplePath(question, cnames) && i < |cnames|
    ensures cnames[i].owner == (if i == 0 then question else cnames[i - 1].target)
    ensures cnames[i].target != cnames[i].owner && forall j :: 0 <= j < i ==> cnames[i].target != cnames[j].owner
  {
    var nodes := Nodes(question, cnames);
    assert nodes[i + 1] == cnames[i].target;
    forall j | 0 <= j <= i
      ensures cnames[i].target != cnames[j].owner
    {
      assert nodes[j] != nodes[i + 1];
    }
  }

  /** What well-formedness says of one alias. */
  lemma CnameFacts(r: Reply, expected: Name, queryId: u64, i: nat)
    requires Deliverable(r, expected, queryId) && i < |r.cnames|
    ensures var c := r.cnames[i];
            && Valid(Cname(queryId, i, c)) && Normalized(c.owner) && Normalized(c.target)
            && c.owner == (if i == 0 then r.question else r.cnames[i - 1].target)
            && c.target != c.owner && forall j :: 0 <= j < i ==> c.target != r.cnames[j].owner
  {
    hide Valid, Normalize, SimplePath, Announced, Closed, RecordFits, Script;
    ScriptHas(r, queryId);
    PathPrefix(r.question, r.cnames, i);
    assert r.cnames[i] in r.cnames;
  }

  lemma CnameStep(r: Reply, expected: Name, queryId: u64, i: nat)
    requires Countable(r) && i < |r.cnames|
    requires var c := r.cnames[i];
             && Normalized(c.owner) && Normalized(c.target)
             && c.owner == (if i == 0 then r.question else r.cnames[i - 1].target)
             && c.target != c.owner && forall j :: 0 <= j < i ==> c.target != r.cnames[j].owner
    ensures AcceptCname(Partway(r, expected, queryId, i, 0), Cname(queryId, i, r.cnames[i]))
            == Some(Partway(r, expected, queryId, i + 1, 0))
  {
    hide Normalize;
    var c := r.cnames[i];
    var a := Partway(r, expected, queryId, i, 0);
    ChainTtlExtended(r.cnames[..i], c);
    hide ChainTtl;
    assert r.cnames[..i + 1] == r.cnames[..i] + [c];
    assert NextOwner(a.reply) == (if i == 0 then r.question else r.cnames[i - 1].target);
    assert forall j :: 0 <= j < i ==> a.reply.cnames[j] == r.cnames[j];
  }

  lemma CnameAccepted(r: Reply, expected: Name, queryId: u64, i: nat)
    requires Deliverable(r, expected, queryId) && i < |r.cnames|
    ensures Consume(Partway(r, expected, queryId, i, 0), Bytes(Cname(queryId, i, r.cnames[i])))
            == Some(Partway(r, expected, queryId, i + 1, 0))
  {
    hide Valid, Bytes, Parse, WellFormed, Normalize, AcceptCname, Consume;
    CnameFacts(r, expected, queryId, i);
    CnameStep(r, expected, queryId, i);
    ConsumePrinted(Partway(r, expected, queryId, i, 0), Cname(queryId, i, r.cnames[i]));
  }

  lemma RecordFacts(r: Reply, expected: Name, queryId: u64, k: nat)
    requires Deliverable(r, expected, queryId) && k < |r.records|
    ensures Valid(RecordPacket(queryId, k, r.records[k])) && RecordFits(r.queryType, ChainTtl(r.cnames), r.records[k])
  {
    hide Valid, Normalize, SimplePath, Announced, Closed, RecordFits, Script, RecordPacket;
    ScriptHas(r, queryId);
    assert r.records[k] in r.records;
  }

  lemma RecordStep(r: Reply, expected: Name, queryId: u64, k: nat)
    requires Countable(r) && k < |r.records| && RecordFits(r.queryType, ChainTtl(r.cnames), r.records[k])
    ensures AcceptRecord(Partway(r, expected, queryId, |r.cnames|, k), k, r.records[k])
            == Some(Partway(r, expected, queryId, |r.cnames|, k + 1))
  {
    hide RecordFits, ChainTtl;
    assert r.cnames[..|r.cnames|] == r.cnames;
    assert r.records[..k + 1] == r.records[..k] + [r.records[k]];
  }

  lemma RecordAccepted(r: Reply, expected: Name, queryId: u64, k: nat)
    requires Deliverable(r, expected, queryId) && k < |r.records|
    ensures Consume(Partway(r, expected, queryId, |r.cnames|, k), Bytes(RecordPacket(queryId, k, r.records[k])))
            == Some(Partway(r, expected, queryId, |r.cnames|, k + 1))
  {
    hide Valid, Bytes, Parse, WellFormed, Normalize, AcceptRecord, Consume, ChainTtl;
    RecordFacts(r, expected, queryId, k);
    RecordStep(r, expected, queryId, k);
    ConsumePrinted(Partway(r, expected, queryId, |r.cnames|, k), RecordPacket(queryId, k, r.records[k]));
  }

  lemma EndAccepted(r: Reply, expected: Name, queryId: u64)
    requires Deliverable(r, expected, queryId)
    ensures var a := Partway(r, expected, queryId, |r.cnames|, |r.records|);
            Consume(a, Bytes(End(queryId, |r.cnames|, |r.records|))) == Some(a.(phase := IsComplete)) && a.reply == r
  {
    ScriptHas(r, queryId);
    hide Valid, Bytes, Parse, SimplePath, Announced, Normalize;
    assert r.cnames[..|r.cnames|] == r.cnames && r.records[..|r.records|] == r.records;
    ConsumePrinted(Partway(r, expected, queryId, |r.cnames|, |r.records|), End(queryId, |r.cnames|, |r.records|));
  }

  lemma FeedNext(a: Assembly, packets: seq<seq<byte>>, packet: seq<byte>)
    ensures Feed(a, packets + [packet]) == if Feed(a, packets).None? then None
                                           else Consume(Feed(a, packets).value, packet)
  {
    assert (packets + [packet])[..|packets|] == packets;
  }

  /** The printed packets up to the `i`-th alias and `k`-th record. */
  ghost function Prefix(r: Reply, queryId: u64, i: nat, k: nat): (packets: seq<seq<byte>>)
    requires Countable(r) && i <= |r.cnames| && k <= |r.records|
  {
    Printed([BeginOf(r, queryId, |r.cnames|, |r.records|)] + CnamePackets(queryId, r.cnames)[..i]
      + RecordPackets(queryId, r.records)[..k])
  }

  lemma {:induction false} CnamesDelivered(r: Reply, expected: Name, queryId: u64, i: nat)
    requires Deliverable(r, expected, queryId) && i <= |r.cnames|
    ensures Feed(Fresh(expected, r.queryType, queryId), Prefix(r, queryId, i, 0))
            == Some(Partway(r, expected, queryId, i, 0))
  {
    hide Consume, WellFormed, Partway, Bytes;
    var start := Fresh(expected, r.queryType, queryId);
    if i == 0 {
      BeginAccepted(r, expected, queryId);
      assert Prefix(r, queryId, 0, 0) == [] + [Bytes(BeginOf(r, queryId, |r.cnames|, |r.records|))];
      FeedNext(start, [], Bytes(BeginOf(r, queryId, |r.cnames|, |r.records|)));
    } else {
      CnamesDelivered(r, expected, queryId, i - 1);
      CnameAccepted(r, expected, queryId, i - 1);
      assert Prefix(r, queryId, i, 0) == Prefix(r, queryId, i - 1, 0) + [Bytes(Cname(queryId, i - 1, r.cnames[i - 1]))];
      FeedNext(start, Prefix(r, queryId, i - 1, 0), Bytes(Cname(queryId, i - 1, r.cnames[i - 1])));
    }
  }

  lemma {:induction false} RecordsDelivered(r: Reply, expected: Name, queryId: u64, k: nat)
    requires Deliverable(r, expected, queryId) && k <= |r.records|
    ensures Feed(Fresh(expected, r.queryType, queryId), Prefix(r, queryId, |r.cnames|, k))
            == Some(Partway(r, expected, queryId, |r.cnames|, k))
  {
    hide Consume, WellFormed, Partway, Bytes;
    if k == 0 {
      CnamesDelivered(r, expected, queryId, |r.cnames|);
    } else {
      RecordsDelivered(r, expected, queryId, k - 1);
      RecordAccepted(r, expected, queryId, k - 1);
      assert Prefix(r, queryId, |r.cnames|, k) == Prefix(r, queryId, |r.cnames|, k - 1)
             + [Bytes(RecordPacket(queryId, k - 1, r.records[k - 1]))];
      FeedNext(Fresh(expected, r.queryType, queryId), Prefix(r, queryId, |r.cnames|, k - 1),
        Bytes(RecordPacket(queryId, k - 1, r.records[k - 1])));
    }
  }

  /** Completeness: the emission of every well-formed reply is accepted and yields that reply. */
  lemma AssemblyComplete(r: Reply, expected: Name, queryId: u64)
    requires Countable(r) && WellFormed(r, expected, queryId)
    ensures var a := Feed(Fresh(expected, r.queryType, queryId), Printed(Script(r, queryId)));
            a.Some? && a.value.phase.IsComplete? && a.value.reply == r
  {
    hide Consume, WellFormed, Partway, Bytes;
    RecordsDelivered(r, expected, queryId, |r.records|);
    EndAccepted(r, expected, queryId);
    var last := Bytes(End(queryId, |r.cnames|, |r.records|));
    assert Printed(Script(r, queryId)) == Prefix(r, queryId, |r.cnames|, |r.records|) + [last];
    FeedNext(Fresh(expected, r.queryType, queryId), Prefix(r, queryId, |r.cnames|, |r.records|), last);
  }

  lemma LiveToConsume(a: Assembly, packet: seq<byte>)
    requires Consume(a, packet).Some?
    ensures Live(a.phase)
  {
  }

  /** A prefix of what was accepted was accepted, and nothing is accepted after completion. */
  lemma {:induction false} FeedPrefix(start: Assembly, packets: seq<seq<byte>>, k: nat)
    requires k <= |packets| && Feed(start, packets).Some?
    ensures Feed(start, packets[..k]).Some? && (k < |packets| ==> Live(Feed(start, packets[..k]).value.phase))
    decreases |packets| - k
  {
    hide Consume;
    if k == |packets| {
      assert packets[..k] == packets;
    } else {
      FeedPrefix(start, packets, k + 1);
      assert packets[..k + 1][..k] == packets[..k];
      LiveToConsume(Feed(start, packets[..k]).value, packets[k]);
    }
  }

  /** The packets of one reply never start the packets of another, so a reader needs no count of them in advance. */
  lemma ScriptsUnambiguous(r: Reply, q: Reply, expected: Name, queryId: u64)
    requires Countable(r) && Countable(q) && r.queryType == q.queryType
    requires WellFormed(r, expected, queryId) && WellFormed(q, expected, queryId)
    requires Printed(Script(r, queryId)) <= Printed(Script(q, queryId))
    ensures r == q
  {
    hide WellFormed, Script, Feed;
    var a, b := Printed(Script(r, queryId)), Printed(Script(q, queryId));
    AssemblyComplete(r, expected, queryId);
    AssemblyComplete(q, expected, queryId);
    FeedPrefix(Fresh(expected, r.queryType, queryId), b, |a|);
    assert b[..|a|] == a;
    assert |a| == |b| ==> a == b;
  }
}
