/** Forwarding a client's first packet: the rewritten handshake names the destination instead of the relay,
    and every byte after it is the client's own.
 */
module Rewrite {
  import opened Basics
  import opened Varints
  import opened Framing
  import opened Handshake
  import opened HandshakeBuffers

  const HEADER_LIMIT: nat := 128
  const TEXT_SIZE: nat := 1025
  const SCRATCH: nat := STAGE + TEXT_SIZE + 32
  const SEED_LIMIT: nat := HEADER_LIMIT + SCRATCH

  /** The handshake as the destination shall see it. */
  function Redirected(p: Packet, destination: seq<byte>, port: u16): (r: Packet) {
    p.(address := Text(destination), port := port)
  }

  // ---------------------------------------------------------------- framing agrees with reading

  /** The bytes of the handshake frame. */
  function FirstFrame(l: Layout): (r: seq<byte>) {
    l.length + Body(l)
  }

  function AfterFirst(l: Layout): (r: seq<byte>) {
    (if l.login.Some? then LoginSpelled(l.login.value) else []) + l.tail
  }

  lemma FirstFrameRead(l: Layout, o: Opening)
    requires Spells(l.length, |Body(l)|) && OpeningMeans(l, o)
    ensures |FirstFrame(l)| >= 3 && Spelled(l) == FirstFrame(l) + AfterFirst(l)
    ensures Frame(Spelled(l)) == Complete(|FirstFrame(l)|)
            && IdentifyModern(Spelled(l)) == IdentifyModern(FirstFrame(l)) == IdentifyFrame(Body(l))
  {
    hide Varint, IdentifyFrame, LoginSpelled;
    var body, after := Body(l), AfterFirst(l);
    SpellsHead(l.length, |body|, body + after);
    SpellsHead(l.length, |body|, body);
    assert Spelled(l) == l.length + (body + after);
    assert Spelled(l)[|l.length|..|l.length| + |body|] == body;
    assert FirstFrame(l)[|l.length|..|l.length| + |body|] == body;
  }

  lemma FirstFrameIdentified(l: Layout, o: Opening)
    requires Spells(l.length, |Body(l)|) && OpeningMeans(l, o)
             && (Identify(Spelled(l)).0.Modern1? || Identify(Spelled(l)).0.Modern2?)
    ensures Identify(FirstFrame(l)) == Identify(Spelled(l)) == IdentifyFrame(Body(l))
  {
    hide IdentifyModern, IdentifyFrame, OpeningMeans, Spelled, FirstFrame, AfterFirst, Spells, Frame;
    FirstFrameRead(l, o);
    var s, f := Spelled(l), FirstFrame(l);
    assert s[0] == f[0] && s[1] == f[1] && s[2] == f[2];
  }

  /** The intent byte is the state, whenever the state is one of the intents. */
  lemma {:induction false} SmallSpelling(b: seq<byte>, v: nat, depth: nat)
    requires depth <= LAST && Scan(b, depth) == Read(v, |b|) && v < 128 && b[|b| - 1] != 0
    ensures b == [v]
    decreases LAST - depth
  {
    if b[0] >= 128 {
      NonzeroSpelling(b[1..], depth + 1);
    }
  }

  lemma {:induction false} NonzeroSpelling(b: seq<byte>, depth: nat)
    requires depth <= LAST && b != [] && Scan(b, depth).Read? && Scan(b, depth).size == |b| && b[|b| - 1] != 0
    ensures Scan(b, depth).value > 0
    decreases LAST - depth
  {
    if b[0] >= 128 {
      NonzeroSpelling(b[1..], depth + 1);
    }
  }

  lemma IntentIsState(l: Layout, o: Opening)
    requires OpeningMeans(l, o) && !IdentifyFrame(Body(l)).0.Unidentified? && o.state <= TRANSFER
    ensures IdentifyFrame(Body(l)).1 == o.state
  {
    hide Varint;
    var body := Body(l);
    assert body[|body| - 1] == l.state[|l.state| - 1];
    StateByte(l.state, o.state);
  }

  lemma StateByte(b: seq<byte>, v: nat)
    requires Spells(b, v) && v < 128
    ensures b != [] && (b[|b| - 1] != 0 ==> b == [v])
  {
    if b[|b| - 1] != 0 {
      SmallSpelling(b, v, 0);
    }
  }

  lemma LoginFrameRead(l: LoginLayout, e: Entry, t: seq<byte>)
    requires EntryMeans(l, e)
    ensures Frame(LoginSpelled(l) + t) == Complete(|LoginSpelled(l)|)
  {
    hide Varint;
    var body := LoginBody(l);
    SpellsHead(l.length, |body|, body + t);
    assert LoginSpelled(l) + t == l.length + (body + t);
  }

  /** For everything identified as a modern handshake with a version, framing ends the packet exactly
      where reading it ends. */
  lemma FramingAgrees(l: Layout, o: Opening, e: Option<Entry>)
    requires Means(l, o, e) && Identify(Spelled(l)).0.Modern2? && o.state <= TRANSFER
    ensures |l.tail| <= |Spelled(l)| && PacketLength(Spelled(l)) == Complete(|Spelled(l)| - |l.tail|)
    ensures Spelled(l)[|Spelled(l)| - |l.tail|..] == l.tail
  {
    hide Identify, Spelled, FirstFrame, LoginSpelled, OpeningMeans, EntryMeans, Body, Spells, Frame, IdentifyFrame,
         LegacyLogin, LegacyPing;
    FirstFrameRead(l, o);
    FirstFrameIdentified(l, o);
    IntentIsState(l, o);
    var s, n := Spelled(l), |FirstFrame(l)|;
    assert s[..n] == FirstFrame(l) && s[n..] == AfterFirst(l);
    ModernStart(s);
    if e.Some? {
      LoginFrameRead(l.login.value, e.value, l.tail);
    } else {
      assert AfterFirst(l) == l.tail;
      StatusState(s, o);
    }
  }

  lemma ModernStart(s: seq<byte>)
    requires Identify(s).0.Modern2? && |s| >= 3
    ensures PacketLength(s) == ModernLength(s)
  {
    hide ModernLength, IdentifyModern;
  }

  lemma StatusState(s: seq<byte>, o: Opening)
    requires Identify(s).0.Modern2? && !Enters(o.state) && Identify(s).1 == o.state
    ensures o.state == STATUS
  {
    hide Varint;
  }

  // ---------------------------------------------------------------- what the destination reads

  lemma IdentifiedOpening(l: Layout, o: Opening)
    requires OpeningMeans(l, o) && IdentifyFrame(Body(l)).0.Modern2?
    ensures o.id == 0 && o.version != 0
  {
    hide Varint;
    var address := l.addressLength + (l.wire + (l.port + l.state));
    SpellsHead(l.id, o.id, l.version + address);
    SpellsHead(l.version, o.version, address);
    assert Body(l) == l.id + (l.version + address);
    assert Body(l)[|l.id|..] == l.version + address;
  }

  /** What identification tells about a client's packet that can be read. */
  lemma ClientPacket(s: seq<byte>) returns (l: Layout)
    requires Parse(s).Some? && Identify(s).0.Modern2? && Parse(s).value.state <= TRANSFER
    ensures var p := Parse(s).value;
            p.id == 0 && p.version != 0 && STATUS <= p.state && (p.username.Some? <==> Enters(p.state))
    ensures PacketLength(s).Complete? && PacketLength(s).size <= |s| && s[PacketLength(s).size..] == l.tail
    ensures !Enters(Parse(s).value.state) ==> Parse(s).value.loginId == 0 && Parse(s).value.signature == []
  {
    hide Parse, PacketLength, Identify, OpeningMeans, EntryMeans, Spelled, Body, Spells, Stripped, Cut;
    var layout, o, e := ReadIsSpelled(s);
    l := layout;
    FramingAgrees(l, o, e);
    FirstFrameIdentified(l, o);
    IdentifiedOpening(l, o);
    IntentIsState(l, o);
    IdentifiedIntent(l);
  }

  lemma IdentifiedIntent(l: Layout)
    requires IdentifyFrame(Body(l)).0.Modern2?
    ensures STATUS <= IdentifyFrame(Body(l)).1 <= TRANSFER
  {
    hide Varint, Body;
  }

  /** A login is forwarded faithfully exactly when the destination's name holds no question mark and the
      player's name no zero byte: then the destination reads the client's handshake with address and port
      replaced, and after it exactly the bytes the client sent after its own. */
  lemma LoginForwarded(s: seq<byte>, destination: seq<byte>, port: u16)
    requires Parse(s).Some? && Identify(s).0.Modern2? && Enters(Parse(s).value.state)
    requires Writable(Redirected(Parse(s).value, destination, port))
    ensures PacketLength(s).Complete? && PacketLength(s).size <= |s|
    ensures var p, q := Parse(s).value, Redirected(Parse(s).value, destination, port);
            var tail := s[PacketLength(s).size..];
            && PacketLength(Bytes(q) + tail) == Complete(|Bytes(q)|) && (Bytes(q) + tail)[|Bytes(q)|..] == tail
            && (Parse(Bytes(q) + tail) == Some(q) <==>
                  && (Text(destination) != [] || p.extra != []) && QUERY !in Text(destination)
                  && p.username.Some? && 0 !in p.username.value)
  {
    hide Parse, PacketLength, Identify, Bytes, Writable;
    var l := ClientPacket(s);
    var q := Redirected(Parse(s).value, destination, port);
    RoundTripExactly(q, l.tail);
    WrittenLength(q, l.tail);
  }

  lemma FrontKept(frame: seq<byte>, first: seq<byte>, rest: seq<byte>, t: seq<byte>)
    ensures |frame + (first + rest)| >= |frame| + |first|
    ensures (frame + (first + rest))[..|frame| + |first|] + t == frame + (first + t)
    ensures frame + (first + rest) + [] == frame + (first + rest)
  {
    assert (frame + (first + rest))[..|frame| + |first|] == frame + first;
  }

  lemma FirstFrameWritten(q: Packet, t: seq<byte>)
    requires Writable(q) && q.id == 0 && q.version != 0 && q.state == STATUS
    ensures PacketLength(Bytes(q)).Complete? && PacketLength(Bytes(q)).size <= |Bytes(q)|
    ensures var k := PacketLength(Bytes(q)).size; Bytes(q)[..k] + t == Spelled(WrittenLayout(q, []).(tail := t))
  {
    hide PacketLength, Part1, Part2, Printed, Text, Spelled, WrittenLayout, Writable;
    WrittenLength(q, []);
    FrontKept(Printed(|Part1(q)|), Part1(q), Printed(|Part2(q)|) + Part2(q), t);
    StatusSpelled(q, t);
  }

  lemma StatusReads(q: Packet, t: seq<byte>)
    requires Writable(q) && q.id == 0 && q.version != 0 && q.state == STATUS && Wire(q) != []
    ensures Parse(Spelled(WrittenLayout(q, []).(tail := t))) == Some(Seen(q))
  {
    hide Parse, Spelled, Bytes, Printed, Text, Seen, Cut, OpeningMeans, Spells, Body, Part1, Part2;
    WrittenMeans(q, []);
    var o := Opening(q.id, q.version, Wire(q), q.port, q.state);
    var l := WrittenLayout(q, []);
    SameBody(l, l.(tail := t), o);
    SpelledReads(l.(tail := t), o, None);
  }

  lemma StatusUnread(q: Packet, t: seq<byte>)
    requires Writable(q) && Wire(q) == []
    ensures Parse(Printed(|Part1(q)|) + (Part1(q) + t)) == None
  {
    hide Part1, Part2, Printed, Spells, ReadOpening, Framed, Text;
    PartsFit(q);
    PrintedSpells(|Part1(q)|);
    AddresslessOpening(q);
    FramedRead(Printed(|Part1(q)|), Part1(q), t);
  }

  lemma StatusSpelled(q: Packet, t: seq<byte>)
    requires !Enters(q.state)
    ensures Spelled(WrittenLayout(q, []).(tail := t)) == Printed(|Part1(q)|) + (Part1(q) + t)
  {
    hide Part1, Part2, Printed, Text, Body, Wire, Port, Username, Flagged;
    WrittenBodies(q, []);
    SameParts(WrittenLayout(q, []), WrittenLayout(q, []).(tail := t));
    assert [] + t == t;
  }

  lemma StatusLength(q: Packet, t: seq<byte>)
    requires Writable(q) && q.id == 0 && q.version != 0 && q.state == STATUS
    ensures PacketLength(Printed(|Part1(q)|) + (Part1(q) + t)) == PacketLength(Bytes(q))
            == Complete(|Printed(|Part1(q)|)| + |Part1(q)|)
  {
    hide PacketLength, Part1, Part2, Printed, Text;
    var first := Printed(|Part1(q)|) + Part1(q);
    WrittenLength(q, []);
    assert Bytes(q) + [] == Bytes(q);
    var second := Printed(|Part2(q)|) + Part2(q);
    assert Bytes(q) == first + second;
    OwnFrame(Bytes(q), |first|, q);
    VerdictStable(first, t);
    assert Printed(|Part1(q)|) + (Part1(q) + t) == first + t;
  }

  lemma OwnFrame(s: seq<byte>, n: nat, q: Packet)
    requires Writable(q) && q.id == 0 && PacketLength(s) == Complete(n) && s == Bytes(q)
    ensures n <= |s| && PacketLength(s[..n]) == Complete(n)
  {
    hide PacketLength, Bytes;
    WrittenLooksModern(q, []);
    assert Bytes(q) + [] == Bytes(q);
    CompleteFromOwnBytes(s);
  }

  /** A status request is forwarded with its own frame rewritten and nothing of the writer's second frame. */
  lemma StatusForwarded(s: seq<byte>, destination: seq<byte>, port: u16)
    requires Parse(s).Some? && Identify(s).0.Modern2? && Parse(s).value.state == STATUS
    requires Writable(Redirected(Parse(s).value, destination, port))
    ensures PacketLength(s).Complete? && PacketLength(s).size <= |s|
    ensures var p, q := Parse(s).value, Redirected(Parse(s).value, destination, port);
            var tail, written := s[PacketLength(s).size..], PacketLength(Bytes(q));
            && written.Complete? && written.size <= |Bytes(q)|
            && PacketLength(Bytes(q)[..written.size] + tail) == written
            && (Parse(Bytes(q)[..written.size] + tail) == Some(q) <==>
               (Text(destination) != [] || p.extra != []) && QUERY !in Text(destination))
  {
    hide Parse, PacketLength, Identify, Bytes, Writable, Spelled, WrittenLayout, Part1, Printed, Seen;
    var l := ClientPacket(s);
    var q := Redirected(Parse(s).value, destination, port);
    FirstFrameWritten(q, l.tail);
    StatusSpelled(q, l.tail);
    StatusLength(q, l.tail);
    if Wire(q) == [] {
      StatusUnread(q, l.tail);
    } else {
      StatusReads(q, l.tail);
      SeenSame(q);
    }
  }

  const PLAYER: Packet := Packet(0, 764, [0x61], [], 25565, LOGIN, 0, Some([0x62]), [])

  lemma PlayerWritable()
    ensures Writable(PLAYER) && Faithful(PLAYER)
  {
    hide Flags, First;
    assert Text(PLAYER.address) == PLAYER.address;
    assert Text(PLAYER.username.value) == PLAYER.username.value;
  }

  lemma QueryUnfaithful()
    ensures var q := Redirected(PLAYER, [0x63, QUERY], 25565); Writable(q) && !Faithful(q)
  {
    hide Flags, First;
    assert Text([0x63, QUERY]) == [0x63, QUERY];
    assert QUERY in [0x63, QUERY];
    assert Text(PLAYER.username.value) == PLAYER.username.value;
  }

  /** A client for which a destination with a question mark goes wrong. */
  lemma QuestionMarkBreaks()
    ensures var s, q := Bytes(PLAYER), Redirected(PLAYER, [0x63, QUERY], 25565);
            Parse(s) == Some(PLAYER) && Identify(s) == (Modern2, LOGIN) && PacketLength(s) == Complete(|s|)
              && Parse(Bytes(q)) != Some(q)
  {
    hide Parse, Identify, PacketLength, Bytes, Text, Part1, Printed, Writable, Faithful, Redirected;
    var s, q := Bytes(PLAYER), Redirected(PLAYER, [0x63, QUERY], 25565);
    assert s + [] == s && Bytes(q) + [] == Bytes(q);
    PlayerWritable();
    QueryUnfaithful();
    RoundTripExactly(PLAYER, []);
    RoundTripExactly(q, []);
    WrittenLength(PLAYER, []);
    WrittenIdentified(PLAYER, []);
    var n := |Printed(|Part1(PLAYER)|)| + |Part1(PLAYER)|;
    IdentifyExtended(s[..n], s[n..]);
    assert s[..n] + s[n..] == s;
  }

  /** A client whose player name ends in a zero byte. */
  const ODD_NAME: Layout := Layout([8], [0], [0xFC, 5], [1], [0x61], [0x63, 0xDD], [2],
    Some(LoginLayout([4], [0], [2], [0x62, 0], [])), [])
  const ODD_OPENING: Opening := Opening(0, 764, [0x61], 25565, LOGIN)
  const ODD_ENTRY: Entry := Entry(0, [0x62, 0], [])

  lemma OddNameMeans()
    ensures Means(ODD_NAME, ODD_OPENING, Some(ODD_ENTRY))
  {
    hide Spells, Varint;
    SmallSpells(0);
    SmallSpells(1);
    SmallSpells(2);
    SmallSpells(4);
    SmallSpells(8);
    PrintedSpells(764);
    PrintedTwo(764);
  }

  lemma OddNameOpens()
    ensures Spells(ODD_NAME.length, |Body(ODD_NAME)|) && OpeningMeans(ODD_NAME, ODD_OPENING)
  {
    hide Spells, Varint;
    OddNameMeans();
  }

  lemma OddNameIdentified()
    ensures Identify(Spelled(ODD_NAME)) == (Modern2, LOGIN)
  {
    hide Varint, Spells, Spelled, IdentifyModern;
    var l := ODD_NAME;
    OddNameOpens();
    FirstFrameRead(l, ODD_OPENING);
    var rest := l.addressLength + (l.wire + (l.port + l.state));
    SpellsHead(l.id, 0, l.version + rest);
    SpellsHead(l.version, 764, rest);
    var body := Body(l);
    assert body == l.id + (l.version + rest);
    assert body[1..] == l.version + rest && |body| == 8 && body[7] == 2;
    OddNameStarts();
  }

  lemma OddNameStarts()
    ensures Spelled(ODD_NAME) != [] && Spelled(ODD_NAME)[0] == 8
  {
  }

  /** The name is forwarded without its zero byte, to whatever destination: another player's login arrives. */
  lemma ZeroByteBreaks(destination: seq<byte>, port: u16)
    requires Writable(Redirected(Joined(ODD_OPENING, Some(ODD_ENTRY)), destination, port))
    ensures var s, p := Spelled(ODD_NAME), Joined(ODD_OPENING, Some(ODD_ENTRY));
            && Parse(s) == Some(p) && Identify(s) == (Modern2, LOGIN) && PacketLength(s).Complete?
            && Parse(Bytes(Redirected(p, destination, port))) != Some(Redirected(p, destination, port))
  {
    hide Parse, Identify, PacketLength, Bytes, Spelled, Means, Writable;
    var s, p := Spelled(ODD_NAME), Joined(ODD_OPENING, Some(ODD_ENTRY));
    OddNameMeans();
    SpelledReads(ODD_NAME, ODD_OPENING, Some(ODD_ENTRY));
    OddNameIdentified();
    LoginForwarded(s, destination, port);
    assert 0 in p.username.value;
    RoundTripExactly(Redirected(p, destination, port), []);
    assert Bytes(Redirected(p, destination, port)) + [] == Bytes(Redirected(p, destination, port));
  }

  // ---------------------------------------------------------------- a login's seed

  /** What is sent upstream before the client's and the destination's bytes are relayed. */
  class Seed {
    const bytes: array<byte>
    var size: nat

    ghost predicate Valid()
      reads this
    {
      bytes.Length == SEED_LIMIT && size <= SEED_LIMIT
    }

    ghost function Contents(): (r: seq<byte>)
      requires Valid()
      reads this, bytes
    {
      bytes[..size]
    }

    constructor ()
      ensures Valid() && Contents() == [] && fresh(bytes)
    {
      bytes := new byte[SEED_LIMIT];
      size := 0;
    }

    /** All of the data, or none of it. */
    method Append(data: seq<byte>) returns (ok: bool)
      requires Valid()
      modifies this, bytes
      ensures Valid() && ok == (|old(Contents())| + |data| <= SEED_LIMIT)
      ensures Contents() == if ok then old(Contents()) + data else old(Contents())
    {
      if |data| > SEED_LIMIT - size {
        return false;
      }
      var next := Put(bytes, size, data);
      size := next;
      ok := true;
    }

    /** What the client sent after its first packet. */
    method AppendTail(inbound: seq<byte>) returns (ok: bool)
      requires Valid()
      modifies this, bytes
      ensures Valid()
      ensures ok <==>
              PacketLength(inbound).Complete?
                && |old(Contents())| + |inbound| - PacketLength(inbound).size <= SEED_LIMIT
      ensures PacketLength(inbound).Complete? ==> PacketLength(inbound).size <= |inbound|
      ensures Contents() == old(Contents()) + if ok then inbound[PacketLength(inbound).size..] else []
    {
      hide PacketLength;
      NeedGrows(inbound);
      var verdict := PacketLength(inbound);
      if !verdict.Complete? {
        ok := false;
      } else {
        ok := Append(inbound[verdict.size..]);
      }
    }

    /** Builds the seed of a login. On success it is the proxy header, if one is wanted, followed by either
        the client's bytes as they came or the rewritten handshake and the client's tail. */
    method Login(inbound: array<byte>, inboundSize: nat, destination: seq<byte>, port: u16, header: Option<seq<byte>>,
        rewrite: bool, memory: nat -> bool) returns (ok: bool)
      requires Valid() && inboundSize <= inbound.Length && Contents() == [] && inbound != bytes
      modifies this, bytes
      ensures Valid()
      ensures var s := inbound[..inboundSize];
              ok ==>
                Parse(s).Some? && Enters(Parse(s).value.state)
                  && Forwards(s, destination, port, if header.Some? then header.value else [], rewrite, Contents())
      ensures (forall k :: memory(k)) ==> (ok <==> SeedFits(inbound[..inboundSize], destination, port, header, rewrite))
    {
      hide Parse, PacketLength, Bytes, Writable, Redirected;
      var p := PacketRead(inbound, inboundSize, memory);
      var s := inbound[..inboundSize];
      if p.None? || !Enters(p.value.state) {
        return false;
      }
      if header.Some? {
        if header.value == [] || |header.value| > HEADER_LIMIT {
          return false;
        }
        ok := Append(header.value);
        if !ok {
          return;
        }
      }
      ghost var front := Contents();
      assert front == if header.Some? then header.value else [];
      if !rewrite {
        ok := Append(s);
        return;
      }
      if !memory(5) {
        return false;
      }
      var scratch := new byte[SCRATCH];
      var q := Redirected(p.value, destination, port);
      var written := PacketWrite(scratch, Some(q), memory(4));
      if written == 0 {
        return false;
      }
      ok := Append(scratch[..written]);
      if ok {
        ok := AppendTail(s);
      }
    }
  }

  /** When a login's seed can be built. */
  predicate SeedFits(s: seq<byte>, destination: seq<byte>, port: u16, header: Option<seq<byte>>, rewrite: bool) {
    && Parse(s).Some? && Enters(Parse(s).value.state) && (header.Some? ==> 0 < |header.value| <= HEADER_LIMIT)
    && var q, front := Redirected(Parse(s).value, destination, port), if header.Some? then |header.value| else 0;
       if rewrite then
         && Writable(q) && |Bytes(q)| <= SCRATCH && PacketLength(s).Complete?
         && front + |Bytes(q)| + |s| - PacketLength(s).size <= SEED_LIMIT
       else front + |s| <= SEED_LIMIT
  }

  /** The bytes that forward a client's packet. */
  ghost predicate Forwards(s: seq<byte>, destination: seq<byte>, port: u16, header: seq<byte>, rewrite: bool,
      seed: seq<byte>)
    requires Parse(s).Some?
  {
    var q := Redirected(Parse(s).value, destination, port);
    if rewrite then
      && Writable(q) && PacketLength(s).Complete? && PacketLength(s).size <= |s|
      && seed == header + Bytes(q) + s[PacketLength(s).size..]
    else
      seed == header + s
  }

  // ---------------------------------------------------------------- a status request

  class ShortPlan {
    const header: seq<byte>
    var request: seq<byte>

    constructor (header: seq<byte>)
      ensures this.header == header && request == []
    {
      this.header := header;
      request := [];
    }

    method RequestPayload(payload: seq<byte>, memory: bool) returns (ok: bool)
      modifies this
      ensures ok == memory && request == if ok then header + payload else old(request)
    {
      if !memory {
        return false;
      }
      request := header + payload;
      ok := true;
    }

    /** Plans the request of a status query whose first packet is `packetSize` bytes long. */
    method RequestModern(initial: array<byte>, size: nat, packetSize: nat, destination: seq<byte>, port: u16,
        rewrite: bool, memory: nat -> bool) returns (ok: bool)
      requires size <= initial.Length
      modifies this
      ensures !ok ==> request == old(request)
      ensures ok ==> packetSize <= size
      ensures ok && !rewrite ==> request == header + initial[..size]
      ensures ok && rewrite ==>
                && Parse(initial[..size]).Some? && Parse(initial[..size]).value.state == STATUS
                && var q := Redirected(Parse(initial[..size]).value, destination, port);
                   var written := PacketLength(Bytes(q));
                   Writable(q) && written.Complete? && written.size <= |Bytes(q)|
                     && request == header + (Bytes(q)[..written.size] + initial[packetSize..size])
      ensures (forall k :: memory(k)) && packetSize <= size ==>
                (ok <==>
                  !rewrite || (Parse(initial[..size]).Some? && Parse(initial[..size]).value.state == STATUS
                    && Sendable(Redirected(Parse(initial[..size]).value, destination, port))))
    {
      hide Parse, PacketLength, Bytes, Writable, Redirected;
      if packetSize > size {
        return false;
      }
      if !rewrite {
        ok := RequestPayload(initial[..size], memory(6));
        return;
      }
      var p := PacketRead(initial, size, memory);
      if p.None? || p.value.state != STATUS || !memory(5) {
        return false;
      }
      var scratch := new byte[SCRATCH];
      var q := Redirected(p.value, destination, port);
      var written := PacketWrite(scratch, Some(q), memory(4));
      if written == 0 {
        return false;
      }
      var payload := scratch[..written];
      NeedGrows(payload);
      var verdict := PacketLength(payload);
      if !verdict.Complete? || !memory(7) {
        return false;
      }
      ok := RequestPayload(payload[..verdict.size] + initial[packetSize..size], memory(6));
    }
  }

  predicate Sendable(q: Packet) {
    Writable(q) && |Bytes(q)| <= SCRATCH && PacketLength(Bytes(q)).Complete?
  }

  lemma ReadExtra(s: seq<byte>)
    requires Parse(s).Some?
    ensures var extra := Parse(s).value.extra; extra != [] ==> extra[0] == 0 || extra[0] == QUERY
  {
    hide Framed, ReadOpening, ReadEntry, Stripped;
  }

  lemma StatusSmall(q: Packet)
    requires !Enters(q.state) && |Wire(q)| <= ADDRESS_LIMIT
    ensures |Bytes(q)| <= SCRATCH
  {
    PrintedSmall(q.id);
    PrintedSmall(q.version);
    PrintedSmall(|Wire(q)|);
    PrintedSmall(q.state);
    PrintedSmall(q.loginId);
    PrintedSmall(|Part1(q)|);
    PrintedSmall(|Part2(q)|);
    hide Printed, Text;
  }

  /** Nothing but the size of its address can stop a client's status request from being rewritten. */
  lemma StatusSendable(s: seq<byte>, destination: seq<byte>, port: u16)
    requires Parse(s).Some? && Identify(s).0.Modern2? && Parse(s).value.state == STATUS
    ensures Sendable(Redirected(Parse(s).value, destination, port)) <==>
            |Text(destination)| + |Parse(s).value.extra| <= ADDRESS_LIMIT
  {
    hide Parse, Identify, PacketLength, Bytes, First, Part1, Printed;
    var q := Redirected(Parse(s).value, destination, port);
    var l := ClientPacket(s);
    ReadExtra(s);
    assert Text(Text(destination)) == Text(destination);
    if |Wire(q)| <= ADDRESS_LIMIT {
      StatusSmall(q);
      StatusLength(q, []);
    }
  }
}
