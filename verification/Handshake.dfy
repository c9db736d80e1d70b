/** The modern handshake: what its bytes mean, how it is read and written back, and when one undoes the
    other.
 */
module Handshake {
  import opened Basics
  import opened Varints
  import opened Framing

  const ADDRESS_LIMIT: nat := 3072
  const NAME_LIMIT: nat := 128
  const STAGE: nat := 8192
  const RESERVE: nat := 8
  const LAST_FLAGGED_RELEASE: nat := 763
  const LAST_FLAGGED_SNAPSHOT: nat := 0x8E
  const SNAPSHOT_BIT: nat := 0x4000_0000
  const QUERY: byte := 0x3F

  /** A handshake and, for those who enter a world, the login after it. Texts are the bytes of C strings. */
  datatype Packet = Packet(
    id: u32,
    version: u32,
    address: seq<byte>,
    extra: seq<byte>,
    port: u16,
    state: u32,
    loginId: u32,
    username: Option<seq<byte>>,
    signature: seq<byte>)

  predicate Enters(state: nat) {
    state == LOGIN || state == TRANSFER
  }

  /** Versions whose login carries a flag byte in front of its signature data. */
  predicate Flags(version: nat) {
    version <= LAST_FLAGGED_RELEASE
      || (if version / SNAPSHOT_BIT % 2 == 1 then version - SNAPSHOT_BIT else version) <= LAST_FLAGGED_SNAPSHOT
  }

  function Stripped(version: nat, rest: seq<byte>): (r: seq<byte>) {
    if rest != [] && Flags(version) && rest[0] == 1 then rest[1..] else rest
  }

  function Flagged(version: nat, signature: seq<byte>): (r: seq<byte>) {
    if signature != [] && Flags(version) then [1] + signature else signature
  }

  lemma StrippedOfFlagged(version: nat, signature: seq<byte>)
    ensures Stripped(version, Flagged(version, signature)) == signature
  {
    hide Flags;
    assert ([1] + signature)[1..] == signature;
  }

  /** The flag byte survives reading and writing exactly when it is there and something follows it. */
  lemma FlaggedOfStripped(version: nat, rest: seq<byte>)
    ensures Flagged(version, Stripped(version, rest)) == rest <==>
            rest == [] || !Flags(version) || (rest[0] == 1 && |rest| > 1)
  {
    hide Flags;
    if rest != [] && rest[0] == 1 && |rest| > 1 {
      assert [1] + rest[1..] == rest;
    }
    if rest != [] && rest[0] != 1 {
      assert ([1] + rest)[0] == 1;
    }
  }

  // ---------------------------------------------------------------- C strings

  /** Where the first of some bytes stands. */
  function First(s: seq<byte>, marks: set<byte>): (r: nat)
    ensures r <= |s| && (forall i :: 0 <= i < r ==> s[i] !in marks) && (r < |s| ==> s[r] in marks)
  {
    if s == [] || s[0] in marks then 0 else 1 + First(s[1..], marks)
  }

  lemma FirstIs(s: seq<byte>, marks: set<byte>, k: nat)
    requires k <= |s| && (forall i :: 0 <= i < k ==> s[i] !in marks) && (k < |s| ==> s[k] in marks)
    ensures First(s, marks) == k
  {
  }

  function Text(s: seq<byte>): (r: seq<byte>)
    ensures forall b :: b in r ==> b != 0
    ensures 0 !in s <==> r == s
  {
    var n := First(s, {0});
    if n < |s| then
      assert s[n] in s;
      s[..n]
    else
      s
  }

  /** Where the address proper ends inside the transmitted address. */
  function Cut(wire: seq<byte>): (r: nat)
    ensures r <= |wire|
  {
    First(wire, {0, QUERY})
  }

  // ---------------------------------------------------------------- reading

  function Number(s: seq<byte>): (r: Option<(u32, seq<byte>)>) {
    var v := Varint(s);
    if v.Read? then Some((v.value, s[v.size..])) else None
  }

  /** A length and that many bytes. */
  function Framed(s: seq<byte>): (r: Option<(seq<byte>, seq<byte>)>) {
    var n := Number(s);
    if n.None? || |n.value.1| < n.value.0 then None else Some((n.value.1[..n.value.0], n.value.1[n.value.0..]))
  }

  datatype Opening = Opening(id: u32, version: u32, wire: seq<byte>, port: u16, state: u32)
  datatype Entry = Entry(id: u32, name: seq<byte>, rest: seq<byte>)

  /** The fields after the transmitted address, which they cover exactly. */
  function ReadEnding(s: seq<byte>): (r: Option<(u16, u32)>) {
    if |s| < 2 then None
    else
      var state := Number(s[2..]);
      if state.None? || state.value.1 != [] then None else Some((Pair(s[0], s[1]), state.value.0))
  }

  function ReadAddress(id: u32, version: u32, s: seq<byte>): (r: Option<Opening>) {
    var length := Number(s);
    if length.None? || length.value.0 > ADDRESS_LIMIT || length.value.0 == 0 || |length.value.1| < length.value.0
      then None
    else
      var ending := ReadEnding(length.value.1[length.value.0..]);
      if ending.None? then None
      else Some(Opening(id, version, length.value.1[..length.value.0], ending.value.0, ending.value.1))
  }

  function ReadOpening(body: seq<byte>): (r: Option<Opening>) {
    var id := Number(body);
    if id.None? then None
    else
      var version := Number(id.value.1);
      if version.None? then None else ReadAddress(id.value.0, version.value.0, version.value.1)
  }

  function ReadEntry(body: seq<byte>): (r: Option<Entry>) {
    var id := Number(body);
    if id.None? then None
    else
      var length := Number(id.value.1);
      if length.None? || length.value.0 > NAME_LIMIT || |length.value.1| < length.value.0 then None
      else Some(Entry(id.value.0, length.value.1[..length.value.0], length.value.1[length.value.0..]))
  }

  function Joined(o: Opening, e: Option<Entry>): (r: Packet) {
    Packet(o.id, o.version, o.wire[..Cut(o.wire)], o.wire[Cut(o.wire)..], o.port, o.state,
      if e.Some? then e.value.id
      else 0, if e.Some? then Some(e.value.name) else None, if e.Some? then Stripped(o.version, e.value.rest) else [])
  }

  function Parse(s: seq<byte>): (r: Option<Packet>) {
    var first := Framed(s);
    if first.None? then None
    else
      var o := ReadOpening(first.value.0);
      if o.None? then None
      else if !Enters(o.value.state) then Some(Joined(o.value, None))
      else
        var second := Framed(first.value.1);
        if second.None? then None
        else
          var e := ReadEntry(second.value.0);
          if e.None? then None else Some(Joined(o.value, e))
  }

  // ---------------------------------------------------------------- the grammar

  /** How a handshake is spelled: every number as some spelling of it. */
  datatype Layout = Layout(length: seq<byte>, id: seq<byte>, version: seq<byte>, addressLength: seq<byte>,
      wire: seq<byte>, port: seq<byte>, state: seq<byte>,
    login: Option<LoginLayout>, tail: seq<byte>)
  datatype LoginLayout = LoginLayout(length: seq<byte>, id: seq<byte>, nameLength: seq<byte>, name: seq<byte>,
      rest: seq<byte>)

  function Body(l: Layout): (r: seq<byte>) {
    l.id + (l.version + (l.addressLength + (l.wire + (l.port + l.state))))
  }

  function LoginBody(l: LoginLayout): (r: seq<byte>) {
    l.id + (l.nameLength + (l.name + l.rest))
  }

  function LoginSpelled(l: LoginLayout): (r: seq<byte>) {
    l.length + LoginBody(l)
  }

  function Spelled(l: Layout): (r: seq<byte>) {
    l.length + (Body(l) + ((if l.login.Some? then LoginSpelled(l.login.value) else []) + l.tail))
  }

  ghost predicate OpeningMeans(l: Layout, o: Opening) {
    && Spells(l.id, o.id) && Spells(l.version, o.version) && Spells(l.addressLength, |l.wire|)
       && Spells(l.state, o.state)
    && 0 < |l.wire| <= ADDRESS_LIMIT && l.wire == o.wire
    && |l.port| == 2 && Pair(l.port[0], l.port[1]) == o.port
  }

  ghost predicate EntryMeans(l: LoginLayout, e: Entry) {
    && Spells(l.length, |LoginBody(l)|) && Spells(l.id, e.id) && Spells(l.nameLength, |l.name|)
       && |l.name| <= NAME_LIMIT
    && l.name == e.name && l.rest == e.rest
  }

  /** What a spelling means: the handshake frame covers its fields exactly, and the login is there exactly for those who
      enter. */
  ghost predicate Means(l: Layout, o: Opening, e: Option<Entry>) {
    && Spells(l.length, |Body(l)|) && OpeningMeans(l, o)
    && (l.login.Some? <==> Enters(o.state)) && (e.Some? <==> Enters(o.state))
    && (e.Some? ==> EntryMeans(l.login.value, e.value))
  }

  lemma NumberRead(b: seq<byte>, v: nat, t: seq<byte>)
    requires Spells(b, v)
    ensures v < 0x1_0000_0000 && Number(b + t) == Some((v, t))
  {
    SpellsHead(b, v, t);
    assert (b + t)[|b|..] == t;
  }

  lemma NumberSplit(s: seq<byte>) returns (b: seq<byte>)
    requires Number(s).Some?
    ensures Spells(b, Number(s).value.0) && s == b + Number(s).value.1
  {
    var v := Varint(s);
    ReadSpells(s, v.value, v.size);
    b := s[..v.size];
  }

  lemma FramedRead(b: seq<byte>, body: seq<byte>, t: seq<byte>)
    requires Spells(b, |body|)
    ensures Framed(b + (body + t)) == Some((body, t))
  {
    hide Number, Spells;
    NumberRead(b, |body|, body + t);
    assert (body + t)[..|body|] == body && (body + t)[|body|..] == t;
  }

  lemma FramedSplit(s: seq<byte>) returns (b: seq<byte>)
    requires Framed(s).Some?
    ensures Spells(b, |Framed(s).value.0|) && s == b + (Framed(s).value.0 + Framed(s).value.1)
  {
    hide Number, Spells;
    b := NumberSplit(s);
    var n := Number(s).value;
    assert n.1[..n.0] + n.1[n.0..] == n.1;
  }

  lemma EndingRead(port: seq<byte>, state: seq<byte>, value: u32)
    requires |port| == 2 && Spells(state, value)
    ensures ReadEnding(port + state) == Some((Pair(port[0], port[1]), value))
  {
    hide Number, Spells;
    NumberRead(state, value, []);
    assert state + [] == state;
    assert (port + state)[2..] == state;
  }

  lemma AddressRead(l: Layout, o: Opening)
    requires OpeningMeans(l, o)
    ensures ReadAddress(o.id, o.version, l.addressLength + (l.wire + (l.port + l.state))) == Some(o)
  {
    hide Number, Spells, ReadEnding;
    var ending := l.port + l.state;
    NumberRead(l.addressLength, |l.wire|, l.wire + ending);
    EndingRead(l.port, l.state, o.state);
    assert (l.wire + ending)[..|l.wire|] == l.wire && (l.wire + ending)[|l.wire|..] == ending;
  }

  lemma OpeningRead(l: Layout, o: Opening)
    requires OpeningMeans(l, o)
    ensures ReadOpening(Body(l)) == Some(o)
  {
    hide Number, Spells, ReadAddress;
    var address := l.addressLength + (l.wire + (l.port + l.state));
    NumberRead(l.id, o.id, l.version + address);
    NumberRead(l.version, o.version, address);
    AddressRead(l, o);
  }

  lemma EntryRead(l: LoginLayout, e: Entry)
    requires EntryMeans(l, e)
    ensures ReadEntry(LoginBody(l)) == Some(e)
  {
    hide Number, Spells;
    NumberRead(l.id, e.id, l.nameLength + (l.name + l.rest));
    NumberRead(l.nameLength, |l.name|, l.name + l.rest);
    assert (l.name + l.rest)[..|l.name|] == l.name && (l.name + l.rest)[|l.name|..] == l.rest;
  }

  /** Everything the grammar spells is read as what it means, whatever follows. */
  lemma SpelledReads(l: Layout, o: Opening, e: Option<Entry>)
    requires Means(l, o, e)
    ensures Parse(Spelled(l)) == Some(Joined(o, e))
  {
    hide Framed, Body, LoginBody, ReadOpening, ReadEntry, Spells, OpeningMeans, EntryMeans;
    var after := (if l.login.Some? then LoginSpelled(l.login.value) else []) + l.tail;
    FramedRead(l.length, Body(l), after);
    OpeningRead(l, o);
    if e.Some? {
      var login := l.login.value;
      LoginFramed(login, e.value, l.tail);
      EntryRead(login, e.value);
      assert after == login.length + (LoginBody(login) + l.tail);
    }
  }

  lemma LoginFramed(l: LoginLayout, e: Entry, tail: seq<byte>)
    requires EntryMeans(l, e)
    ensures Framed(l.length + (LoginBody(l) + tail)) == Some((LoginBody(l), tail))
  {
    hide LoginBody, Framed, Spells;
    FramedRead(l.length, LoginBody(l), tail);
  }

  lemma AddressSplit(id: u32, version: u32, s: seq<byte>)
      returns (length: seq<byte>, wire: seq<byte>, port: seq<byte>, state: seq<byte>)
    requires ReadAddress(id, version, s).Some?
    ensures var o := ReadAddress(id, version, s).value;
            && o.id == id && o.version == version && wire == o.wire && 0 < |wire| <= ADDRESS_LIMIT
            && Spells(length, |wire|) && |port| == 2 && Pair(port[0], port[1]) == o.port && Spells(state, o.state)
            && s == length + (wire + (port + state))
  {
    hide Number, Spells;
    length := NumberSplit(s);
    var n := Number(s).value;
    wire := n.1[..n.0];
    var ending := n.1[n.0..];
    port := ending[..2];
    state := NumberSplit(ending[2..]);
    assert state + [] == state;
    assert ending == port + state;
    assert n.1 == wire + ending;
  }

  /** Everything that is read was spelled by the grammar. */
  lemma OpeningSplit(body: seq<byte>) returns (l: Layout)
    requires ReadOpening(body).Some?
    ensures OpeningMeans(l, ReadOpening(body).value) && Body(l) == body
  {
    hide Number, Spells, ReadAddress;
    var id := NumberSplit(body);
    var first := Number(body).value;
    var version := NumberSplit(first.1);
    var second := Number(first.1).value;
    var length, wire, port, state := AddressSplit(first.0, second.0, second.1);
    l := Layout([], id, version, length, wire, port, state, None, []);
  }

  lemma EntrySplit(body: seq<byte>, frame: seq<byte>) returns (l: LoginLayout)
    requires ReadEntry(body).Some? && Spells(frame, |body|)
    ensures EntryMeans(l, ReadEntry(body).value) && LoginBody(l) == body && l.length == frame
  {
    hide Number, Spells;
    var id := NumberSplit(body);
    var first := Number(body).value;
    var length := NumberSplit(first.1);
    var second := Number(first.1).value;
    l := LoginLayout(frame, id, length, second.1[..second.0], second.1[second.0..]);
    assert second.1 == l.name + l.rest;
  }

  lemma ReadIsSpelled(s: seq<byte>) returns (l: Layout, o: Opening, e: Option<Entry>)
    requires Parse(s).Some?
    ensures Means(l, o, e) && Spelled(l) == s && Parse(s).value == Joined(o, e)
  {
    hide Framed, Body, LoginBody, ReadOpening, ReadEntry, Spells, OpeningMeans, EntryMeans, Joined;
    var first := Framed(s).value;
    var length := FramedSplit(s);
    var body := OpeningSplit(first.0);
    o := ReadOpening(first.0).value;
    if Enters(o.state) {
      var second := Framed(first.1).value;
      var frame := FramedSplit(first.1);
      var login := EntrySplit(second.0, frame);
      e := ReadEntry(second.0);
      l := body.(length := length, login := Some(login), tail := second.1);
      SameBody(body, l, o);
      assert LoginSpelled(login) + second.1 == frame + (second.0 + second.1);
    } else {
      e := None;
      l := body.(length := length, login := None, tail := first.1);
      SameBody(body, l, o);
      assert [] + first.1 == first.1;
    }
  }

  lemma SameBody(l: Layout, m: Layout, o: Opening)
    requires OpeningMeans(l, o) && m == l.(length := m.length, login := m.login, tail := m.tail)
    ensures OpeningMeans(m, o) && Body(m) == Body(l)
  {
    hide Spells;
  }

  /** A byte string is read as a handshake exactly when the grammar gives it that meaning. */
  lemma ReadExactly(s: seq<byte>, p: Packet)
    ensures Parse(s) == Some(p) <==> exists l, o, e :: Means(l, o, e) && Spelled(l) == s && Joined(o, e) == p
  {
    hide Parse, Means, Spelled, Joined;
    if Parse(s) == Some(p) {
      var l, o, e := ReadIsSpelled(s);
    }
    if l, o, e :| Means(l, o, e) && Spelled(l) == s && Joined(o, e) == p {
      SpelledReads(l, o, e);
    }
  }

  // ---------------------------------------------------------------- writing

  function Wire(p: Packet): (r: seq<byte>) {
    Text(p.address) + p.extra
  }

  function Username(p: Packet): (r: seq<byte>) {
    if p.username.Some? then Text(p.username.value) else []
  }

  predicate Writable(p: Packet) {
    && |Wire(p)| <= ADDRESS_LIMIT && (p.extra != [] ==> p.extra[0] == 0 || p.extra[0] == QUERY)
    && (Enters(p.state) ==>
       p.username.Some? && |Username(p)| <= NAME_LIMIT && |p.signature| <= STAGE - |Username(p)| - RESERVE)
  }

  function Port(port: u16): (r: seq<byte>)
    ensures |r| == 2 && Pair(r[0], r[1]) == port
  {
    [port / 256, port % 256]
  }

  function Part1(p: Packet): (r: seq<byte>) {
    Printed(p.id) + (Printed(p.version) + (Printed(|Wire(p)|) + (Wire(p) + (Port(p.port) + Printed(p.state)))))
  }

  function LoginPart(p: Packet): (r: seq<byte>) {
    Printed(|Username(p)|) + (Username(p) + Flagged(p.version, p.signature))
  }

  function Part2(p: Packet): (r: seq<byte>) {
    Printed(p.loginId) + if Enters(p.state) then LoginPart(p) else []
  }

  function Bytes(p: Packet): (r: seq<byte>) {
    Printed(|Part1(p)|) + (Part1(p) + (Printed(|Part2(p)|) + Part2(p)))
  }

  /** Both parts fit the staging buffers; the second one may fill its buffer to the last byte. */
  lemma PartsFit(p: Packet)
    requires Writable(p)
    ensures |Part1(p)| <= ADDRESS_LIMIT + 19 && |Part2(p)| <= STAGE && |Bytes(p)| > 0
  {
    PrintedSmall(p.id);
    PrintedSmall(p.version);
    PrintedSmall(|Wire(p)|);
    PrintedSmall(p.state);
    PrintedSmall(p.loginId);
    PrintedSmall(|Username(p)|);
    hide Printed, Flags, Text;
  }

  // ---------------------------------------------------------------- reading what was written

  /** What a reader sees of a written handshake. */
  function Seen(p: Packet): (r: Packet) {
    var cut := Cut(Wire(p));
    var enters := Enters(p.state);
    Packet(p.id, p.version, Wire(p)[..cut], Wire(p)[cut..], p.port, p.state,
      if enters then p.loginId else 0, if enters then Some(Username(p)) else None, if enters then p.signature else [])
  }

  function WrittenLayout(p: Packet, t: seq<byte>): (l: Layout) {
    var login := LoginLayout(Printed(|Part2(p)|), Printed(p.loginId), Printed(|Username(p)|), Username(p),
      Flagged(p.version, p.signature));
    Layout(Printed(|Part1(p)|), Printed(p.id), Printed(p.version), Printed(|Wire(p)|), Wire(p), Port(p.port),
      Printed(p.state),
      if Enters(p.state) then Some(login) else None,
      if Enters(p.state) then t else Printed(|Part2(p)|) + (Part2(p) + t))
  }

  lemma WrittenBodies(p: Packet, t: seq<byte>)
    ensures var l := WrittenLayout(p, t);
            Body(l) == Part1(p) && (Enters(p.state) ==> LoginBody(l.login.value) == Part2(p))
  {
    hide Printed, Flags, Text, Wire, Username, Flagged, Port;
  }

  lemma Regrouped(frame: seq<byte>, first: seq<byte>, length: seq<byte>, second: seq<byte>, t: seq<byte>)
    ensures (length + second) + t == length + (second + t)
    ensures frame + (first + (length + (second + t))) == (frame + (first + (length + second))) + t
    ensures [] + (length + (second + t)) == length + (second + t)
  {
    assert first + (length + (second + t)) == (first + (length + second)) + t;
  }

  lemma WrittenSpelled(p: Packet, t: seq<byte>)
    ensures Spelled(WrittenLayout(p, t)) == Bytes(p) + t
  {
    hide Printed, Flags, Text, Wire, Username, Flagged, Port, Part1, Part2, Body, LoginBody;
    WrittenBodies(p, t);
    Regrouped(Printed(|Part1(p)|), Part1(p), Printed(|Part2(p)|), Part2(p), t);
  }

  lemma WrittenMeans(p: Packet, t: seq<byte>)
    requires Writable(p) && Wire(p) != []
    ensures var o := Opening(p.id, p.version, Wire(p), p.port, p.state);
            var e := if Enters(p.state) then Some(Entry(p.loginId, Username(p), Flagged(p.version, p.signature)))
                     else None;
            Means(WrittenLayout(p, t), o, e) && Joined(o, e) == Seen(p)
  {
    hide Printed, Spells, Flags, Text, Flagged, Stripped, Cut, Part1, Part2, Body, LoginBody;
    PartsFit(p);
    PrintedSpells(p.id);
    PrintedSpells(p.version);
    PrintedSpells(|Wire(p)|);
    PrintedSpells(p.state);
    PrintedSpells(|Part1(p)|);
    WrittenBodies(p, t);
    if Enters(p.state) {
      PrintedSpells(p.loginId);
      PrintedSpells(|Username(p)|);
      PrintedSpells(|Part2(p)|);
      StrippedOfFlagged(p.version, p.signature);
    }
  }

  /** Reading a written handshake, whatever follows it: nothing without an address, else what a reader sees. */
  lemma ReadAfterWrite(p: Packet, t: seq<byte>)
    requires Writable(p)
    ensures Parse(Bytes(p) + t) == if Wire(p) == [] then None else Some(Seen(p))
  {
    hide Means, Joined, Seen, Bytes, Part1, Part2, Spelled, Text, Flagged, Parse;
    if Wire(p) == [] {
      AddresslessUnread(p, t);
    } else {
      WrittenMeans(p, t);
      WrittenSpelled(p, t);
      var o := Opening(p.id, p.version, Wire(p), p.port, p.state);
      var e := if Enters(p.state) then Some(Entry(p.loginId, Username(p), Flagged(p.version, p.signature))) else None;
      SpelledReads(WrittenLayout(p, t), o, e);
    }
  }

  lemma AddresslessUnread(p: Packet, t: seq<byte>)
    requires Writable(p) && Wire(p) == []
    ensures Parse(Bytes(p) + t) == None
  {
    hide Part1, Part2, Printed, Spells, ReadOpening, Framed, Text;
    PartsFit(p);
    PrintedSpells(|Part1(p)|);
    AddresslessOpening(p);
    var after := (Printed(|Part2(p)|) + Part2(p)) + t;
    FramedRead(Printed(|Part1(p)|), Part1(p), after);
    assert Bytes(p) + t == Printed(|Part1(p)|) + (Part1(p) + after);
  }

  lemma AddresslessOpening(p: Packet)
    requires Wire(p) == []
    ensures ReadOpening(Part1(p)) == None
  {
    hide Printed, Spells, Number, Text;
    var ending := Wire(p) + (Port(p.port) + Printed(p.state));
    var address := Printed(0) + ending;
    PrintedSpells(p.id);
    PrintedSpells(p.version);
    PrintedSpells(0);
    NumberRead(Printed(p.id), p.id, Printed(p.version) + address);
    NumberRead(Printed(p.version), p.version, address);
    NumberRead(Printed(0), 0, ending);
  }

  /** A handshake that survives being written and read: an address without markers, a name without
      zeros, and no login parts unless it enters. */
  predicate Faithful(p: Packet) {
    && (p.address != [] || p.extra != []) && 0 !in p.address && QUERY !in p.address
    && (if Enters(p.state) then p.username.Some? && 0 !in p.username.value
        else p.loginId == 0 && p.username.None? && p.signature == [])
  }

  lemma SeenSame(p: Packet)
    requires Writable(p) && Wire(p) != []
    ensures Seen(p) == p <==> Faithful(p)
  {
    hide Flags;
    var wire, cut := Wire(p), Cut(Wire(p));
    if Seen(p) == p {
      assert forall b :: b in wire[..cut] ==> b != 0 && b != QUERY;
    }
    if Faithful(p) {
      assert Text(p.address) == p.address;
      assert wire == p.address + p.extra;
      FirstIs(wire, {0, QUERY}, |p.address|);
      assert wire[..cut] == p.address && wire[cut..] == p.extra;
    }
  }

  /** The round trip holds for exactly these handshakes. */
  lemma RoundTripExactly(p: Packet, t: seq<byte>)
    requires Writable(p)
    ensures Parse(Bytes(p) + t) == Some(p) <==> Faithful(p)
  {
    ReadAfterWrite(p, t);
    if Wire(p) != [] {
      SeenSame(p);
    } else {
      assert Faithful(p) ==> Text(p.address) == p.address;
    }
    hide Parse, Bytes, Seen;
  }

  /** What is read can be written and read again, unless its name holds a zero byte. */
  lemma ReadIsFaithful(s: seq<byte>)
    requires Parse(s).Some?
    ensures var p := Parse(s).value; Faithful(p) <==> (p.username.Some? ==> 0 !in p.username.value)
  {
    hide Parse, Spelled, Spells, Flags, Body, LoginBody, Stripped, EntryMeans;
    var l, o, e := ReadIsSpelled(s);
    var p := Joined(o, e);
    assert o.wire[..Cut(o.wire)] + o.wire[Cut(o.wire)..] == o.wire;
    assert forall b :: b in p.address ==> b != 0 && b != QUERY;
  }

  // ---------------------------------------------------------------- framing of what was written

  lemma Part1Shape(p: Packet)
    ensures |Part1(p)| >= 6 && (p.id == 0 ==> Part1(p)[0] == 0)
  {
    hide Text;
  }

  lemma OpeningIdentified(p: Packet)
    requires p.id == 0 && STATUS <= p.state <= TRANSFER
    ensures IdentifyFrame(Part1(p)) == (if p.version != 0 then Modern2 else Modern1, p.state)
  {
    hide Printed, Varint, Text;
    var body := Part1(p);
    var address := Printed(|Wire(p)|) + (Wire(p) + (Port(p.port) + Printed(p.state)));
    VarintOfPrinted(0, Printed(p.version) + address);
    VarintOfPrinted(p.version, address);
    PrintedTwo(0);
    PrintedTwo(p.state);
    assert body == [0] + (Printed(p.version) + address);
    assert body[1..] == Printed(p.version) + address;
  }

  /** The first bytes of a written handshake are never taken for an older protocol, not even when its
      frame is 254 bytes long and starts like a legacy ping. */
  lemma WrittenLooksModern(p: Packet, t: seq<byte>)
    requires Writable(p) && p.id == 0
    ensures var s := Bytes(p) + t;
            && |s| > 2 && s[0] != 0x01 && s[0] != 0x02 && !(s[0] == 0xFE && s[1] == 0x01 && s[2] == 0xFA)
            && (|Part1(p)| == 254 ==> s[..2] == [0xFE, 0x01] && PacketLength(s[..2]) == Ambiguous(3))
  {
    hide Part1, Part2, Printed, Text;
    PartsFit(p);
    Part1Shape(p);
    PrintedTwo(|Part1(p)|);
    var s, length := Bytes(p) + t, Printed(|Part1(p)|);
    assert s[..|length|] == length && s[|length|] == Part1(p)[0];
  }

  lemma WrittenFrame(p: Packet, t: seq<byte>)
    requires Writable(p) && p.id == 0 && STATUS <= p.state <= TRANSFER
    ensures var s, n := Bytes(p) + t, |Printed(|Part1(p)|)| + |Part1(p)|;
            && Frame(s) == Complete(n) && n <= |s|
            && IdentifyModern(s[..n]) == (if p.version != 0 then Modern2 else Modern1, p.state)
            && s[n..] == (Printed(|Part2(p)|) + Part2(p)) + t
  {
    hide Part1, Part2, Printed, Varint, IdentifyFrame, Text;
    PartsFit(p);
    Part1Shape(p);
    OpeningIdentified(p);
    var length, first, after := Printed(|Part1(p)|), Part1(p), (Printed(|Part2(p)|) + Part2(p)) + t;
    VarintOfPrinted(|first|, first + after);
    VarintOfPrinted(|first|, first);
    var s, n := Bytes(p) + t, |length| + |first|;
    assert s == length + (first + after);
    assert s[..n] == length + first;
    assert s[..n][|length|..n] == first;
    assert s[n..] == after;
  }

  lemma SecondFrame(p: Packet, t: seq<byte>)
    requires Writable(p)
    ensures Frame((Printed(|Part2(p)|) + Part2(p)) + t) == Complete(|Printed(|Part2(p)|)| + |Part2(p)|)
  {
    hide Printed, Varint, LoginPart, Text;
    PartsFit(p);
    var second := Part2(p);
    VarintOfPrinted(|second|, second + t);
    assert (Printed(|second|) + second) + t == Printed(|second|) + (second + t);
  }

  lemma WrittenIdentified(p: Packet, t: seq<byte>)
    requires Writable(p) && p.id == 0 && STATUS <= p.state <= TRANSFER
    ensures var s, n := Bytes(p) + t, |Printed(|Part1(p)|)| + |Part1(p)|;
            n <= |s| && Identify(s[..n]) == (if p.version != 0 then Modern2 else Modern1, p.state)
  {
    hide Bytes, Part1, Part2, Printed, Varint, IdentifyModern, Text, PacketLength;
    Part1Shape(p);
    WrittenFrame(p, t);
    WrittenLooksModern(p, t);
  }

  /** Framing finds the end of a written handshake: after its first frame if it only asks for the status
      or speaks the oldest modern version, and otherwise after both. */
  lemma WrittenLength(p: Packet, t: seq<byte>)
    requires Writable(p) && p.id == 0 && STATUS <= p.state <= TRANSFER
    ensures var n := |Printed(|Part1(p)|)| + |Part1(p)|;
            PacketLength(Bytes(p) + t) == Complete(if p.version == 0 || p.state == STATUS then n else |Bytes(p)|)
  {
    hide Part1, Part2, Printed, Frame, Identify, IdentifyModern, Text;
    WrittenFrame(p, t);
    WrittenIdentified(p, t);
    WrittenLooksModern(p, t);
    SecondFrame(p, t);
  }

  // ---------------------------------------------------------------- writing what was read

  lemma PrefixFree(a: seq<byte>, v: nat, x: seq<byte>, b: seq<byte>, w: nat, y: seq<byte>)
    requires Spells(a, v) && Spells(b, w) && a + x == b + y
    ensures a == b && x == y
  {
    hide Varint;
    SpellsHead(a, v, x);
    SpellsHead(b, w, y);
    assert (a + x)[..|a|] == a && (b + y)[..|b|] == b;
    assert (a + x)[|a|..] == x && (b + y)[|b|..] == y;
  }

  lemma SameSplit(a: seq<byte>, x: seq<byte>, b: seq<byte>, y: seq<byte>)
    requires |a| == |b| && a + x == b + y
    ensures a == b && x == y
  {
    assert (a + x)[..|a|] == a && (b + y)[..|b|] == b;
    assert (a + x)[|a|..] == x && (b + y)[|b|..] == y;
  }

  lemma BodyUnambiguous(l: Layout, o: Opening, m: Layout, q: Opening)
    requires OpeningMeans(l, o) && OpeningMeans(m, q) && Body(l) == Body(m)
    ensures l.id == m.id && l.version == m.version && l.addressLength == m.addressLength && l.wire == m.wire
            && l.port == m.port && l.state == m.state
  {
    hide Spells;
    var x, y := l.port + l.state, m.port + m.state;
    PrefixFree(l.id, o.id, l.version + (l.addressLength + (l.wire + x)), m.id, q.id, m.version
      + (m.addressLength + (m.wire + y)));
    PrefixFree(l.version, o.version, l.addressLength + (l.wire + x), m.version, q.version, m.addressLength
      + (m.wire + y));
    SameLength(l.addressLength, |l.wire|, l.wire + x, m.addressLength, |m.wire|, m.wire + y);
    SameSplit(l.wire, x, m.wire, y);
    SameSplit(l.port, l.state, m.port, m.state);
  }

  lemma SameLength(a: seq<byte>, v: nat, x: seq<byte>, b: seq<byte>, w: nat, y: seq<byte>)
    requires Spells(a, v) && Spells(b, w) && a + x == b + y
    ensures a == b && x == y && v == w
  {
    PrefixFree(a, v, x, b, w, y);
  }

  lemma LoginUnambiguous(l: LoginLayout, e: Entry, t: seq<byte>, m: LoginLayout, f: Entry, u: seq<byte>)
    requires EntryMeans(l, e) && EntryMeans(m, f) && LoginSpelled(l) + t == LoginSpelled(m) + u
    ensures l == m && t == u
  {
    hide Spells;
    assert LoginSpelled(l) + t == l.length + (LoginBody(l) + t) && LoginSpelled(m) + u == m.length + (LoginBody(m) + u);
    SameLength(l.length, |LoginBody(l)|, LoginBody(l) + t, m.length, |LoginBody(m)|, LoginBody(m) + u);
    SameSplit(LoginBody(l), t, LoginBody(m), u);
    PrefixFree(l.id, e.id, l.nameLength + (l.name + l.rest), m.id, f.id, m.nameLength + (m.name + m.rest));
    SameLength(l.nameLength, |l.name|, l.name + l.rest, m.nameLength, |m.name|, m.name + m.rest);
    SameSplit(l.name, l.rest, m.name, m.rest);
  }

  /** The grammar is unambiguous: no byte string is spelled in two ways. */
  lemma Unambiguous(l: Layout, o: Opening, e: Option<Entry>, m: Layout, q: Opening, f: Option<Entry>)
    requires Means(l, o, e) && Means(m, q, f) && Spelled(l) == Spelled(m)
    ensures l == m
  {
    hide Spells, Body, LoginBody, LoginSpelled, EntryMeans;
    var x := (if l.login.Some? then LoginSpelled(l.login.value) else []) + l.tail;
    var y := (if m.login.Some? then LoginSpelled(m.login.value) else []) + m.tail;
    SameLength(l.length, |Body(l)|, Body(l) + x, m.length, |Body(m)|, Body(m) + y);
    SameSplit(Body(l), x, Body(m), y);
    BodyUnambiguous(l, o, m, q);
    SameValue(l.state, o.state, q.state);
    if e.Some? {
      LoginUnambiguous(l.login.value, e.value, l.tail, m.login.value, f.value, m.tail);
    } else {
      assert [] + l.tail == l.tail && [] + m.tail == m.tail;
    }
  }

  lemma SameValue(b: seq<byte>, v: nat, w: nat)
    requires Spells(b, v) && Spells(b, w)
    ensures v == w
  {
    hide Varint;
  }

  /** Every number is spelled in the shortest way. */
  ghost predicate Shortest(l: Layout, o: Opening, e: Entry)
    requires l.login.Some?
  {
    var login := l.login.value;
    && l.length == Printed(|Body(l)|) && l.id == Printed(o.id) && l.version == Printed(o.version)
       && l.state == Printed(o.state)
    && l.addressLength == Printed(|l.wire|)
    && login.length == Printed(|LoginBody(login)|) && login.id == Printed(e.id)
       && login.nameLength == Printed(|login.name|)
  }

  lemma WireKept(o: Opening, e: Option<Entry>)
    ensures Wire(Joined(o, e)) == o.wire
  {
    hide Stripped;
    var p := Joined(o, e);
    assert forall b :: b in p.address ==> b != 0;
    assert p.address + p.extra == o.wire;
  }

  lemma PortKept(b: seq<byte>)
    requires |b| == 2
    ensures Port(Pair(b[0], b[1])) == b
  {
  }

  lemma SameLayout(l: Layout, o: Opening, e: Entry)
    requires Means(l, o, Some(e))
    ensures WrittenLayout(Joined(o, Some(e)), l.tail) == l <==>
              Shortest(l, o, e) && 0 !in e.name
                && (e.rest == [] || !Flags(o.version) || (e.rest[0] == 1 && |e.rest| > 1))
  {
    hide Flags, Spells, Text, Printed, Stripped, Flagged, Wire, Port, Body, LoginBody, Part1, Part2;
    var p := Joined(o, Some(e));
    var m := WrittenLayout(p, l.tail);
    WireKept(o, Some(e));
    PortKept(l.port);
    FlaggedOfStripped(o.version, e.rest);
    WrittenBodies(p, l.tail);
    assert Text(e.name) == e.name <==> 0 !in e.name;
    SameParts(l, m);
  }

  lemma SameParts(l: Layout, m: Layout)
    ensures l.(length := m.length, login := m.login, tail := m.tail) == m ==> Body(l) == Body(m)
    ensures l.login.Some? && m.login.Some? && l.login.value.(length := m.login.value.length) == m.login.value ==>
            LoginBody(l.login.value) == LoginBody(m.login.value)
  {
  }

  /** Writing back what was read gives the very bytes that were read exactly when every number was spelled
      in the shortest way, the name holds no zero byte and the flag byte, if the version has one, is set
      in front of some signature. */
  lemma WriteAfterRead(l: Layout, o: Opening, e: Entry)
    requires Means(l, o, Some(e)) && Writable(Joined(o, Some(e)))
    ensures Bytes(Joined(o, Some(e))) + l.tail == Spelled(l) <==>
              Shortest(l, o, e) && 0 !in e.name
                && (e.rest == [] || !Flags(o.version) || (e.rest[0] == 1 && |e.rest| > 1))
  {
    hide Flags, Spelled, Bytes, Text, Means, Shortest, WrittenLayout, Flagged, Stripped, Spells, OpeningMeans,
         EntryMeans;
    var p := Joined(o, Some(e));
    SameLayout(l, o, e);
    WrittenSpelled(p, l.tail);
    WireKept(o, Some(e));
    if Bytes(p) + l.tail == Spelled(l) {
      Entering(l, o, e);
      WrittenMeans(p, l.tail);
      Unambiguous(l, o, Some(e), WrittenLayout(p, l.tail),
        Opening(p.id, p.version, Wire(p), p.port, p.state),
          Some(Entry(p.loginId, Username(p), Flagged(p.version, p.signature))));
    }
  }

  /** A login of the last version with a flag byte, whose flag is not set. */
  const UNSIGNED: Layout := Layout([8], [0], [0xFB, 5], [1], [0x61], [0x63, 0xDD], [2],
    Some(LoginLayout([4], [0], [1], [0x62], [0])), [])
  const UNSIGNED_OPENING: Opening := Opening(0, LAST_FLAGGED_RELEASE, [0x61], 25565, LOGIN)
  const UNSIGNED_ENTRY: Entry := Entry(0, [0x62], [0])

  lemma SmallSpells(v: byte)
    requires v < 128
    ensures Spells([v], v) && Printed(v) == [v]
  {
    PrintedSpells(v);
  }

  lemma UnsignedMeans()
    ensures Means(UNSIGNED, UNSIGNED_OPENING, Some(UNSIGNED_ENTRY))
            && Shortest(UNSIGNED, UNSIGNED_OPENING, UNSIGNED_ENTRY)
  {
    hide Spells, Varint;
    SmallSpells(0);
    SmallSpells(1);
    SmallSpells(2);
    SmallSpells(4);
    SmallSpells(8);
    PrintedSpells(LAST_FLAGGED_RELEASE);
    PrintedTwo(LAST_FLAGGED_RELEASE);
  }

  /** Writing it back puts a flag where none was: the signature data `00` becomes `01 00`, so it is not what the client
      sent although every number was spelled in the shortest way. */
  lemma UnsignedRewritten()
    ensures var p := Joined(UNSIGNED_OPENING, Some(UNSIGNED_ENTRY));
            && Parse(Spelled(UNSIGNED)) == Some(p) && Bytes(p) != Spelled(UNSIGNED)
            && WrittenLayout(p, []).login.Some? && WrittenLayout(p, []).login.value.rest == [1, 0]
               && Spelled(WrittenLayout(p, [])) == Bytes(p)
  {
    hide Parse, Spelled, Bytes, Means, Shortest;
    var p := Joined(UNSIGNED_OPENING, Some(UNSIGNED_ENTRY));
    UnsignedMeans();
    SpelledReads(UNSIGNED, UNSIGNED_OPENING, Some(UNSIGNED_ENTRY));
    WriteAfterRead(UNSIGNED, UNSIGNED_OPENING, UNSIGNED_ENTRY);
    WrittenSpelled(p, []);
    assert Bytes(p) + [] == Bytes(p);
  }

  lemma Entering(l: Layout, o: Opening, e: Entry)
    requires Means(l, o, Some(e))
    ensures o.wire != [] && Enters(o.state)
  {
    hide Spells, Body;
  }
}
