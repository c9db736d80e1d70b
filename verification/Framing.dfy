/** Finding the end of a client's first packet while its bytes are still arriving, for every protocol
    generation the relay knows. A verdict, once reached, is final.
 */
module Framing {
  import opened Basics
  import opened Varints

  const STATUS: nat := 1
  const LOGIN: nat := 2
  const TRANSFER: nat := 3

  datatype Version =
    | Unidentified | Original
    | LegacyL1 | LegacyL2 | LegacyL3 | LegacyL4 | LegacyM1 | LegacyM2 | LegacyM3
    | Modern1 | Modern2

  datatype Verdict = Ambiguous(needed: nat) | Complete(size: nat) | Incomplete(needed: nat) | Invalid

  const NOTHING: (Version, nat) := (Unidentified, 0)

  function Pair(high: byte, low: byte): (r: nat) {
    256 * high + low
  }

  // ---------------------------------------------------------------- identification

  /** The first frame of a modern handshake: id zero, a version, something after it, and an intent in its last byte. */
  function IdentifyFrame(body: seq<byte>): (r: (Version, nat)) {
    var id := Varint(body);
    if !id.Read? || id.value != 0 then NOTHING
    else
      var version := Varint(body[id.size..]);
      if !version.Read? || id.size + version.size == |body| then NOTHING
      else
        var intent := body[|body| - 1];
        if intent == STATUS || intent == LOGIN || intent == TRANSFER
          then (if version.value != 0 then Modern2 else Modern1, intent) else NOTHING
  }

  function IdentifyModern(s: seq<byte>): (r: (Version, nat)) {
    var frame := Varint(s);
    if !frame.Read? || frame.value == 0 || frame.value > |s| - frame.size then NOTHING
    else IdentifyFrame(s[frame.size..frame.size + frame.value])
  }

  function Identify(s: seq<byte>): (r: (Version, nat)) {
    if s == [] then NOTHING
    else if s[0] == 0x01 then (Original, 0)
    else if s[0] == 0x02 then
      if |s| < 2 then NOTHING
      else if s[1] == 0x00 then
        if |s| < 3 then NOTHING
        else if 0x3B in s[3..] && 0x3A in s[3..] then (LegacyL2, 0)
        else (LegacyL1, 0)
      else if s[1] == 0x1F then (LegacyL3, 0)
      else (LegacyL4, 0)
    else if s[0] == 0xFE && |s| == 1 then (LegacyM1, 0)
    else if s[0] == 0xFE && s[1] == 0x01 && |s| == 2 then (LegacyM2, 0)
    else if s[0] == 0xFE && s[1] == 0x01 && s[2] == 0xFA then (LegacyM3, 0)
    else IdentifyModern(s)
  }

  // ---------------------------------------------------------------- lengths

  function Sized(s: seq<byte>, size: nat): (r: Verdict) {
    if |s| < size then Incomplete(size) else Complete(size)
  }

  function LegacyLogin(s: seq<byte>): (r: Verdict) {
    if |s| < 2 then Incomplete(2)
    else if |s| < 4 then Incomplete(4)
    else if s[1] == 0 then Sized(s, 3 + Pair(0, s[2]) * (if s[3] == 0 then 2 else 1))
    else
      var nameEnd := 4 + Pair(s[2], s[3]) * 2;
      if s[1] == 0x1F then Sized(s, nameEnd)
      else if |s| < nameEnd + 2 then Incomplete(nameEnd + 2)
      else Sized(s, nameEnd + 2 + Pair(s[nameEnd], s[nameEnd + 1]) * 2 + 4)
  }

  function LegacyPing(s: seq<byte>): (r: Verdict) {
    if |s| < 0x20 then Incomplete(0x20) else Sized(s, 0x20 + Pair(s[0x1E], s[0x1F]) * 2 + 4)
  }

  /** A modern frame: a length and that many bytes. */
  function Frame(s: seq<byte>): (r: Verdict)
    ensures r.Complete? ==> 2 <= r.size <= |s|
    ensures r.Incomplete? ==> |s| < r.needed
  {
    match Varint(s)
    case Short => Incomplete(|s| + 1)
    case Malformed => Invalid
    case Read(value, size) => if value == 0 then Invalid else Sized(s, size + value)
  }

  /** A handshake frame and, unless it asks for the status or is too old to go on, the login frame after it. */
  function ModernLength(s: seq<byte>): (r: Verdict) {
    var first := Frame(s);
    if !first.Complete? then first
    else
      var (version, intent) := Identify(s[..first.size]);
      if version.Unidentified? then Invalid
      else if version.Modern1? || intent == STATUS then first
      else
        match Frame(s[first.size..])
        case Complete(size) => Complete(first.size + size)
        case Incomplete(needed) => Incomplete(first.size + needed)
        case other => other
  }

  function PacketLength(s: seq<byte>): (r: Verdict) {
    if s == [] then Incomplete(1)
    else if s[0] == 0x01 then Complete(1)
    else if s[0] == 0x02 then LegacyLogin(s)
    else if s[0] == 0xFE && (|s| == 1 || (|s| == 2 && s[1] == 0x01)) then Ambiguous(3)
    else if s[0] == 0xFE && s[1] == 0x01 && s[2] == 0xFA then LegacyPing(s)
    else ModernLength(s)
  }

  predicate Decisive(v: Verdict) {
    v.Complete? || v.Invalid?
  }

  // ---------------------------------------------------------------- chunk independence

  lemma FrameExtended(s: seq<byte>, t: seq<byte>)
    ensures Decisive(Frame(s)) ==> Frame(s + t) == Frame(s)
    ensures Frame(s).Incomplete? && |s| + |t| < Frame(s).needed ==> Frame(s + t).Incomplete?
    ensures !Frame(s).Ambiguous?
  {
    if !Varint(s).Short? {
      VarintExtended(s, t);
    } else {
      assert |t| == 0 ==> s + t == s;
    }
  }

  lemma ModernExtended(s: seq<byte>, t: seq<byte>)
    ensures Decisive(ModernLength(s)) ==> ModernLength(s + t) == ModernLength(s)
    ensures ModernLength(s).Incomplete? && |s| + |t| < ModernLength(s).needed ==> ModernLength(s + t).Incomplete?
    ensures ModernLength(s).Complete? ==> ModernLength(s).size <= |s|
    ensures !ModernLength(s).Ambiguous?
  {
    hide Identify;
    FrameExtended(s, t);
    var first := Frame(s);
    if first.Complete? {
      assert (s + t)[..first.size] == s[..first.size];
      assert (s + t)[first.size..] == s[first.size..] + t;
      FrameExtended(s[first.size..], t);
    }
  }

  lemma LegacyExtended(s: seq<byte>, t: seq<byte>)
    requires s != [] && s[0] == 0x02
    ensures LegacyLogin(s).Complete? ==> LegacyLogin(s + t) == LegacyLogin(s) && LegacyLogin(s).size <= |s|
    ensures LegacyLogin(s).Incomplete? && |s| + |t| < LegacyLogin(s).needed ==> LegacyLogin(s + t).Incomplete?
    ensures LegacyLogin(s).Complete? || LegacyLogin(s).Incomplete?
  {
  }

  /** A complete or invalid verdict stands whatever arrives later. */
  lemma VerdictStable(s: seq<byte>, t: seq<byte>)
    requires Decisive(PacketLength(s))
    ensures PacketLength(s + t) == PacketLength(s)
  {
    hide ModernLength, LegacyLogin;
    ModernExtended(s, t);
    if s[0] == 0x02 {
      LegacyExtended(s, t);
    }
  }

  /** The announced need is honest: with fewer bytes than that the packet is still incomplete. */
  lemma NeedHonest(s: seq<byte>, t: seq<byte>)
    requires PacketLength(s).Incomplete? && |s| + |t| < PacketLength(s).needed
    ensures PacketLength(s + t).Incomplete?
  {
    hide ModernLength, LegacyLogin;
    ModernExtended(s, t);
    if s == [] {
      assert s + t == s;
    } else if s[0] == 0x02 {
      LegacyExtended(s, t);
    }
  }

  /** The need is always more than what is there. */
  lemma NeedGrows(s: seq<byte>)
    ensures PacketLength(s).Incomplete? ==> |s| < PacketLength(s).needed
    ensures PacketLength(s).Complete? ==> 0 < PacketLength(s).size <= |s|
  {
    hide Identify;
  }

  /** Only a lone legacy ping prefix is ambiguous; one more byte settles it. */
  lemma AmbiguousExactly(s: seq<byte>)
    ensures PacketLength(s).Ambiguous? <==> s == [0xFE] || s == [0xFE, 0x01]
  {
    hide Identify;
  }

  /** Receives until the verdict is decisive. */
  ghost function Gather(buffer: seq<byte>, chunks: seq<seq<byte>>): (r: seq<byte>)
    decreases chunks
  {
    if chunks == [] || Decisive(PacketLength(buffer)) then buffer else Gather(buffer + chunks[0], chunks[1..])
  }

  ghost function Concat(chunks: seq<seq<byte>>): (r: seq<byte>) {
    if chunks == [] then [] else chunks[0] + Concat(chunks[1..])
  }

  /** However the bytes are cut into chunks, receiving until the verdict is decisive reaches the verdict of the whole
      stream. */
  lemma {:induction false} ChunkIndependent(buffer: seq<byte>, chunks: seq<seq<byte>>)
    ensures PacketLength(Gather(buffer, chunks)) == PacketLength(buffer + Concat(chunks))
    ensures Gather(buffer, chunks) <= buffer + Concat(chunks)
    decreases chunks
  {
    hide PacketLength;
    if chunks == [] {
      assert buffer + Concat(chunks) == buffer;
    } else if Decisive(PacketLength(buffer)) {
      VerdictStable(buffer, Concat(chunks));
    } else {
      ChunkIndependent(buffer + chunks[0], chunks[1..]);
      assert buffer + Concat(chunks) == (buffer + chunks[0]) + Concat(chunks[1..]);
    }
  }

  // ---------------------------------------------------------------- verdicts and the packet's own bytes

  lemma FrameTrimmed(s: seq<byte>)
    requires Frame(s).Complete?
    ensures Frame(s[..Frame(s).size]) == Frame(s)
  {
    var r, n := Varint(s), Frame(s).size;
    ReadSpells(s, r.value, r.size);
    assert s[..n][..r.size] == s[..r.size];
    ReadSpells(s[..n], r.value, r.size);
  }

  lemma ModernTrimmed(s: seq<byte>)
    requires ModernLength(s).Complete?
    ensures var n := ModernLength(s).size; n <= |s| && ModernLength(s[..n]) == Complete(n)
  {
    hide Identify, Varint;
    FrameTrimmed(s);
    var first := Frame(s).size;
    var n := ModernLength(s).size;
    assert s[..first] <= s;
    if n == first {
      assert s[..n][..first] == s[..first];
    } else {
      FrameTrimmed(s[first..]);
      assert s[first..n] == s[first..][..n - first];
      FrameExtended(s[..first], s[first..n]);
      assert s[..first] + s[first..n] == s[..n];
      assert s[..n][..first] == s[..first];
      assert s[..n][first..] == s[first..n];
    }
  }

  lemma LegacyTrimmed(s: seq<byte>)
    requires s != [] && s[0] == 0x02 && LegacyLogin(s).Complete?
    ensures var n := LegacyLogin(s).size;
            0 < n <= |s| && (LegacyLogin(s[..n]) == Complete(n) <==> !(s[1] == 0 && s[2] == 0))
  {
  }

  lemma PingTrimmed(s: seq<byte>)
    requires LegacyPing(s).Complete?
    ensures var n := LegacyPing(s).size; 3 <= n <= |s| && LegacyPing(s[..n]) == Complete(n)
  {
  }

  lemma ModernShape(s: seq<byte>)
    requires ModernLength(s).Complete?
    ensures 0 < ModernLength(s).size <= |s|
  {
    hide Identify, Varint;
  }

  /** A packet is recognised from its own bytes alone, with one exception: an empty name in the oldest
      login form, whose verdict waits for a byte that is not part of the packet. */
  lemma CompleteFromOwnBytes(s: seq<byte>)
    requires PacketLength(s).Complete?
    ensures var n := PacketLength(s).size;
            n <= |s| && (PacketLength(s[..n]) == Complete(n) <==> !(s[0] == 0x02 && s[1] == 0 && s[2] == 0))
  {
    hide Identify, ModernLength, LegacyLogin, LegacyPing;
    if s[0] == 0x02 {
      LegacyTrimmed(s);
    } else if s[0] == 0xFE && s[1] == 0x01 && s[2] == 0xFA {
      PingTrimmed(s);
    } else if s[0] != 0x01 {
      ModernTrimmed(s);
      ModernShape(s);
      if s[0] == 0xFE {
        TrimmedPing(s);
      }
    }
  }

  /** The shortest such login: three bytes long, and only recognised by a fourth. */
  lemma EmptyNameWaits()
    ensures PacketLength([0x02, 0, 0, 0]) == Complete(3) && PacketLength([0x02, 0, 0]) == Incomplete(4)
  {
  }

  /** A modern packet that starts like a ping is longer than the ping's prefix. */
  lemma TrimmedPing(s: seq<byte>)
    requires ModernLength(s).Complete? && s != [] && s[0] == 0xFE
    ensures 3 <= ModernLength(s).size <= |s|
  {
    hide Identify;
    var r := Varint(s);
    assert r.size >= 2;
  }

  lemma IdentifyExtended(s: seq<byte>, t: seq<byte>)
    requires Identify(s).0.Modern1? || Identify(s).0.Modern2?
    ensures Identify(s + t) == Identify(s)
  {
    hide IdentifyFrame;
    var frame := Varint(s);
    VarintExtended(s, t);
    assert (s + t)[frame.size..frame.size + frame.value] == s[frame.size..frame.size + frame.value];
  }
}
