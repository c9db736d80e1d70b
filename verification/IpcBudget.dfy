/** The byte budget shared by all reply assemblies of one supervisor, and the assemblies themselves.
    Structure sizes and limits are parameters.
 */
module IpcBudget {
  import opened Basics
  import opened Names
  import opened IpcCodec
  import opened IpcAssembly

  datatype AssemblyStatus = AssemblyOk | AssemblyComplete | AssemblyBadArgument | AssemblyLimit | AssemblyMemory
      | AssemblyProtocol

  datatype Sizes = Sizes(budget: nat, assembly: nat, cname: nat, address: nat, srv: nat, payload: nat, limit: nat,
      resultLimit: nat)

  /** A result handed out; it keeps its share of the budget until it is destroyed. */
  datatype Taken = Taken(reply: Reply, bytes: nat)

  /** The arrays a reply needs: a full chain of aliases if there is any, and its records. */
  function Allocation(z: Sizes, queryType: u16, cnames: nat, records: nat): (r: nat) {
    (if cnames > 0 then CNAME_LIMIT * z.cname else 0) + records * (if queryType == TYPE_SRV then z.srv else z.address)
  }

  function Charges(z: Sizes, assemblies: map<nat, Assembly>): (r: map<nat, nat>) {
    map id | id in assemblies :: z.assembly + assemblies[id].dynamicBytes
  }

  function ResultCharges(results: map<nat, Taken>): (r: map<nat, nat>) {
    map id | id in results :: results[id].bytes
  }

  /** Everything charged to the budget. */
  ghost function Outstanding(z: Sizes, assemblies: map<nat, Assembly>, results: map<nat, Taken>): (r: nat) {
    z.budget + Weigh(Charges(z, assemblies)) + Weigh(ResultCharges(results))
  }

  lemma AssemblyCharged(z: Sizes, assemblies: map<nat, Assembly>, results: map<nat, Taken>, id: nat, a: Assembly)
    ensures Outstanding(z, assemblies[id := a], results)
         == Outstanding(z, assemblies, results) - (if id in assemblies then z.assembly + assemblies[id].dynamicBytes
                                                   else 0) + z.assembly + a.dynamicBytes
    ensures id in assemblies ==> z.assembly + assemblies[id].dynamicBytes <= Outstanding(z, assemblies, results)
  {
    assert Charges(z, assemblies[id := a]) == Charges(z, assemblies)[id := z.assembly + a.dynamicBytes];
    WeighWith(Charges(z, assemblies), id, z.assembly + a.dynamicBytes);
    if id in assemblies {
      WeighWithout(Charges(z, assemblies), id);
    }
  }

  lemma AssemblyDischarged(z: Sizes, assemblies: map<nat, Assembly>, results: map<nat, Taken>, id: nat)
    requires id in assemblies
    ensures Outstanding(z, assemblies - {id}, results)
            == Outstanding(z, assemblies, results) - z.assembly - assemblies[id].dynamicBytes
    ensures z.assembly + assemblies[id].dynamicBytes <= Outstanding(z, assemblies, results)
  {
    assert Charges(z, assemblies - {id}) == Charges(z, assemblies) - {id};
    WeighWithout(Charges(z, assemblies), id);
  }

  lemma ResultCharged(z: Sizes, assemblies: map<nat, Assembly>, results: map<nat, Taken>, id: nat, taken: Taken)
    requires id !in results
    ensures Outstanding(z, assemblies, results[id := taken]) == Outstanding(z, assemblies, results) + taken.bytes
  {
    assert ResultCharges(results[id := taken]) == ResultCharges(results)[id := taken.bytes];
    WeighWith(ResultCharges(results), id, taken.bytes);
  }

  lemma ResultDischarged(z: Sizes, assemblies: map<nat, Assembly>, results: map<nat, Taken>, id: nat)
    requires id in results
    ensures Outstanding(z, assemblies, results - {id}) == Outstanding(z, assemblies, results) - results[id].bytes
    ensures results[id].bytes <= Outstanding(z, assemblies, results)
  {
    assert ResultCharges(results - {id}) == ResultCharges(results) - {id};
    WeighWithout(ResultCharges(results), id);
  }

  /** The state of an assembly apart from the bytes it owns is what the packets received make it. */
  ghost predicate Tracks(a: Assembly, packets: seq<seq<byte>>) {
    Live(a.phase) || a.phase.IsComplete? ==>
      Feed(Fresh(a.expected, a.queryType, a.queryId), packets) == Some(a.(dynamicBytes := 0))
  }

  lemma TracksIdle(a: Assembly, packets: seq<seq<byte>>)
    requires a.phase.IsFailed? || a.phase.IsTaken?
    ensures Tracks(a, packets)
  {
  }

  lemma ConsumeIgnoresBytes(a: Assembly, bytes: nat, packet: seq<byte>)
    ensures Consume(a.(dynamicBytes := bytes), packet) ==
            if Consume(a, packet).None? then None else Some(Consume(a, packet).value.(dynamicBytes := bytes))
  {
    hide Parse;
  }

  lemma TracksNext(a: Assembly, packets: seq<seq<byte>>, packet: seq<byte>, bytes: nat)
    requires Tracks(a, packets) && Consume(a, packet).Some?
    ensures Tracks(Consume(a, packet).value.(dynamicBytes := bytes), packets + [packet])
  {
    hide Consume, Feed;
    LiveToConsume(a, packet);
    FeedNext(Fresh(a.expected, a.queryType, a.queryId), packets, packet);
    ConsumeIgnoresBytes(a, 0, packet);
    ConsumeKeeps(a, packet);
  }

  /** The phases in which an assembly owns the arrays of its reply. */
  predicate Owning(phase: Phase) {
    phase.AtCname? || phase.AtRecord? || phase.AtEnd? || phase.IsComplete?
  }

  class AssemblyBudget {
    const sizes: Sizes
    var assemblies: map<nat, Assembly>
    var results: map<nat, Taken>
    var ownedBytes: nat
    var nextId: nat
    ghost var received: map<nat, seq<seq<byte>>>

    ghost predicate Valid()
      reads this
    {
      && ownedBytes == Outstanding(sizes, assemblies, results) <= sizes.limit
      && (forall id :: id in assemblies ==> id < nextId && id in received && Tracks(assemblies[id], received[id]))
      && (forall id :: id in results ==> id < nextId)
      && (forall id :: id in assemblies ==> Owning(assemblies[id].phase) || assemblies[id].dynamicBytes == 0)
    }

    constructor (z: Sizes)
      requires z.budget <= z.limit
      ensures Valid() && sizes == z && assemblies == map[] && results == map[] && ownedBytes == z.budget
    {
      sizes, assemblies, results, ownedBytes, nextId, received := z, map[], map[], z.budget, 0, map[];
      new;
      assert Charges(sizes, assemblies) == map[] && ResultCharges(results) == map[];
    }

    method Create(name: Name, queryType: u16, queryId: u64) returns (status: AssemblyStatus, id: nat)
      requires Valid()
      modifies this
      ensures Valid() && results == old(results)
      ensures status.AssemblyBadArgument? <==> !TypeValid(queryType) || queryId == 0 || Normalize(name).None?
      ensures status.AssemblyOk? ==>
                && id !in old(assemblies) && Normalize(name).Some?
                && assemblies == old(assemblies)[id := Fresh(Normalize(name).value, queryType, queryId)]
                   && received == old(received)[id := []]
                && ownedBytes == old(ownedBytes) + sizes.assembly
      ensures !status.AssemblyOk? ==>
              assemblies == old(assemblies) && ownedBytes == old(ownedBytes) && received == old(received)
      ensures status.AssemblyLimit? ==> old(ownedBytes) + sizes.assembly > sizes.limit
      ensures status in {AssemblyOk, AssemblyBadArgument, AssemblyLimit, AssemblyMemory}
    {
      hide Normalize, Feed, Outstanding;
      id := nextId;
      var expected := Normalize(name);
      if !TypeValid(queryType) || queryId == 0 || expected.None? {
        return AssemblyBadArgument, id;
      }
      if sizes.assembly > sizes.limit || ownedBytes > sizes.limit - sizes.assembly {
        return AssemblyLimit, id;
      }
      var enough: bool := *;
      if !enough {
        return AssemblyMemory, id;
      }
      var a := Fresh(expected.value, queryType, queryId);
      AssemblyCharged(sizes, assemblies, results, id, a);
      FeedNothing(a);
      assemblies := assemblies[id := a];
      received := received[id := []];
      ownedBytes := ownedBytes + sizes.assembly;
      nextId := nextId + 1;
      status := AssemblyOk;
    }

    /** Ends an assembly without a result; its arrays go back to the budget. */
    method Fail(id: nat)
      requires Valid() && id in assemblies
      modifies this
      ensures Valid() && results == old(results) && received == old(received)
      ensures assemblies == old(assemblies)[id := old(assemblies)[id].(phase := IsFailed, dynamicBytes := 0)]
      ensures ownedBytes == old(ownedBytes) - old(assemblies)[id].dynamicBytes
    {
      hide Outstanding, Tracks;
      var a := assemblies[id].(phase := IsFailed, dynamicBytes := 0);
      TracksIdle(a, received[id]);
      AssemblyCharged(sizes, assemblies, results, id, a);
      ownedBytes := Drop(ownedBytes, assemblies[id].dynamicBytes);
      assemblies := assemblies[id := a];
    }

    /** One packet from the helper. */
    method PacketConsume(id: nat, packet: seq<byte>) returns (status: AssemblyStatus)
      requires Valid() && id in assemblies
      modifies this
      ensures Valid() && results == old(results) && id in assemblies
              && assemblies == old(assemblies)[id := assemblies[id]]
      ensures var a := old(assemblies)[id]; var next := Consume(a, packet);
              && (next.None? ==> status.AssemblyProtocol?)
              && (next.Some? && !a.phase.AtBegin? ==> assemblies[id] == next.value)
              && (next.Some? && a.phase.AtBegin? ==>
                    var need := Allocation(sizes, a.queryType, next.value.declaredCnames, next.value.declaredRecords);
                    if sizes.payload + need > sizes.resultLimit || old(ownedBytes) + need > sizes.limit
                      then status.AssemblyLimit?
                    else status.AssemblyMemory? || assemblies[id] == next.value.(dynamicBytes := need))
              && (next.Some? && !a.phase.AtBegin? ==> status in {AssemblyOk, AssemblyComplete})
              && (status in {AssemblyOk, AssemblyComplete} ==>
                 ownedBytes == old(ownedBytes) + assemblies[id].dynamicBytes - a.dynamicBytes)
              && (status in {AssemblyOk, AssemblyComplete} ==>
                 next.Some? && received == old(received)[id := old(received)[id] + [packet]])
              && (status in {AssemblyLimit, AssemblyMemory, AssemblyProtocol} ==>
                 assemblies[id].phase.IsFailed? && ownedBytes == old(ownedBytes) - a.dynamicBytes)
      ensures status.AssemblyComplete? <==> assemblies[id].phase.IsComplete?
      ensures status in {AssemblyOk, AssemblyComplete, AssemblyLimit, AssemblyMemory, AssemblyProtocol}
      ensures status.AssemblyComplete? ==>
                var a := assemblies[id];
                Countable(a.reply) && WellFormed(a.reply, a.expected, a.queryId)
                  && received[id] == Printed(Script(a.reply, a.queryId))
    {
      hide Consume, Feed, WellFormed, Outstanding;
      var a := assemblies[id];
      var next := Advance(a, packet);
      if next.None? {
        Fail(id);
        return AssemblyProtocol;
      }
      var b := next.value;
      ConsumeKeeps(a, packet);
      BeginPhases(a, packet);
      if a.phase.AtBegin? {
        var need := Allocation(sizes, a.queryType, b.declaredCnames, b.declaredRecords);
        if sizes.payload + need > sizes.resultLimit || need > sizes.limit || ownedBytes > sizes.limit - need {
          Fail(id);
          return AssemblyLimit;
        }
        var enough: bool := *;
        if !enough {
          Fail(id);
          return AssemblyMemory;
        }
        b := b.(dynamicBytes := need);
      }
      Progress(id, packet, b);
      if b.phase.IsComplete? {
        AssemblySound(b.expected, b.queryType, b.queryId, received[id]);
        return AssemblyComplete;
      }
      return AssemblyOk;
    }

    /** Installs the next state of an assembly and charges what it newly owns. */
    method Progress(id: nat, packet: seq<byte>, b: Assembly)
      requires Valid() && id in assemblies && Consume(assemblies[id], packet).Some?
               && b == Consume(assemblies[id], packet).value.(dynamicBytes := b.dynamicBytes)
      requires b.dynamicBytes >= assemblies[id].dynamicBytes
               && ownedBytes + b.dynamicBytes - assemblies[id].dynamicBytes <= sizes.limit
      modifies this
      ensures Valid() && results == old(results) && assemblies == old(assemblies)[id := b]
      ensures id in old(received) && received == old(received)[id := old(received)[id] + [packet]]
      ensures ownedBytes == old(ownedBytes) + b.dynamicBytes - old(assemblies)[id].dynamicBytes
    {
      hide Consume, Feed, Outstanding, Tracks;
      var a := assemblies[id];
      BeginPhases(a, packet);
      TracksNext(a, received[id], packet, b.dynamicBytes);
      AssemblyCharged(sizes, assemblies, results, id, b);
      ownedBytes := ownedBytes + b.dynamicBytes - a.dynamicBytes;
      assemblies := assemblies[id := b];
      received := received[id := received[id] + [packet]];
    }

    /** Hands a completed reply out, together with the bytes it owns. */
    method ResultTake(id: nat) returns (taken: Option<nat>)
      requires Valid() && id in assemblies
      modifies this
      ensures Valid() && ownedBytes == old(ownedBytes)
      ensures taken.Some? <==> old(assemblies)[id].phase.IsComplete?
      ensures taken.None? ==> assemblies == old(assemblies) && results == old(results)
      ensures taken.Some? ==>
                && taken.value !in old(results)
                && results == old(results)[taken.value := Taken(old(assemblies)[id].reply,
                   old(assemblies)[id].dynamicBytes)]
                && id in assemblies && assemblies == old(assemblies)[id := assemblies[id]]
                   && assemblies[id].phase.IsTaken? && assemblies[id].dynamicBytes == 0
    {
      hide Outstanding, Tracks;
      var a := assemblies[id];
      if !a.phase.IsComplete? {
        return None;
      }
      var b := a.(phase := IsTaken, dynamicBytes := 0, reply := Blank(a.queryType));
      TracksIdle(b, received[id]);
      AssemblyCharged(sizes, assemblies, results, id, b);
      var r := nextId;
      ResultCharged(sizes, assemblies[id := b], results, r, Taken(a.reply, a.dynamicBytes));
      assemblies := assemblies[id := b];
      results := results[r := Taken(a.reply, a.dynamicBytes)];
      nextId := nextId + 1;
      taken := Some(r);
    }

    method AssemblyDestroy(id: nat)
      requires Valid() && id in assemblies
      modifies this
      ensures Valid() && assemblies == old(assemblies) - {id} && results == old(results)
      ensures ownedBytes == old(ownedBytes) - sizes.assembly - old(assemblies)[id].dynamicBytes
    {
      hide Outstanding, Tracks;
      AssemblyDischarged(sizes, assemblies, results, id);
      ownedBytes := Drop(ownedBytes, assemblies[id].dynamicBytes);
      ownedBytes := Drop(ownedBytes, sizes.assembly);
      assemblies := assemblies - {id};
    }

    method ResultDestroy(id: nat)
      requires Valid() && id in results
      modifies this
      ensures Valid() && results == old(results) - {id} && assemblies == old(assemblies)
      ensures ownedBytes == old(ownedBytes) - old(results)[id].bytes
    {
      hide Outstanding, Tracks;
      ResultDischarged(sizes, assemblies, results, id);
      ownedBytes := Drop(ownedBytes, results[id].bytes);
      results := results - {id};
    }
  }

  /** Parses a packet of the kind awaited and checks it against the assembly. */
  method Advance(a: Assembly, packet: seq<byte>) returns (next: Option<Assembly>)
    ensures next == Consume(a, packet)
  {
    hide Parse;
    if !Live(a.phase) {
      return None;
    }
    var parsed := Decode(packet, Awaited(a));
    if parsed.Failed? {
      return None;
    }
    next := Accept(a, parsed.value);
  }

  lemma FeedNothing(a: Assembly)
    ensures Feed(a, []) == Some(a)
  {
  }

  lemma BeginPhases(a: Assembly, packet: seq<byte>)
    requires Consume(a, packet).Some?
    ensures var b := Consume(a, packet).value;
            && (b.phase.AtCname? || b.phase.AtRecord? || b.phase.AtEnd? || b.phase.IsComplete?)
            && (a.phase.AtBegin? ==> !b.phase.IsComplete?)
  {
    hide Parse;
  }

  // ---------------------------------------------------------------- from the helper to the supervisor

  /** What a reply charges to the budget once it is complete, and whether there is room for it. */
  function Need(z: Sizes, r: Reply): (n: nat) {
    Allocation(z, r.queryType, |r.cnames|, |r.records|)
  }

  predicate Roomy(z: Sizes, owned: nat, r: Reply) {
    z.payload + Need(z, r) <= z.resultLimit && owned + Need(z, r) <= z.limit
  }

  lemma ReplyRequest(r: Reply, expected: Name, queryId: u64)
    requires Countable(r) && WellFormed(r, expected, queryId)
    ensures TypeValid(r.queryType) && queryId != 0
  {
    ScriptHas(r, queryId);
    assert Valid(BeginOf(r, queryId, |r.cnames|, |r.records|));
    hide Normalize, SimplePath, RecordFits, ChainTtl;
  }

  lemma WellFormedValid(r: Reply, expected: Name, queryId: u64)
    requires Countable(r) && WellFormed(r, expected, queryId)
    ensures forall p :: p in Script(r, queryId) ==> Valid(p)
  {
    hide Valid, Script, Announced, SimplePath, RecordFits, Closed;
  }

  /** The first packet announces how much the reply will hold. */
  lemma FirstPacket(r: Reply, expected: Name, queryId: u64)
    requires Countable(r) && WellFormed(r, expected, queryId)
    ensures var sent, start := Printed(Script(r, queryId)), Fresh(expected, r.queryType, queryId);
            && |sent| >= 2 && Feed(start, sent[..1]) == Consume(start, sent[0])
            && Feed(start, sent[..1]).Some? && Feed(start, sent[..1]).value.declaredCnames == |r.cnames|
            && Feed(start, sent[..1]).value.declaredRecords == |r.records|
  {
    hide WellFormed, Consume, Bytes;
    var sent, start := Printed(Script(r, queryId)), Fresh(expected, r.queryType, queryId);
    CnamesDelivered(r, expected, queryId, 0);
    assert sent[..1] == Prefix(r, queryId, 0, 0);
    assert sent[..1] == [] + [sent[0]];
    FeedNext(start, [], sent[0]);
  }

  /** Along accepted packets an assembly never stands at its beginning again, nor completes too early. */
  lemma PacketStep(start: Assembly, sent: seq<seq<byte>>, k: nat)
    requires Feed(start, sent).Some? && 0 < k < |sent|
    ensures Feed(start, sent[..k]).Some? && !Feed(start, sent[..k]).value.phase.AtBegin?
    ensures Consume(Feed(start, sent[..k]).value, sent[k]) == Feed(start, sent[..k + 1])
            && Feed(start, sent[..k + 1]).Some?
    ensures k + 1 < |sent| ==> Live(Feed(start, sent[..k + 1]).value.phase)
  {
    hide Consume, Feed;
    FeedPrefix(start, sent, k - 1);
    FeedPrefix(start, sent, k);
    FeedPrefix(start, sent, k + 1);
    assert sent[..k] == sent[..k - 1] + [sent[k - 1]] && sent[..k + 1] == sent[..k] + [sent[k]];
    FeedNext(start, sent[..k - 1], sent[k - 1]);
    FeedNext(start, sent[..k], sent[k]);
    BeginPhases(Feed(start, sent[..k - 1]).value, sent[k - 1]);
  }

  /** An assembly that has received the first packets of what is sent to it. */
  ghost predicate Stands(a: Assembly, start: Assembly, sent: seq<seq<byte>>, k: nat, bytes: nat) {
    k <= |sent| && Feed(start, sent[..k]) == Some(a.(dynamicBytes := start.dynamicBytes)) && a.dynamicBytes == bytes
  }

  lemma StandsNext(a: Assembly, start: Assembly, sent: seq<seq<byte>>, k: nat, bytes: nat)
    requires Stands(a, start, sent, k, bytes) && Feed(start, sent).Some? && 0 < k < |sent|
    ensures !a.phase.AtBegin? && Consume(a, sent[k]).Some?
            && Stands(Consume(a, sent[k]).value, start, sent, k + 1, bytes)
    ensures k + 1 < |sent| ==> !Consume(a, sent[k]).value.phase.IsComplete?
  {
    hide Consume, Feed;
    PacketStep(start, sent, k);
    var b := Feed(start, sent[..k]).value;
    assert b.(dynamicBytes := bytes) == a;
    ConsumeIgnoresBytes(b, bytes, sent[k]);
    ConsumeKeeps(b, sent[k]);
    ConsumeKeeps(a, sent[k]);
  }

  lemma StandsLive(a: Assembly, start: Assembly, sent: seq<seq<byte>>, k: nat, bytes: nat)
    requires Stands(a, start, sent, k, bytes) && Feed(start, sent).Some? && k < |sent|
    ensures !a.phase.IsComplete?
  {
    hide Feed;
    FeedPrefix(start, sent, k);
  }

  lemma StandsAtEnd(a: Assembly, start: Assembly, sent: seq<seq<byte>>, bytes: nat)
    requires Stands(a, start, sent, |sent|, bytes)
    ensures Feed(start, sent) == Some(a.(dynamicBytes := start.dynamicBytes)) && a.dynamicBytes == bytes
  {
    assert sent[..|sent|] == sent;
  }

  lemma FirstStands(r: Reply, expected: Name, queryId: u64, z: Sizes)
    requires Countable(r) && WellFormed(r, expected, queryId)
    ensures var sent, start := Printed(Script(r, queryId)), Fresh(expected, r.queryType, queryId);
            && |sent| >= 2 && Consume(start, sent[0]).Some?
            && var a := Consume(start, sent[0]).value;
            && Allocation(z, start.queryType, a.declaredCnames, a.declaredRecords) == Need(z, r)
            && Stands(a.(dynamicBytes := Need(z, r)), start, sent, 1, Need(z, r))
  {
    hide WellFormed, Consume, Script, Feed;
    var sent, start := Printed(Script(r, queryId)), Fresh(expected, r.queryType, queryId);
    FirstPacket(r, expected, queryId);
    ConsumeKeeps(start, sent[0]);
  }

  /** The packets after the first are accepted one by one. */
  method DeliverRest(budget: AssemblyBudget, id: nat, sent: seq<seq<byte>>, ghost start: Assembly, ghost bytes: nat)
      returns (status: AssemblyStatus)
    requires budget.Valid() && id in budget.assemblies && |sent| >= 2
             && Stands(budget.assemblies[id], start, sent, 1, bytes)
    requires Feed(start, sent).Some? && Feed(start, sent).value.phase.IsComplete?
    modifies budget
    ensures budget.Valid() && budget.results == old(budget.results) && budget.ownedBytes == old(budget.ownedBytes)
    ensures id in budget.assemblies && budget.assemblies == old(budget.assemblies)[id := budget.assemblies[id]]
    ensures status.AssemblyComplete? && budget.assemblies[id].phase.IsComplete?
    ensures budget.assemblies[id].reply == Feed(start, sent).value.reply && budget.assemblies[id].dynamicBytes == bytes
  {
    hide Consume, Feed, Outstanding, Stands, WellFormed, Script;
    var k := 1;
    status := AssemblyOk;
    StandsLive(budget.assemblies[id], start, sent, 1, bytes);
    while k < |sent|
      invariant 1 <= k <= |sent| && budget.Valid() && budget.results == old(budget.results)
                && budget.ownedBytes == old(budget.ownedBytes)
      invariant id in budget.assemblies && budget.assemblies == old(budget.assemblies)[id := budget.assemblies[id]]
      invariant Stands(budget.assemblies[id], start, sent, k, bytes)
      invariant status.AssemblyComplete? <==> budget.assemblies[id].phase.IsComplete?
    {
      StandsNext(budget.assemblies[id], start, sent, k, bytes);
      ConsumeKeeps(budget.assemblies[id], sent[k]);
      status := budget.PacketConsume(id, sent[k]);
      k := k + 1;
    }
    StandsAtEnd(budget.assemblies[id], start, sent, bytes);
  }

  /** The first packet is accepted if there is room for what it announces. */
  method DeliverFirst(budget: AssemblyBudget, id: nat, sent: seq<seq<byte>>, ghost r: Reply, ghost expected: Name,
      ghost queryId: u64) returns (status: AssemblyStatus)
    requires budget.Valid() && id in budget.assemblies && budget.assemblies[id] == Fresh(expected, r.queryType, queryId)
    requires Countable(r) && WellFormed(r, expected, queryId) && sent == Printed(Script(r, queryId))
    modifies budget
    ensures budget.Valid() && budget.results == old(budget.results)
    ensures id in budget.assemblies && budget.assemblies == old(budget.assemblies)[id := budget.assemblies[id]]
    ensures status in {AssemblyOk, AssemblyLimit, AssemblyMemory}
    ensures status.AssemblyOk? ==>
              && |sent| >= 2 && Stands(budget.assemblies[id], Fresh(expected, r.queryType, queryId), sent, 1,
                 Need(budget.sizes, r))
              && budget.ownedBytes == old(budget.ownedBytes) + Need(budget.sizes, r)
    ensures !status.AssemblyOk? ==>
            budget.ownedBytes == old(budget.ownedBytes) && budget.assemblies[id].dynamicBytes == 0
    ensures status.AssemblyOk? ==> Roomy(budget.sizes, old(budget.ownedBytes), r)
    ensures status.AssemblyLimit? ==> !Roomy(budget.sizes, old(budget.ownedBytes), r)
  {
    hide WellFormed, Consume, Script, Feed, Outstanding, Stands, Need, Allocation, Printed, Tracks;
    FirstStands(r, expected, queryId, budget.sizes);
    BeginPhases(budget.assemblies[id], sent[0]);
    status := budget.PacketConsume(id, sent[0]);
  }

  /** A fresh assembly receives all packets of a reply, and hands it out. */
  method Gather(budget: AssemblyBudget, id: nat, sent: seq<seq<byte>>, ghost r: Reply, ghost expected: Name,
      ghost queryId: u64)
    returns (status: AssemblyStatus, result: Option<nat>)
    requires budget.Valid() && id in budget.assemblies && budget.assemblies[id] == Fresh(expected, r.queryType, queryId)
    requires Countable(r) && WellFormed(r, expected, queryId) && sent == Printed(Script(r, queryId))
    modifies budget
    ensures budget.Valid() && id in budget.assemblies
            && budget.assemblies == old(budget.assemblies)[id := budget.assemblies[id]]
    ensures budget.assemblies[id].dynamicBytes == 0
            && status in {AssemblyStatus.AssemblyComplete, AssemblyLimit, AssemblyMemory}
    ensures status.AssemblyComplete? ==> Roomy(budget.sizes, old(budget.ownedBytes), r)
    ensures status.AssemblyLimit? ==> !Roomy(budget.sizes, old(budget.ownedBytes), r)
    ensures result.Some? <==> status.AssemblyComplete?
    ensures result.Some? ==>
              && result.value !in old(budget.results)
                 && budget.results == old(budget.results)[result.value := Taken(r, Need(budget.sizes, r))]
              && budget.ownedBytes == old(budget.ownedBytes) + Need(budget.sizes, r)
    ensures result.None? ==> budget.results == old(budget.results) && budget.ownedBytes == old(budget.ownedBytes)
  {
    hide WellFormed, Consume, Script, Feed, Outstanding, Stands, Need, Printed, Tracks;
    IpcAssembly.AssemblyComplete(r, expected, queryId);
    result := None;
    status := DeliverFirst(budget, id, sent, r, expected, queryId);
    if status.AssemblyOk? {
      status := DeliverRest(budget, id, sent, Fresh(expected, r.queryType, queryId), Need(budget.sizes, r));
      result := budget.ResultTake(id);
    }
  }

  /** A helper's reply, sent packet by packet and put together again: the very reply is handed out and stays charged,
      exactly if there is room for it and memory does not run out. */
  method Deliver(budget: AssemblyBudget, r: Reply, name: Name, queryId: u64)
      returns (status: AssemblyStatus, result: Option<nat>)
    requires budget.Valid() && Countable(r) && Normalize(name).Some? && WellFormed(r, Normalize(name).value, queryId)
    modifies budget
    ensures budget.Valid() && budget.assemblies == old(budget.assemblies)
    ensures status in {AssemblyStatus.AssemblyComplete, AssemblyLimit, AssemblyMemory}
    ensures status.AssemblyComplete? ==> Roomy(budget.sizes, old(budget.ownedBytes) + budget.sizes.assembly, r)
    ensures status.AssemblyLimit? ==> !Roomy(budget.sizes, old(budget.ownedBytes) + budget.sizes.assembly, r)
    ensures result.Some? <==> status.AssemblyComplete?
    ensures result.Some? ==>
              && result.value !in old(budget.results)
                 && budget.results == old(budget.results)[result.value := Taken(r, Need(budget.sizes, r))]
              && budget.ownedBytes == old(budget.ownedBytes) + Need(budget.sizes, r)
    ensures result.None? ==> budget.results == old(budget.results) && budget.ownedBytes == old(budget.ownedBytes)
  {
    hide WellFormed, Consume, Script, Feed, Outstanding, Normalize, Need, Printed, Tracks;
    ghost var expected := Normalize(name).value;
    ReplyRequest(r, expected, queryId);
    WellFormedValid(r, expected, queryId);
    var _, sent := Emit(r, queryId);
    result := None;
    var id;
    status, id := budget.Create(name, r.queryType, queryId);
    if !status.AssemblyOk? {
      return;
    }
    status, result := Gather(budget, id, sent, r, expected, queryId);
    budget.AssemblyDestroy(id);
    assert budget.assemblies == old(budget.assemblies);
  }
}
