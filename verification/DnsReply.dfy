/** From a finished lookup in a helper to the supervisor: whatever the servers answered, what the helper sends is a
    well-formed reply, and the supervisor gets it back as it was.
 */
module DnsReply {
  import opened Basics
  import opened Names
  import opened IpcCodec
  import opened DnsChain
  import opened DnsNegative
  import opened DnsLookup
  import A = IpcAssembly
  import B = IpcBudget
  import Cache

  datatype Data = AddressData(address: seq<byte>) | SrvData(priority: u16, weight: u16, port: u16, target: Name)

  const STATUS_BAD_ARGUMENT: u16 := 2
  const STATUS_LIMIT: u16 := 3
  const STATUS_MALFORMED: u16 := 4
  const STATUS_MEMORY: u16 := 5
  const STATUS_TRUNCATED: u16 := 10

  function StatusCode(status: LookupStatus): (r: u16) {
    match status
    case Found => A.STATUS_OK
    case BadLookup => STATUS_BAD_ARGUMENT
    case LookupLimit => STATUS_LIMIT
    case LookupMalformed => STATUS_MALFORMED
    case LookupMemory => STATUS_MEMORY
    case Empty => A.STATUS_NODATA
    case NotFound => A.STATUS_NOT_FOUND
    case Permanent => A.STATUS_PERMANENT
    case Temporary => A.STATUS_TEMPORARY
    case Truncated => STATUS_TRUNCATED
  }

  function RecordOf(a: Answered<Data>): (r: A.Record) {
    match a.data
    case AddressData(address) => A.AddressOf(AddressRecord(address, a.recordTtl, a.effectiveTtl))
    case SrvData(priority, weight, port, target) =>
      A.SrvOf(SrvRecord(priority, weight, port, target, a.recordTtl, a.effectiveTtl))
  }

  function RecordsOf(answers: seq<Answered<Data>>): (r: seq<A.Record>)
    ensures |r| == |answers| && forall i :: 0 <= i < |r| ==> r[i] == RecordOf(answers[i])
  {
    seq(|answers|, i requires 0 <= i < |answers| => RecordOf(answers[i]))
  }

  /** What a helper has to send. */
  function ReplyOf(queryType: u16, status: LookupStatus, r: Result<Data>, seconds: u64,
      nanoseconds: u32): (reply: A.Reply)
    requires r.rcode <= RCODE_LIMIT
  {
    A.Reply(queryType, StatusCode(status), seconds, nanoseconds, r.question, r.canonical, r.rcode, r.negative, r.cnames,
      RecordsOf(r.answers))
  }

  /** Records of the type asked for, as they are after reading. */
  predicate DataFits(queryType: u16, d: Data) {
    match d
    case AddressData(address) => queryType != TYPE_SRV && |address| == if queryType == TYPE_A then 4 else 16
    case SrvData(_, _, _, target) => queryType == TYPE_SRV && Plain(target)
  }

  /** A lookup's outcome, as it is known to be. */
  ghost predicate Outcome(hostname: Name, queryType: u16, status: LookupStatus, r: Result<Data>) {
    && Concluded(hostname, status, r) && Stuck(hostname, status, r) && (!Keeps(status) ==> r == Blank())
    && PlainResult(r, d => DataFits(queryType, d))
  }

  // ---------------------------------------------------------------- shapes of outcomes

  lemma SameName(a: Name, b: Name)
    requires Plain(a) && Plain(b) && Canon(a) == Canon(b)
    ensures a == b
  {
    hide Canon;
    NormalizedIsCanonical(a);
    NormalizedIsCanonical(b);
  }

  lemma PlainName(name: Name)
    requires Plain(name)
    ensures name != [] && Canon(name) == name && Normalized(name) && NameValid(name, false)
  {
    hide Canon;
    NormalizedIsCanonical(name);
  }

  /** A path of names in normal form ends at its canonical name. */
  lemma PathEnd(r: Result<Data>)
    requires Simple(r) && r.question != [] && Plain(r.question) && PlainLinks(r.cnames)
             && (r.canonical != [] ==> Plain(r.canonical))
    ensures |r.cnames| <= CNAME_LIMIT && Plain(r.canonical) && A.SimplePath(r.question, r.cnames)
    ensures r.canonical == if r.cnames != [] then r.cnames[|r.cnames| - 1].target else r.question
  {
    hide Canon, Plain, A.SimplePath;
    PlainName(r.question);
    forall c | c in r.cnames
      ensures Canon(c.owner) == c.owner && Canon(c.target) == c.target && c.target != []
    {
      PlainName(c.owner);
      PlainName(c.target);
    }
    FixedSimple(r.question, r.cnames, r.canonical);
    var last := if r.cnames != [] then r.cnames[|r.cnames| - 1].target else r.question;
    assert r.cnames != [] ==> r.cnames[|r.cnames| - 1] in r.cnames;
    assert Plain(last) && last != [] && Canon(r.canonical) == Canon(last);
    CanonEmpty(r.canonical, last);
    SameName(r.canonical, last);
  }

  /** What every outcome has in common. */
  ghost predicate Shaped(hostname: Name, r: Result<Data>) {
    && |r.cnames| <= CNAME_LIMIT && A.SimplePath(r.question, r.cnames) && (r.question != [] ==> r.question == hostname)
    && (r.cnames != [] ==> r.canonical == r.cnames[|r.cnames| - 1].target && Plain(r.canonical))
  }

  lemma TrivialPath(question: Name)
    ensures A.SimplePath(question, [])
  {
  }

  lemma OutcomeShaped(hostname: Name, queryType: u16, status: LookupStatus, r: Result<Data>)
    requires Plain(hostname) && Outcome(hostname, queryType, status, r)
    ensures Shaped(hostname, r)
    ensures status.Found? || status.Empty? || status.NotFound? ==>
            r.question != [] && Plain(r.canonical) && (r.cnames == [] ==> r.canonical == r.question)
  {
    hide Canon, Canonical, Plain, A.SimplePath, Vouched, A.ChainTtl;
    TrivialPath(r.question);
    if r.question != [] {
      SameName(r.question, hostname);
      if r.cnames != [] || status.Found? || status.Empty? || status.NotFound? {
        PathEnd(r);
      }
    }
  }

  lemma OutcomeAnnounced(hostname: Name, queryType: u16, status: LookupStatus, r: Result<Data>, seconds: u64,
      nanoseconds: u32)
    requires Plain(hostname) && Outcome(hostname, queryType, status, r) && Shaped(hostname, r)
    requires status.Found? || status.Empty? || status.NotFound? ==> r.question != [] && Plain(r.canonical)
    ensures A.Announced(ReplyOf(queryType, status, r, seconds, nanoseconds), hostname, |r.cnames|, |r.answers|)
  {
    hide Canon, Canonical, A.SimplePath, Vouched, Normalize, Storable, A.ChainTtl;
  }

  lemma OutcomeClosed(hostname: Name, queryType: u16, status: LookupStatus, r: Result<Data>, seconds: u64,
      nanoseconds: u32)
    requires Plain(hostname) && Outcome(hostname, queryType, status, r) && Shaped(hostname, r)
    requires status.Found? || status.Empty? || status.NotFound? ==> r.cnames == [] ==> r.canonical == r.question
    ensures A.Closed(ReplyOf(queryType, status, r, seconds, nanoseconds), A.ChainTtl(r.cnames))
  {
    hide Canon, Canonical, A.SimplePath, Normalize, Storable, Encloses, A.ChainTtl;
  }

  lemma OutcomeRecords(hostname: Name, queryType: u16, status: LookupStatus, r: Result<Data>, i: nat)
    requires Outcome(hostname, queryType, status, r) && i < |r.answers|
    ensures A.RecordFits(queryType, A.ChainTtl(r.cnames), RecordOf(r.answers[i]))
    ensures match RecordOf(r.answers[i])
            case AddressOf(a) => a.effectiveTtl <= a.recordTtl && (|a.address| == 4 || |a.address| == 16)
            case SrvOf(s) => s.effectiveTtl <= s.recordTtl && NameValid(s.target, false)
  {
    hide Canon, Canonical, Normalize, Vouched, A.ChainTtl;
    assert r.answers[i] in r.answers;
  }

  lemma OutcomeCode(hostname: Name, queryType: u16, status: LookupStatus, r: Result<Data>)
    requires Outcome(hostname, queryType, status, r)
    ensures r.rcode <= RCODE_LIMIT
  {
  }

  lemma BeginValid(hostname: Name, queryType: u16, status: LookupStatus, r: Result<Data>, seconds: u64,
      nanoseconds: u32, queryId: u64)
    requires Plain(hostname) && Outcome(hostname, queryType, status, r) && Shaped(hostname, r)
    requires TypeValid(queryType) && queryId != 0 && seconds < SECOND_LIMIT && nanoseconds < NANOSECOND_LIMIT
    ensures Valid(A.BeginOf(ReplyOf(queryType, status, r, seconds, nanoseconds), queryId, |r.cnames|, |r.answers|))
  {
    hide Canon, Canonical, A.SimplePath, Normalize, Encloses, A.ChainTtl, Storable;
    StorableNothing();
  }

  lemma StorableNothing()
    ensures Storable([])
  {
  }

  lemma CnamesValid(r: Result<Data>, queryId: u64)
    requires |r.cnames| <= CNAME_LIMIT && queryId != 0
    requires forall c :: c in r.cnames ==> Plain(c.owner) && Plain(c.target)
    ensures forall p :: p in A.CnamePackets(queryId, r.cnames) ==> Valid(p)
  {
    hide Canon, Canonical, A.SimplePath, Normalize, A.ChainTtl, Plain;
    forall p | p in A.CnamePackets(queryId, r.cnames)
      ensures Valid(p)
    {
      var i :| 0 <= i < |r.cnames| && p == Cname(queryId, i, r.cnames[i]);
      assert r.cnames[i] in r.cnames;
      PlainName(r.cnames[i].owner);
      PlainName(r.cnames[i].target);
    }
  }

  lemma PacketsValid(hostname: Name, queryType: u16, status: LookupStatus, r: Result<Data>, seconds: u64,
      nanoseconds: u32, queryId: u64)
    requires Plain(hostname) && Outcome(hostname, queryType, status, r) && Shaped(hostname, r)
    requires TypeValid(queryType) && queryId != 0 && seconds < SECOND_LIMIT && nanoseconds < NANOSECOND_LIMIT
    ensures var reply := ReplyOf(queryType, status, r, seconds, nanoseconds);
            A.Countable(reply) && forall p :: p in A.Script(reply, queryId) ==> Valid(p)
  {
    hide Canon, Canonical, A.SimplePath, Normalize, A.ChainTtl, Plain, Concluded, Stuck;
    var reply := ReplyOf(queryType, status, r, seconds, nanoseconds);
    BeginValid(hostname, queryType, status, r, seconds, nanoseconds, queryId);
    CnamesValid(r, queryId);
    forall p | p in A.RecordPackets(queryId, reply.records)
      ensures Valid(p)
    {
      var i :| 0 <= i < |reply.records| && p == A.RecordPacket(queryId, i, reply.records[i]);
      OutcomeRecords(hostname, queryType, status, r, i);
    }
    assert Valid(End(queryId, |r.cnames|, |r.answers|));
  }

  /** Whatever the servers answered and however the lookup ended, what the helper sends is well formed. */
  lemma LookupWellFormed(hostname: Name, queryType: u16, status: LookupStatus, r: Result<Data>, seconds: u64,
      nanoseconds: u32, queryId: u64)
    requires Plain(hostname) && Outcome(hostname, queryType, status, r)
    requires TypeValid(queryType) && queryId != 0 && seconds < SECOND_LIMIT && nanoseconds < NANOSECOND_LIMIT
    ensures var reply := ReplyOf(queryType, status, r, seconds, nanoseconds);
            A.Countable(reply) && A.WellFormed(reply, hostname, queryId)
  {
    hide Canon, Canonical, A.SimplePath, Normalize, Storable, A.ChainTtl, A.Announced, A.Closed, A.RecordFits,
         Concluded, Stuck, A.Script, Valid;
    var reply := ReplyOf(queryType, status, r, seconds, nanoseconds);
    OutcomeShaped(hostname, queryType, status, r);
    OutcomeAnnounced(hostname, queryType, status, r, seconds, nanoseconds);
    OutcomeClosed(hostname, queryType, status, r, seconds, nanoseconds);
    PacketsValid(hostname, queryType, status, r, seconds, nanoseconds, queryId);
    forall x | x in reply.records
      ensures A.RecordFits(queryType, A.ChainTtl(r.cnames), x)
    {
      var i :| 0 <= i < |reply.records| && reply.records[i] == x;
      OutcomeRecords(hostname, queryType, status, r, i);
    }
  }

  /** The cache keeps exactly the outcomes that found out: what was found, or that there is nothing. */
  lemma OutcomePublishes(hostname: Name, queryType: u16, status: LookupStatus, r: Result<Data>, seconds: u64,
      nanoseconds: u32, queryId: u64, refs: nat, payload: Option<Cache.Payload>)
    requires Plain(hostname) && Outcome(hostname, queryType, status, r)
    requires TypeValid(queryType) && queryId != 0 && seconds < SECOND_LIMIT && nanoseconds < NANOSECOND_LIMIT
    ensures var v := Cache.Validated(Cache.CacheEntry(hostname, queryType, refs, payload),
            ReplyOf(queryType, status, r, seconds, nanoseconds));
            && (v.Some? <==> status.Found? || status.Empty? || status.NotFound?)
            && (v.Some? && !status.Found? ==>
                  v.value == (if status.Empty? then Cache.Nodata
                              else Cache.Nxdomain, if r.negative.valid then r.negative.effectiveTtl else 0))
  {
    hide A.WellFormed, Cache.Validated, Plain, PlainResult, Canon, Canonical, Vouched;
    OutcomeCode(hostname, queryType, status, r);
    LookupWellFormed(hostname, queryType, status, r, seconds, nanoseconds, queryId);
    Cache.CompletedRepliesPublish(ReplyOf(queryType, status, r, seconds, nanoseconds), hostname, queryId, refs,
      payload);
  }

  // ---------------------------------------------------------------- one question, all the way

  lemma PlainHost(hostname: Name)
    requires Plain(hostname)
    ensures Normalize(hostname) == Some(hostname)
  {
  }

  /** A helper looks a name up and sends what it found; the supervisor puts it together again. If there is room, it
      holds the very outcome of the lookup. */
  method Resolve(budget: B.AssemblyBudget, hostname: Name, queryType: u16, queryId: u64,
      replies: (nat, Name) -> Reply<Data>, memory: nat -> bool, seconds: u64, nanoseconds: u32)
    returns (status: B.AssemblyStatus, result: Option<nat>, ending: LookupStatus, r: Result<Data>)
    requires budget.Valid() && Plain(hostname) && TypeValid(queryType) && queryId != 0 && seconds < SECOND_LIMIT
             && nanoseconds < NANOSECOND_LIMIT
    requires PlainServers(replies, d => DataFits(queryType, d))
    modifies budget
    ensures budget.Valid() && Outcome(hostname, queryType, ending, r)
    ensures (forall k :: memory(k)) ==> (ending, r) == Resolved(hostname, replies)
    ensures status in {B.AssemblyComplete, B.AssemblyLimit, B.AssemblyMemory}
            && (result.Some? <==> status.AssemblyComplete?)
    ensures var reply := ReplyOf(queryType, ending, r, seconds, nanoseconds);
            && (status.AssemblyComplete? ==>
               B.Roomy(budget.sizes, old(budget.ownedBytes) + budget.sizes.assembly, reply))
            && (status.AssemblyLimit? ==> !B.Roomy(budget.sizes, old(budget.ownedBytes) + budget.sizes.assembly, reply))
            && (result.Some? ==>
               budget.results == old(budget.results)[result.value := B.Taken(reply, B.Need(budget.sizes, reply))])
            && (result.None? ==> budget.results == old(budget.results))
  {
    hide Concluded, Stuck, Plain, PlainResult, A.WellFormed, A.Countable, PlainServers, Resolved, B.Roomy, B.Need;
    var queries;
    ending, r, queries := Lookup(hostname, replies, memory, d => DataFits(queryType, d));
    PlainHost(hostname);
    OutcomeCode(hostname, queryType, ending, r);
    LookupWellFormed(hostname, queryType, ending, r, seconds, nanoseconds, queryId);
    status, result := B.Deliver(budget, ReplyOf(queryType, ending, r, seconds, nanoseconds), hostname, queryId);
  }
}
