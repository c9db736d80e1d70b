/** The resolver's cache: a reference-counted hash table of query names and types whose answers expire
    lazily, when they are looked at. It refines a plain map from queries to their last stored answer.
 */
module Cache {
  import opened Basics
  import opened Names
  import opened IpcCodec
  import opened IpcAssembly

  const NANOSECONDS: nat := 1_000_000_000
  const TIME_LIMIT: nat := 0x8000_0000_0000_0000 * 1_000_000_000
  const REFERENCE_LIMIT: nat := UINT64_MAX

  datatype ViewStatus = Empty | Positive | Nxdomain | Nodata
  datatype AcquireStatus = AcquireOk | AcquireBadArgument | AcquireLimit | AcquireMemory
  datatype PublishStatus = Stored | Transient | PublishInvalid | PublishLimit | PublishMemory | PublishTime

  datatype Answer = Answer(reply: Reply, status: ViewStatus, completedAt: nat, expiresAt: nat)
  datatype Payload = Payload(answer: Answer, bytes: nat)
  datatype CacheEntry = CacheEntry(name: Name, queryType: u16, refs: nat, payload: Option<Payload>)

  /** Structure sizes and limits. `fixed` is the table itself with its buckets. */
  datatype Capacity = Capacity(entries: nat, owned: nat, result: nat, fixed: nat, entry: nat, payload: nat, cname: nat,
      address: nat, srv: nat)

  // ---------------------------------------------------------------- hashing

  function HashByte(h: bv64, b: byte): (r: bv64) {
    (h ^ (b as bv64)) * 1099511628211
  }

  function HashBytes(h: bv64, bytes: seq<byte>): (r: bv64) {
    if bytes == [] then h else HashByte(HashBytes(h, bytes[..|bytes| - 1]), bytes[|bytes| - 1])
  }

  function Hash(name: Name, queryType: u16): (r: nat) {
    HashBytes(14695981039346656037, name + [queryType / 256, queryType % 256]) as nat
  }

  function Slot(x: CacheEntry, buckets: nat): (r: nat)
    requires buckets > 0
    ensures r < buckets
  {
    Hash(x.name, x.queryType) % buckets
  }

  // ---------------------------------------------------------------- validating a result

  function RecordTtl(record: Record): (r: u32) {
    match record case AddressOf(a) => a.effectiveTtl case SrvOf(s) => s.effectiveTtl
  }

  /** The answer lives as long as its shortest record. */
  function LeastTtl(records: seq<Record>): (r: u32)
    ensures forall x :: x in records ==> r <= RecordTtl(x)
    ensures records != [] ==> exists x :: x in records && r == RecordTtl(x)
  {
    if records == [] then TTL_MAX
    else
      var rest := LeastTtl(records[..|records| - 1]);
      var last := records[|records| - 1];
      assert records == records[..|records| - 1] + [last];
      if RecordTtl(last) < rest then
        assert last in records;
        RecordTtl(last)
      else
        assert |records| > 1 || rest == RecordTtl(last);
        assert |records| == 1 ==> last in records;
        rest
  }

  predicate NameOk(name: Name) {
    Normalize(name).Some?
  }

  predicate RecordOk(queryType: u16, record: Record) {
    match record
    case AddressOf(a) => queryType != TYPE_SRV && |a.address| == (if queryType == TYPE_A then 4 else 16)
      && a.effectiveTtl <= a.recordTtl
    case SrvOf(s) => queryType == TYPE_SRV && NameOk(s.target) && s.effectiveTtl <= s.recordTtl
  }

  predicate NegativeOk(n: Negative) {
    if n.valid then NameOk(n.owner) && n.effectiveTtl <= n.minimum && n.effectiveTtl <= n.recordTtl
    else n.effectiveTtl == 0 && n.minimum == 0 && n.owner == [] && n.recordTtl == 0
  }

  predicate ShapeOk(x: CacheEntry, r: Reply) {
    && Normalize(r.question) == Some(x.name) && NameOk(r.canonical)
    && |r.cnames| <= CNAME_LIMIT && (forall c :: c in r.cnames ==> NameOk(c.owner) && NameOk(c.target))
    && NegativeOk(r.negative)
  }

  /** The view and time to live of a publishable result. */
  function Validated(x: CacheEntry, r: Reply): (v: Option<(ViewStatus, u32)>) {
    if !TypeValid(x.queryType) || !ShapeOk(x, r) then None
    else if r.status == STATUS_OK then
      if r.rcode != RCODE_NOERROR || r.records == []
        || |r.records| > (if x.queryType == TYPE_SRV then SRV_LIMIT else ADDRESS_LIMIT) || r.negative.valid
        || !(forall y :: y in r.records ==> RecordOk(x.queryType, y)) then None
      else Some((Positive, LeastTtl(r.records)))
    else if r.records != [] then None
    else if r.status == STATUS_NODATA && r.rcode == RCODE_NOERROR
           then Some((Nodata, if r.negative.valid then r.negative.effectiveTtl else 0))
    else if r.status == STATUS_NOT_FOUND && r.rcode == RCODE_NXDOMAIN
           then Some((Nxdomain, if r.negative.valid then r.negative.effectiveTtl else 0))
    else None
  }

  /** One pass over the records both checks them and finds the least time to live. */
  method RecordsScan(queryType: u16, records: seq<Record>) returns (ttl: Option<u32>)
    ensures ttl.Some? <==> forall y :: y in records ==> RecordOk(queryType, y)
    ensures ttl.Some? ==> ttl.value == LeastTtl(records)
  {
    hide RecordOk;
    var least: u32 := TTL_MAX;
    var k := 0;
    while k < |records|
      invariant 0 <= k <= |records| && least == LeastTtl(records[..k])
      invariant forall y :: y in records[..k] ==> RecordOk(queryType, y)
    {
      if !RecordOk(queryType, records[k]) {
        assert records[k] in records;
        return None;
      }
      assert records[..k + 1] == records[..k] + [records[k]];
      assert records[..k + 1][..k] == records[..k];
      if RecordTtl(records[k]) < least {
        least := RecordTtl(records[k]);
      }
      k := k + 1;
    }
    assert records[..k] == records;
    ttl := Some(least);
  }

  lemma FittingRecord(queryType: u16, chainTtl: u32, x: Record)
    requires RecordFits(queryType, chainTtl, x)
    ensures RecordOk(queryType, x)
  {
    hide Normalize;
  }

  /** The replies worth keeping: answers, and proofs that there is none. Replies to no question and a missing name that
      the server did not vouch for are not. */
  predicate Publishable(r: Reply) {
    || r.status == STATUS_OK
    || (r.question != [] && (r.status == STATUS_NODATA || (r.status == STATUS_NOT_FOUND && r.rcode == RCODE_NXDOMAIN)))
  }

  lemma PublishableShape(r: Reply, expected: Name, queryId: u64)
    requires Countable(r) && WellFormed(r, expected, queryId) && Publishable(r)
    ensures TypeValid(r.queryType) && NegativeOk(r.negative) && Normalize(r.question) == Some(expected)
            && NameOk(r.canonical)
    ensures if r.status == STATUS_OK then r.rcode == RCODE_NOERROR && r.records != [] && !r.negative.valid
            else r.records == [] && (r.status == STATUS_NODATA ==> r.rcode == RCODE_NOERROR)
  {
    ScriptHas(r, queryId);
    var begin := BeginOf(r, queryId, |r.cnames|, |r.records|);
    assert Valid(begin);
    hide Normalize, SimplePath, RecordFits, ChainTtl;
    assert r.cnames != [] ==> r.cnames[|r.cnames| - 1] in r.cnames;
  }

  /** Which of the replies an assembly completes can be published, and as what. Everything else is refused. */
  lemma CompletedRepliesPublish(r: Reply, expected: Name, queryId: u64, refs: nat, payload: Option<Payload>)
    requires Countable(r) && WellFormed(r, expected, queryId)
    ensures var v := Validated(CacheEntry(expected, r.queryType, refs, payload), r);
            && (v.Some? <==> Publishable(r))
            && (v.Some? && r.status == STATUS_OK ==> v.value == (Positive, LeastTtl(r.records)))
            && (v.Some? && r.status != STATUS_OK ==>
                  v.value == (if r.status == STATUS_NODATA then Nodata
                              else Nxdomain, if r.negative.valid then r.negative.effectiveTtl else 0))
  {
    hide Valid, SimplePath, Normalize, Script, Announced, Closed, RecordOk, RecordFits, ChainTtl, LeastTtl, NegativeOk;
    if Publishable(r) {
      PublishableShape(r, expected, queryId);
      forall y | y in r.records
        ensures RecordOk(r.queryType, y)
      {
        FittingRecord(r.queryType, ChainTtl(r.cnames), y);
      }
    } else {
      UnpublishableShape(r, expected, queryId, CacheEntry(expected, r.queryType, refs, payload));
    }
  }

  lemma UnpublishableShape(r: Reply, expected: Name, queryId: u64, x: CacheEntry)
    requires Countable(r) && WellFormed(r, expected, queryId) && !Publishable(r) && x.queryType == r.queryType
    ensures Validated(x, r).None?
  {
    hide Valid, SimplePath, Script, RecordFits, Closed, ChainTtl, NegativeOk;
  }

  const NO_QUESTION: Reply := Reply(TYPE_A, STATUS_NODATA, 0, 0, [], [], 0, NO_NEGATIVE, [], [])
  const UNVOUCHED: Reply := Reply(TYPE_A, STATUS_NOT_FOUND, 0, 0, [0x61], [0x61], 0, NO_NEGATIVE, [], [])

  /** A denial to no question, which an assembly completes and the cache refuses. */
  lemma NoQuestionRefused(queryId: u64)
    requires queryId != 0
    ensures Countable(NO_QUESTION) && WellFormed(NO_QUESTION, [0x61], queryId)
    ensures Validated(CacheEntry([0x61], TYPE_A, 1, None), NO_QUESTION).None?
  {
    var r := NO_QUESTION;
    assert Script(r, queryId) == [BeginOf(r, queryId, 0, 0), End(queryId, 0, 0)];
  }

  /** A denial of a name with the code of a success: the same happens to it. */
  lemma UnvouchedRefused(queryId: u64)
    requires queryId != 0
    ensures Countable(UNVOUCHED) && WellFormed(UNVOUCHED, [0x61], queryId)
    ensures Validated(CacheEntry([0x61], TYPE_A, 1, None), UNVOUCHED).None?
  {
    var r := UNVOUCHED;
    assert Script(r, queryId) == [BeginOf(r, queryId, 0, 0), End(queryId, 0, 0)];
    assert LowerAll([0x61]) == [0x61];
  }

  // ---------------------------------------------------------------- accounting

  /** What an entry's answer owns. */
  function PayloadBytes(x: CacheEntry): (r: nat) {
    if x.payload.None? then 0 else x.payload.value.bytes
  }

  function EntryBytes(c: Capacity, x: CacheEntry): (r: nat) {
    c.entry + PayloadBytes(x)
  }

  function Charges(c: Capacity, entries: map<nat, CacheEntry>): (r: map<nat, nat>) {
    map id | id in entries :: EntryBytes(c, entries[id])
  }

  ghost function Owned(c: Capacity, entries: map<nat, CacheEntry>): (r: nat) {
    c.fixed + Weigh(Charges(c, entries))
  }

  lemma OwnedWith(c: Capacity, entries: map<nat, CacheEntry>, id: nat, x: CacheEntry)
    ensures Owned(c, entries[id := x]) == Owned(c, entries) - (if id in entries then EntryBytes(c, entries[id]) else 0)
            + EntryBytes(c, x)
    ensures id in entries ==> EntryBytes(c, entries[id]) <= Owned(c, entries)
  {
    assert Charges(c, entries[id := x]) == Charges(c, entries)[id := EntryBytes(c, x)];
    WeighWith(Charges(c, entries), id, EntryBytes(c, x));
    if id in entries {
      WeighWithout(Charges(c, entries), id);
    }
  }

  lemma OwnedWithout(c: Capacity, entries: map<nat, CacheEntry>, id: nat)
    requires id in entries
    ensures Owned(c, entries - {id}) == Owned(c, entries) - EntryBytes(c, entries[id])
    ensures EntryBytes(c, entries[id]) <= Owned(c, entries)
  {
    assert Charges(c, entries - {id}) == Charges(c, entries) - {id};
    WeighWithout(Charges(c, entries), id);
  }

  function ResultSize(c: Capacity, queryType: u16, r: Reply): (n: nat) {
    c.payload + |r.records| * (if queryType == TYPE_SRV then c.srv else c.address)
      + (if r.cnames != [] then CNAME_LIMIT * c.cname else 0)
  }

  // ---------------------------------------------------------------- the abstract map

  /** What a query should see: its last stored answer, until that expires. */
  function Unexpired(last: Option<Answer>, now: nat): (r: Option<Answer>) {
    if last.Some? && now < last.value.expiresAt then last else None
  }

  /** The payload kept for an entry stands for its last answer, unless that has already expired. */
  ghost predicate Represents(payload: Option<Payload>, last: Option<Answer>, clock: nat) {
    if payload.Some? then last == Some(payload.value.answer) else last.None? || last.value.expiresAt <= clock
  }

  // ---------------------------------------------------------------- the table

  predicate SameQuery(x: CacheEntry, name: Name, queryType: u16) {
    x.name == name && x.queryType == queryType
  }

  /** Every entry is once in the chain of its slot. */
  ghost predicate Chained(buckets: seq<seq<nat>>, entries: map<nat, CacheEntry>) {
    && |buckets| > 0
    && (forall b :: 0 <= b < |buckets| ==> Distinct(buckets[b]))
    && (forall b, id :: 0 <= b < |buckets| ==>
       (id in buckets[b] <==> id in entries && Slot(entries[id], |buckets|) == b))
  }

  /** No two entries stand for the same query. */
  ghost predicate Unique(entries: map<nat, CacheEntry>) {
    forall i, j :: i in entries && j in entries && SameQuery(entries[i], entries[j].name, entries[j].queryType) ==>
      i == j
  }

  ghost predicate Absent(entries: map<nat, CacheEntry>, name: Name, queryType: u16) {
    forall id :: id in entries ==> !SameQuery(entries[id], name, queryType)
  }

  /** Entries and bytes are counted exactly and stay within their limits. */
  ghost predicate Charged(c: Capacity, entries: map<nat, CacheEntry>, count: nat, bytes: nat) {
    count == |entries| <= c.entries && bytes == Owned(c, entries) <= c.owned
  }

  ghost predicate KeptEntry(x: CacheEntry, last: Option<Answer>, clock: nat) {
    0 < x.refs <= REFERENCE_LIMIT && Normalized(x.name) && TypeValid(x.queryType) && Represents(x.payload, last, clock)
  }

  ghost predicate Faithful(entries: map<nat, CacheEntry>, last: map<nat, Option<Answer>>, clock: nat) {
    last.Keys == entries.Keys && forall id :: id in entries ==> KeptEntry(entries[id], last[id], clock)
  }

  ghost predicate Numbered(entries: map<nat, CacheEntry>, issued: set<nat>, nextId: nat) {
    && nextId <= UINT64_MAX && entries.Keys <= issued
    && (forall id :: id in issued ==> 0 < id <= UINT64_MAX && (nextId == 0 || id < nextId))
  }

  lemma ChainedSame(buckets: seq<seq<nat>>, entries: map<nat, CacheEntry>, id: nat, x: CacheEntry)
    requires Chained(buckets, entries) && id in entries && SameQuery(x, entries[id].name, entries[id].queryType)
    ensures Chained(buckets, entries[id := x])
  {
    hide Hash;
    var after := entries[id := x];
    forall b, k | 0 <= b < |buckets|
      ensures k in buckets[b] <==> k in after && Slot(after[k], |buckets|) == b
    {
      assert k in buckets[b] <==> k in entries && Slot(entries[k], |buckets|) == b;
    }
  }

  lemma UniqueSame(entries: map<nat, CacheEntry>, id: nat, x: CacheEntry)
    requires Unique(entries) && id in entries && SameQuery(x, entries[id].name, entries[id].queryType)
    ensures Unique(entries[id := x])
  {
    var after := entries[id := x];
    forall i, j | i in after && j in after && SameQuery(after[i], after[j].name, after[j].queryType)
      ensures i == j
    {
      assert SameQuery(entries[i], entries[j].name, entries[j].queryType);
    }
  }

  lemma ChainedWith(buckets: seq<seq<nat>>, entries: map<nat, CacheEntry>, id: nat, x: CacheEntry)
    requires Chained(buckets, entries) && id !in entries
    ensures var b := Slot(x, |buckets|); Chained(buckets[b := [id] + buckets[b]], entries[id := x])
  {
    hide Hash;
    var slot := Slot(x, |buckets|);
    var after := buckets[slot := [id] + buckets[slot]];
    assert id !in buckets[slot];
    Extended(buckets[slot], id, [id] + buckets[slot]);
    forall b, k | 0 <= b < |after|
      ensures k in after[b] <==> k in entries[id := x] && Slot(entries[id := x][k], |after|) == b
    {
      assert k in buckets[b] <==> k in entries && Slot(entries[k], |buckets|) == b;
    }
  }

  lemma UniqueWith(entries: map<nat, CacheEntry>, id: nat, x: CacheEntry)
    requires Unique(entries) && id !in entries && Absent(entries, x.name, x.queryType)
    ensures Unique(entries[id := x])
  {
    var after := entries[id := x];
    forall i, j | i in after && j in after && SameQuery(after[i], after[j].name, after[j].queryType)
      ensures i == j
    {
      assert i in entries ==> !SameQuery(entries[i], x.name, x.queryType);
      assert j in entries ==> !SameQuery(entries[j], x.name, x.queryType);
    }
  }

  lemma ChainedWithout(buckets: seq<seq<nat>>, entries: map<nat, CacheEntry>, id: nat)
    requires Chained(buckets, entries) && id in entries
    ensures var b := Slot(entries[id], |buckets|); Chained(buckets[b := Unlink(buckets[b], id)], entries - {id})
  {
    hide Hash, Unlink;
    var slot := Slot(entries[id], |buckets|);
    var after := buckets[slot := Unlink(buckets[slot], id)];
    UnlinkDistinct(buckets[slot], id);
    forall b, k | 0 <= b < |after|
      ensures k in after[b] <==> k in entries - {id} && Slot((entries - {id})[k], |after|) == b
    {
      assert k in buckets[b] <==> k in entries && Slot(entries[k], |buckets|) == b;
    }
  }

  lemma ChargedSame(c: Capacity, entries: map<nat, CacheEntry>, count: nat, bytes: nat, id: nat, x: CacheEntry)
    requires Charged(c, entries, count, bytes) && id in entries
    requires bytes - EntryBytes(c, entries[id]) + EntryBytes(c, x) <= c.owned
    ensures EntryBytes(c, entries[id]) <= bytes
    ensures Charged(c, entries[id := x], count, bytes - EntryBytes(c, entries[id]) + EntryBytes(c, x))
  {
    OwnedWith(c, entries, id, x);
    assert entries[id := x].Keys == entries.Keys;
  }

  lemma ChargedWith(c: Capacity, entries: map<nat, CacheEntry>, count: nat, bytes: nat, id: nat, x: CacheEntry)
    requires Charged(c, entries, count, bytes) && id !in entries && count < c.entries
             && bytes + EntryBytes(c, x) <= c.owned
    ensures Charged(c, entries[id := x], count + 1, bytes + EntryBytes(c, x))
  {
    OwnedWith(c, entries, id, x);
    assert entries[id := x].Keys == entries.Keys + {id};
  }

  lemma ChargedWithout(c: Capacity, entries: map<nat, CacheEntry>, count: nat, bytes: nat, id: nat)
    requires Charged(c, entries, count, bytes) && id in entries
    ensures EntryBytes(c, entries[id]) <= bytes && count > 0
    ensures Charged(c, entries - {id}, count - 1, bytes - EntryBytes(c, entries[id]))
  {
    OwnedWithout(c, entries, id);
    Fewer(entries, id);
  }

  lemma NumberedWith(entries: map<nat, CacheEntry>, issued: set<nat>, nextId: nat, x: CacheEntry)
    requires Numbered(entries, issued, nextId) && nextId != 0
    ensures nextId !in issued && nextId !in entries
    ensures Numbered(entries[nextId := x], issued + {nextId}, if nextId == UINT64_MAX then 0 else nextId + 1)
  {
  }

  lemma FaithfulWith(entries: map<nat, CacheEntry>, last: map<nat, Option<Answer>>, clock: nat, id: nat, x: CacheEntry)
    requires Faithful(entries, last, clock) && KeptEntry(x, None, clock)
    ensures Faithful(entries[id := x], last[id := None], clock)
  {
    hide KeptEntry;
  }

  lemma FaithfulWithout(entries: map<nat, CacheEntry>, last: map<nat, Option<Answer>>, clock: nat, issued: set<nat>,
      nextId: nat, id: nat)
    requires Faithful(entries, last, clock) && Unique(entries) && Numbered(entries, issued, nextId)
    ensures Faithful(entries - {id}, last - {id}, clock) && Unique(entries - {id})
            && Numbered(entries - {id}, issued, nextId)
  {
    hide KeptEntry, SameQuery;
  }

  lemma OnlyEntry(entries: map<nat, CacheEntry>, id: nat, name: Name, queryType: u16)
    requires Unique(entries) && id in entries && SameQuery(entries[id], name, queryType)
    ensures forall k :: k in entries && SameQuery(entries[k], name, queryType) ==> k == id
  {
  }

  lemma FindAbsent(buckets: seq<seq<nat>>, entries: map<nat, CacheEntry>, name: Name, queryType: u16)
    requires Chained(buckets, entries)
    requires forall id :: id in buckets[Hash(name, queryType) % |buckets|] ==>
             id in entries && !SameQuery(entries[id], name, queryType)
    ensures Absent(entries, name, queryType)
  {
    hide Hash;
    forall id | id in entries
      ensures !SameQuery(entries[id], name, queryType)
    {
      assert id in buckets[Slot(entries[id], |buckets|)];
    }
  }

  class ResolverCache {
    const capacity: Capacity
    var buckets: seq<seq<nat>>
    var entries: map<nat, CacheEntry>
    var entryCount: nat
    var nextId: nat
    var ownedBytes: nat
    /** The map this table refines: the last answer stored for an entry and not superseded. */
    ghost var last: map<nat, Option<Answer>>
    /** The latest time any entry was looked at. */
    ghost var clock: nat
    /** Every entry id ever given out. */
    ghost var issued: set<nat>

    ghost predicate Valid()
      reads this
    {
      && |buckets| == capacity.entries > 0 && Chained(buckets, entries) && Unique(entries)
      && Charged(capacity, entries, entryCount, ownedBytes)
      && Faithful(entries, last, clock)
      && Numbered(entries, issued, nextId)
    }

    constructor (c: Capacity)
      requires 0 < c.entries && c.fixed <= c.owned
      ensures Valid() && capacity == c && entries == map[] && issued == {} && ownedBytes == c.fixed
    {
      capacity, buckets, entries := c, seq(c.entries, _ => []), map[];
      entryCount, nextId, ownedBytes := 0, 1, c.fixed;
      last, clock, issued := map[], 0, {};
      new;
      assert Charges(c, entries) == map[];
    }

    /** Walks the chain of a query's slot. */
    method Find(name: Name, queryType: u16) returns (found: Option<nat>)
      requires Valid()
      ensures found.Some? ==> found.value in entries && SameQuery(entries[found.value], name, queryType)
      ensures found.None? ==> Absent(entries, name, queryType)
    {
      hide Hash, Charged, Faithful, Numbered, SameQuery, Unique;
      var slot := Hash(name, queryType) % |buckets|;
      var chain := buckets[slot];
      assert forall id :: id in chain ==> id in entries;
      hide Chained;
      var k := 0;
      while k < |chain|
        invariant 0 <= k <= |chain|
        invariant forall j :: 0 <= j < k ==> !SameQuery(entries[chain[j]], name, queryType)
      {
        if SameQuery(entries[chain[k]], name, queryType) {
          return Some(chain[k]);
        }
        k := k + 1;
      }
      FindAbsent(buckets, entries, name, queryType);
      found := None;
    }

    /** One reference to the entry of a query, which is created if need be. */
    method Acquire(query: Name, queryType: u16) returns (status: AcquireStatus, id: nat)
      requires Valid()
      modifies this
      ensures Valid() && clock == old(clock)
      ensures status.AcquireBadArgument? <==> !TypeValid(queryType) || Normalize(query).None?
      ensures !status.AcquireOk? ==>
              entries == old(entries) && last == old(last) && issued == old(issued) && ownedBytes == old(ownedBytes)
      ensures status.AcquireOk? ==>
              Normalize(query).Some? && id in entries && SameQuery(entries[id], Normalize(query).value, queryType)
      ensures status.AcquireOk? && id in old(entries) ==>
                && entries == old(entries)[id := old(entries)[id].(refs := old(entries)[id].refs + 1)]
                   && last == old(last) && issued == old(issued)
      ensures status.AcquireOk? && id !in old(entries) ==>
                && id !in old(issued) && issued == old(issued) + {id}
                && entries == old(entries)[id := CacheEntry(Normalize(query).value, queryType, 1, None)]
                   && last == old(last)[id := None]
      ensures status.AcquireLimit? <==>
                && TypeValid(queryType) && Normalize(query).Some?
                && if Absent(old(entries), Normalize(query).value, queryType)
                   then || |old(entries)| == capacity.entries || old(nextId) == 0
                        || old(ownedBytes) + capacity.entry > capacity.owned
                   else exists k ::
                          && k in old(entries) && SameQuery(old(entries)[k], Normalize(query).value, queryType)
                          && old(entries)[k].refs == REFERENCE_LIMIT
    {
      hide Hash, Owned, Normalize, Chained, Unique, Faithful, Numbered;
      id := 0;
      var normal := Normalize(query);
      if !TypeValid(queryType) || normal.None? {
        return AcquireBadArgument, id;
      }
      NormalizeIdempotent(query);
      var found := Find(normal.value, queryType);
      if found.Some? {
        id := found.value;
        OnlyEntry(entries, id, normal.value, queryType);
        var retained := Retain(id);
        status := if retained then AcquireOk else AcquireLimit;
        return;
      }
      if entryCount == capacity.entries || nextId == 0 {
        return AcquireLimit, id;
      }
      if capacity.entry > capacity.owned || ownedBytes > capacity.owned - capacity.entry {
        return AcquireLimit, id;
      }
      var enough: bool := *;
      if !enough {
        return AcquireMemory, id;
      }
      id := nextId;
      Insert(CacheEntry(normal.value, queryType, 1, None));
      status := AcquireOk;
    }

    /** Links a new entry at the head of its chain under an id never given out before. */
    method Insert(x: CacheEntry)
      requires Valid() && nextId != 0 && x.refs == 1 && x.payload.None? && Normalized(x.name) && TypeValid(x.queryType)
      requires entryCount < capacity.entries && ownedBytes + capacity.entry <= capacity.owned
               && Absent(entries, x.name, x.queryType)
      modifies this
      ensures Valid() && clock == old(clock)
      ensures old(nextId) !in old(issued) && issued == old(issued) + {old(nextId)}
      ensures entries == old(entries)[old(nextId) := x] && last == old(last)[old(nextId) := None]
              && old(nextId) !in old(entries)
    {
      hide Hash, Normalize, Chained, Unique, Charged, Absent, Faithful, Numbered;
      NumberedWith(entries, issued, nextId, x);
      FaithfulWith(entries, last, clock, nextId, x);
      ChainedWith(buckets, entries, nextId, x);
      UniqueWith(entries, nextId, x);
      ChargedWith(capacity, entries, entryCount, ownedBytes, nextId, x);
      var slot := Slot(x, |buckets|);
      buckets := buckets[slot := [nextId] + buckets[slot]];
      entries := entries[nextId := x];
      last := last[nextId := None];
      issued := issued + {nextId};
      entryCount := entryCount + 1;
      ownedBytes := ownedBytes + capacity.entry;
      nextId := if nextId == UINT64_MAX then 0 else nextId + 1;
    }

    method Retain(id: nat) returns (ok: bool)
      requires Valid() && id in entries
      modifies this
      ensures Valid() && ok == (old(entries)[id].refs < REFERENCE_LIMIT) && clock == old(clock) && last == old(last)
              && issued == old(issued) && ownedBytes == old(ownedBytes)
      ensures nextId == old(nextId) && (!ok ==> old(entries)[id].refs == REFERENCE_LIMIT)
      ensures entries == if ok then old(entries)[id := old(entries)[id].(refs := old(entries)[id].refs + 1)]
                         else old(entries)
    {
      hide Hash, Owned, Normalize, Chained, Unique, Charged, Numbered;
      assert KeptEntry(entries[id], last[id], clock);
      BytesCovered(id);
      if entries[id].refs == REFERENCE_LIMIT {
        return false;
      }
      Update(id, entries[id].(refs := entries[id].refs + 1), last[id]);
      assert last == old(last);
      ok := true;
    }

    /** Changes an entry's count or payload, and the answer it stands for; the bytes follow. */
    method Update(id: nat, x: CacheEntry, ghost answer: Option<Answer>)
      requires Valid() && id in entries && SameQuery(x, entries[id].name, entries[id].queryType)
               && KeptEntry(x, answer, clock)
      requires ownedBytes - EntryBytes(capacity, entries[id]) + EntryBytes(capacity, x) <= capacity.owned
      modifies this`entries, this`ownedBytes, this`last
      ensures Valid() && entries == old(entries)[id := x] && last == old(last)[id := answer]
      ensures ownedBytes == old(ownedBytes) - EntryBytes(capacity, old(entries)[id]) + EntryBytes(capacity, x)
    {
      hide Hash, Normalize, Chained, Unique, Charged, KeptEntry;
      ChainedSame(buckets, entries, id, x);
      UniqueSame(entries, id, x);
      ChargedSame(capacity, entries, entryCount, ownedBytes, id, x);
      var before, after := EntryBytes(capacity, entries[id]), EntryBytes(capacity, x);
      ownedBytes := Drop(ownedBytes, before) + after;
      entries := entries[id := x];
      last := last[id := answer];
    }

    /** Gives one reference back; the last one removes the entry with everything it owns. */
    method Release(id: nat)
      requires Valid() && id in entries
      modifies this
      ensures Valid() && clock == old(clock) && issued == old(issued)
      ensures old(entries)[id].refs > 1 ==>
              entries == old(entries)[id := old(entries)[id].(refs := old(entries)[id].refs - 1)] && last == old(last)
      ensures old(entries)[id].refs == 1 ==> entries == old(entries) - {id} && last == old(last) - {id}
      ensures old(entries)[id].refs == 1 ==> ownedBytes == old(ownedBytes) - EntryBytes(capacity, old(entries)[id])
    {
      hide Hash, Normalize, Chained, Unique, Charged, Numbered;
      assert KeptEntry(entries[id], last[id], clock);
      BytesCovered(id);
      if entries[id].refs > 1 {
        Update(id, entries[id].(refs := entries[id].refs - 1), last[id]);
        assert last == old(last);
      } else {
        Remove(id);
      }
    }

    method Remove(id: nat)
      requires Valid() && id in entries
      modifies this
      ensures Valid() && clock == old(clock) && issued == old(issued)
      ensures entries == old(entries) - {id} && last == old(last) - {id}
      ensures ownedBytes == old(ownedBytes) - EntryBytes(capacity, old(entries)[id])
    {
      hide Hash, Normalize, Chained, Unique, Charged, Unlink, Faithful, Numbered;
      FaithfulWithout(entries, last, clock, issued, nextId, id);
      ChainedWithout(buckets, entries, id);
      ChargedWithout(capacity, entries, entryCount, ownedBytes, id);
      var slot := Slot(entries[id], |buckets|);
      buckets := buckets[slot := Unlink(buckets[slot], id)];
      ownedBytes := Drop(ownedBytes, EntryBytes(capacity, entries[id]));
      entries := entries - {id};
      last := last - {id};
      entryCount := Drop(entryCount, 1);
    }

    /** Offers a result for an entry. Only a stored or transient publication changes anything. */
    method Publish(id: nat, completedAt: nat, r: Reply) returns (status: PublishStatus)
      requires Valid() && id in entries
      modifies this
      ensures Valid() && clock == old(clock) && issued == old(issued) && entries.Keys == old(entries).Keys
      ensures status.PublishInvalid? <==> Validated(old(entries)[id], r).None?
      ensures !(status.Stored? || status.Transient?) ==>
              entries == old(entries) && last == old(last) && ownedBytes == old(ownedBytes)
      ensures Validated(old(entries)[id], r).Some? ==>
                var size := ResultSize(capacity, old(entries)[id].queryType, r);
                var ttl := Validated(old(entries)[id], r).value.1;
                && (status.PublishTime? <==>
                      || completedAt >= TIME_LIMIT
                      || (size <= capacity.result && ttl > 0 && completedAt + ttl * NANOSECONDS >= TIME_LIMIT))
                && (status.PublishLimit? <==>
                      && completedAt < TIME_LIMIT
                      && (|| size > capacity.result
                          || (&& ttl > 0 && completedAt + ttl * NANOSECONDS < TIME_LIMIT
                              && old(ownedBytes) - PayloadBytes(old(entries)[id]) + size > capacity.owned)))
                && (status.Transient? <==> completedAt < TIME_LIMIT && size <= capacity.result && ttl == 0)
      ensures status.Transient? ==> last == old(last)[id := None]
      ensures status.Stored? ==>
                && Validated(old(entries)[id], r).Some?
                && var (view, ttl) := Validated(old(entries)[id], r).value;
                   var answer := Answer(r, view, completedAt, completedAt + ttl * NANOSECONDS);
                   ttl > 0 && last == old(last)[id := Some(answer)]
      ensures status.Stored? || status.Transient? ==>
              entries == old(entries)[id := old(entries)[id].(payload := entries[id].payload)]
    {
      hide Hash, Owned, Normalize, Chained, Unique, Charged, Numbered, Validated, ResultSize;
      assert KeptEntry(entries[id], last[id], clock);
      var x := entries[id];
      var valid := Validate(x, r);
      if valid.None? {
        return PublishInvalid;
      }
      var (view, ttl) := valid.value;
      var size := ResultSize(capacity, x.queryType, r);
      if completedAt >= TIME_LIMIT {
        return PublishTime;
      }
      if size > capacity.result {
        return PublishLimit;
      }
      BytesCovered(id);
      if ttl == 0 {
        Update(id, x.(payload := None), None);
        return Transient;
      }
      var expiresAt := completedAt + ttl * NANOSECONDS;
      if expiresAt >= TIME_LIMIT {
        return PublishTime;
      }
      var before := PayloadBytes(x);
      if size > capacity.owned || Drop(ownedBytes, before) > capacity.owned - size {
        return PublishLimit;
      }
      var enough: bool := *;
      if !enough {
        return PublishMemory;
      }
      var answer := Answer(r, view, completedAt, expiresAt);
      Update(id, x.(payload := Some(Payload(answer, size))), Some(answer));
      status := Stored;
    }

    lemma BytesCovered(id: nat)
      requires Valid() && id in entries
      ensures EntryBytes(capacity, entries[id]) <= ownedBytes <= capacity.owned
    {
      hide Hash, Normalize, Chained, Unique, Numbered, Faithful;
      OwnedWithout(capacity, entries, id);
    }

    method Validate(x: CacheEntry, r: Reply) returns (v: Option<(ViewStatus, u32)>)
      ensures v == Validated(x, r)
    {
      hide Normalize, LeastTtl, RecordOk;
      if !TypeValid(x.queryType) || !ShapeOk(x, r) {
        return None;
      }
      if r.status == STATUS_OK {
        if r.rcode != RCODE_NOERROR || r.records == []
          || |r.records| > (if x.queryType == TYPE_SRV then SRV_LIMIT else ADDRESS_LIMIT) || r.negative.valid {
          return None;
        }
        var ttl := RecordsScan(x.queryType, r.records);
        return if ttl.None? then None else Some((Positive, ttl.value));
      }
      if r.records != [] {
        return None;
      }
      if (r.status == STATUS_NODATA && r.rcode != RCODE_NOERROR)
        || (r.status == STATUS_NOT_FOUND && r.rcode != RCODE_NXDOMAIN)
        || (r.status != STATUS_NODATA && r.status != STATUS_NOT_FOUND) {
        return None;
      }
      var ttl := if r.negative.valid then r.negative.effectiveTtl else 0;
      v := Some((if r.status == STATUS_NODATA then Nodata else Nxdomain, ttl));
    }

    /** What an entry holds now. Expired answers are dropped here and nowhere else; as long as the clock
        does not run backwards, the caller sees exactly the last stored answer that has not expired. */
    method View(id: nat, now: nat) returns (ok: bool, answer: Option<Answer>)
      requires Valid() && id in entries
      modifies this
      ensures Valid() && last == old(last) && issued == old(issued) && entries.Keys == old(entries).Keys
      ensures clock == if ok && now > old(clock) then now else old(clock)
      ensures ok <==> now < TIME_LIMIT
      ensures !ok ==> entries == old(entries) && answer.None?
      ensures ok && old(clock) <= now ==> answer == Unexpired(last[id], now)
      ensures ok ==> answer.None? || answer == Unexpired(last[id], now)
      ensures entries == old(entries)[id := old(entries)[id].(payload := entries[id].payload)]
    {
      hide Hash, Owned, Normalize, Chained, Unique, Charged, Numbered;
      if now >= TIME_LIMIT {
        return false, None;
      }
      assert KeptEntry(entries[id], last[id], clock);
      ClockAdvanced(entries, last, clock, if now > clock then now else clock);
      BytesCovered(id);
      clock := if now > clock then now else clock;
      hide Faithful;
      if entries[id].payload.Some? && now >= entries[id].payload.value.answer.expiresAt {
        Update(id, entries[id].(payload := None), last[id]);
        assert last == old(last);
      }
      ok := true;
      answer := if entries[id].payload.None? then None else Some(entries[id].payload.value.answer);
    }
  }

  lemma ClockAdvanced(entries: map<nat, CacheEntry>, last: map<nat, Option<Answer>>, clock: nat, now: nat)
    requires Faithful(entries, last, clock) && clock <= now
    ensures Faithful(entries, last, now)
  {
    hide Normalize;
    assert forall id :: id in entries ==> KeptEntry(entries[id], last[id], clock);
  }
}
