/** Value-level view of one generation's route resolution: destinations depend on cache entries,
    either directly or through the targets of an SRV answer. The module holds the graph invariant
    (reference counts, dependency lists, target sets) and one lemma per elementary change.
 */
module ResolutionGraph {
  import opened Basics

  type EntryId = nat
  type DepId = nat
  type Name = string

  datatype Outcome = Pending | Available | Unavailable | ServiceUnavailable | Contradictory
  datatype SrvRecord = SrvRecord(priority: nat, weight: nat, port: nat, target: Name)
  /** How the addresses of a target are known: literally, from the hosts file, or by two lookups. */
  datatype Origin = Numeric | Hosts | Dns(ipv4: EntryId, ipv6: EntryId)

  datatype Entry = Entry(
    kind: QueryKind,
    interest: bool,
    owned: bool,
    positive: bool,
    queued: bool,
    terminal: bool,
    uses: nat,
    deps: seq<DepId>)

  datatype Dependency = Dependency(dest: nat, entry: EntryId, source: bool, pending: bool, positive: bool)
  datatype Target = Target(origin: Origin, uses: nat)
  datatype TargetSet = TargetSet(names: seq<Name>, deps: seq<DepId>, immediate: nat, records: seq<SrvRecord>)

  datatype Destination = Destination(
    srv: bool,
    literal: bool,
    owner: seq<DepId>,
    targets: TargetSet,
    expanded: bool,
    firstTerminal: bool,
    pending: nat,
    positive: nat,
    result: Outcome)

  /** `candidate` is the target set being built or linked for a destination; it is empty between
      operations. */
  datatype State = State(
    entries: map<EntryId, Entry>,
    deps: map<DepId, Dependency>,
    targets: map<Name, Target>,
    destinations: seq<Destination>,
    candidate: TargetSet,
    queue: seq<EntryId>,
    terminalCount: nat,
    nextDep: DepId)

  const NO_TARGETS: TargetSet := TargetSet([], [], 0, [])

  // ---------------------------------------------------------------- invariant

  predicate Uses(target: Target, e: EntryId) {
    target.origin.Dns? && (target.origin.ipv4 == e || target.origin.ipv6 == e)
  }

  function Users(targets: map<Name, Target>, e: EntryId): (r: set<Name>) {
    set n | n in targets && Uses(targets[n], e)
  }

  ghost predicate LinkedTo(deps: map<DepId, Dependency>, d: DepId, e: EntryId) {
    d in deps && deps[d].entry == e
  }

  /** An entry's list is exactly its dependencies and its use count is exact. */
  ghost predicate EntryExact(x: Entry, e: EntryId, deps: map<DepId, Dependency>, targets: map<Name, Target>,
      loose: set<EntryId>) {
    && Distinct(x.deps)
    && (forall d :: d in x.deps <==> LinkedTo(deps, d, e))
    && x.uses == |x.deps| + |Users(targets, e)|
    && (x.owned ==> !x.kind.SRV? && (x.uses > 0 || e in loose))
  }

  ghost predicate EntriesExact(s: State, loose: set<EntryId>) {
    forall e :: e in s.entries ==> EntryExact(s.entries[e], e, s.deps, s.targets, loose)
  }

  function NamesAt(destinations: seq<Destination>, candidate: TargetSet, i: nat): (r: seq<Name>) {
    if i < |destinations| then destinations[i].targets.names else candidate.names
  }

  /** The sets containing a target; the candidate counts as one more destination. */
  ghost function Holders(destinations: seq<Destination>, candidate: TargetSet, n: Name): (r: set<nat>) {
    set i: nat | i <= |destinations| && n in NamesAt(destinations, candidate, i)
  }

  ghost predicate Resolvable(origin: Origin, entries: map<EntryId, Entry>) {
    origin.Dns? ==>
      && origin.ipv4 in entries && entries[origin.ipv4].kind.A?
      && origin.ipv6 in entries && entries[origin.ipv6].kind.AAAA?
  }

  ghost predicate TargetsExact(s: State, loose: set<Name>) {
    forall n :: n in s.targets ==>
      && s.targets[n].uses == |Holders(s.destinations, s.candidate, n)|
      && (s.targets[n].uses > 0 || n in loose)
  }

  ghost predicate TargetsResolvable(s: State) {
    forall n :: n in s.targets ==> Resolvable(s.targets[n].origin, s.entries)
  }

  /** Dependencies of SRV queries lead to targets, all others to addresses. */
  ghost predicate DepsKnown(s: State) {
    forall d :: d in s.deps ==>
      && d < s.nextDep && s.deps[d].dest < |s.destinations| && s.deps[d].entry in s.entries
      && (s.deps[d].source <==> !s.entries[s.deps[d].entry].kind.SRV?)
  }

  ghost predicate DepAt(deps: map<DepId, Dependency>, d: DepId, i: nat, source: bool) {
    d in deps && deps[d].dest == i && deps[d].source == source
  }

  ghost predicate DepList(deps: map<DepId, Dependency>, i: nat, source: bool, list: seq<DepId>) {
    Distinct(list) && forall d :: d in list ==> DepAt(deps, d, i, source)
  }

  ghost predicate NameList(targets: map<Name, Target>, names: seq<Name>) {
    Distinct(names) && forall n :: n in names ==> n in targets
  }

  ghost predicate DestShaped(x: Destination, i: nat, deps: map<DepId, Dependency>, targets: map<Name, Target>) {
    && DepList(deps, i, !x.srv, x.owner)
    && DepList(deps, i, true, x.targets.deps)
    && NameList(targets, x.targets.names)
    && (x.srv ==> |x.owner| == 1)
    && (!x.srv ==> x.targets == NO_TARGETS)
    && (x.literal ==> !x.srv && x.owner == [])
  }

  ghost predicate Shaped(s: State) {
    forall i: nat :: i < |s.destinations| ==> DestShaped(s.destinations[i], i, s.deps, s.targets)
  }

  ghost predicate CandidateShaped(s: State, home: nat) {
    && DepList(s.deps, home, true, s.candidate.deps)
    && NameList(s.targets, s.candidate.names)
    && (forall d :: d in s.candidate.deps ==> home < |s.destinations| && d !in s.destinations[home].targets.deps)
  }

  /** Every dependency is in a list of its destination, or in the candidate for destination `home`. */
  ghost predicate DepListed(s: State, home: nat, d: DepId)
    requires d in s.deps && s.deps[d].dest < |s.destinations|
  {
    var x := s.destinations[s.deps[d].dest];
    d in x.owner || d in x.targets.deps || (s.deps[d].dest == home && d in s.candidate.deps)
  }

  ghost predicate DepsListed(s: State, home: nat) {
    forall d :: d in s.deps && s.deps[d].dest < |s.destinations| ==> DepListed(s, home, d)
  }

  /** The queue of entries found through targets and not scheduled yet. */
  ghost predicate QueueExact(s: State) {
    && Distinct(s.queue)
    && (forall e :: e in s.queue <==> e in s.entries && s.entries[e].queued)
    && (forall e :: e in s.entries && s.entries[e].queued ==>
       s.entries[e].owned && !s.entries[e].interest && !s.entries[e].terminal)
  }

  /** The whole graph. `looseEntries` and `looseTargets` may be unreferenced for the moment. */
  ghost predicate Graph(s: State, home: nat, looseEntries: set<EntryId>, looseTargets: set<Name>) {
    && EntriesExact(s, looseEntries)
    && TargetsExact(s, looseTargets)
    && TargetsResolvable(s)
    && DepsKnown(s)
    && Shaped(s)
    && CandidateShaped(s, home)
    && DepsListed(s, home)
    && QueueExact(s)
  }

  // ---------------------------------------------------------------- linking a dependency

  function Linked(x: Entry, d: DepId): (r: Entry) {
    x.(uses := x.uses + 1, deps := [d] + x.deps)
  }

  function FreshDep(s: State, e: EntryId, i: nat, source: bool): (r: Dependency)
    requires e in s.entries
  {
    var x := s.entries[e];
    Dependency(i, e, source, !x.terminal, x.terminal && x.positive && source)
  }

  function Attached(s: State, e: EntryId, i: nat, source: bool): (r: State)
    requires e in s.entries
  {
    s.(deps := s.deps[s.nextDep := FreshDep(s, e, i, source)],
      entries := s.entries[e := Linked(s.entries[e], s.nextDep)], nextDep := s.nextDep + 1)
  }

  /** A dependency linked on behalf of the candidate set. */
  function CandidateLinked(s: State, e: EntryId, i: nat): (r: State)
    requires e in s.entries
  {
    Attached(s, e, i, true).(candidate := s.candidate.(deps := s.candidate.deps + [s.nextDep]))
  }

  lemma AttachedEntries(s: State, loose: set<EntryId>, e: EntryId, i: nat, source: bool)
    requires EntriesExact(s, loose) && DepsKnown(s) && e in s.entries
    ensures EntriesExact(Attached(s, e, i, source), loose)
  {
    var r := Attached(s, e, i, source);
    var d := s.nextDep;
    forall k | k in r.entries
      ensures EntryExact(r.entries[k], k, r.deps, r.targets, loose)
    {
      assert EntryExact(s.entries[k], k, s.deps, s.targets, loose);
      assert forall o :: LinkedTo(r.deps, o, k) <==> LinkedTo(s.deps, o, k) || (o == d && k == e);
      if k == e {
        assert !LinkedTo(s.deps, d, e);
        Extended(s.entries[e].deps, d, [d] + s.entries[e].deps);
      }
    }
  }

  lemma ListsKept(s: State, r: State)
    requires forall d :: d in s.deps ==>
             d in r.deps && r.deps[d].dest == s.deps[d].dest && r.deps[d].source == s.deps[d].source
    requires forall n :: n in s.targets ==> n in r.targets
    requires r.destinations == s.destinations && Shaped(s)
    ensures Shaped(r)
  {
    forall i: nat | i < |s.destinations|
      ensures DestShaped(r.destinations[i], i, r.deps, r.targets)
    {
      assert DestShaped(s.destinations[i], i, s.deps, s.targets);
      assert forall d, source :: DepAt(s.deps, d, i, source) ==> DepAt(r.deps, d, i, source);
    }
  }

  lemma CandidateLinkedShape(s: State, e: EntryId, i: nat)
    requires DepsKnown(s) && CandidateShaped(s, i) && DepsListed(s, i) && Shaped(s)
    requires e in s.entries && i < |s.destinations|
    ensures CandidateShaped(CandidateLinked(s, e, i), i) && DepsListed(CandidateLinked(s, e, i), i)
  {
    var r := CandidateLinked(s, e, i);
    var d := s.nextDep;
    assert DestShaped(s.destinations[i], i, s.deps, s.targets);
    assert d !in s.deps;
    assert forall o :: DepAt(s.deps, o, i, true) ==> DepAt(r.deps, o, i, true);
    assert forall o :: o in s.candidate.deps ==> DepAt(s.deps, o, i, true);
    assert forall o :: o in s.destinations[i].targets.deps ==> DepAt(s.deps, o, i, true);
    Extended(s.candidate.deps, d, s.candidate.deps + [d]);
    assert DepAt(r.deps, d, i, true);
    forall o | o in r.deps && r.deps[o].dest < |r.destinations|
      ensures DepListed(r, i, o)
    {
      if o != d {
        assert DepListed(s, i, o);
      }
    }
  }

  lemma QueueKept(s: State, r: State)
    requires QueueExact(s) && r.queue == s.queue
    requires forall e :: e in r.entries <==> e in s.entries
    requires forall e :: e in r.entries && e in s.entries ==>
             r.entries[e].queued == s.entries[e].queued && (s.entries[e].queued ==>
               r.entries[e].owned == s.entries[e].owned && r.entries[e].interest == s.entries[e].interest
                 && r.entries[e].terminal == s.entries[e].terminal)
    ensures QueueExact(r)
  {
  }

  lemma TargetsKept(s: State, r: State, loose: set<Name>)
    requires TargetsExact(s, loose) && TargetsResolvable(s)
    requires r.targets == s.targets && r.destinations == s.destinations && r.candidate.names == s.candidate.names
    requires forall e :: e in s.entries ==> e in r.entries && r.entries[e].kind == s.entries[e].kind
    ensures TargetsExact(r, loose) && TargetsResolvable(r)
  {
    forall n | n in r.targets
      ensures r.targets[n].uses == |Holders(r.destinations, r.candidate, n)|
    {
      assert Holders(r.destinations, r.candidate, n) == Holders(s.destinations, s.candidate, n);
    }
  }

  lemma EntriesIgnore(s: State, loose: set<EntryId>, r: State)
    requires EntriesExact(s, loose) && r.entries == s.entries && r.deps == s.deps && r.targets == s.targets
    ensures EntriesExact(r, loose)
  {
  }

  lemma AttachedKnown(s: State, e: EntryId, i: nat, r: State)
    requires DepsKnown(s) && e in s.entries && !s.entries[e].kind.SRV? && i < |s.destinations|
    requires r.deps == Attached(s, e, i, true).deps && r.entries == Attached(s, e, i, true).entries
    requires r.nextDep == s.nextDep + 1 && r.destinations == s.destinations
    ensures DepsKnown(r)
  {
  }

  lemma CandidateLinkedGraph(s: State, looseEntries: set<EntryId>, looseTargets: set<Name>, e: EntryId, i: nat)
    requires Graph(s, i, looseEntries, looseTargets) && i < |s.destinations|
    requires e in s.entries && !s.entries[e].kind.SRV?
    ensures Graph(CandidateLinked(s, e, i), i, looseEntries, looseTargets)
  {
    hide EntriesExact, TargetsExact, TargetsResolvable, Shaped, CandidateShaped, DepsListed, QueueExact, DepsKnown;
    var r := CandidateLinked(s, e, i);
    DepsFresh(s);
    AttachedKnown(s, e, i, r);
    AttachedEntries(s, looseEntries, e, i, true);
    EntriesIgnore(Attached(s, e, i, true), looseEntries, r);
    TargetsKept(s, r, looseTargets);
    ListsKept(s, r);
    CandidateLinkedShape(s, e, i);
    QueueKept(s, r);
  }

  lemma DepsFresh(s: State)
    requires DepsKnown(s)
    ensures s.nextDep !in s.deps
  {
  }

  // ---------------------------------------------------------------- unlinking a dependency

  function Unlinked(x: Entry, d: DepId): (r: Entry) {
    x.(uses := if x.uses > 0 then x.uses - 1 else 0, deps := Unlink(x.deps, d))
  }

  function Detached(s: State, d: DepId): (r: State)
    requires d in s.deps && s.deps[d].entry in s.entries
  {
    var e := s.deps[d].entry;
    s.(deps := s.deps - {d}, entries := s.entries[e := Unlinked(s.entries[e], d)])
  }

  function WithTargets(s: State, i: nat, targets: TargetSet): (r: State)
    requires i < |s.destinations|
  {
    s.(destinations := s.destinations[i := s.destinations[i].(targets := targets)])
  }

  /** The first remaining dependency of a target set that is being dissolved. */
  function FirstDepDropped(s: State, i: nat): (r: State)
    requires i < |s.destinations| && s.destinations[i].targets.deps != []
    requires s.destinations[i].targets.deps[0] in s.deps && s.deps[s.destinations[i].targets.deps[0]].entry in s.entries
  {
    var targets := s.destinations[i].targets;
    WithTargets(Detached(s, targets.deps[0]), i, targets.(deps := targets.deps[1..]))
  }

  lemma DetachedEntries(s: State, loose: set<EntryId>, d: DepId)
    requires EntriesExact(s, loose) && d in s.deps && s.deps[d].entry in s.entries
    ensures s.entries[s.deps[d].entry].uses > 0
    ensures EntriesExact(Detached(s, d), loose + {s.deps[d].entry})
  {
    var e := s.deps[d].entry;
    var r := Detached(s, d);
    assert LinkedTo(s.deps, d, e);
    assert EntryExact(s.entries[e], e, s.deps, s.targets, loose);
    assert d in s.entries[e].deps;
    forall k | k in r.entries
      ensures EntryExact(r.entries[k], k, r.deps, r.targets, loose + {e})
    {
      assert EntryExact(s.entries[k], k, s.deps, s.targets, loose);
      assert forall o :: LinkedTo(r.deps, o, k) <==> LinkedTo(s.deps, o, k) && o != d;
      if k == e {
        UnlinkDistinct(s.entries[e].deps, d);
      }
    }
  }

  lemma FirstDepDroppedShape(s: State, i: nat)
    requires Shaped(s) && CandidateShaped(s, i) && DepsKnown(s) && i < |s.destinations|
             && s.destinations[i].targets.deps != []
    ensures s.destinations[i].targets.deps[0] in s.deps && s.deps[s.destinations[i].targets.deps[0]].entry in s.entries
    ensures s.deps[s.destinations[i].targets.deps[0]].dest == i
    ensures Shaped(FirstDepDropped(s, i)) && CandidateShaped(FirstDepDropped(s, i), i)
  {
    var d := s.destinations[i].targets.deps[0];
    assert DestShaped(s.destinations[i], i, s.deps, s.targets);
    assert DepAt(s.deps, d, i, true);
    var r := FirstDepDropped(s, i);
    forall k: nat | k < |r.destinations|
      ensures DestShaped(r.destinations[k], k, r.deps, r.targets)
    {
      assert DestShaped(s.destinations[k], k, s.deps, s.targets);
      assert forall o, source :: DepAt(s.deps, o, k, source) && o != d ==> DepAt(r.deps, o, k, source);
      assert s.destinations[i].targets.deps == [d] + s.destinations[i].targets.deps[1..];
      if k == i {
        DropsFirst(s.destinations[i].targets.deps);
        assert d !in s.destinations[i].owner;
      }
    }
    assert forall o :: DepAt(s.deps, o, i, true) && o != d ==> DepAt(r.deps, o, i, true);
  }

  lemma DropsFirst<T>(s: seq<T>)
    requires Distinct(s) && s != []
    ensures Distinct(s[1..]) && s[0] !in s[1..]
    ensures forall x :: x in s <==> x == s[0] || x in s[1..]
  {
    assert s == [s[0]] + s[1..];
  }

  lemma FirstDepDroppedRest(s: State, i: nat)
    requires Shaped(s) && DepsKnown(s) && DepsListed(s, i) && i < |s.destinations|
             && s.destinations[i].targets.deps != []
    requires s.destinations[i].targets.deps[0] in s.deps && s.deps[s.destinations[i].targets.deps[0]].entry in s.entries
    ensures DepsKnown(FirstDepDropped(s, i)) && DepsListed(FirstDepDropped(s, i), i)
  {
    var d := s.destinations[i].targets.deps[0];
    var r := FirstDepDropped(s, i);
    assert DestShaped(s.destinations[i], i, s.deps, s.targets);
    DropsFirst(s.destinations[i].targets.deps);
    forall o | o in r.deps && r.deps[o].dest < |r.destinations|
      ensures DepListed(r, i, o)
    {
      assert DepListed(s, i, o);
    }
  }

  lemma TargetsSameNames(s: State, r: State, loose: set<Name>)
    requires TargetsExact(s, loose) && TargetsResolvable(s)
    requires r.targets == s.targets && |r.destinations| == |s.destinations| && r.candidate.names == s.candidate.names
    requires forall k: nat :: k < |s.destinations| ==>
             r.destinations[k].targets.names == s.destinations[k].targets.names
    requires forall e :: e in s.entries ==> e in r.entries && r.entries[e].kind == s.entries[e].kind
    ensures TargetsExact(r, loose) && TargetsResolvable(r)
  {
    forall n | n in r.targets
      ensures r.targets[n].uses == |Holders(r.destinations, r.candidate, n)|
    {
      assert forall k: nat :: NamesAt(r.destinations, r.candidate, k) == NamesAt(s.destinations, s.candidate, k);
      assert Holders(r.destinations, r.candidate, n) == Holders(s.destinations, s.candidate, n);
    }
  }

  lemma FirstDepDroppedGraph(s: State, i: nat, looseEntries: set<EntryId>, looseTargets: set<Name>)
    requires Graph(s, i, looseEntries, looseTargets) && i < |s.destinations| && s.destinations[i].targets.deps != []
    ensures var d := s.destinations[i].targets.deps[0];
            && d in s.deps && s.deps[d].entry in s.entries && s.deps[d].dest == i && s.entries[s.deps[d].entry].uses > 0
            && Graph(FirstDepDropped(s, i), i, looseEntries + {s.deps[d].entry}, looseTargets)
  {
    hide EntriesExact, TargetsExact, TargetsResolvable, Shaped, CandidateShaped, DepsListed, QueueExact, DepsKnown;
    FirstDepDroppedShape(s, i);
    var d := s.destinations[i].targets.deps[0];
    var r := FirstDepDropped(s, i);
    DetachedEntries(s, looseEntries, d);
    EntriesIgnore(Detached(s, d), looseEntries + {s.deps[d].entry}, r);
    TargetsSameNames(s, r, looseTargets);
    FirstDepDroppedRest(s, i);
    QueueKept(s, r);
  }

  // ---------------------------------------------------------------- entries

  function EntryRemoved(s: State, e: EntryId): (r: State) {
    s.(entries := s.entries - {e}, queue := Unlink(s.queue, e))
  }

  lemma UpdatedAway<K, X>(m: map<K, X>, k: K, x: X)
    ensures m[k := x] - {k} == m - {k}
  {
  }

  function NewEntry(kind: QueryKind, owned: bool): (r: Entry) {
    Entry(kind, false, owned, false, owned, false, 0, [])
  }

  function EntryAdded(s: State, e: EntryId, kind: QueryKind, owned: bool): (r: State) {
    s.(entries := s.entries[e := NewEntry(kind, owned)], queue := if owned then s.queue + [e] else s.queue)
  }

  /** An unused entry has neither dependencies nor targets. */
  lemma UnusedEntry(s: State, loose: set<EntryId>, e: EntryId)
    requires EntriesExact(s, loose) && e in s.entries && s.entries[e].uses == 0
    ensures forall d :: d in s.deps ==> s.deps[d].entry != e
    ensures forall n :: n in s.targets ==> !Uses(s.targets[n], e)
  {
    assert EntryExact(s.entries[e], e, s.deps, s.targets, loose);
    assert s.entries[e].deps == [] && Users(s.targets, e) == {};
    forall d | d in s.deps
      ensures s.deps[d].entry != e
    {
      assert d in s.entries[e].deps <==> LinkedTo(s.deps, d, e);
    }
    forall n | n in s.targets
      ensures !Uses(s.targets[n], e)
    {
      assert n !in Users(s.targets, e);
    }
  }

  lemma EntryRemovedQueue(s: State, e: EntryId)
    requires QueueExact(s)
    ensures QueueExact(EntryRemoved(s, e))
  {
    UnlinkDistinct(s.queue, e);
  }

  lemma FewerEntries(s: State, r: State, looseEntries: set<EntryId>, loose': set<EntryId>, e: EntryId)
    requires EntriesExact(s, looseEntries)
    requires r.entries == s.entries - {e} && r.deps == s.deps && r.targets == s.targets
    requires loose' == looseEntries - {e}
    ensures EntriesExact(r, loose')
  {
    forall k | k in r.entries
      ensures EntryExact(r.entries[k], k, r.deps, r.targets, loose')
    {
      assert EntryExact(s.entries[k], k, s.deps, s.targets, looseEntries);
    }
  }

  lemma UnusedUnneeded(s: State, r: State, e: EntryId)
    requires DepsKnown(s) && TargetsResolvable(s)
    requires r.entries == s.entries - {e} && r.deps == s.deps && r.targets == s.targets && r.nextDep == s.nextDep
             && r.destinations == s.destinations
    requires forall d :: d in s.deps ==> s.deps[d].entry != e
    requires forall n :: n in s.targets ==> !Uses(s.targets[n], e)
    ensures DepsKnown(r) && TargetsResolvable(r)
  {
    forall n | n in r.targets
      ensures Resolvable(r.targets[n].origin, r.entries)
    {
      assert Resolvable(s.targets[n].origin, s.entries);
      assert !Uses(s.targets[n], e);
    }
  }

  lemma ListedKept(s: State, r: State, home: nat)
    requires CandidateShaped(s, home) && DepsListed(s, home)
    requires r.deps == s.deps && r.destinations == s.destinations && r.candidate == s.candidate
    requires forall n :: n in s.targets ==> n in r.targets
    ensures CandidateShaped(r, home) && DepsListed(r, home)
  {
    forall o | o in r.deps && r.deps[o].dest < |r.destinations|
      ensures DepListed(r, home, o)
    {
      assert DepListed(s, home, o);
    }
  }

  lemma TargetsExactKept(s: State, r: State, loose: set<Name>)
    requires TargetsExact(s, loose) && r.targets == s.targets && r.destinations == s.destinations
             && r.candidate == s.candidate
    ensures TargetsExact(r, loose)
  {
  }

  lemma EntryRemovedGraph(s: State, home: nat, looseEntries: set<EntryId>, looseTargets: set<Name>, e: EntryId)
    requires Graph(s, home, looseEntries, looseTargets) && e in s.entries && s.entries[e].uses == 0
    ensures Graph(EntryRemoved(s, e), home, looseEntries - {e}, looseTargets)
  {
    hide EntriesExact, TargetsExact, TargetsResolvable, Shaped, CandidateShaped, DepsListed, QueueExact, DepsKnown,
         Unlink;
    var r := EntryRemoved(s, e);
    UnusedEntry(s, looseEntries, e);
    FewerEntries(s, r, looseEntries, looseEntries - {e}, e);
    UnusedUnneeded(s, r, e);
    TargetsExactKept(s, r, looseTargets);
    ListsKept(s, r);
    ListedKept(s, r, home);
    EntryRemovedQueue(s, e);
  }

  lemma EntryAddedQueue(s: State, e: EntryId, kind: QueryKind, owned: bool)
    requires QueueExact(s) && e !in s.entries
    ensures QueueExact(EntryAdded(s, e, kind, owned))
  {
    if owned {
      Extended(s.queue, e, s.queue + [e]);
    }
  }

  /** Nobody uses an entry that is not there yet. */
  lemma NewcomerUnused(s: State, e: EntryId)
    requires TargetsResolvable(s) && e !in s.entries
    ensures Users(s.targets, e) == {}
  {
    assert forall n :: n in s.targets ==> Resolvable(s.targets[n].origin, s.entries);
  }

  lemma MoreKnown(s: State, r: State, e: EntryId, kind: QueryKind, owned: bool)
    requires DepsKnown(s) && TargetsResolvable(s) && e !in s.entries
    requires r.entries == s.entries[e := NewEntry(kind, owned)] && r.deps == s.deps && r.targets == s.targets
             && r.nextDep == s.nextDep && r.destinations == s.destinations
    ensures DepsKnown(r) && TargetsResolvable(r)
  {
  }

  lemma MoreEntries(s: State, r: State, loose: set<EntryId>, e: EntryId, kind: QueryKind, owned: bool)
    requires EntriesExact(s, loose) && DepsKnown(s) && TargetsResolvable(s) && e !in s.entries && (owned ==> !kind.SRV?)
    requires r.entries == s.entries[e := NewEntry(kind, owned)] && r.deps == s.deps && r.targets == s.targets
             && r.nextDep == s.nextDep && r.destinations == s.destinations
    ensures EntriesExact(r, loose + {e}) && DepsKnown(r) && TargetsResolvable(r)
  {
    hide Users, TargetsResolvable;
    MoreKnown(s, r, e, kind, owned);
    NewcomerUnused(s, e);
    forall k | k in r.entries
      ensures EntryExact(r.entries[k], k, r.deps, r.targets, loose + {e})
    {
      if k != e {
        assert EntryExact(s.entries[k], k, s.deps, s.targets, loose);
      }
    }
  }

  lemma EntryAddedGraph(s: State, home: nat, looseEntries: set<EntryId>, looseTargets: set<Name>, e: EntryId,
      kind: QueryKind, owned: bool)
    requires Graph(s, home, looseEntries, looseTargets) && e !in s.entries && (owned ==> !kind.SRV?)
    ensures Graph(EntryAdded(s, e, kind, owned), home, looseEntries + {e}, looseTargets)
  {
    hide EntriesExact, TargetsExact, TargetsResolvable, Shaped, CandidateShaped, DepsListed, QueueExact, DepsKnown;
    var r := EntryAdded(s, e, kind, owned);
    MoreEntries(s, r, looseEntries, e, kind, owned);
    TargetsExactKept(s, r, looseTargets);
    ListsKept(s, r);
    ListedKept(s, r, home);
    EntryAddedQueue(s, e, kind, owned);
  }

  // ---------------------------------------------------------------- targets

  function More(x: Entry): (r: Entry) {
    x.(uses := x.uses + 1)
  }

  function Less(x: Entry): (r: Entry) {
    x.(uses := if x.uses > 0 then x.uses - 1 else 0)
  }

  /** A new target refers to its two address entries; no set contains it yet. */
  function TargetAdded(s: State, n: Name, origin: Origin): (r: State)
    requires Resolvable(origin, s.entries)
  {
    var t := s.(targets := s.targets[n := Target(origin, 0)]);
    if origin.Dns? then
      t.(entries := s.entries[origin.ipv4 := More(s.entries[origin.ipv4])][origin.ipv6 := More(s.entries[origin.ipv6])])
    else t
  }

  function TargetRemoved(s: State, n: Name): (r: State)
    requires n in s.targets && Resolvable(s.targets[n].origin, s.entries)
  {
    var origin := s.targets[n].origin;
    var t := s.(targets := s.targets - {n});
    if origin.Dns? then
      t.(entries := s.entries[origin.ipv4 := Less(s.entries[origin.ipv4])][origin.ipv6 := Less(s.entries[origin.ipv6])])
    else t
  }

  ghost function Referred(origin: Origin): (r: set<EntryId>) {
    if origin.Dns? then {origin.ipv4, origin.ipv6} else {}
  }

  lemma UsersAdded(targets: map<Name, Target>, n: Name, origin: Origin, e: EntryId)
    requires n !in targets
    ensures |Users(targets[n := Target(origin, 0)], e)| == |Users(targets, e)|
            + (if e in Referred(origin) then 1 else 0)
  {
    var grown := targets[n := Target(origin, 0)];
    assert n !in Users(targets, e);
    assert Uses(grown[n], e) <==> e in Referred(origin);
    assert forall o :: o in targets ==> grown[o] == targets[o];
    if e in Referred(origin) {
      assert Users(grown, e) == Users(targets, e) + {n};
    } else {
      assert Users(grown, e) == Users(targets, e);
    }
  }

  /** What adding or removing a target leaves alone. */
  ghost predicate SameButUses(s: State, r: State) {
    && r.deps == s.deps && r.destinations == s.destinations && r.candidate == s.candidate && r.nextDep == s.nextDep
       && r.queue == s.queue
    && r.terminalCount == s.terminalCount
    && (forall e :: e in r.entries <==> e in s.entries)
    && (forall e :: e in r.entries && e in s.entries ==> r.entries[e] == s.entries[e].(uses := r.entries[e].uses))
  }

  lemma TargetAddedFrame(s: State, n: Name, origin: Origin)
    requires Resolvable(origin, s.entries)
    ensures var r := TargetAdded(s, n, origin);
            && SameButUses(s, r) && r.targets == s.targets[n := Target(origin, 0)]
            && (forall e :: e in r.entries ==>
               e in s.entries && r.entries[e].uses == s.entries[e].uses + (if e in Referred(origin) then 1 else 0))
  {
  }

  lemma TargetRemovedFrame(s: State, n: Name)
    requires n in s.targets && Resolvable(s.targets[n].origin, s.entries)
    requires forall e :: e in Referred(s.targets[n].origin) ==> e in s.entries && s.entries[e].uses > 0
    ensures var r := TargetRemoved(s, n);
            && SameButUses(s, r) && r.targets == s.targets - {n}
            && (forall e :: e in r.entries ==>
               e in s.entries && r.entries[e].uses
                 == s.entries[e].uses - (if e in Referred(s.targets[n].origin) then 1 else 0))
  {
  }

  lemma TargetAddedEntries(s: State, loose: set<EntryId>, n: Name, origin: Origin)
    requires EntriesExact(s, loose) && n !in s.targets && Resolvable(origin, s.entries)
    ensures EntriesExact(TargetAdded(s, n, origin), loose - Referred(origin))
  {
    hide TargetAdded, Users;
    TargetAddedFrame(s, n, origin);
    var r := TargetAdded(s, n, origin);
    forall k | k in r.entries
      ensures EntryExact(r.entries[k], k, r.deps, r.targets, loose - Referred(origin))
    {
      assert EntryExact(s.entries[k], k, s.deps, s.targets, loose);
      UsersAdded(s.targets, n, origin, k);
    }
  }

  lemma UsersRemoved(targets: map<Name, Target>, n: Name, e: EntryId)
    requires n in targets
    ensures |Users(targets - {n}, e)| == |Users(targets, e)| - (if e in Referred(targets[n].origin) then 1 else 0)
  {
    assert Users(targets, e) == if e in Referred(targets[n].origin) then Users(targets - {n}, e) + {n}
                                else Users(targets - {n}, e);
  }

  lemma ReferredUsed(s: State, loose: set<EntryId>, n: Name)
    requires EntriesExact(s, loose) && n in s.targets && Resolvable(s.targets[n].origin, s.entries)
    ensures forall e :: e in Referred(s.targets[n].origin) ==> e in s.entries && s.entries[e].uses > 0
  {
    forall e | e in Referred(s.targets[n].origin)
      ensures s.entries[e].uses > 0
    {
      assert EntryExact(s.entries[e], e, s.deps, s.targets, loose);
      UsersRemoved(s.targets, n, e);
    }
  }

  lemma TargetRemovedEntries(s: State, loose: set<EntryId>, n: Name)
    requires EntriesExact(s, loose) && n in s.targets && Resolvable(s.targets[n].origin, s.entries)
    ensures forall e :: e in Referred(s.targets[n].origin) ==> e in s.entries && s.entries[e].uses > 0
    ensures EntriesExact(TargetRemoved(s, n), loose + Referred(s.targets[n].origin))
  {
    hide TargetRemoved, Users;
    ReferredUsed(s, loose, n);
    TargetRemovedFrame(s, n);
    var r := TargetRemoved(s, n);
    forall k | k in r.entries
      ensures EntryExact(r.entries[k], k, r.deps, r.targets, loose + Referred(s.targets[n].origin))
    {
      assert EntryExact(s.entries[k], k, s.deps, s.targets, loose);
      UsersRemoved(s.targets, n, k);
    }
  }

  lemma SameEntryKinds(s: State, r: State)
    requires DepsKnown(s) && r.deps == s.deps && r.nextDep == s.nextDep && |r.destinations| == |s.destinations|
    requires forall e :: e in s.entries ==> e in r.entries && r.entries[e].kind == s.entries[e].kind
    ensures DepsKnown(r)
  {
  }

  lemma TargetAddedTargets(s: State, loose: set<Name>, n: Name, origin: Origin)
    requires TargetsExact(s, loose) && TargetsResolvable(s) && Shaped(s)
             && (forall o :: o in s.candidate.names ==> o in s.targets)
    requires n !in s.targets && Resolvable(origin, s.entries)
    ensures TargetsExact(TargetAdded(s, n, origin), loose + {n}) && TargetsResolvable(TargetAdded(s, n, origin))
  {
    hide TargetAdded;
    TargetAddedFrame(s, n, origin);
    var r := TargetAdded(s, n, origin);
    forall k: nat | k <= |s.destinations|
      ensures n !in NamesAt(s.destinations, s.candidate, k)
    {
      if k < |s.destinations| {
        assert DestShaped(s.destinations[k], k, s.deps, s.targets);
      }
    }
    assert Holders(s.destinations, s.candidate, n) == {};
    forall o | o in r.targets
      ensures Resolvable(r.targets[o].origin, r.entries)
    {
      if o != n {
        assert Resolvable(s.targets[o].origin, s.entries);
      }
    }
  }

  lemma TargetAddedGraph(s: State, home: nat, looseEntries: set<EntryId>, looseTargets: set<Name>, n: Name,
      origin: Origin)
    requires Graph(s, home, looseEntries, looseTargets) && n !in s.targets && Resolvable(origin, s.entries)
    ensures Graph(TargetAdded(s, n, origin), home, looseEntries - Referred(origin), looseTargets + {n})
  {
    hide EntriesExact, TargetsExact, TargetsResolvable, Shaped, CandidateShaped, DepsListed, QueueExact, DepsKnown,
         TargetAdded;
    CandidateNames(s, home);
    TargetAddedFrame(s, n, origin);
    var r := TargetAdded(s, n, origin);
    TargetAddedEntries(s, looseEntries, n, origin);
    TargetAddedTargets(s, looseTargets, n, origin);
    SameEntryKinds(s, r);
    ListsKept(s, r);
    ListedKept(s, r, home);
    QueueKept(s, r);
  }

  lemma CandidateNames(s: State, home: nat)
    requires CandidateShaped(s, home)
    ensures forall o :: o in s.candidate.names ==> o in s.targets
  {
  }

  /** A target in no set can go. */
  lemma UnheldTarget(s: State, loose: set<Name>, n: Name)
    requires TargetsExact(s, loose) && n in s.targets && s.targets[n].uses == 0
    ensures forall k: nat :: k < |s.destinations| ==> n !in s.destinations[k].targets.names
    ensures n !in s.candidate.names
  {
    assert Holders(s.destinations, s.candidate, n) == {};
    forall k: nat | k < |s.destinations|
      ensures n !in s.destinations[k].targets.names
    {
      assert k !in Holders(s.destinations, s.candidate, n);
      assert n !in NamesAt(s.destinations, s.candidate, k);
    }
    assert |s.destinations| !in Holders(s.destinations, s.candidate, n);
    assert n !in NamesAt(s.destinations, s.candidate, |s.destinations|);
  }

  lemma TargetRemovedShape(s: State, home: nat, n: Name)
    requires Shaped(s) && CandidateShaped(s, home) && DepsListed(s, home) && n in s.targets
             && Resolvable(s.targets[n].origin, s.entries)
    requires forall k: nat :: k < |s.destinations| ==> n !in s.destinations[k].targets.names
    requires n !in s.candidate.names
    ensures Shaped(TargetRemoved(s, n)) && CandidateShaped(TargetRemoved(s, n), home)
            && DepsListed(TargetRemoved(s, n), home)
  {
    var r := TargetRemoved(s, n);
    forall k: nat | k < |r.destinations|
      ensures DestShaped(r.destinations[k], k, r.deps, r.targets)
    {
      assert DestShaped(s.destinations[k], k, s.deps, s.targets);
    }
    forall o | o in r.deps && r.deps[o].dest < |r.destinations|
      ensures DepListed(r, home, o)
    {
      assert DepListed(s, home, o);
    }
  }

  lemma TargetRemovedTargets(s: State, loose: set<Name>, n: Name)
    requires TargetsExact(s, loose) && TargetsResolvable(s) && n in s.targets
             && Resolvable(s.targets[n].origin, s.entries)
    ensures TargetsExact(TargetRemoved(s, n), loose - {n}) && TargetsResolvable(TargetRemoved(s, n))
  {
  }

  lemma TargetResolvable(s: State, n: Name)
    requires TargetsResolvable(s) && n in s.targets
    ensures Resolvable(s.targets[n].origin, s.entries)
  {
  }

  lemma TargetRemovedGraph(s: State, home: nat, looseEntries: set<EntryId>, looseTargets: set<Name>, n: Name)
    requires Graph(s, home, looseEntries, looseTargets) && n in s.targets && s.targets[n].uses == 0
    ensures Resolvable(s.targets[n].origin, s.entries)
    ensures forall e :: e in Referred(s.targets[n].origin) ==> s.entries[e].uses > 0
    ensures Graph(TargetRemoved(s, n), home, looseEntries + Referred(s.targets[n].origin), looseTargets - {n})
  {
    hide EntriesExact, TargetsExact, TargetsResolvable, Shaped, CandidateShaped, DepsListed, QueueExact, DepsKnown,
         TargetRemoved;
    TargetResolvable(s, n);
    var r := TargetRemoved(s, n);
    TargetRemovedEntries(s, looseEntries, n);
    TargetRemovedFrame(s, n);
    UnheldTarget(s, looseTargets, n);
    TargetRemovedShape(s, home, n);
    TargetRemovedTargets(s, looseTargets, n);
    SameEntryKinds(s, r);
    QueueKept(s, r);
  }

  function TargetUsed(s: State, n: Name, uses: nat): (r: State)
    requires n in s.targets
  {
    s.(targets := s.targets[n := s.targets[n].(uses := uses)])
  }

  /** A target joins the candidate. */
  function TargetHeld(s: State, n: Name): (r: State)
    requires n in s.targets
  {
    TargetUsed(s, n, s.targets[n].uses + 1).(candidate := s.candidate.(names := s.candidate.names + [n]))
  }

  /** The first remaining target of a set that is being dissolved leaves it. */
  function FirstTargetDropped(s: State, i: nat): (r: State)
    requires i < |s.destinations| && s.destinations[i].targets.names != []
             && s.destinations[i].targets.names[0] in s.targets
  {
    var targets := s.destinations[i].targets;
    var n := targets.names[0];
    WithTargets(TargetUsed(s, n, if s.targets[n].uses > 0 then s.targets[n].uses - 1 else 0), i,
      targets.(names := targets.names[1..]))
  }

  lemma HoldersJoined(destinations: seq<Destination>, candidate: TargetSet, n: Name, o: Name)
    requires n !in candidate.names
    ensures var joined := candidate.(names := candidate.names + [n]);
            |Holders(destinations, joined, o)| == |Holders(destinations, candidate, o)| + if o == n then 1 else 0
  {
    var joined, size := candidate.(names := candidate.names + [n]), |destinations|;
    assert forall k: nat :: k < size ==> NamesAt(destinations, joined, k) == NamesAt(destinations, candidate, k);
    assert NamesAt(destinations, candidate, size) == candidate.names
           && NamesAt(destinations, joined, size) == joined.names;
    hide NamesAt;
    if o == n {
      assert size !in Holders(destinations, candidate, n);
      assert Holders(destinations, joined, n) == Holders(destinations, candidate, n) + {size};
    } else {
      assert Holders(destinations, joined, o) == Holders(destinations, candidate, o);
    }
  }

  lemma TargetHeldTargets(s: State, loose: set<Name>, n: Name)
    requires TargetsExact(s, loose) && TargetsResolvable(s) && n in s.targets && n !in s.candidate.names
    ensures TargetsExact(TargetHeld(s, n), loose - {n}) && TargetsResolvable(TargetHeld(s, n))
  {
    hide Holders;
    var r := TargetHeld(s, n);
    forall o | o in r.targets
      ensures r.targets[o].uses == |Holders(r.destinations, r.candidate, o)|
              && (r.targets[o].uses > 0 || o in loose - {n})
    {
      HoldersJoined(s.destinations, s.candidate, n, o);
    }
  }

  lemma UsedEntries(s: State, loose: set<EntryId>, n: Name, uses: nat)
    requires EntriesExact(s, loose) && n in s.targets
    ensures EntriesExact(TargetUsed(s, n, uses), loose)
  {
    var r := TargetUsed(s, n, uses);
    forall k | k in r.entries
      ensures EntryExact(r.entries[k], k, r.deps, r.targets, loose)
    {
      assert EntryExact(s.entries[k], k, s.deps, s.targets, loose);
      assert Users(r.targets, k) == Users(s.targets, k);
    }
  }

  lemma TargetHeldShape(s: State, home: nat, n: Name)
    requires CandidateShaped(s, home) && DepsListed(s, home) && n in s.targets && n !in s.candidate.names
    ensures CandidateShaped(TargetHeld(s, n), home) && DepsListed(TargetHeld(s, n), home)
  {
    var r := TargetHeld(s, n);
    Extended(s.candidate.names, n, s.candidate.names + [n]);
    forall o | o in r.deps && r.deps[o].dest < |r.destinations|
      ensures DepListed(r, home, o)
    {
      assert DepListed(s, home, o);
    }
  }

  lemma TargetHeldGraph(s: State, home: nat, looseEntries: set<EntryId>, looseTargets: set<Name>, n: Name)
    requires Graph(s, home, looseEntries, looseTargets) && n in s.targets && n !in s.candidate.names
    ensures Graph(TargetHeld(s, n), home, looseEntries, looseTargets - {n})
  {
    hide EntriesExact, TargetsExact, TargetsResolvable, Shaped, CandidateShaped, DepsListed, QueueExact, DepsKnown;
    var r := TargetHeld(s, n);
    UsedEntries(s, looseEntries, n, s.targets[n].uses + 1);
    EntriesIgnore(TargetUsed(s, n, s.targets[n].uses + 1), looseEntries, r);
    TargetHeldTargets(s, looseTargets, n);
    SameEntryKinds(s, r);
    ListsKept(s, r);
    TargetHeldShape(s, home, n);
    QueueKept(s, r);
  }

  lemma SizeWithout<T>(a: set<T>, x: T)
    ensures |a| == |a - {x}| + (if x in a then 1 else 0)
  {
    if x in a {
      assert a == (a - {x}) + {x};
    } else {
      assert a == a - {x};
    }
  }

  /** Two lists of sets that differ in one set only. */
  lemma HoldersApart(destinations: seq<Destination>, changed: seq<Destination>, candidate: TargetSet, i: nat, o: Name)
    requires |changed| == |destinations| && i < |destinations|
    requires forall k: nat :: k != i ==> NamesAt(changed, candidate, k) == NamesAt(destinations, candidate, k)
    ensures Holders(destinations, candidate, o) - {i} == Holders(changed, candidate, o) - {i}
    ensures i in Holders(destinations, candidate, o) <==> o in NamesAt(destinations, candidate, i)
    ensures i in Holders(changed, candidate, o) <==> o in NamesAt(changed, candidate, i)
  {
    hide NamesAt;
  }

  lemma FirstNameDropped(destinations: seq<Destination>, candidate: TargetSet, i: nat, dropped: seq<Destination>,
      o: Name)
    requires i < |destinations| && destinations[i].targets.names != [] && Distinct(destinations[i].targets.names)
    requires |dropped| == |destinations| && dropped[i].targets.names == destinations[i].targets.names[1..]
    requires forall k: nat :: k < |destinations| && k != i ==> dropped[k] == destinations[k]
    ensures |Holders(destinations, candidate, o)| == |Holders(dropped, candidate, o)|
            + (if o == destinations[i].targets.names[0] then 1 else 0)
  {
    DropsFirst(destinations[i].targets.names);
    HoldersApart(destinations, dropped, candidate, i, o);
    hide Holders;
    SizeWithout(Holders(destinations, candidate, o), i);
    SizeWithout(Holders(dropped, candidate, o), i);
  }

  lemma FirstTargetDroppedTargets(s: State, loose: set<Name>, i: nat)
    requires TargetsExact(s, loose) && TargetsResolvable(s) && i < |s.destinations|
             && s.destinations[i].targets.names != []
    requires Distinct(s.destinations[i].targets.names) && s.destinations[i].targets.names[0] in s.targets
    ensures s.targets[s.destinations[i].targets.names[0]].uses > 0
    ensures TargetsExact(FirstTargetDropped(s, i), loose + {s.destinations[i].targets.names[0]})
            && TargetsResolvable(FirstTargetDropped(s, i))
  {
    hide Holders;
    var r := FirstTargetDropped(s, i);
    forall o | o in r.targets
      ensures |Holders(s.destinations, s.candidate, o)| == |Holders(r.destinations, r.candidate, o)|
              + (if o == s.destinations[i].targets.names[0] then 1 else 0)
    {
      FirstNameDropped(s.destinations, s.candidate, i, r.destinations, o);
    }
  }

  lemma FirstTargetDroppedShape(s: State, i: nat)
    requires Shaped(s) && CandidateShaped(s, i) && DepsListed(s, i) && i < |s.destinations|
             && s.destinations[i].targets.names != []
    ensures Distinct(s.destinations[i].targets.names) && s.destinations[i].targets.names[0] in s.targets
    ensures Shaped(FirstTargetDropped(s, i)) && CandidateShaped(FirstTargetDropped(s, i), i)
            && DepsListed(FirstTargetDropped(s, i), i)
  {
    assert DestShaped(s.destinations[i], i, s.deps, s.targets);
    DropsFirst(s.destinations[i].targets.names);
    var r := FirstTargetDropped(s, i);
    forall k: nat | k < |r.destinations|
      ensures DestShaped(r.destinations[k], k, r.deps, r.targets)
    {
      assert DestShaped(s.destinations[k], k, s.deps, s.targets);
    }
    forall o | o in r.deps && r.deps[o].dest < |r.destinations|
      ensures DepListed(r, i, o)
    {
      assert DepListed(s, i, o);
    }
  }

  lemma FirstTargetDroppedGraph(s: State, i: nat, looseEntries: set<EntryId>, looseTargets: set<Name>)
    requires Graph(s, i, looseEntries, looseTargets) && i < |s.destinations| && s.destinations[i].targets.names != []
    ensures var n := s.destinations[i].targets.names[0];
            && n in s.targets && s.targets[n].uses > 0
            && Graph(FirstTargetDropped(s, i), i, looseEntries, looseTargets + {n})
  {
    hide EntriesExact, TargetsExact, TargetsResolvable, Shaped, CandidateShaped, DepsListed, QueueExact, DepsKnown;
    FirstTargetDroppedShape(s, i);
    var n := s.destinations[i].targets.names[0];
    var r := FirstTargetDropped(s, i);
    FirstTargetDroppedTargets(s, looseTargets, i);
    UsedEntries(s, looseEntries, n, s.targets[n].uses - 1);
    EntriesIgnore(TargetUsed(s, n, s.targets[n].uses - 1), looseEntries, r);
    SameEntryKinds(s, r);
    QueueKept(s, r);
  }

  // ---------------------------------------------------------------- flags and counters

  /** Changes the graph does not see: dependency and entry flags, and the destinations' counters. */
  ghost predicate OnlyFlags(s: State, r: State) {
    && r.targets == s.targets && r.candidate == s.candidate && r.nextDep == s.nextDep && r.queue == s.queue
    && r.entries.Keys == s.entries.Keys && r.deps.Keys == s.deps.Keys && |r.destinations| == |s.destinations|
    && (forall e :: e in s.entries ==> EntryFlags(s.entries[e], r.entries[e]))
    && (forall d :: d in s.deps ==>
       r.deps[d] == s.deps[d].(pending := r.deps[d].pending, positive := r.deps[d].positive))
    && (forall i: nat :: i < |s.destinations| ==> DestFlags(s.destinations[i], r.destinations[i]))
  }

  predicate EntryFlags(x: Entry, y: Entry) {
    && y == x.(interest := y.interest, positive := y.positive, terminal := y.terminal)
    && (x.queued ==> y.interest == x.interest && y.terminal == x.terminal)
  }

  predicate DestFlags(x: Destination, y: Destination) {
    y == x.(expanded := y.expanded, firstTerminal := y.firstTerminal, pending := y.pending, positive := y.positive,
      result := y.result)
  }

  lemma FlagsEntries(s: State, r: State, loose: set<EntryId>)
    requires EntriesExact(s, loose) && OnlyFlags(s, r)
    ensures EntriesExact(r, loose)
  {
    forall k | k in r.entries
      ensures EntryExact(r.entries[k], k, r.deps, r.targets, loose)
    {
      assert EntryExact(s.entries[k], k, s.deps, s.targets, loose);
      assert EntryFlags(s.entries[k], r.entries[k]);
      assert forall o :: LinkedTo(r.deps, o, k) <==> LinkedTo(s.deps, o, k);
    }
  }

  lemma FlagsShape(s: State, r: State, home: nat)
    requires Shaped(s) && CandidateShaped(s, home) && OnlyFlags(s, r)
    ensures Shaped(r) && CandidateShaped(r, home)
  {
    forall k: nat | k < |r.destinations|
      ensures DestShaped(r.destinations[k], k, r.deps, r.targets)
    {
      assert DestShaped(s.destinations[k], k, s.deps, s.targets);
      assert DestFlags(s.destinations[k], r.destinations[k]);
      assert forall d, source :: DepAt(s.deps, d, k, source) ==> DepAt(r.deps, d, k, source);
    }
    assert forall d :: DepAt(s.deps, d, home, true) ==> DepAt(r.deps, d, home, true);
    if home < |s.destinations| {
      assert DestFlags(s.destinations[home], r.destinations[home]);
    }
  }

  lemma FlagsRest(s: State, r: State, home: nat)
    requires DepsKnown(s) && DepsListed(s, home) && QueueExact(s) && OnlyFlags(s, r)
    ensures DepsKnown(r) && DepsListed(r, home) && QueueExact(r)
  {
    forall d | d in r.deps && r.deps[d].dest < |r.destinations|
      ensures DepListed(r, home, d)
    {
      assert DepListed(s, home, d);
      assert DestFlags(s.destinations[s.deps[d].dest], r.destinations[s.deps[d].dest]);
    }
    assert forall e :: e in s.entries ==> EntryFlags(s.entries[e], r.entries[e]);
  }

  lemma FlagsTargets(s: State, r: State, loose: set<Name>)
    requires TargetsExact(s, loose) && TargetsResolvable(s) && OnlyFlags(s, r)
    ensures TargetsExact(r, loose) && TargetsResolvable(r)
  {
    assert forall i: nat :: i < |s.destinations| ==> DestFlags(s.destinations[i], r.destinations[i]);
    assert forall e :: e in s.entries ==> EntryFlags(s.entries[e], r.entries[e]);
    TargetsSameNames(s, r, loose);
  }

  lemma FlagsGraph(s: State, r: State, home: nat, looseEntries: set<EntryId>, looseTargets: set<Name>)
    requires Graph(s, home, looseEntries, looseTargets) && OnlyFlags(s, r)
    ensures Graph(r, home, looseEntries, looseTargets)
  {
    hide EntriesExact, TargetsExact, TargetsResolvable, Shaped, CandidateShaped, DepsListed, QueueExact, DepsKnown,
         OnlyFlags;
    FlagsEntries(s, r, looseEntries);
    FlagsShape(s, r, home);
    FlagsRest(s, r, home);
    FlagsTargets(s, r, looseTargets);
  }

  function Dequeued(s: State, e: EntryId): (r: State)
    requires e in s.entries
  {
    s.(entries := s.entries[e := s.entries[e].(queued := false)], queue := Unlink(s.queue, e))
  }

  lemma DequeuedQueue(s: State, e: EntryId)
    requires QueueExact(s) && e in s.entries
    ensures QueueExact(Dequeued(s, e))
  {
    UnlinkDistinct(s.queue, e);
  }

  lemma DequeuedEntries(s: State, e: EntryId, loose: set<EntryId>)
    requires EntriesExact(s, loose) && e in s.entries
    ensures EntriesExact(Dequeued(s, e), loose)
  {
    var r := Dequeued(s, e);
    forall k | k in r.entries
      ensures EntryExact(r.entries[k], k, r.deps, r.targets, loose)
    {
      assert EntryExact(s.entries[k], k, s.deps, s.targets, loose);
    }
  }

  lemma DequeuedGraph(s: State, home: nat, looseEntries: set<EntryId>, looseTargets: set<Name>, e: EntryId)
    requires Graph(s, home, looseEntries, looseTargets) && e in s.entries
    ensures Graph(Dequeued(s, e), home, looseEntries, looseTargets)
  {
    hide EntriesExact, TargetsExact, TargetsResolvable, Shaped, CandidateShaped, DepsListed, QueueExact, DepsKnown,
         Unlink;
    var r := Dequeued(s, e);
    DequeuedEntries(s, e, looseEntries);
    TargetsKept(s, r, looseTargets);
    SameEntryKinds(s, r);
    ListsKept(s, r);
    ListedKept(s, r, home);
    DequeuedQueue(s, e);
  }

  // ---------------------------------------------------------------- installing the candidate

  /** The linked candidate becomes the destination's target set. */
  function Installed(s: State, i: nat): (r: State)
    requires i < |s.destinations|
  {
    WithTargets(s, i, s.candidate).(candidate := NO_TARGETS)
  }

  lemma InstalledHolders(destinations: seq<Destination>, candidate: TargetSet, i: nat, installed: seq<Destination>,
      n: Name)
    requires i < |destinations| && destinations[i].targets.names == []
    requires installed == destinations[i := destinations[i].(targets := candidate)]
    ensures |Holders(installed, NO_TARGETS, n)| == |Holders(destinations, candidate, n)|
  {
    var size := |destinations|;
    assert forall k: nat :: k < size && k != i ==>
           NamesAt(installed, NO_TARGETS, k) == NamesAt(destinations, candidate, k);
    assert NamesAt(installed, NO_TARGETS, i) == candidate.names == NamesAt(destinations, candidate, size);
    assert NamesAt(installed, NO_TARGETS, size) == [] == NamesAt(destinations, candidate, i);
    hide NamesAt;
    var before := Holders(destinations, candidate, n);
    var after := Holders(installed, NO_TARGETS, n);
    assert size in before <==> n in candidate.names;
    assert i in after <==> n in candidate.names;
    assert i !in before && size !in after;
    assert before - {size} == after - {i};
    SizeWithout(before, size);
    SizeWithout(after, i);
  }

  lemma InstalledTargets(s: State, i: nat, loose: set<Name>)
    requires TargetsExact(s, loose) && TargetsResolvable(s) && i < |s.destinations|
             && s.destinations[i].targets.names == []
    ensures TargetsExact(Installed(s, i), loose) && TargetsResolvable(Installed(s, i))
  {
    hide Holders;
    var r := Installed(s, i);
    forall n | n in r.targets
      ensures |Holders(r.destinations, r.candidate, n)| == |Holders(s.destinations, s.candidate, n)|
    {
      InstalledHolders(s.destinations, s.candidate, i, r.destinations, n);
    }
  }

  lemma InstalledShape(s: State, i: nat)
    requires Shaped(s) && CandidateShaped(s, i) && DepsListed(s, i) && i < |s.destinations| && s.destinations[i].srv
    requires s.destinations[i].targets.deps == []
    ensures Shaped(Installed(s, i)) && CandidateShaped(Installed(s, i), i) && DepsListed(Installed(s, i), i)
  {
    var r := Installed(s, i);
    forall k: nat | k < |r.destinations|
      ensures DestShaped(r.destinations[k], k, r.deps, r.targets)
    {
      assert DestShaped(s.destinations[k], k, s.deps, s.targets);
    }
    forall d | d in r.deps && r.deps[d].dest < |r.destinations|
      ensures DepListed(r, i, d)
    {
      assert DepListed(s, i, d);
    }
  }

  lemma InstalledGraph(s: State, i: nat, looseEntries: set<EntryId>, looseTargets: set<Name>)
    requires Graph(s, i, looseEntries, looseTargets) && i < |s.destinations| && s.destinations[i].srv
    requires s.destinations[i].targets.deps == [] && s.destinations[i].targets.names == []
    ensures Graph(Installed(s, i), i, looseEntries, looseTargets)
  {
    hide EntriesExact, TargetsExact, TargetsResolvable, Shaped, CandidateShaped, DepsListed, QueueExact, DepsKnown;
    var r := Installed(s, i);
    EntriesIgnore(s, looseEntries, r);
    InstalledTargets(s, i, looseTargets);
    SameEntryKinds(s, r);
    InstalledShape(s, i);
    QueueKept(s, r);
  }
}
