/** One generation's route resolution coordinator: it links destinations to cache entries, expands SRV
    answers into target sets, counts what is pending and positive, has a supervisor look entries up in
    the background and gates warm-up. Cache and hosts-file replies and the current time are arbitrary
    values chosen inside the methods.
 */
module Resolution {
  import opened Basics
  import opened ResolutionGraph
  import opened ResolutionCounts
  import opened ResolutionSteps
  import SupervisorState
  import SupervisorMoves
  import S = SupervisorSteps
  import Supervisor

  const SRV_RECORD_LIMIT: nat := 128
  const NAME_LIMIT: nat := 1025

  datatype OpStatus = OpOk | OpBadArgument | OpIo | OpTime
  datatype CacheView = Unreadable | Empty | FreshPositive(records: seq<SrvRecord>) | FreshNegative
  datatype Publication = Stored | Transient | Unpublished
  /** What a finished lookup brought, as far as the coordinator looks at it. */
  datatype Completion = Completion(entry: EntryId, wellFormed: bool, ok: bool, publication: Publication,
      records: seq<SrvRecord>)
  datatype CompletionStatus = CompletionOk | CompletionIgnored | CompletionBadArgument | CompletionIo | CompletionTime
  datatype PrewarmStatus = PrewarmComplete | PrewarmMore | PrewarmCapacity | PrewarmBadArgument | PrewarmIo
      | PrewarmMemory | PrewarmTime
  /** How one destination of the route table is resolved. */
  datatype Binding = Literal | NotAvailable | Address(ipv4: EntryId, ipv6: EntryId) | Service(srv: EntryId)

  function Merge(current: OpStatus, update: OpStatus): (r: OpStatus) {
    if current.OpOk? then update else current
  }

  /** The listener gives up on these. */
  predicate Fatal(status: PrewarmStatus) {
    status in {PrewarmBadArgument, PrewarmIo, PrewarmTime}
  }

  /** The mark of a background interest. */
  function Mark(holder: nat, e: EntryId): (r: SupervisorState.Marker) {
    SupervisorState.Marker(holder, e, SupervisorState.Background)
  }

  function Marks(holder: nat, held: set<EntryId>): (r: set<SupervisorState.Marker>) {
    set e | e in held :: Mark(holder, e)
  }

  /** What a supervisor counts: the background interests of one holder and those of others. */
  ghost predicate Split(markers: set<SupervisorState.Marker>, holder: nat, held: set<EntryId>,
      others: set<SupervisorState.Marker>) {
    && markers == Marks(holder, held) + others
    && forall e: EntryId :: Mark(holder, e) !in others
  }

  /** A supervisor in good order that, unless the books are broken, counts just these interests. */
  ghost predicate Booked(supervisor: Supervisor.ResolverSupervisor, holder: nat, held: set<EntryId>,
      others: set<SupervisorState.Marker>, broken: bool)
    reads supervisor
  {
    supervisor.Valid() && (!broken ==> Split(supervisor.markers, holder, held, others))
  }

  lemma MarkHeld(markers: set<SupervisorState.Marker>, holder: nat, held: set<EntryId>,
      others: set<SupervisorState.Marker>, e: EntryId)
    requires Split(markers, holder, held, others)
    ensures Mark(holder, e) in markers <==> e in held
    ensures Split(markers + {Mark(holder, e)}, holder, held + {e}, others)
    ensures Split(markers - {Mark(holder, e)}, holder, held - {e}, others)
  {
  }

  /** The interest flags of the entries are exactly what is held. */
  ghost predicate Shown(entries: map<EntryId, Entry>, held: set<EntryId>) {
    forall e :: e in held <==> e in entries && entries[e].interest
  }

  /** Entries may have gained references, nothing else. */
  ghost predicate OnlyLinks(before: map<EntryId, Entry>, after: map<EntryId, Entry>) {
    && after.Keys == before.Keys
    && forall e :: e in after ==> after[e] == before[e].(uses := after[e].uses, deps := after[e].deps)
  }

  lemma LinksSelf(entries: map<EntryId, Entry>)
    ensures OnlyLinks(entries, entries)
  {
  }

  lemma LinkedOnly(before: map<EntryId, Entry>, s: State, e: EntryId)
    requires OnlyLinks(before, s.entries) && e in s.entries && s.destinations != []
    ensures var r, i := OwnerLinked(s, e), |s.destinations| - 1;
            && OnlyLinks(before, r.entries)
            && r.destinations == s.destinations[i := s.destinations[i].(
                 owner := s.destinations[i].owner + [s.nextDep], srv := s.entries[e].kind.SRV?)]
  {
  }

  lemma LinkedKinds(before: map<EntryId, Entry>, after: map<EntryId, Entry>, e: EntryId)
    requires OnlyLinks(before, after) && e in before
    ensures e in after && after[e].kind == before[e].kind
  {
  }

  lemma ShownKept(entries: map<EntryId, Entry>, held: set<EntryId>, e: EntryId, x: Entry)
    requires e in entries && x.interest == entries[e].interest
    ensures Shown(entries, held) ==> Shown(entries[e := x], held)
  {
  }

  /** Some holder has no mark at all. */
  lemma {:induction false} Unmarked(markers: set<SupervisorState.Marker>) returns (holder: nat)
    ensures forall m :: m in markers ==> m.holder < holder
  {
    holder := 0;
    if markers != {} {
      var m :| m in markers;
      var rest := Unmarked(markers - {m});
      holder := if m.holder < rest then rest else m.holder + 1;
    }
  }

  class RouteResolution {
    const supervisor: Supervisor.ResolverSupervisor
    /** Who this coordinator is to the supervisor. */
    ghost const holder: nat
    const bindings: seq<EntryId>
    var entries: map<EntryId, Entry>
    var deps: map<DepId, Dependency>
    var targets: map<Name, Target>
    var destinations: seq<Destination>
    var queue: seq<EntryId>
    var terminalCount: nat
    var nextDep: DepId
    var prewarmed: nat
    ghost var candidate: TargetSet
    /** The entries for which the supervisor retains this coordinator's interest. */
    ghost var held: set<EntryId>
    /** The interests others have in the supervisor's entries. */
    ghost var others: set<SupervisorState.Marker>
    /** The supervisor refused a call or failed; its books are no longer this coordinator's. */
    ghost var broken: bool

    ghost function View(): (s: State)
      reads this
    {
      State(entries, deps, targets, destinations, candidate, queue, terminalCount, nextDep)
    }

    /** The local interest flags are exactly what the supervisor retains. */
    ghost predicate Ledger()
      reads this`entries, this`held, this`others, this`broken, supervisor
    {
      && Booked(supervisor, holder, held, others, broken)
      && (!broken ==> Shown(entries, held))
    }

    // -------------------------------------------------------------- releasing and removing entries

    method BackgroundRelease(e: EntryId, release: bool) returns (status: OpStatus)
      requires e in entries && Ledger() && (release || !entries[e].interest)
      modifies this`entries, this`held, this`broken, supervisor
      ensures Ledger() && (status.OpOk? ==> broken == old(broken)) && (old(broken) ==> broken) && others == old(others)
      ensures !old(entries)[e].interest ==> status.OpOk?
      ensures entries == old(entries)[e := old(entries)[e].(interest := false)]
    {
      hide Booked;
      if !entries[e].interest {
        assert entries[e].(interest := false) == entries[e];
        return OpOk;
      }
      entries := entries[e := entries[e].(interest := false)];
      var reply := SupervisorRelease(e);
      match reply {
        case ReleaseOk => status := OpOk;
        case Satisfied => status := OpOk;
        case ReleaseIo => status := OpIo;
        case ReleaseTime => status := OpTime;
        case ReleaseBadArgument => status := OpBadArgument;
      }
    }

    /** Asks the supervisor to take an interest back. */
    method SupervisorRelease(e: EntryId) returns (reply: S.ReleaseStatus)
      requires Booked(supervisor, holder, held, others, broken) && (broken || e in held)
      modifies this`held, this`broken, supervisor
      ensures Booked(supervisor, holder, held, others, broken) && held == old(held) - {e}
      ensures broken <==> old(broken) || reply in {S.ReleaseTime, S.ReleaseBadArgument}
    {
      hide SupervisorState.Inv, SupervisorState.WorkConserving, Split;
      if !broken {
        MarkHeld(supervisor.markers, holder, held, others, e);
      }
      var now: SupervisorState.Time := *;
      ghost var taken;
      reply, taken := supervisor.Release(e, SupervisorState.Background, now, Mark(holder, e));
      held := held - {e};
      broken := broken || reply in {S.ReleaseTime, S.ReleaseBadArgument};
    }

    method EntryRemove(e: EntryId, release: bool) returns (status: OpStatus)
      requires e in entries && Ledger()
      requires entries[e].uses == 0 ==> entries[e].deps == [] && (release || !entries[e].interest)
      modifies this`entries, this`queue, this`held, this`broken, supervisor
      ensures Ledger() && (status.OpOk? ==> broken == old(broken)) && (old(broken) ==> broken) && others == old(others)
      ensures !old(entries)[e].interest ==> status.OpOk?
      ensures View() == if old(entries)[e].uses == 0 then EntryRemoved(old(View()), e) else old(View())
    {
      hide Booked;
      if entries[e].uses != 0 || entries[e].deps != [] {
        return OpOk;
      }
      status := BackgroundRelease(e, release);
      UpdatedAway(old(entries), e, entries[e]);
      queue := Unlink(queue, e);
      entries := entries - {e};
    }

    /** The end of a reference: an owned entry without any goes. */
    method EntryDiscard(e: EntryId, release: bool, ghost i: nat, ghost looseEntries: set<EntryId>,
        ghost looseTargets: set<Name>) returns (status: OpStatus)
      requires Graph(View(), i, looseEntries, looseTargets) && Ledger()
      requires e in entries && (entries[e].owned && entries[e].uses == 0 ==> release || !entries[e].interest)
      modifies this`entries, this`queue, this`held, this`broken, supervisor
      ensures Graph(View(), i, looseEntries - {e}, looseTargets) && Dissolving(old(View()), View(), i)
      ensures Ledger() && (status.OpOk? ==> broken == old(broken)) && (old(broken) ==> broken) && others == old(others)
      ensures View() == old(View()).(entries := entries, queue := queue)
      ensures entries == old(entries) || entries == old(entries) - {e}
      ensures !release ==> status.OpOk?
    {
      hide Booked, Shown, Graph, Elsewhere, Unlink;
      ghost var s := View();
      SameDissolves(s, i, looseEntries, looseTargets);
      if entries[e].owned && entries[e].uses == 0 {
        EntryRemovedGraph(s, i, looseEntries, looseTargets, e);
        EntryDropDissolves(s, i, looseEntries, looseTargets, e);
        UnusedUnlinked(s, i, looseEntries, looseTargets, e);
        status := EntryRemove(e, release);
      } else {
        Tightened(s, i, looseEntries, looseTargets, e);
        status := OpOk;
      }
    }

    // -------------------------------------------------------------- dissolving a target set

    /** Unlinks the first remaining dependency of a destination's target set. */
    method DependencyUnlink(i: nat, release: bool) returns (status: OpStatus)
      requires Graph(View(), i, {}, {}) && Ledger() && i < |destinations| && destinations[i].targets.deps != []
      requires release || Silent(entries)
      modifies this, supervisor
      ensures Graph(View(), i, {}, {}) && Dissolving(old(View()), View(), i)
      ensures destinations
              == old(destinations)[i := old(destinations)[i].(targets :=
                   old(destinations)[i].targets.(deps := old(destinations)[i].targets.deps[1..]))]
      ensures Ledger() && prewarmed == old(prewarmed) && (status.OpOk? ==> broken == old(broken))
              && (old(broken) ==> broken) && others == old(others)
    {
      hide Booked, Shown, Graph, Elsewhere, Shrunk, Unlink;
      ghost var s := View();
      FirstDepDroppedGraph(s, i, {}, {});
      DepDropDissolves(s, i, {}, {});
      var ts := destinations[i].targets;
      var d := ts.deps[0];
      var e := deps[d].entry;
      ShownKept(entries, held, e, Unlinked(entries[e], d));
      entries := entries[e := Unlinked(entries[e], d)];
      deps := deps - {d};
      destinations := destinations[i := destinations[i].(targets := ts.(deps := ts.deps[1..]))];
      assert View() == FirstDepDropped(s, i);
      ghost var t := View();
      assert {} + {e} == {e} && {e} - {e} == {};
      status := EntryDiscard(e, release, i, {e}, {});
      DissolvingTrans(s, t, View(), i);
    }

    /** Removes a target that no set contains, and the entries only it referred to. */
    method TargetRemove(n: Name, release: bool, ghost i: nat, ghost looseTargets: set<Name>) returns (status: OpStatus)
      requires Graph(View(), i, {}, looseTargets) && Ledger() && n in targets && targets[n].uses == 0
      requires release || LastReferencesQuiet(View(), n)
      modifies this, supervisor
      ensures Graph(View(), i, {}, looseTargets - {n}) && Dissolving(old(View()), View(), i)
      ensures targets == old(targets) - {n} && destinations == old(destinations) && deps == old(deps)
      ensures forall e :: e in entries ==> e in old(entries) && entries[e] == old(entries)[e].(uses := entries[e].uses)
      ensures !release ==> status.OpOk?
      ensures Ledger() && prewarmed == old(prewarmed) && (status.OpOk? ==> broken == old(broken))
              && (old(broken) ==> broken) && others == old(others)
    {
      hide Booked, Shown, Graph, Elsewhere, Shrunk, Unlink;
      ghost var s := View();
      TargetRemovedGraph(s, i, {}, looseTargets, n);
      TargetGoneDissolves(s, i, {}, looseTargets, n);
      TargetRemovedFrame(s, n);
      TargetReferences(s, i, looseTargets, n);
      var origin := targets[n].origin;
      TargetDrop(n);
      ghost var t := View();
      status := OpOk;
      if origin.Dns? {
        assert {} + Referred(origin) == {origin.ipv4, origin.ipv6};
        status := EntryDiscard(origin.ipv4, release, i, {origin.ipv4, origin.ipv6}, looseTargets - {n});
        assert {origin.ipv4, origin.ipv6} - {origin.ipv4} == {origin.ipv6};
        ghost var u := View();
        DissolvingTrans(s, t, u, i);
        var last := EntryDiscard(origin.ipv6, release, i, {origin.ipv6}, looseTargets - {n});
        assert {origin.ipv6} - {origin.ipv6} == {};
        status := Merge(status, last);
        DissolvingTrans(s, u, View(), i);
      } else {
        assert {} + Referred(origin) == {};
      }
    }

    /** Takes a target off the table, and its references to entries. */
    method TargetDrop(n: Name)
      requires n in targets && Resolvable(targets[n].origin, entries) && Ledger()
      modifies this`targets, this`entries
      ensures View() == TargetRemoved(old(View()), n) && Ledger()
    {
      hide Booked, Shown;
      var origin := targets[n].origin;
      targets := targets - {n};
      if origin.Dns? {
        ShownKept(entries, held, origin.ipv4, Less(entries[origin.ipv4]));
        ShownKept(entries[origin.ipv4 := Less(entries[origin.ipv4])], held, origin.ipv6, Less(entries[origin.ipv6]));
        entries := entries[origin.ipv4 := Less(entries[origin.ipv4])][origin.ipv6 := Less(entries[origin.ipv6])];
      }
    }

    /** Takes the first remaining target out of a destination's target set. */
    method TargetLeave(i: nat, release: bool) returns (status: OpStatus)
      requires Graph(View(), i, {}, {}) && Ledger() && i < |destinations| && destinations[i].targets.names != []
      requires release || Silent(entries)
      modifies this, supervisor
      ensures Graph(View(), i, {}, {}) && Dissolving(old(View()), View(), i)
      ensures destinations
              == old(destinations)[i := old(destinations)[i].(targets :=
                   old(destinations)[i].targets.(names := old(destinations)[i].targets.names[1..]))]
      ensures Ledger() && prewarmed == old(prewarmed) && (status.OpOk? ==> broken == old(broken))
              && (old(broken) ==> broken) && others == old(others)
    {
      hide Booked, Shown, Graph, Elsewhere, Shrunk;
      ghost var s := View();
      FirstTargetDroppedGraph(s, i, {}, {});
      TargetDropDissolves(s, i, {}, {});
      var ts := destinations[i].targets;
      var n := ts.names[0];
      if targets[n].uses > 0 {
        targets := targets[n := targets[n].(uses := targets[n].uses - 1)];
      }
      destinations := destinations[i := destinations[i].(targets := ts.(names := ts.names[1..]))];
      ghost var t := View();
      assert t == FirstTargetDropped(s, i);
      assert {} + {n} == {n} && {n} - {n} == {};
      if targets[n].uses == 0 {
        status := TargetRemove(n, release, i, {n});
        DissolvingTrans(s, t, View(), i);
      } else {
        TightenedTarget(t, i, {}, {n}, n);
        status := OpOk;
      }
    }

    method DependenciesUnlink(i: nat, release: bool) returns (status: OpStatus)
      requires Graph(View(), i, {}, {}) && Ledger() && i < |destinations| && (release || Silent(entries))
      modifies this, supervisor
      ensures Graph(View(), i, {}, {}) && Dissolving(old(View()), View(), i)
      ensures Ledger() && prewarmed == old(prewarmed) && (status.OpOk? ==> broken == old(broken))
              && (old(broken) ==> broken) && others == old(others)
      ensures |destinations| == |old(destinations)| && destinations[i].targets.deps == []
              && (release || Silent(entries))
      ensures destinations == old(destinations)[i := old(destinations)[i].(targets := destinations[i].targets)]
    {
      hide Booked, Shown, Graph, Elsewhere, Shrunk;
      status := OpOk;
      ghost var s := View();
      SameDissolves(s, i, {}, {});
      while destinations[i].targets.deps != []
        invariant |destinations| == |s.destinations| && Graph(View(), i, {}, {}) && Dissolving(s, View(), i) && Ledger()
                  && (release || Silent(entries))
        invariant prewarmed == old(prewarmed) && (status.OpOk? ==> broken == old(broken)) && (old(broken) ==> broken)
                  && others == old(others)
        invariant destinations == s.destinations[i := s.destinations[i].(targets := destinations[i].targets)]
        decreases |destinations[i].targets.deps|
      {
        ghost var t := View();
        var step := DependencyUnlink(i, release);
        DissolvingTrans(s, t, View(), i);
        StaysSilent(t, View());
        status := Merge(status, step);
      }
    }

    method TargetsLeave(i: nat, release: bool) returns (status: OpStatus)
      requires Graph(View(), i, {}, {}) && Ledger() && i < |destinations| && (release || Silent(entries))
               && destinations[i].targets.deps == []
      modifies this, supervisor
      ensures Graph(View(), i, {}, {}) && Dissolving(old(View()), View(), i)
      ensures Ledger() && prewarmed == old(prewarmed) && (status.OpOk? ==> broken == old(broken))
              && (old(broken) ==> broken) && others == old(others)
      ensures |destinations| == |old(destinations)| && destinations[i].targets.deps == []
              && destinations[i].targets.names == []
      ensures destinations == old(destinations)[i := old(destinations)[i].(targets := destinations[i].targets)]
    {
      hide Booked, Shown, Graph, Elsewhere, Shrunk;
      status := OpOk;
      ghost var s := View();
      SameDissolves(s, i, {}, {});
      while destinations[i].targets.names != []
        invariant |destinations| == |s.destinations| && Graph(View(), i, {}, {}) && Dissolving(s, View(), i) && Ledger()
                  && (release || Silent(entries))
        invariant prewarmed == old(prewarmed) && (status.OpOk? ==> broken == old(broken)) && (old(broken) ==> broken)
                  && others == old(others)
        invariant destinations == s.destinations[i := s.destinations[i].(targets := destinations[i].targets)]
        invariant destinations[i].targets.deps == []
        decreases |destinations[i].targets.names|
      {
        ghost var t := View();
        var step := TargetLeave(i, release);
        DissolvingTrans(s, t, View(), i);
        StaysSilent(t, View());
        status := Merge(status, step);
      }
    }

    /** Dissolves a destination's target set: first its dependencies, then its targets. */
    method TargetSetUnlink(i: nat, release: bool) returns (status: OpStatus)
      requires Graph(View(), i, {}, {}) && Ledger() && i < |destinations| && (release || Silent(entries))
      modifies this, supervisor
      ensures Graph(View(), i, {}, {}) && Dissolving(old(View()), View(), i)
      ensures Ledger() && prewarmed == old(prewarmed) && (status.OpOk? ==> broken == old(broken))
              && (old(broken) ==> broken) && others == old(others)
      ensures destinations == old(destinations)[i := old(destinations)[i].(targets := NO_TARGETS)]
              && (Silent(old(entries)) ==> Silent(entries))
    {
      hide Booked, Shown, Graph, Elsewhere, Shrunk;
      ghost var s := View();
      status := DependenciesUnlink(i, release);
      ghost var t := View();
      var rest := TargetsLeave(i, release);
      status := Merge(status, rest);
      ghost var u := View();
      DissolvingTrans(s, t, u, i);
      EmptiedGraph(u, i);
      EmptiedDissolves(s, u, i);
      StaysSilent(s, u);
      destinations := destinations[i := destinations[i].(targets := NO_TARGETS)];
    }

    // -------------------------------------------------------------- deciding destinations

    method DestinationUpdate(i: nat)
      requires i < |destinations|
      modifies this`destinations, this`terminalCount
      ensures View() == DestinationUpdated(old(View()), i)
    {
      hide Booked, Shown;
      var x := destinations[i];
      if !x.expanded || x.pending != 0 {
        assert destinations[i := x] == destinations;
        return;
      }
      if x.result.Pending? {
        x := x.(result := if x.positive > 0 then Available else Unavailable);
      }
      if !x.firstTerminal {
        x := x.(firstTerminal := true);
        terminalCount := terminalCount + 1;
      }
      destinations := destinations[i := x];
    }

    /** Gives up on a destination whose SRV answer is unusable. */
    method DestinationFail(i: nat, result: Outcome, release: bool, ghost undecided: set<nat>) returns (status: OpStatus)
      requires Core(View(), undecided) && Ledger() && i < |destinations| && destinations[i].srv
               && OwnerAnswered(View(), i)
      requires release || Silent(entries)
      requires !result.Pending? && !result.Available?
      modifies this, supervisor
      ensures Core(View(), undecided - {i}) && Ledger() && prewarmed == old(prewarmed)
              && Rebuilt(old(View()), View(), i)
      ensures (status.OpOk? ==> broken == old(broken)) && (old(broken) ==> broken) && others == old(others)
      ensures destinations[i].result == result && destinations[i].targets == NO_TARGETS
              && (Silent(old(entries)) ==> Silent(entries))
    {
      hide Booked, Shown, Graph, Elsewhere, Counters, DepsExact, Shrunk;
      ghost var s := View();
      HomeFree(s, 0, i, {}, {});
      status := TargetSetUnlink(i, release);
      ghost var t := View();
      destinations := destinations[i := destinations[i].(expanded := true, pending := 0, positive := 0,
        result := result)];
      ghost var u := View();
      FailedCore(s, t, u, i, undecided);
      DestinationUpdate(i);
      DecidedCore(u, i, undecided + {i});
      assert undecided + {i} - {i} == undecided - {i};
      RebuiltBy(s, t, u, i);
    }

    // -------------------------------------------------------------- building a candidate

    /** Asks the cache for the entry of a target name; the cache never gives one entry two types. */
    method DynamicAcquire(kind: QueryKind) returns (acquired: Option<EntryId>, created: bool)
      modifies this`entries, this`queue
      ensures acquired.None? ==> !created && View() == old(View())
      ensures acquired.Some? ==> acquired.value in entries && entries[acquired.value].kind == kind
      ensures acquired.Some? ==> created == (acquired.value !in old(entries))
      ensures acquired.Some? ==>
              View() == if created then EntryAdded(old(View()), acquired.value, kind, true) else old(View())
    {
      hide Booked;
      var available: bool := *;
      var e: EntryId := *;
      if !available || (e in entries && entries[e].kind != kind) {
        return None, false;
      }
      if e in entries {
        return Some(e), false;
      }
      var enough: bool := *;
      if !enough {
        return None, false;
      }
      entries := entries[e := NewEntry(kind, true)];
      queue := queue + [e];
      return Some(e), true;
    }

    /** One lookup for a new target. */
    method DynamicPrepare(kind: QueryKind, ghost i: nat, ghost looseEntries: set<EntryId>,
        ghost looseTargets: set<Name>) returns (acquired: Option<EntryId>, created: bool)
      requires Graph(View(), i, looseEntries, looseTargets) && Ledger() && !kind.SRV?
      modifies this`entries, this`queue
      ensures Ledger() && Grown(old(View()), View())
      ensures acquired.None? ==> !created && View() == old(View())
      ensures acquired.Some? ==>
                && acquired.value in entries && entries[acquired.value].kind == kind
                && created == (acquired.value !in old(entries))
                && View() == (if created then EntryAdded(old(View()), acquired.value, kind, true) else old(View()))
                && Graph(View(), i, if created then looseEntries + {acquired.value} else looseEntries, looseTargets)
    {
      hide Booked, Graph, Grown, Unlink;
      ghost var s := View();
      GrownSelf(s);
      acquired, created := DynamicAcquire(kind);
      if created {
        EntryAddedGraph(s, i, looseEntries, looseTargets, acquired.value, kind, true);
        EntryGrows(s, acquired.value, kind);
      }
    }

    /** The two lookups of a target known only to DNS; a failure leaves no trace. */
    method DnsPrepare(ghost i: nat, ghost looseTargets: set<Name>)
        returns (origin: Option<Origin>, ghost looseEntries: set<EntryId>)
      requires Graph(View(), i, {}, looseTargets) && Ledger()
      modifies this`entries, this`queue, this`held, this`broken, supervisor
      ensures origin.None? ==> View() == old(View())
      ensures origin.Some? ==>
              origin.value.Dns? && Resolvable(origin.value, entries) && looseEntries <= Referred(origin.value)
      ensures origin.Some? ==>
              Graph(View(), i, looseEntries, looseTargets) && Grown(old(View()), View()) && targets == old(targets)
      ensures Ledger() && broken == old(broken)
    {
      hide Booked, Shown, Graph, Grown, Unlink;
      ghost var s := View();
      looseEntries := {};
      var ipv4, fresh4 := DynamicPrepare(A, i, looseEntries, looseTargets);
      if ipv4.None? {
        return None, looseEntries;
      }
      looseEntries := if fresh4 then {} + {ipv4.value} else {};
      ghost var t := View();
      var ipv6, fresh6 := DynamicPrepare(AAAA, i, looseEntries, looseTargets);
      if ipv6.None? {
        if fresh4 {
          GraphQueue(s, i, {}, looseTargets);
          AddedRemoved(s, ipv4.value, A);
          var _ := EntryRemove(ipv4.value, false);
        }
        return None, looseEntries;
      }
      GrownTrans(s, t, View());
      looseEntries := if fresh6 then looseEntries + {ipv6.value} else looseEntries;
      origin := Some(Dns(ipv4.value, ipv6.value));
    }

    /** Finds or creates the target of a name. */
    method TargetCreate(n: Name, ghost i: nat, ghost looseTargets: set<Name>) returns (ok: bool, created: bool)
      requires Graph(View(), i, {}, looseTargets) && Ledger()
      modifies this`entries, this`queue, this`targets, this`held, this`broken, supervisor
      ensures !ok ==> !created && View() == old(View())
      ensures ok ==> n in targets && created == (n !in old(targets)) && Grown(old(View()), View())
      ensures ok ==> targets.Keys == old(targets).Keys + {n}
      ensures ok ==> Graph(View(), i, {}, if created then looseTargets + {n} else looseTargets)
      ensures Ledger() && broken == old(broken)
    {
      hide Booked, Shown, Graph, TargetAdded;
      ghost var s := View();
      GrownSelf(s);
      if n in targets {
        return true, false;
      }
      if |n| >= NAME_LIMIT {
        return false, false;
      }
      var numeric: bool, listed: bool, missing: bool := *, *, *;
      var origin := Some(if numeric then Numeric else Hosts);
      ghost var looseEntries := {};
      if !numeric && !listed {
        if !missing {
          return false, false;
        }
        origin, looseEntries := DnsPrepare(i, looseTargets);
        if origin.None? {
          return false, false;
        }
      }
      ghost var t := View();
      TargetAddedGraph(t, i, looseEntries, looseTargets, n, origin.value);
      TargetGrows(t, n, origin.value);
      GrownTrans(s, t, TargetAdded(t, n, origin.value));
      assert looseEntries - Referred(origin.value) == {};
      TargetInsert(n, origin.value);
      TargetAddedFrame(t, n, origin.value);
      return true, true;
    }

    method TargetInsert(n: Name, origin: Origin)
      requires Resolvable(origin, entries) && Ledger()
      modifies this`entries, this`targets
      ensures View() == TargetAdded(old(View()), n, origin) && Ledger()
    {
      hide Booked;
      if origin.Dns? {
        entries := entries[origin.ipv4 := More(entries[origin.ipv4])][origin.ipv6 := More(entries[origin.ipv6])];
      }
      targets := targets[n := Target(origin, 0)];
    }

    /** Adds one record's target to the draft; a name seen before adds nothing. */
    method NameAdd(n: Name, draft: Draft, ghost s: State, ghost i: nat) returns (ok: bool, result: Draft)
      requires Drafted(s, View(), i, draft) && Ledger()
      modifies this`entries, this`queue, this`targets, this`held, this`broken, supervisor
      ensures Drafted(s, View(), i, result) && Ledger() && broken == old(broken)
      ensures !ok ==> result == draft
      ensures ok ==> forall o :: o in result.names <==> o in draft.names || o == n
    {
      hide Booked, Shown, Graph, Grown, Plan, Literals;
      ghost var t := View();
      var created;
      ok, created := TargetCreate(n, i, Set(draft.created));
      result := draft;
      if ok {
        if n in draft.names {
          DraftKept(s, t, View(), i, draft);
        } else {
          DraftGrows(s, t, View(), i, draft, n, created);
          result := DraftWith(draft, n, targets[n].origin, created);
        }
      }
    }

    /** Takes back every target created for a candidate that failed. */
    method DraftUndo(draft: Draft, ghost s: State, ghost i: nat)
      requires Graph(s, i, {}, {}) && Drafted(s, View(), i, draft) && Ledger()
      modifies this, supervisor
      ensures View() == s.(queue := queue) && Graph(View(), i, {}, {})
      ensures Ledger() && broken == old(broken) && prewarmed == old(prewarmed) && others == old(others)
    {
      hide Booked, Shown, Graph, Grown, Undoing, Elsewhere, Shrunk;
      DraftedKnown(s, View(), i, draft, "");
      var k := 0;
      assert draft.created[0..] == draft.created;
      while k < |draft.created|
        invariant 0 <= k <= |draft.created|
        invariant Graph(View(), i, {}, Set(draft.created[k..])) && Undoing(s, View(), Set(draft.created[k..]))
                  && Ledger()
        invariant broken == old(broken) && prewarmed == old(prewarmed) && others == old(others)
      {
        var n := draft.created[k];
        assert draft.created[k..] == [n] + draft.created[k + 1..];
        assert n in Set(draft.created[k..]) && n !in s.targets;
        assert Set(draft.created[k..]) - {n} == Set(draft.created[k + 1..]);
        UndoReady(s, View(), i, draft.created[k..], n);
        ghost var t := View();
        var _ := TargetRemove(n, false, i, Set(draft.created[k..]));
        UndoneOne(s, t, View(), i, Set(draft.created[k..]), n);
        k := k + 1;
      }
      assert Set(draft.created[k..]) == {};
      Restored(s, View(), i);
    }

    /** Collects the targets of an SRV answer. A root target, an empty or oversized answer or any
        failure yields no candidate and leaves everything as it was. */
    method TargetSetBuild(records: seq<SrvRecord>, ghost i: nat) returns (built: bool, draft: Draft, failure: Outcome)
      requires Graph(View(), i, {}, {}) && Ledger()
      modifies this, supervisor
      ensures Ledger() && broken == old(broken) && prewarmed == old(prewarmed) && others == old(others)
      ensures built ==> Drafted(old(View()), View(), i, draft) && failure.Unavailable?
      ensures built ==> forall n :: n in draft.names <==> n in Targets(records)
      ensures !built ==> View() == old(View()).(queue := queue) && Graph(View(), i, {}, {})
      ensures "." in Targets(records) ==>
                !built && failure == (if Targets(records) == {"."} then ServiceUnavailable else Contradictory)
      ensures "." !in Targets(records) ==> failure.Unavailable?
      ensures built ==> 0 < |records| <= SRV_RECORD_LIMIT
    {
      hide Booked, Shown, Graph, Drafted;
      ghost var s := View();
      draft := Draft([], [], 0, []);
      failure := Unavailable;
      var root, ordinary := RootTargets(records);
      if root {
        failure := if ordinary then Contradictory else ServiceUnavailable;
        return false, draft, failure;
      }
      var enough: bool := *;
      if |records| == 0 || |records| > SRV_RECORD_LIMIT || !enough {
        return false, draft, failure;
      }
      DraftStarts(s, i);
      var k := 0;
      while k < |records|
        invariant 0 <= k <= |records| && Drafted(s, View(), i, draft) && Ledger() && broken == old(broken)
                  && others == old(others)
                  && prewarmed == old(prewarmed)
        invariant forall n :: n in draft.names <==> n in Targets(records[..k])
      {
        var ok;
        ok, draft := NameAdd(records[k].target, draft, s, i);
        if !ok {
          DraftUndo(draft, s, i);
          return false, draft, failure;
        }
        TargetsNext(records, k);
        k := k + 1;
      }
      assert records[..k] == records;
      built := true;
    }

    // -------------------------------------------------------------- linking a candidate

    method HoldOne(n: Name)
      requires n in targets
      modifies this`targets, this`candidate
      ensures View() == TargetHeld(old(View()), n)
    {
      hide Booked, Shown;
      targets := targets[n := targets[n].(uses := targets[n].uses + 1)];
      candidate := candidate.(names := candidate.names + [n]);
    }

    /** Links one dependency at the head of its entry's list. */
    method LinkOne(e: EntryId, i: nat) returns (d: DepId)
      requires e in entries && Ledger()
      modifies this`entries, this`deps, this`nextDep, this`candidate
      ensures d == old(nextDep) && View() == CandidateLinked(old(View()), e, i) && Ledger()
    {
      hide Booked, Shown;
      d := nextDep;
      deps := deps[d := Dependency(i, e, true, !entries[e].terminal, entries[e].terminal && entries[e].positive)];
      var x := entries[e].(uses := entries[e].uses + 1, deps := [d] + entries[e].deps);
      ShownKept(entries, held, e, x);
      entries := entries[e := x];
      candidate := candidate.(deps := candidate.deps + [d]);
      nextDep := nextDep + 1;
    }

    /** Takes one use of every drafted target. */
    method CandidateHold(i: nat, draft: Draft, records: seq<SrvRecord>, ghost s: State)
      requires Drafted(s, View(), i, draft) && candidate == NO_TARGETS && Ledger()
      modifies this`targets, this`candidate
      ensures Graph(View(), i, {}, {}) && Linking(old(View()), View(), i) && Ledger()
      ensures View() == old(View()).(targets := targets,
              candidate := TargetSet(draft.names, [], draft.immediate, records))
    {
      hide Booked, Shown, Graph, Grown, Plan, Literals, Linking, Holding;
      ghost var t := View();
      candidate := NO_TARGETS.(immediate := draft.immediate, records := records);
      HoldingStarts(t, View(), i, draft, records);
      var k := 0;
      while k < |draft.names|
        invariant 0 <= k <= |draft.names| && Holding(t, View(), i, draft, k, records) && Ledger()
      {
        HoldingStep(t, View(), i, draft, k, records);
        HoldOne(draft.names[k]);
        k := k + 1;
      }
      HoldingEnds(t, View(), i, draft, records);
    }

    /** Links one dependency per drafted lookup. */
    method CandidateLink(i: nat, plan: seq<EntryId>) returns (ids: seq<DepId>, pending: nat, positive: nat)
      requires Graph(View(), i, {}, {}) && DepsExact(View(), {}) && i < |destinations| && candidate.deps == []
               && Ledger()
      requires forall e :: e in plan ==> e in entries && !entries[e].kind.SRV?
      modifies this`entries, this`deps, this`nextDep, this`candidate
      ensures Graph(View(), i, {}, {}) && DepsExact(View(), {}) && Linking(old(View()), View(), i) && Ledger()
      ensures candidate == old(candidate).(deps := ids) && (forall d :: d in ids ==> d in deps)
              && EntriesOf(deps, ids) == plan
      ensures pending == |PendingIn(deps, ids)| && positive == |PositiveIn(deps, ids)|
      ensures targets == old(targets) && destinations == old(destinations)
    {
      hide Booked, Shown, Graph, Linking, DepsExact, PendingIn, PositiveIn, EntriesOf;
      ghost var s := View();
      LinkingSelf(s, i);
      EmptyLists(s.deps);
      ids, pending, positive := [], 0, 0;
      var k := 0;
      while k < |plan|
        invariant 0 <= k <= |plan|
        invariant Graph(View(), i, {}, {}) && DepsExact(View(), {}) && Linking(s, View(), i) && Ledger()
        invariant candidate == s.candidate.(deps := ids) && (forall d :: d in ids ==> d in deps)
                  && EntriesOf(deps, ids) == plan[..k]
        invariant pending == |PendingIn(deps, ids)| && positive == |PositiveIn(deps, ids)|
        invariant targets == s.targets && destinations == s.destinations
      {
        var e := plan[k];
        ghost var t := View();
        LinkingEntry(s, t, i, e);
        CandidateLinkReady(t, i);
        CandidateLinkedGraph(t, {}, {}, e, i);
        CandidateLinks(t, e, i);
        LinkedExact(t, e, i);
        LinkedCounts(t, e, i);
        LinkingTrans(s, t, CandidateLinked(t, e, i), i);
        var d := LinkOne(e, i);
        ids := ids + [d];
        pending := pending + if deps[d].pending then 1 else 0;
        positive := positive + if deps[d].positive then 1 else 0;
        assert plan[..k + 1] == plan[..k] + [e];
        k := k + 1;
      }
      assert plan[..k] == plan;
    }

    /** Takes uses of the drafted targets and links their lookups. */
    method CandidateAttach(i: nat, draft: Draft, records: seq<SrvRecord>, ghost s: State)
        returns (ids: seq<DepId>, pending: nat, positive: nat)
      requires Graph(s, i, {}, {}) && DepsExact(s, {}) && Drafted(s, View(), i, draft) && candidate == NO_TARGETS
               && Ledger() && i < |destinations|
      modifies this`entries, this`deps, this`nextDep, this`targets, this`candidate
      ensures Graph(View(), i, {}, {}) && DepsExact(View(), {}) && Linking(old(View()), View(), i) && Ledger()
      ensures candidate == TargetSet(draft.names, ids, draft.immediate, records) && Wired(candidate, deps, targets)
      ensures pending == |PendingIn(deps, ids)| && positive == |PositiveIn(deps, ids)|
      ensures destinations == old(destinations) && (Silent(old(entries)) ==> Silent(entries))
    {
      hide Booked, Shown, Graph, Grown, Linking, Plan, Literals, DepsExact, PendingIn, PositiveIn, EntriesOf;
      ghost var t := View();
      GraphShaped(s, i, {}, {});
      GrownExact(s, t);
      DraftPlanKnown(s, t, i, draft);
      CandidateHold(i, draft, records, s);
      ghost var u := View();
      FlagsExact(t, u);
      ids, pending, positive := CandidateLink(i, draft.plan);
      LinkingTrans(t, u, View(), i);
      LinkingSilent(t, View(), i);
      WiredCandidate(s, t, View(), i, draft);
    }

    /** Installs a drafted candidate. It is linked before the old set is dissolved, so an entry that
        both sets need is never released. */
    method TargetsReplace(i: nat, draft: Draft, records: seq<SrvRecord>, release: bool, ghost s: State,
        ghost undecided: set<nat>) returns (status: OpStatus)
      requires Core(s, undecided) && Drafted(s, View(), i, draft) && candidate == NO_TARGETS && Ledger()
               && destinations == s.destinations
      requires i < |destinations| && destinations[i].srv && (release || Silent(entries))
      modifies this, supervisor
      ensures Core(View(), undecided - {i}) && Rebuilt(s, View(), i) && Ledger() && prewarmed == old(prewarmed)
      ensures (status.OpOk? ==> broken == old(broken)) && (old(broken) ==> broken) && others == old(others)
      ensures destinations[i].expanded && destinations[i].targets.names == draft.names
              && destinations[i].targets.records == records
      ensures forall e :: e in draft.plan ==> e in old(entries) && e in entries && Kept(old(entries)[e], entries[e])
      ensures Silent(old(entries)) ==> Silent(entries)
    {
      hide Booked, Shown, Graph, Drafted, Linking, Elsewhere, Shrunk, Counters, DepsExact, PendingIn, PositiveIn,
           EntriesOf, Wired, Rebuilt;
      ghost var t := View();
      HomeFree(s, 0, i, {}, {});
      var ids, pending, positive := CandidateAttach(i, draft, records, s);
      ghost var u := View();
      status := TargetSetUnlink(i, release);
      ghost var r := View();
      ReplacementReady(s, t, u, r, i, draft);
      DraftSurvives(s, t, u, r, i, draft);
      CandidateInstall(i, draft, records, ids, pending, positive, s, undecided);
    }

    method CandidateInstall(i: nat, draft: Draft, records: seq<SrvRecord>, ids: seq<DepId>, pending: nat, positive: nat,
        ghost s: State, ghost undecided: set<nat>)
      requires Core(s, undecided) && Elsewhere(s, View(), i) && Graph(View(), i, {}, {}) && DepsExact(View(), {})
               && |destinations| == |s.destinations|
      requires candidate == TargetSet(draft.names, ids, draft.immediate, records) && Wired(candidate, deps, targets)
               && Ledger()
      requires pending == |PendingIn(deps, ids)| && positive == |PositiveIn(deps, ids)|
      requires i < |destinations| && destinations[i].srv && destinations[i].targets == NO_TARGETS
               && |destinations[i].owner| == 1 && destinations[i].owner[0] in deps
      requires forall e :: e in s.entries && !s.entries[e].owned ==> e in entries && Kept(s.entries[e], entries[e])
      requires forall d :: d in s.deps && d in deps ==> deps[d] == s.deps[d]
      modifies this`destinations, this`terminalCount, this`candidate
      ensures Core(View(), undecided - {i}) && Rebuilt(s, View(), i) && Ledger()
      ensures |destinations| == |old(destinations)|
      ensures destinations[i].expanded
              && destinations[i].targets == TargetSet(draft.names, ids, draft.immediate, records)
    {
      hide Booked, Shown, Graph, Elsewhere, Counters, DepsExact, PendingIn, PositiveIn, Wired, Rebuilt;
      ghost var r := View();
      var x := destinations[i];
      var pendingTotal := pending + if deps[x.owner[0]].pending then 1 else 0;
      var positiveTotal := positive + draft.immediate;
      destinations := destinations[i := x.(targets := TargetSet(draft.names, ids, draft.immediate, records),
        expanded := true, pending := pendingTotal, positive := positiveTotal, result := Pending)];
      candidate := NO_TARGETS;
      ReplacedCore(s, r, i, pendingTotal, positiveTotal, undecided);
      RebuiltChain(s, r, i, pendingTotal, positiveTotal);
      ghost var v := View();
      assert v == Replaced(r, i, pendingTotal, positiveTotal);
      DestinationUpdate(i);
      DecidedCore(v, i, undecided + {i});
      assert undecided + {i} - {i} == undecided - {i};
    }

    /** Rebuilds a destination's target set from an SRV answer. */
    method DestinationExpand(i: nat, records: seq<SrvRecord>, retain: bool, release: bool, ghost undecided: set<nat>)
        returns (status: OpStatus)
      requires Core(View(), undecided) && Ledger() && i < |destinations| && destinations[i].srv
               && OwnerAnswered(View(), i)
      requires release || Silent(entries)
      modifies this, supervisor
      ensures Core(View(), undecided - {i}) && Rebuilt(old(View()), View(), i) && Ledger()
              && prewarmed == old(prewarmed)
      ensures (status.OpOk? ==> broken == old(broken)) && (old(broken) ==> broken) && others == old(others)
      ensures destinations[i].targets != NO_TARGETS ==>
              forall n :: n in destinations[i].targets.names <==> n in Targets(records)
      ensures Silent(old(entries)) ==> Silent(entries)
      ensures "." in Targets(records) ==>
                destinations[i].result == if Targets(records) == {"."} then ServiceUnavailable else Contradictory
    {
      hide Booked, Shown, Graph, Drafted, Counters, DepsExact, Rebuilt, OwnerAnswered;
      ghost var s := View();
      HomeFree(s, 0, i, {}, {});
      var built, draft, failure := TargetSetBuild(records, i);
      if !built {
        ghost var t := View();
        RequeuedCore(s, t, i, undecided);
        RequeuedOwner(s, t, i);
        status := DestinationFail(i, failure, release, undecided);
        RebuiltRequeued(s, t, View(), i);
      } else {
        DraftSame(s, View(), i, draft);
        status := TargetsReplace(i, draft, if retain then records else [], release, s, undecided);
      }
    }

    // -------------------------------------------------------------- observing an answer

    method EntryDequeue(e: EntryId)
      requires e in entries && (!entries[e].queued ==> e !in queue) && Ledger()
      modifies this`entries, this`queue
      ensures View() == Dequeued(old(View()), e) && Ledger()
    {
      hide Booked;
      if !entries[e].queued {
        assert entries[e := entries[e].(queued := false)] == entries;
        return;
      }
      queue := Unlink(queue, e);
      entries := entries[e := entries[e].(queued := false)];
    }

    /** Marks a first answer and satisfies every dependency on it once. */
    method FirstAnswer(e: EntryId, positive: bool)
      requires Inv(View()) && e in entries && !entries[e].terminal && !entries[e].queued && Ledger()
      modifies this`entries, this`deps, this`destinations
      ensures Progress(old(View()), View()) && Ledger() && e in entries && entries[e].deps == old(entries)[e].deps
      ensures Observing(View(), e, entries[e].deps, |entries[e].deps|, positive, Dependents(old(View()), e))
      ensures entries == old(entries)[e := old(entries)[e].(terminal := true, positive := positive)]
      ensures deps.Keys == old(deps).Keys
              && forall d :: d in deps ==>
                 deps[d] == old(deps)[d].(pending := deps[d].pending, positive := deps[d].positive)
    {
      hide Booked, Shown, Inv, Observing, Progress;
      ghost var s := View();
      ghost var dependents := Dependents(s, e);
      EntryListDistinct(s, e);
      ObservingStarts(s, e, positive);
      AnsweredProgress(s, e, positive);
      ShownKept(entries, held, e, entries[e].(terminal := true, positive := positive));
      entries := entries[e := entries[e].(terminal := true, positive := positive)];
      var list := entries[e].deps;
      var k := 0;
      while k < |list|
        invariant 0 <= k <= |list| && Observing(View(), e, list, k, positive, dependents) && Progress(s, View())
                  && Ledger()
        invariant entries == s.entries[e := s.entries[e].(terminal := true, positive := positive)]
        invariant deps.Keys == s.deps.Keys
                  && forall d :: d in deps ==>
                     deps[d] == s.deps[d].(pending := deps[d].pending, positive := deps[d].positive)
      {
        ghost var t := View();
        ObservingStep(t, e, list, k, positive, dependents);
        SatisfiedProgress(t, list[k], positive);
        DependencySatisfy(list[k], positive);
        ProgressTrans(s, t, View());
        k := k + 1;
      }
    }

    method DependencySatisfy(d: DepId, positive: bool)
      requires d in deps && deps[d].dest < |destinations|
      modifies this`deps, this`destinations
      ensures View() == Satisfied(old(View()), d, positive)
    {
      hide Booked, Shown;
      var i := deps[d].dest;
      var destination := destinations[i];
      if deps[d].pending && destination.pending > 0 {
        destination := destination.(pending := destination.pending - 1);
      }
      var gain := positive && deps[d].source && !deps[d].positive;
      if gain {
        destination := destination.(positive := destination.positive + 1);
      }
      destinations := destinations[i := destination];
      deps := deps[d := deps[d].(pending := false, positive := deps[d].positive || gain)];
    }

    /** Expands or fails every destination that waits for an SRV answer. */
    method SrvObserve(list: seq<DepId>, positive: bool, records: Option<seq<SrvRecord>>, retain: bool, release: bool,
        ghost undecided: set<nat>) returns (status: OpStatus)
      requires Core(View(), undecided) && Owners(View(), list) && Ledger() && (release || Silent(entries))
      modifies this, supervisor
      ensures Core(View(), undecided - Dests(old(View()), list)) && Owners(View(), list)
              && Progress(old(View()), View())
      ensures Dests(View(), list) == Dests(old(View()), list)
      ensures Ledger() && prewarmed == old(prewarmed) && (status.OpOk? ==> broken == old(broken))
              && (old(broken) ==> broken) && others == old(others)
      ensures Silent(old(entries)) ==> Silent(entries)
    {
      hide Booked, Shown, Core, Rebuilt, Progress, Owners, Silent;
      ghost var s := View();
      status := OpOk;
      var k := 0;
      ProgressSelf(s);
      ghost var rest := undecided;
      assert list[..0] == [];
      OwnersPrefix(s, list, 0);
      while k < |list|
        invariant 0 <= k <= |list| && Core(View(), rest) && Owners(View(), list) && Progress(s, View()) && Ledger()
                  && (release || Silent(entries))
        invariant rest == undecided - Dests(s, list[..k]) && SameDests(s, View(), list)
                  && (Silent(s.entries) ==> Silent(entries))
        invariant prewarmed == old(prewarmed) && (status.OpOk? ==> broken == old(broken)) && (old(broken) ==> broken)
                  && others == old(others)
      {
        var d := list[k];
        ghost var t := View();
        OwnerFacts(t, list, d);
        var i := deps[d].dest;
        if destinations[i].srv && !deps[d].source {
          var step;
          if positive && records.Some? {
            step := DestinationExpand(i, records.value, retain, release, rest);
          } else {
            step := DestinationFail(i, Unavailable, release, rest);
          }
          status := Merge(status, step);
        }
        OwnersKept(t, View(), list, i, rest, rest - {i});
        RebuiltProgress(t, View(), i);
        ProgressTrans(s, t, View());
        DestsNext(s, list, k);
        rest := rest - {i};
        k := k + 1;
      }
      assert list[..k] == list;
    }

    method DestinationsUpdate(list: seq<DepId>, ghost undecided: set<nat>)
      requires Core(View(), undecided)
      requires forall d :: d in list ==>
               d in deps && deps[d].dest < |destinations| && Decidable(destinations[deps[d].dest])
      modifies this`destinations, this`terminalCount
      ensures Core(View(), undecided - Dests(View(), list)) && Progress(old(View()), View())
    {
      hide Booked, Shown, Core, Progress, Dests, Decidable;
      ghost var s := View();
      ProgressSelf(s);
      ghost var left := undecided;
      EmptyDests(s);
      assert list[..0] == [];
      var k := 0;
      while k < |list|
        invariant 0 <= k <= |list| && Core(View(), left) && Progress(s, View())
                  && left == undecided - Dests(s, list[..k])
        invariant |destinations| == |s.destinations|
        invariant forall d :: d in list ==>
                  d in deps && deps[d].dest < |destinations| && Decidable(destinations[deps[d].dest])
      {
        var i := deps[list[k]].dest;
        ghost var t := View();
        DecidedCore(t, i, left);
        UpdatedProgress(t, i);
        UpdatedDecidable(destinations[i]);
        DestinationUpdate(i);
        ProgressTrans(s, t, View());
        DestsNext(s, list, k);
        left := left - {i};
        k := k + 1;
      }
      assert list[..k] == list;
      SameDepsDests(s, View(), list);
    }

    /** The first answer of an entry. */
    method ObserveFirst(e: EntryId, positive: bool, records: Option<seq<SrvRecord>>, retain: bool, release: bool)
        returns (status: OpStatus)
      requires Inv(View()) && Ledger() && e in entries && !entries[e].terminal && !entries[e].queued
               && (release || Silent(entries))
      modifies this, supervisor
      ensures Inv(View()) && Ledger() && Progress(old(View()), View()) && prewarmed == old(prewarmed)
      ensures e in entries && entries[e].terminal && entries[e].positive == positive
              && entries[e].interest == old(entries)[e].interest
      ensures (status.OpOk? ==> broken == old(broken)) && (old(broken) ==> broken) && others == old(others)
              && (Silent(old(entries)) ==> Silent(entries))
    {
      hide Booked, Shown, Inv, Core, Progress, Observing, Owners, Dests;
      ghost var t := View();
      status := OpOk;
      ghost var dependents := Dependents(t, e);
      FirstAnswer(e, positive);
      ghost var u := View();
      var list := entries[e].deps;
      ObservedCore(u, e, list, positive, dependents);
      FlagDests(t, u, e, list);
      if entries[e].kind.SRV? {
        SrvBound(t, e);
        SrvOwners(u, e, dependents);
        status := SrvObserve(list, positive, records, retain, release, dependents);
        assert dependents - Dests(u, list) == {};
        OwnersDests(View(), list);
        ConcludedDecidable(View(), list);
        ProgressTrans(t, u, View());
        BoundStays(u, View(), e);
        dependents := {};
      } else {
        ProgressSelf(u);
      }
      ghost var v := View();
      DestinationsUpdate(list, dependents);
      SameDepsDests(v, View(), list);
      assert dependents - Dests(View(), list) == {};
      ProgressTrans(t, v, View());
      InvCore(View());
    }

    /** An entry got its answer, for the first time or again. Later answers matter only for SRV
        targets, which are replaced. */
    method EntryTerminalObserve(e: EntryId, positive: bool, records: Option<seq<SrvRecord>>, retain: bool,
        release: bool) returns (status: OpStatus)
      requires Inv(View()) && Ledger() && e in entries && (release || Silent(entries))
      modifies this, supervisor
      ensures Inv(View()) && Ledger() && Progress(old(View()), View()) && prewarmed == old(prewarmed)
      ensures e in entries && entries[e].terminal
              && entries[e].positive == (if old(entries)[e].terminal then old(entries)[e].positive else positive)
      ensures entries[e].interest == old(entries)[e].interest
      ensures (status.OpOk? ==> broken == old(broken)) && (old(broken) ==> broken) && others == old(others)
              && (Silent(old(entries)) ==> Silent(entries))
    {
      hide Booked, Shown, Inv, Core, Progress, Owners, Dests;
      ghost var s := View();
      status := OpOk;
      QueuedUninterested(s, e);
      DequeuedInv(s, e);
      DequeuedProgress(s, e);
      EntryDequeue(e);
      ghost var t := View();
      if !entries[e].terminal {
        status := ObserveFirst(e, positive, records, retain, release);
        ProgressTrans(s, t, View());
      } else if entries[e].kind.SRV? {
        InvCore(t);
        SrvBound(t, e);
        var list := entries[e].deps;
        SrvOwners(t, e, {});
        status := SrvObserve(list, positive, records, retain, release, {});
        assert {} - Dests(t, list) == {};
        InvCore(View());
        ProgressTrans(s, t, View());
        BoundStays(t, View(), e);
      }
    }

    // -------------------------------------------------------------- building

    ghost predicate Built()
      reads this
    {
      && Inv(View())
      && prewarmed <= |bindings| && Distinct(bindings)
      && (forall k :: 0 <= k < |bindings| ==> bindings[k] in entries && !entries[bindings[k]].owned)
      && (forall k :: prewarmed <= k < |bindings| ==> !entries[bindings[k]].interest)
    }

    ghost predicate Valid()
      reads this, supervisor
    {
      Built() && Ledger()
    }

    /** The supervisor has handed out the completion of an entry, which this coordinator has yet to observe. */
    ghost predicate Completing(e: EntryId)
      reads this, supervisor
    {
      && Built() && Booked(supervisor, holder, held - {e}, others, broken)
      && (!broken ==> Shown(entries, held))
    }

    constructor (supervisor: Supervisor.ResolverSupervisor, ghost holder: nat, bound: seq<EntryId>)
      requires supervisor.Valid() && forall e: EntryId :: Mark(holder, e) !in supervisor.markers
      ensures this.supervisor == supervisor && this.holder == holder && bindings == bound
      ensures View() == EMPTY && held == {} && !broken && prewarmed == 0 && others == supervisor.markers
      ensures Booked(supervisor, holder, held, others, broken)
      ensures fresh(this)
    {
      this.supervisor, this.holder, bindings, others := supervisor, holder, bound, supervisor.markers;
      entries, deps, targets, destinations, queue := map[], map[], map[], [], [];
      terminalCount, nextDep, prewarmed := 0, 0, 0;
      candidate, held, broken := NO_TARGETS, {}, false;
    }

    /** Adds one destination of the route table. */
    method DestinationBuild(b: Binding) returns (ok: bool)
      requires Founded(View(), |destinations|) && Inv(View()) && Ledger()
      requires b.Address? ==>
               (b.ipv4 in entries ==> entries[b.ipv4].kind.A?) && (b.ipv6 in entries ==> entries[b.ipv6].kind.AAAA?)
      requires b.Service? ==> (b.srv in entries ==> entries[b.srv].kind.SRV?)
      modifies this, supervisor
      ensures Ledger() && prewarmed == old(prewarmed) && held == old(held) && broken == old(broken)
              && others == old(others)
      ensures OnlyLinks(old(entries), entries)
      ensures ok ==> |destinations| == |old(destinations)| + 1 && Founded(View(), |destinations|) && Inv(View())
    {
      hide Booked, Shown, Founded, Inv, Counters;
      ghost var s := View();
      if (b.Address? && (b.ipv4 !in entries || b.ipv6 !in entries)) || (b.Service? && b.srv !in entries) {
        return false;
      }
      OwnersBuild(b);
      ghost var u := View();
      var i := |destinations| - 1;
      var x := destinations[i];
      destinations := destinations[i := x.(expanded := !b.Service?, pending := |x.owner|,
                                           positive := if b.Literal? then 1 else 0,
                                           result := if b.NotAvailable? then Unavailable else Pending)];
      FoundedStep(u, View());
      DestinationUpdate(i);
      ok := true;
    }

    /** Appends a destination and links it to the entries it is bound to. */
    method OwnersBuild(b: Binding)
      requires Founded(View(), |destinations|) && Inv(View()) && Ledger()
      requires b.Address? ==>
               b.ipv4 in entries && entries[b.ipv4].kind.A? && b.ipv6 in entries && entries[b.ipv6].kind.AAAA?
      requires b.Service? ==> b.srv in entries && entries[b.srv].kind.SRV?
      modifies this`entries, this`deps, this`nextDep, this`destinations
      ensures Ledger() && |destinations| == |old(destinations)| + 1 && Founded(View(), |destinations|)
              && Counters(View(), {|destinations| - 1}, {})
      ensures OnlyLinks(old(entries), entries)
      ensures var x := destinations[|destinations| - 1];
              && x == PLAIN.(literal := b.Literal?, srv := b.Service?, owner := x.owner)
              && |x.owner| == (if b.Address? then 2 else if b.Service? then 1 else 0)
    {
      hide Booked, Shown, Ledger, Founded, Inv, Counters, OnlyLinks, OwnerLinked;
      FoundedAppend(View(), PLAIN.(literal := b.Literal?));
      ghost var before := entries;
      LinksSelf(before);
      destinations := destinations + [PLAIN.(literal := b.Literal?)];
      if b.Address? {
        FoundedLink(View(), b.ipv4);
        LinkedOnly(before, View(), b.ipv4);
        LinkOwner(b.ipv4);
        LinkedKinds(before, entries, b.ipv6);
        FoundedLink(View(), b.ipv6);
        LinkedOnly(before, View(), b.ipv6);
        LinkOwner(b.ipv6);
      } else if b.Service? {
        FoundedLink(View(), b.srv);
        LinkedOnly(before, View(), b.srv);
        LinkOwner(b.srv);
      }
    }

    method LinkOwner(e: EntryId)
      requires e in entries && destinations != [] && Ledger()
      modifies this`entries, this`deps, this`nextDep, this`destinations
      ensures View() == OwnerLinked(old(View()), e) && Ledger()
    {
      hide Booked, Shown;
      var i := |destinations| - 1;
      var srv := entries[e].kind.SRV?;
      var d := nextDep;
      deps := deps[d := Dependency(i, e, !srv, !entries[e].terminal, entries[e].terminal && entries[e].positive
        && !srv)];
      var x := entries[e].(uses := entries[e].uses + 1, deps := [d] + entries[e].deps);
      ShownKept(entries, held, e, x);
      entries := entries[e := x];
      destinations := destinations[i := destinations[i].(owner := destinations[i].owner + [d], srv := srv)];
      nextDep := nextDep + 1;
    }

    /** Builds the graph of a route table and observes what the cache already knows. Nothing has been
        scheduled yet, so no interest can be lost. */
    method Build(kinds: seq<QueryKind>, table: seq<Binding>) returns (ok: bool)
      requires View() == EMPTY && held == {} && !broken && prewarmed == 0 && |kinds| == |bindings|
      requires Booked(supervisor, holder, held, others, broken)
      requires forall b, k :: b in table && 0 <= k < |bindings| ==> BoundAs(b, bindings[k], kinds[k])
      modifies this, supervisor
      ensures ok ==> Valid() && |destinations| == |table| && !broken && others == old(others)
      ensures Booked(supervisor, holder, held, others, broken)
    {
      hide Booked, Founded, Inv;
      ok := EntriesBuild(kinds);
      if !ok {
        return;
      }
      var k := 0;
      while k < |table|
        invariant 0 <= k <= |table| && |destinations| == k && Founded(View(), |destinations|) && Inv(View()) && Ledger()
        invariant prewarmed == 0 && held == {} && !broken && Distinct(bindings) && others == old(others)
        invariant forall j :: 0 <= j < |bindings| ==> bindings[j] in entries && entries[bindings[j]].kind == kinds[j]
        invariant forall e :: e in entries ==> e in bindings
      {
        assert table[k] in table;
        KindsFit(table[k], entries, bindings, kinds);
        ok := DestinationBuild(table[k]);
        if !ok {
          return;
        }
        k := k + 1;
      }
      FoundedQuiet(View());
      ok := CacheObserve();
    }

    method EntriesBuild(kinds: seq<QueryKind>) returns (ok: bool)
      requires View() == EMPTY && held == {} && |kinds| == |bindings|
      requires Booked(supervisor, holder, held, others, broken)
      modifies this`entries
      ensures ok ==> Founded(View(), 0) && Inv(View()) && Ledger() && Distinct(bindings)
      ensures ok ==> forall j :: 0 <= j < |bindings| ==> bindings[j] in entries && entries[bindings[j]].kind == kinds[j]
      ensures forall e :: e in entries ==> e in bindings
      ensures View() == EMPTY.(entries := entries)
    {
      hide Booked, Inv, Founded;
      var k := 0;
      while k < |bindings|
        invariant 0 <= k <= |bindings| && View() == EMPTY.(entries := entries)
        invariant forall j :: 0 <= j < k ==> bindings[j] in entries && entries[bindings[j]] == NewEntry(kinds[j], false)
        invariant forall e :: e in entries ==> e in bindings[..k]
        invariant Distinct(bindings[..k])
        invariant forall e :: e in entries ==> entries[e] == NewEntry(entries[e].kind, false)
      {
        var enough: bool := *;
        if bindings[k] in entries || !enough {
          return false;
        }
        assert bindings[..k + 1] == bindings[..k] + [bindings[k]];
        entries := entries[bindings[k] := NewEntry(kinds[k], false)];
        k := k + 1;
      }
      assert bindings[..k] == bindings;
      EntriesOnly(View());
      ok := true;
    }

    method CacheObserve() returns (ok: bool)
      requires Inv(View()) && Ledger() && Silent(entries) && prewarmed == 0 && Distinct(bindings)
      requires forall k :: 0 <= k < |bindings| ==> bindings[k] in entries && !entries[bindings[k]].owned
      modifies this, supervisor
      ensures Valid() && |destinations| == |old(destinations)| && (old(broken) ==> broken) && others == old(others)
              && (ok ==> broken == old(broken))
    {
      hide Booked, Shown, Inv, Progress;
      ghost var s := View();
      ProgressSelf(s);
      BoundQuiet(s, s, bindings);
      var k := 0;
      while k < |bindings|
        invariant 0 <= k <= |bindings| && Inv(View()) && Ledger() && Silent(entries) && Progress(s, View())
                  && prewarmed == 0 && broken == old(broken) && others == old(others)
        invariant |destinations| == |s.destinations|
        invariant forall j :: 0 <= j < |bindings| ==> bindings[j] in entries && !entries[bindings[j]].owned
      {
        var view: CacheView := *;
        ghost var t := View();
        var status := FreshObserve(bindings[k], view, false);
        ProgressTrans(s, t, View());
        BoundQuiet(s, View(), bindings);
        if !status.OpOk? {
          return false;
        }
        k := k + 1;
      }
      ok := true;
    }

    /** Takes over an answer the cache still holds. */
    method FreshObserve(e: EntryId, view: CacheView, release: bool) returns (status: OpStatus)
      requires Inv(View()) && Ledger() && e in entries && (release || Silent(entries))
      modifies this, supervisor
      ensures Inv(View()) && Ledger() && Progress(old(View()), View()) && prewarmed == old(prewarmed)
      ensures e in entries && (view.FreshPositive? || view.FreshNegative? ==> entries[e].terminal)
      ensures (status.OpOk? ==> broken == old(broken)) && (old(broken) ==> broken) && others == old(others)
              && (Silent(old(entries)) ==> Silent(entries))
    {
      hide Booked, Shown, Inv, Progress;
      ProgressSelf(View());
      if view.Unreadable? {
        return OpBadArgument;
      }
      if view.Empty? {
        return OpOk;
      }
      var positive := view.FreshPositive?;
      var records := if positive && entries[e].kind.SRV? then Some(view.records) else None;
      status := EntryTerminalObserve(e, positive, records, true, release);
    }

    // -------------------------------------------------------------- completions

    /** The supervisor counts no interest in an entry any more once its completion was taken. */
    method Forget(e: EntryId) returns (known: bool)
      requires Completing(e)
      modifies this`entries, this`held
      ensures Valid() && Advances(old(View()), View()) && broken == old(broken)
      ensures known == (e in old(entries)) && entries.Keys == old(entries).Keys && (known ==> !entries[e].interest)
    {
      hide Booked, Inv, Progress, Core, Advances, Graph;
      ghost var s := View();
      AdvancesSelf(s);
      held := held - {e};
      if e !in entries {
        return false;
      }
      InvCore(s);
      QueuedUninterested(s, e);
      InterestCore(s, e, false, {});
      entries := entries[e := entries[e].(interest := false)];
      ghost var t := View();
      InvCore(t);
      InterestAdvances(s, t, e);
      known := true;
    }

    /** A finished lookup. The supervisor has already given up the interest, so the marker goes first,
        whatever the payload turns out to be. */
    method CompletionObserve(c: Completion) returns (status: CompletionStatus)
      requires Completing(c.entry)
      modifies this, supervisor
      ensures Valid() && Advances(old(View()), View()) && (old(broken) ==> broken) && others == old(others)
      ensures status.CompletionIgnored? <==> c.entry !in old(entries)
      ensures c.entry in entries ==> !entries[c.entry].interest
      ensures c.entry in old(entries) && c.wellFormed && !status.CompletionBadArgument? ==>
              c.entry in entries && entries[c.entry].terminal
      ensures status.CompletionOk? || status.CompletionIgnored? ==> broken == old(broken)
    {
      hide Booked, Shown, Inv, Progress, Core, Advances;
      var e := c.entry;
      ghost var s := View();
      var known := Forget(e);
      if !known {
        return CompletionIgnored;
      }
      ghost var t := View();
      var op := PayloadObserve(c);
      ProgressAdvances(s, t, View());
      BoundQuiet(t, View(), bindings);
      status := match op
        case OpOk => CompletionOk
        case OpIo => CompletionIo
        case OpTime => CompletionTime
        case OpBadArgument => CompletionBadArgument;
    }

    method PayloadObserve(c: Completion) returns (status: OpStatus)
      requires Inv(View()) && Ledger() && c.entry in entries && !entries[c.entry].interest
      modifies this, supervisor
      ensures Inv(View()) && Ledger() && Progress(old(View()), View()) && prewarmed == old(prewarmed)
      ensures c.entry in entries ==> !entries[c.entry].interest
      ensures c.wellFormed && !status.OpBadArgument? ==> c.entry in entries && entries[c.entry].terminal
      ensures (status.OpOk? ==> broken == old(broken)) && (old(broken) ==> broken) && others == old(others)
    {
      hide Booked, Shown, Inv, Progress;
      ProgressSelf(View());
      var e := c.entry;
      if !c.wellFormed {
        return OpBadArgument;
      }
      var srv := entries[e].kind.SRV?;
      if c.publication.Stored? {
        var view: CacheView := *;
        if view.Unreadable? {
          return OpBadArgument;
        }
        if !view.Empty? {
          var fresh1 := view.FreshPositive?;
          status := EntryTerminalObserve(e, fresh1, if fresh1 && srv then Some(view.records) else None, true, true);
          return;
        }
      }
      var positive := c.publication.Transient? && c.ok;
      status := EntryTerminalObserve(e, positive, if positive && srv then Some(c.records) else None, false, true);
    }

    // -------------------------------------------------------------- scheduling

    /** Asks the supervisor to have an entry looked up. */
    method SupervisorSchedule(e: EntryId) returns (reply: S.ScheduleStatus)
      requires Booked(supervisor, holder, held, others, broken) && e in entries && (broken || e !in held)
      modifies this`held, this`broken, supervisor
      ensures Booked(supervisor, holder, held, others, broken)
      ensures held == if reply in {S.Started, S.Shared} then old(held) + {e} else old(held)
      ensures broken <==> old(broken) || reply.ScheduleIo?
    {
      hide SupervisorState.Inv, SupervisorState.WorkConserving, Split;
      ghost var mark := Mark(holder, e);
      if broken {
        var free := Unmarked(supervisor.markers);
        mark := Mark(free, e);
      } else {
        MarkHeld(supervisor.markers, holder, held, others, e);
      }
      var view: S.CacheView := *;
      var now: SupervisorState.Time := *;
      reply := supervisor.Schedule(SupervisorState.Entry(e, entries[e].kind), view, now, mark,
                                   SupervisorState.Background);
      if reply in {S.Started, S.Shared} {
        held := held + {e};
      }
      broken := broken || reply.ScheduleIo?;
    }

    function Prewarm(reply: S.ScheduleStatus): (r: PrewarmStatus) {
      match reply
      case Started => PrewarmMore
      case Shared => PrewarmMore
      case AlreadyComplete => PrewarmMore
      case Fresh => PrewarmMore
      case ScheduleLimit => PrewarmCapacity
      case ScheduleIo => PrewarmIo
      case ScheduleMemory => PrewarmMemory
      case ScheduleTime => PrewarmTime
      case ScheduleBadArgument => PrewarmBadArgument
    }

    /** Schedules the next entry of the bindings. */
    method ScheduleBound() returns (status: PrewarmStatus)
      requires Valid() && prewarmed < |bindings| && !entries[bindings[prewarmed]].terminal
      modifies this, supervisor
      ensures Valid() && Advances(old(View()), View())
      ensures status.PrewarmMore? ==> prewarmed == old(prewarmed) + 1
      ensures !status.PrewarmComplete? && (old(broken) ==> broken) && others == old(others)
      ensures !Fatal(status) ==> broken == old(broken)
    {
      hide Booked, Inv, Progress, Advances;
      ghost var s := View();
      AdvancesSelf(s);
      var e := bindings[prewarmed];
      var reply := SupervisorSchedule(e);
      status := Prewarm(reply);
      if !status.PrewarmMore? {
        return;
      }
      BoundTake(reply in {S.Started, S.Shared});
      ghost var t := View();
      if reply.Fresh? {
        status := FreshTake(e);
        AdvancesTrans(s, t, View());
      }
    }

    /** The supervisor says that the cache holds an answer. */
    method FreshTake(e: EntryId) returns (status: PrewarmStatus)
      requires Valid() && e in entries
      modifies this, supervisor
      ensures Valid() && Advances(old(View()), View()) && prewarmed == old(prewarmed)
      ensures !status.PrewarmComplete? && (old(broken) ==> broken) && others == old(others)
      ensures !Fatal(status) ==> broken == old(broken)
    {
      hide Booked, Shown, Inv, Progress, Advances;
      ghost var t := View();
      AdvancesSelf(t);
      var view: CacheView := *;
      var op := FreshObserve(e, view, true);
      ProgressAdvances(t, t, View());
      BoundQuiet(t, View(), bindings);
      status := PrewarmOf(op);
    }

    /** Goes on to the next entry of the bindings, marking the interest just retained in this one. */
    method BoundTake(interest: bool)
      requires Built() && prewarmed < |bindings| && Booked(supervisor, holder, held, others, broken)
      requires !broken ==> forall k :: k in held <==>
                 (k in entries && entries[k].interest) || (interest && k == bindings[prewarmed])
      modifies this`entries, this`prewarmed
      ensures Valid() && Advances(old(View()), View()) && prewarmed == old(prewarmed) + 1
      ensures entries.Keys == old(entries).Keys
    {
      hide Booked, Inv, Core, Advances;
      ghost var s := View();
      AdvancesSelf(s);
      var e := bindings[prewarmed];
      if interest {
        InvCore(s);
        QueuedUninterested(s, e);
        InterestCore(s, e, true, {});
        entries := entries[e := entries[e].(interest := true)];
        InvCore(View());
        InterestAdvances(s, View(), e);
      }
      prewarmed := prewarmed + 1;
    }

    function PrewarmOf(op: OpStatus): (r: PrewarmStatus) {
      match op
      case OpOk => PrewarmMore
      case OpIo => PrewarmIo
      case OpTime => PrewarmTime
      case OpBadArgument => PrewarmBadArgument
    }

    /** Schedules the first entry found through a target. Each is scheduled at most once. */
    method ScheduleDynamic() returns (status: PrewarmStatus)
      requires Valid() && queue != []
      modifies this, supervisor
      ensures Valid() && Advances(old(View()), View()) && prewarmed == old(prewarmed)
      ensures !status.PrewarmComplete? && (old(broken) ==> broken) && others == old(others)
      ensures !Fatal(status) ==> broken == old(broken)
    {
      hide Booked, Inv, Progress, Core;
      ghost var s := View();
      AdvancesSelf(s);
      QueueHead(s);
      var e := queue[0];
      var reply := SupervisorSchedule(e);
      status := Prewarm(reply);
      if !status.PrewarmMore? {
        return;
      }
      DynamicTake(e, reply in {S.Started, S.Shared});
      if reply.Fresh? {
        ghost var t := View();
        status := FreshTake(e);
        AdvancesTrans(s, t, View());
      }
    }

    /** Marks the interest just retained and takes the entry off the queue. */
    method DynamicTake(e: EntryId, interest: bool)
      requires Inv(View()) && e in entries && entries[e].queued && !entries[e].interest && entries[e].owned
      requires Booked(supervisor, holder, held, others, broken)
      requires !broken ==> forall k :: k in held <==> (k in entries && entries[k].interest) || (interest && k == e)
      modifies this`entries, this`queue
      ensures Inv(View()) && Ledger() && Advances(old(View()), View())
      ensures e in entries && entries == old(entries)[e := old(entries)[e].(interest := interest, queued := false)]
    {
      hide Booked, Inv, Advances, Unlink;
      TakenInv(View(), e, interest);
      DynamicMark(e, interest);
    }

    method DynamicMark(e: EntryId, interest: bool)
      requires e in entries && !entries[e].interest
      modifies this`entries, this`queue
      ensures View() == WithInterest(Dequeued(old(View()), e), e, interest)
      ensures entries == old(entries)[e := old(entries)[e].(interest := interest, queued := false)]
    {
      hide Booked, Unlink;
      var x := entries[e];
      if interest {
        x := x.(interest := true);
      }
      queue := Unlink(queue, e);
      x := x.(queued := false);
      TwiceUpdated(entries, e, entries[e].(queued := false), x);
      entries := entries[e := x];
    }

    /** Schedules up to a batch of lookups: first the entries of the bindings, then those found
        through targets. */
    method Schedule(limit: nat) returns (status: PrewarmStatus)
      requires Valid()
      modifies this, supervisor
      ensures Valid() && Advances(old(View()), View()) && others == old(others)
      ensures !Fatal(status) ==> broken == old(broken)
      ensures status.PrewarmComplete? ==> prewarmed == |bindings| && queue == []
      ensures limit == 0 ==> status.PrewarmBadArgument?
    {
      hide Booked, Shown, Inv, Advances;
      ghost var s := View();
      AdvancesSelf(s);
      if limit == 0 {
        return PrewarmBadArgument;
      }
      var calls := 0;
      while calls < limit && prewarmed < |bindings|
        invariant Valid() && Advances(s, View()) && calls <= limit && others == old(others) && broken == old(broken)
        decreases |bindings| - prewarmed
      {
        if entries[bindings[prewarmed]].terminal {
          prewarmed := prewarmed + 1;
        } else {
          ghost var t := View();
          status := ScheduleBound();
          AdvancesTrans(s, t, View());
          calls := calls + 1;
          if !status.PrewarmMore? {
            return;
          }
        }
      }
      while calls < limit && queue != []
        invariant Valid() && Advances(s, View()) && calls <= limit && others == old(others) && broken == old(broken)
        decreases limit - calls
      {
        ghost var t := View();
        status := ScheduleDynamic();
        AdvancesTrans(s, t, View());
        calls := calls + 1;
        if !status.PrewarmMore? {
          return;
        }
      }
      status := if prewarmed == |bindings| && queue == [] then PrewarmComplete else PrewarmMore;
    }

    /** Withdraws every interest, in whatever order the table yields the entries. */
    method BackgroundReleaseAll() returns (status: OpStatus)
      requires Valid()
      modifies this, supervisor
      ensures Valid() && Advances(old(View()), View()) && Silent(entries) && (!broken ==> held == {})
              && others == old(others)
      ensures status.OpOk? ==> broken == old(broken)
    {
      hide Booked, Inv, Core, Advances;
      ghost var s := View();
      AdvancesSelf(s);
      status := OpOk;
      var rest := entries.Keys;
      while rest != {}
        invariant rest <= entries.Keys == s.entries.Keys && Valid() && Advances(s, View()) && others == old(others)
        invariant forall e :: e in entries && e !in rest ==> !entries[e].interest
        invariant status.OpOk? ==> broken == old(broken)
        decreases rest
      {
        var e :| e in rest;
        ghost var t := View();
        var step := ReleaseOne(e);
        AdvancesTrans(s, t, View());
        status := Merge(status, step);
        rest := rest - {e};
      }
    }

    method ReleaseOne(e: EntryId) returns (status: OpStatus)
      requires Valid() && e in entries
      modifies this`entries, this`held, this`broken, supervisor
      ensures Valid() && Advances(old(View()), View()) && (status.OpOk? ==> broken == old(broken))
      ensures entries == old(entries)[e := old(entries)[e].(interest := false)]
    {
      hide Booked, Shown, Inv, Core;
      ghost var t := View();
      InvCore(t);
      QueuedUninterested(t, e);
      InterestCore(t, e, false, {});
      status := BackgroundRelease(e, true);
      assert View() == WithInterest(t, e, false);
      InvCore(View());
      InterestAdvances(t, View(), e);
    }

    /** Every destination has been decided at least once. */
    predicate WarmupComplete()
      reads this
    {
      terminalCount == |destinations|
    }

    /** The warm-up gate is exactly that every destination was decided once. */
    lemma WarmupMeans()
      requires Valid()
      ensures WarmupComplete() <==> forall i: nat :: i < |destinations| ==> destinations[i].firstTerminal
      ensures (forall e :: e in entries ==> entries[e].terminal) ==> WarmupComplete()
    {
      TerminalsBounded(destinations);
      if forall e :: e in entries ==> entries[e].terminal {
        AllTerminalWarmsUp(View());
      }
    }
  }

  /** A destination is bound to entries of the query types it needs. */
  predicate BoundAs(b: Binding, e: EntryId, kind: QueryKind) {
    && (b.Address? && b.ipv4 == e ==> kind.A?)
    && (b.Address? && b.ipv6 == e ==> kind.AAAA?)
    && (b.Service? && b.srv == e ==> kind.SRV?)
  }

  lemma KindsFit(b: Binding, entries: map<EntryId, Entry>, bindings: seq<EntryId>, kinds: seq<QueryKind>)
    requires |kinds| == |bindings| && forall e :: e in entries ==> e in bindings
    requires forall j :: 0 <= j < |bindings| ==> bindings[j] in entries && entries[bindings[j]].kind == kinds[j]
    requires forall k :: 0 <= k < |bindings| ==> BoundAs(b, bindings[k], kinds[k])
    ensures b.Address? ==>
            (b.ipv4 in entries ==> entries[b.ipv4].kind.A?) && (b.ipv6 in entries ==> entries[b.ipv6].kind.AAAA?)
    ensures b.Service? ==> (b.srv in entries ==> entries[b.srv].kind.SRV?)
  {
    forall e | e in entries
      ensures BoundAs(b, e, entries[e].kind)
    {
      var k :| 0 <= k < |bindings| && bindings[k] == e;
      assert BoundAs(b, bindings[k], kinds[k]);
    }
  }

  lemma TwiceUpdated<K, V>(m: map<K, V>, k: K, v: V, w: V)
    ensures m[k := v][k := w] == m[k := w]
  {
  }

  function Targets(records: seq<SrvRecord>): (r: set<Name>) {
    set k | 0 <= k < |records| :: records[k].target
  }

  lemma TargetsNext(records: seq<SrvRecord>, k: nat)
    requires k < |records|
    ensures Targets(records[..k + 1]) == Targets(records[..k]) + {records[k].target}
  {
    assert records[..k + 1] == records[..k] + [records[k]];
    forall n | n in Targets(records[..k])
      ensures n in Targets(records[..k + 1])
    {
      var j :| 0 <= j < k && records[..k][j].target == n;
      assert records[..k + 1][j].target == n;
    }
    assert records[..k + 1][k].target == records[k].target;
  }

  method RootTargets(records: seq<SrvRecord>) returns (root: bool, ordinary: bool)
    ensures root <==> "." in Targets(records)
    ensures root ==> (ordinary <==> Targets(records) != {"."})
  {
    root, ordinary := false, false;
    var k := 0;
    while k < |records|
      invariant 0 <= k <= |records|
      invariant root <==> "." in Targets(records[..k])
      invariant ordinary <==> exists n :: n in Targets(records[..k]) && n != "."
    {
      TargetsNext(records, k);
      root := root || records[k].target == ".";
      if records[k].target != "." {
        assert records[k].target in Targets(records[..k + 1]);
        ordinary := true;
      }
      k := k + 1;
    }
    assert records[..k] == records;
    if !ordinary && root {
      assert Targets(records) == {"."};
    }
  }

  // ---------------------------------------------------------------- whole runs

  datatype Request =
    | ScheduleSome(limit: nat)
    | Complete(wellFormed: bool, ok: bool, records: seq<SrvRecord>)
    | ReleaseAll
    | ProcessEvents(now: SupervisorState.Time)
    | ScheduleElsewhere(mark: SupervisorState.Marker, kind: QueryKind, view: S.CacheView, now: SupervisorState.Time)
    | ReleaseElsewhere(mark: SupervisorState.Marker, now: SupervisorState.Time)
    | BeginShutdown(now: SupervisorState.Time)

  /** Somebody else has an entry looked up. */
  method AskElsewhere(r: RouteResolution, m: SupervisorState.Marker, kind: QueryKind, view: S.CacheView,
      now: SupervisorState.Time, others: set<SupervisorState.Marker>) returns (after: set<SupervisorState.Marker>)
    requires r.Valid() && r.others == others && m !in others && m != Mark(r.holder, m.entry)
    modifies r`others, r.supervisor
    ensures r.Valid() && r.others == after
  {
    hide Inv, SupervisorState.Inv, SupervisorState.WorkConserving;
    ghost var mark := m;
    if r.broken {
      var free := Unmarked(r.supervisor.markers);
      mark := SupervisorState.Marker(free, m.entry, m.priority);
    }
    var status := r.supervisor.Schedule(SupervisorState.Entry(m.entry, kind), view, now, mark, m.priority);
    after := if status in {S.Started, S.Shared, S.ScheduleIo} then others + {m} else others;
    r.others := after;
  }

  /** Somebody else takes an interest back. */
  method GiveUpElsewhere(r: RouteResolution, m: SupervisorState.Marker, now: SupervisorState.Time,
      others: set<SupervisorState.Marker>) returns (after: set<SupervisorState.Marker>)
    requires r.Valid() && r.others == others && m in others
    modifies r`others, r.supervisor
    ensures r.Valid() && r.others == after
  {
    hide Inv, SupervisorState.Inv, SupervisorState.WorkConserving;
    var status, _ := r.supervisor.Release(m.entry, m.priority, now, m);
    after := if status in {S.ReleaseOk, S.ReleaseIo, S.Satisfied} then others - {m} else others;
    r.others := after;
  }

  lemma SplitTaken(markers: set<SupervisorState.Marker>, holder: nat, held: set<EntryId>,
      others: set<SupervisorState.Marker>, e: EntryId)
    requires Split(markers, holder, held, others)
    ensures Split(SupervisorMoves.MarkersElsewhere(markers, e), holder, held - {e},
                  SupervisorMoves.MarkersElsewhere(others, e))
  {
  }

  /** The oldest completion is taken from the supervisor and the coordinator observes it. */
  method CompleteNext(r: RouteResolution, wellFormed: bool, ok: bool, records: seq<SrvRecord>,
      others: set<SupervisorState.Marker>) returns (after: set<SupervisorState.Marker>, fatal: bool)
    requires r.Valid() && r.others == others
    modifies r, r.supervisor
    ensures r.Valid() && r.others == after && Advances(old(r.View()), r.View())
    ensures !fatal ==> r.broken == old(r.broken)
  {
    hide Inv, SupervisorState.Inv, SupervisorState.WorkConserving, Split, Advances;
    AdvancesSelf(r.View());
    ghost var marked := r.supervisor.markers;
    var taken := r.supervisor.CompletionTake();
    after, fatal := others, false;
    if taken.Some? {
      var e := taken.value.0.id;
      if !r.broken {
        SplitTaken(marked, r.holder, r.held, others, e);
      }
      after := SupervisorMoves.MarkersElsewhere(others, e);
      r.others := after;
      var publication: Publication := *;
      var status := r.CompletionObserve(Completion(e, wellFormed, ok, publication, records));
      fatal := !status.CompletionOk? && !status.CompletionIgnored?;
    }
  }

  method EventsElsewhere(r: RouteResolution, now: SupervisorState.Time)
    requires r.Valid()
    modifies r.supervisor
    ensures r.Valid()
  {
    hide Inv, SupervisorState.Inv, SupervisorState.WorkConserving;
    var _ := r.supervisor.EventsProcess(now);
  }

  /** The supervisor gives everything up; from then on it refuses whatever it is asked. */
  method ShutdownElsewhere(r: RouteResolution, now: SupervisorState.Time)
    requires r.Valid()
    modifies r.supervisor
    ensures r.Valid()
  {
    hide Inv, SupervisorState.Inv, SupervisorState.WorkConserving;
    var _ := r.supervisor.Shutdown(now);
  }

  /** One request. `others` follows the interests of everybody else. */
  method Step(r: RouteResolution, request: Request, holder: nat, others: set<SupervisorState.Marker>)
      returns (after: set<SupervisorState.Marker>, fatal: bool)
    requires r.Valid() && r.others == others && r.holder == holder
    modifies r, r.supervisor
    ensures r.Valid() && r.others == after && Advances(old(r.View()), r.View())
    ensures !fatal ==> r.broken == old(r.broken)
  {
    hide Inv, Advances, Booked, Shown, SupervisorState.Inv;
    AdvancesSelf(r.View());
    after, fatal := others, false;
    match request {
      case ScheduleSome(limit) =>
        var status := r.Schedule(limit);
        fatal := Fatal(status);
      case Complete(wellFormed, ok, records) => after, fatal := CompleteNext(r, wellFormed, ok, records, others);
      case ReleaseAll =>
        var status := r.BackgroundReleaseAll();
        fatal := !status.OpOk?;
      case ProcessEvents(now) => EventsElsewhere(r, now);
      case ScheduleElsewhere(m, kind, view, now) =>
        if m !in others && m != Mark(holder, m.entry) {
          after := AskElsewhere(r, m, kind, view, now, others);
        }
      case ReleaseElsewhere(m, now) =>
        if m in others {
          after := GiveUpElsewhere(r, m, now, others);
        }
      case BeginShutdown(now) => ShutdownElsewhere(r, now);
    }
  }

  /** Any run of the coordinator on a supervisor that others use as well: the graph and its counters
      stay exact, and warm-up, once complete, stays complete. Until a call fails, the supervisor counts
      exactly the interests the entries show and those of others. */
  method Run(supervisor: Supervisor.ResolverSupervisor, holder: nat, bound: seq<EntryId>, kinds: seq<QueryKind>,
      table: seq<Binding>, requests: seq<Request>)
      returns (r: RouteResolution, built: bool, warm: seq<bool>, others: set<SupervisorState.Marker>, failed: bool)
    requires |kinds| == |bound| && forall b, k :: b in table && 0 <= k < |bound| ==> BoundAs(b, bound[k], kinds[k])
    requires supervisor.Valid() && supervisor.markers == {}
    modifies supervisor
    ensures fresh(r) && (built ==> r.Valid() && |warm| == |requests| + 1 && warm[|requests|] == r.WarmupComplete())
    ensures built && !failed ==>
            supervisor.markers == others + Marks(holder, set e | e in r.entries && r.entries[e].interest)
    ensures built ==> forall i, j :: 0 <= i <= j < |warm| && warm[i] ==> warm[j]
  {
    hide Inv, Advances, Booked, Shown, SupervisorState.Inv;
    r := new RouteResolution(supervisor, holder, bound);
    built := r.Build(kinds, table);
    warm, others, failed := [], {}, false;
    if !built {
      return;
    }
    warm := [r.WarmupComplete()];
    var k := 0;
    while k < |requests|
      invariant 0 <= k <= |requests| && fresh(r) && r.Valid() && |warm| == k + 1 && warm[k] == r.WarmupComplete()
      invariant r.others == others && r.supervisor == supervisor && r.holder == holder && (!failed ==> !r.broken)
      invariant forall i, j :: 0 <= i <= j < |warm| && warm[i] ==> warm[j]
    {
      ghost var s := r.View();
      var fatal;
      others, fatal := Step(r, requests[k], holder, others);
      failed := failed || fatal;
      if s.terminalCount == |s.destinations| {
        WarmStaysWarm(s, r.View());
      }
      warm := warm + [r.WarmupComplete()];
      k := k + 1;
    }
    if !failed {
      LedgerRead(r);
    }
  }

  lemma LedgerRead(r: RouteResolution)
    requires r.Ledger() && !r.broken
    ensures r.supervisor.markers == r.others + Marks(r.holder, set e | e in r.entries && r.entries[e].interest)
  {
    assert r.held == set e | e in r.entries && r.entries[e].interest;
  }

  lemma WarmStaysWarm(s: State, r: State)
    requires Inv(s) && Inv(r) && Advances(s, r) && s.terminalCount == |s.destinations|
    ensures r.terminalCount == |r.destinations|
  {
    TerminalsBounded(r.destinations);
  }
}
