/** How the steps of rebuilding one destination's target set compose: growing the graph while the
    candidate is built, linking it, and shrinking the graph while the old set is dissolved.
 */
module ResolutionSteps {
  import opened Basics
  import opened ResolutionGraph
  import opened ResolutionCounts

  // ---------------------------------------------------------------- entries over several steps

  /** Only references to the entry came or went. */
  predicate Kept(x: Entry, y: Entry) {
    y == x.(uses := y.uses, deps := y.deps)
  }

  /** Nothing was added; entries of the bindings are still there. */
  ghost predicate Shrunk(s: State, r: State) {
    && r.candidate == s.candidate && r.nextDep == s.nextDep
    && (forall d :: d in r.deps ==> d in s.deps && r.deps[d] == s.deps[d])
    && (forall e :: e in r.entries ==> e in s.entries && Kept(s.entries[e], r.entries[e]))
    && (forall e :: e in s.entries && !s.entries[e].owned ==> e in r.entries)
    && (forall n :: n in r.targets ==> n in s.targets && r.targets[n].origin == s.targets[n].origin)
  }

  lemma ShrunkTrans(s: State, t: State, r: State)
    requires Shrunk(s, t) && Shrunk(t, r)
    ensures Shrunk(s, r)
  {
  }

  lemma ShrunkExact(s: State, r: State)
    requires DepsExact(s, {}) && Shrunk(s, r)
    ensures DepsExact(r, {})
  {
    forall d | d in r.deps
      ensures DepExact(r.deps[d], r.entries)
    {
      assert DepExact(s.deps[d], s.entries);
    }
  }

  /** Nothing was removed; what is new is owned, unanswered and not scheduled. */
  ghost predicate Grown(s: State, r: State) {
    && r.deps == s.deps && r.destinations == s.destinations && r.candidate == s.candidate
    && r.nextDep == s.nextDep && r.terminalCount == s.terminalCount
    && (forall e :: e in s.entries ==>
       e in r.entries && Kept(s.entries[e], r.entries[e]) && r.entries[e].deps == s.entries[e].deps)
    && (forall e :: e in r.entries && e !in s.entries ==>
       r.entries[e].owned && !r.entries[e].interest && r.entries[e].deps == [])
    && (forall n :: n in s.targets ==> n in r.targets && r.targets[n] == s.targets[n])
  }

  lemma GrownTrans(s: State, t: State, r: State)
    requires Grown(s, t) && Grown(t, r)
    ensures Grown(s, r)
  {
  }

  lemma GrownExact(s: State, r: State)
    requires DepsExact(s, {}) && DepsKnown(s) && Grown(s, r)
    ensures DepsExact(r, {})
  {
    forall d | d in r.deps
      ensures DepExact(r.deps[d], r.entries)
    {
      assert DepExact(s.deps[d], s.entries);
    }
  }

  /** A reference that is not the last one does not need the entry to be loose. */
  lemma Tightened(s: State, home: nat, looseEntries: set<EntryId>, looseTargets: set<Name>, e: EntryId)
    requires Graph(s, home, looseEntries, looseTargets)
    requires e in s.entries ==> !s.entries[e].owned || s.entries[e].uses > 0
    ensures Graph(s, home, looseEntries - {e}, looseTargets)
  {
    hide TargetsExact, TargetsResolvable, Shaped, CandidateShaped, DepsListed, QueueExact, DepsKnown;
    forall k | k in s.entries
      ensures EntryExact(s.entries[k], k, s.deps, s.targets, looseEntries - {e})
    {
      assert EntryExact(s.entries[k], k, s.deps, s.targets, looseEntries);
    }
  }

  lemma TightenedTarget(s: State, home: nat, looseEntries: set<EntryId>, looseTargets: set<Name>, n: Name)
    requires Graph(s, home, looseEntries, looseTargets)
    requires n in s.targets ==> s.targets[n].uses > 0
    ensures Graph(s, home, looseEntries, looseTargets - {n})
  {
    hide EntriesExact, TargetsResolvable, Shaped, CandidateShaped, DepsListed, QueueExact, DepsKnown;
  }

  // ---------------------------------------------------------------- elsewhere, step by step

  lemma ElsewhereSelf(s: State, i: nat)
    requires Shaped(s)
    ensures Elsewhere(s, s, i)
  {
    forall k: nat, n | k < |s.destinations| && k != i && n in s.destinations[k].targets.names
      ensures SameOrigin(s, s, n)
    {
      assert DestShaped(s.destinations[k], k, s.deps, s.targets);
    }
  }

  /** Both states know the targets of every set, and a target never changes its origin. */
  lemma ElsewhereBy(s: State, r: State, i: nat)
    requires Shaped(s) && Shaped(r)
    requires |r.destinations| == |s.destinations| && r.terminalCount == s.terminalCount
    requires forall k: nat :: k < |s.destinations| && k != i ==> r.destinations[k] == s.destinations[k]
    requires i < |s.destinations| ==> r.destinations[i] == s.destinations[i].(targets := r.destinations[i].targets)
    requires forall d :: d in s.deps && s.deps[d].dest != i ==> d in r.deps && r.deps[d] == s.deps[d]
    requires forall d :: d in r.deps && r.deps[d].dest != i ==> d in s.deps && r.deps[d] == s.deps[d]
    requires forall n :: n in s.targets && n in r.targets ==> r.targets[n].origin == s.targets[n].origin
    ensures Elsewhere(s, r, i)
  {
    forall k: nat, n | k < |s.destinations| && k != i && n in s.destinations[k].targets.names
      ensures SameOrigin(s, r, n)
    {
      assert DestShaped(s.destinations[k], k, s.deps, s.targets);
      assert DestShaped(r.destinations[k], k, r.deps, r.targets);
    }
  }

  // ---------------------------------------------------------------- one dependency of the old set

  /** Dropping a dependency, and its entry when that was the last reference. */
  ghost predicate Dissolving(s: State, r: State, i: nat) {
    && Elsewhere(s, r, i) && Shrunk(s, r)
  }

  lemma DissolvingTrans(s: State, t: State, r: State, i: nat)
    requires Dissolving(s, t, i) && Dissolving(t, r, i)
    ensures Dissolving(s, r, i)
  {
    hide Elsewhere, Shrunk;
    ElsewhereTrans(s, t, r, i);
    ShrunkTrans(s, t, r);
  }

  lemma GraphShaped(s: State, home: nat, looseEntries: set<EntryId>, looseTargets: set<Name>)
    requires Graph(s, home, looseEntries, looseTargets)
    ensures Shaped(s) && DepsKnown(s)
  {
  }

  lemma DepDropDissolves(s: State, i: nat, looseEntries: set<EntryId>, looseTargets: set<Name>)
    requires Graph(s, i, looseEntries, looseTargets) && i < |s.destinations| && s.destinations[i].targets.deps != []
    requires s.destinations[i].targets.deps[0] in s.deps && s.deps[s.destinations[i].targets.deps[0]].entry in s.entries
    ensures Dissolving(s, FirstDepDropped(s, i), i)
  {
    hide Graph, Shaped;
    FirstDepDroppedGraph(s, i, looseEntries, looseTargets);
    var r := FirstDepDropped(s, i);
    GraphShaped(s, i, looseEntries, looseTargets);
    GraphShaped(r, i, looseEntries + {s.deps[s.destinations[i].targets.deps[0]].entry}, looseTargets);
    ElsewhereBy(s, r, i);
  }

  lemma EntryDropDissolves(s: State, i: nat, looseEntries: set<EntryId>, looseTargets: set<Name>, e: EntryId)
    requires Graph(s, i, looseEntries, looseTargets) && e in s.entries && s.entries[e].uses == 0 && s.entries[e].owned
    ensures Dissolving(s, EntryRemoved(s, e), i)
  {
    hide Graph, Shaped, Unlink;
    EntryRemovedGraph(s, i, looseEntries, looseTargets, e);
    GraphShaped(s, i, looseEntries, looseTargets);
    GraphShaped(EntryRemoved(s, e), i, looseEntries - {e}, looseTargets);
    ElsewhereBy(s, EntryRemoved(s, e), i);
  }

  lemma TargetDropDissolves(s: State, i: nat, looseEntries: set<EntryId>, looseTargets: set<Name>)
    requires Graph(s, i, looseEntries, looseTargets) && i < |s.destinations| && s.destinations[i].targets.names != []
    requires s.destinations[i].targets.names[0] in s.targets
    ensures Dissolving(s, FirstTargetDropped(s, i), i)
  {
    hide Graph, Shaped;
    FirstTargetDroppedGraph(s, i, looseEntries, looseTargets);
    GraphShaped(s, i, looseEntries, looseTargets);
    GraphShaped(FirstTargetDropped(s, i), i, looseEntries, looseTargets + {s.destinations[i].targets.names[0]});
    ElsewhereBy(s, FirstTargetDropped(s, i), i);
  }

  lemma TargetGoneDissolves(s: State, i: nat, looseEntries: set<EntryId>, looseTargets: set<Name>, n: Name)
    requires Graph(s, i, looseEntries, looseTargets) && n in s.targets && s.targets[n].uses == 0
    ensures Resolvable(s.targets[n].origin, s.entries)
    ensures Dissolving(s, TargetRemoved(s, n), i)
  {
    hide Graph, Shaped, TargetRemoved;
    TargetRemovedGraph(s, i, looseEntries, looseTargets, n);
    TargetRemovedFrame(s, n);
    GraphShaped(s, i, looseEntries, looseTargets);
    GraphShaped(TargetRemoved(s, n), i, looseEntries + Referred(s.targets[n].origin), looseTargets - {n});
    ElsewhereBy(s, TargetRemoved(s, n), i);
  }

  lemma SameDissolves(s: State, i: nat, looseEntries: set<EntryId>, looseTargets: set<Name>)
    requires Graph(s, i, looseEntries, looseTargets)
    ensures Dissolving(s, s, i)
  {
    hide Graph, Elsewhere;
    GraphShaped(s, i, looseEntries, looseTargets);
    ElsewhereSelf(s, i);
  }

  lemma UnusedUnlinked(s: State, i: nat, looseEntries: set<EntryId>, looseTargets: set<Name>, e: EntryId)
    requires Graph(s, i, looseEntries, looseTargets) && e in s.entries && s.entries[e].uses == 0
    ensures s.entries[e].deps == []
  {
    assert EntryExact(s.entries[e], e, s.deps, s.targets, looseEntries);
  }

  /** No entry that only target `n` refers to carries an interest. */
  ghost predicate LastReferencesQuiet(s: State, n: Name)
    requires n in s.targets
  {
    forall e :: e in Referred(s.targets[n].origin) && e in s.entries && s.entries[e].uses == 1 ==>
      !s.entries[e].owned || !s.entries[e].interest
  }

  lemma TargetReferences(s: State, i: nat, looseTargets: set<Name>, n: Name)
    requires Graph(s, i, {}, looseTargets) && n in s.targets
    ensures Resolvable(s.targets[n].origin, s.entries)
    ensures forall e :: e in Referred(s.targets[n].origin) ==> e in s.entries && s.entries[e].uses > 0
    ensures s.targets[n].origin.Dns? ==> s.targets[n].origin.ipv4 != s.targets[n].origin.ipv6
  {
    hide EntriesExact, TargetsExact, Shaped, CandidateShaped, DepsListed, QueueExact, DepsKnown;
    TargetResolvable(s, n);
    ReferredUsed(s, {}, n);
  }

  // ---------------------------------------------------------------- closing a rebuilt destination

  lemma EmptiedGraph(s: State, i: nat)
    requires Graph(s, i, {}, {}) && i < |s.destinations| && s.destinations[i].targets.deps == []
             && s.destinations[i].targets.names == []
    ensures Graph(WithTargets(s, i, NO_TARGETS), i, {}, {})
  {
    hide EntriesExact, TargetsExact, TargetsResolvable, QueueExact, DepsKnown;
    var r := WithTargets(s, i, NO_TARGETS);
    EntriesIgnore(s, {}, r);
    TargetsSameNames(s, r, {});
    SameEntryKinds(s, r);
    QueueKept(s, r);
    forall k: nat | k < |r.destinations|
      ensures DestShaped(r.destinations[k], k, r.deps, r.targets)
    {
      assert DestShaped(s.destinations[k], k, s.deps, s.targets);
    }
    forall d | d in r.deps && r.deps[d].dest < |r.destinations|
      ensures DepListed(r, i, d)
    {
      assert DepListed(s, i, d);
    }
  }

  lemma EmptiedDissolves(s: State, t: State, i: nat)
    requires Dissolving(s, t, i) && i < |t.destinations|
    ensures Dissolving(s, WithTargets(t, i, NO_TARGETS), i)
  {
    var r := WithTargets(t, i, NO_TARGETS);
    forall k: nat, n | k < |s.destinations| && k != i && n in s.destinations[k].targets.names
      ensures SameOrigin(s, r, n)
    {
      assert SameOrigin(s, t, n);
    }
  }

  ghost predicate Silent(entries: map<EntryId, Entry>) {
    forall e :: e in entries ==> !entries[e].interest
  }

  lemma StaysSilent(s: State, r: State)
    requires Shrunk(s, r)
    ensures Silent(s.entries) ==> Silent(r.entries)
  {
  }

  /** The destination's own SRV query has been answered. */
  ghost predicate OwnerAnswered(s: State, i: nat) {
    i < |s.destinations| && s.destinations[i].owner != [] && s.destinations[i].owner[0] in s.deps
      && !s.deps[s.destinations[i].owner[0]].pending
  }

  /** What rebuilding destination `i` does to the rest: other destinations keep their counters and
      outcomes, warm-up only advances, and entries of the bindings survive with their flags. */
  ghost predicate Rebuilt(s: State, r: State, i: nat) {
    && |r.destinations| == |s.destinations| && r.terminalCount >= s.terminalCount
    && (forall k: nat :: k < |s.destinations| && k != i ==> r.destinations[k] == s.destinations[k])
    && (i < |s.destinations| ==>
       r.destinations[i].srv == s.destinations[i].srv && r.destinations[i].owner == s.destinations[i].owner
                                 && (s.destinations[i].firstTerminal ==> r.destinations[i].firstTerminal))
    && (forall e :: e in s.entries && !s.entries[e].owned ==> e in r.entries && Kept(s.entries[e], r.entries[e]))
    && (forall d :: d in s.deps && s.deps[d].dest != i ==> d in r.deps && r.deps[d] == s.deps[d])
    && (forall d :: d in s.deps && d in r.deps ==> r.deps[d] == s.deps[d])
  }

  lemma FailedCounts(s: State, i: nat)
    requires Graph(s, i, {}, {}) && s.candidate.deps == [] && i < |s.destinations| && s.destinations[i].srv
             && DepsExact(s, {})
    requires OwnerAnswered(s, i) && s.destinations[i].targets == NO_TARGETS && s.destinations[i].pending == 0
             && s.destinations[i].positive == 0
    requires !s.destinations[i].literal
    ensures Recounted(s.destinations[i], i, s.deps) && Wired(s.destinations[i].targets, s.deps, s.targets)
  {
    hide Graph, DepsExact;
    RecountSplits(s, i);
    assert PendingIn(s.deps, []) == {} && PositiveIn(s.deps, []) == {};
  }

  lemma NotLiteral(s: State, i: nat, home: nat, looseEntries: set<EntryId>, looseTargets: set<Name>)
    requires Graph(s, home, looseEntries, looseTargets) && i < |s.destinations| && s.destinations[i].srv
    ensures !s.destinations[i].literal && |s.destinations[i].owner| == 1 && s.destinations[i].owner[0] in s.deps
    ensures s.deps[s.destinations[i].owner[0]].dest == i && !s.deps[s.destinations[i].owner[0]].source
    ensures forall d :: d in s.destinations[i].targets.deps ==> d != s.destinations[i].owner[0]
  {
    assert DestShaped(s.destinations[i], i, s.deps, s.targets);
    var o := s.destinations[i].owner[0];
    assert DepAt(s.deps, o, i, false);
    forall d | d in s.destinations[i].targets.deps
      ensures d != o
    {
      assert DepAt(s.deps, d, i, true);
    }
  }

  lemma OwnerStays(s: State, t: State, i: nat)
    requires OwnerAnswered(s, i) && Shrunk(s, t) && i < |t.destinations|
             && t.destinations[i].owner == s.destinations[i].owner
    requires s.destinations[i].owner[0] in t.deps
    ensures OwnerAnswered(t, i)
  {
  }

  lemma FailedCore(s: State, t: State, u: State, i: nat, undecided: set<nat>)
    requires Core(s, undecided) && i < |s.destinations| && s.destinations[i].srv && OwnerAnswered(s, i)
    requires Graph(t, i, {}, {}) && Dissolving(s, t, i)
             && t.destinations == s.destinations[i := s.destinations[i].(targets := NO_TARGETS)]
    requires |u.destinations| == |t.destinations| && u == t.(destinations := t.destinations[i := u.destinations[i]])
    requires u.destinations[i]
             == t.destinations[i].(expanded := true, pending := 0, positive := 0, result := u.destinations[i].result)
    requires !u.destinations[i].result.Pending? && !u.destinations[i].result.Available?
    ensures Core(u, undecided + {i}) && Decidable(u.destinations[i])
  {
    hide Graph, Elsewhere, Counters, DepsExact, Recounted, Wired, OnlyFlags, OwnerAnswered;
    NotLiteral(t, i, i, {}, {});
    OwnerStays(s, t, i);
    ShrunkExact(s, t);
    assert t.candidate == NO_TARGETS && Elsewhere(s, t, i);
    hide Shrunk, Dissolving;
    GraphShaped(s, 0, {}, {});
    GraphShaped(t, i, {}, {});
    ElsewhereCounters(s, t, i, undecided);
    CounterFlags(t, u, i);
    FlagsGraph(t, u, i, {}, {});
    FlagsExact(t, u);
    OwnerSame(t, u, i);
    FailedCounts(u, i);
    ReopenedCounters(t, u, i, undecided);
    HomeFree(u, i, 0, {}, {});
  }

  lemma OwnerSame(s: State, r: State, i: nat)
    requires OwnerAnswered(s, i) && r.deps == s.deps && |r.destinations| == |s.destinations|
             && r.destinations[i].owner == s.destinations[i].owner
    ensures OwnerAnswered(r, i)
  {
  }

  lemma CounterFlags(s: State, r: State, i: nat)
    requires i < |s.destinations| == |r.destinations| && r == s.(destinations := s.destinations[i := r.destinations[i]])
             && DestFlags(s.destinations[i], r.destinations[i])
    ensures OnlyFlags(s, r)
  {
    assert forall e :: e in s.entries ==> EntryFlags(s.entries[e], s.entries[e]);
  }

  lemma FlagsExact(s: State, r: State)
    requires DepsExact(s, {}) && r.deps == s.deps && r.entries == s.entries
    ensures DepsExact(r, {})
  {
  }

  lemma DecidedCore(s: State, i: nat, undecided: set<nat>)
    requires Core(s, undecided) && i < |s.destinations| && Decidable(s.destinations[i])
    ensures Core(DestinationUpdated(s, i), undecided - {i})
  {
    hide Graph, Counters, DepsExact, OnlyFlags;
    UpdatedFlags(s, i);
    FlagsGraph(s, DestinationUpdated(s, i), 0, {}, {});
    FlagsExact(s, DestinationUpdated(s, i));
    UpdatedCounters(s, i, undecided);
  }

  lemma RebuiltBy(s: State, t: State, u: State, i: nat)
    requires i < |s.destinations| && Dissolving(s, t, i) && |u.destinations| == |t.destinations|
    requires u == t.(destinations := t.destinations[i := u.destinations[i]], candidate := u.candidate)
    requires u.destinations[i].srv == t.destinations[i].srv && u.destinations[i].owner == t.destinations[i].owner
             && u.destinations[i].firstTerminal == t.destinations[i].firstTerminal
    ensures Rebuilt(s, DestinationUpdated(u, i), i)
  {
  }

  // ---------------------------------------------------------------- building a candidate

  lemma GrownSelf(s: State)
    ensures Grown(s, s)
  {
  }

  lemma EntryGrows(s: State, e: EntryId, kind: QueryKind)
    requires e !in s.entries
    ensures Grown(s, EntryAdded(s, e, kind, true))
  {
  }

  lemma TargetGrows(s: State, n: Name, origin: Origin)
    requires n !in s.targets && Resolvable(origin, s.entries)
    ensures Grown(s, TargetAdded(s, n, origin))
  {
    hide TargetAdded;
    TargetAddedFrame(s, n, origin);
  }

  lemma {:induction false} UnlinkLast<T>(s: seq<T>, x: T)
    requires x !in s
    ensures Unlink(s + [x], x) == s
  {
    if s != [] {
      assert (s + [x])[1..] == s[1..] + [x];
      UnlinkLast(s[1..], x);
    }
  }

  /** Adding an entry and removing it again changes nothing. */
  lemma AddedRemoved(s: State, e: EntryId, kind: QueryKind)
    requires e !in s.entries && QueueExact(s)
    ensures EntryRemoved(EntryAdded(s, e, kind, true), e) == s
  {
    UnlinkLast(s.queue, e);
    assert s.entries[e := NewEntry(kind, true)] - {e} == s.entries;
  }

  lemma GraphQueue(s: State, home: nat, looseEntries: set<EntryId>, looseTargets: set<Name>)
    requires Graph(s, home, looseEntries, looseTargets)
    ensures QueueExact(s)
  {
  }

  lemma {:induction false} PlanExtended(targets: map<Name, Target>, names: seq<Name>, n: Name)
    requires n in targets && forall o :: o in names ==> o in targets
    ensures Plan(targets, names + [n]) == Plan(targets, names) + Lookups(targets[n].origin)
    ensures Literals(targets, names + [n]) == Literals(targets, names) + if targets[n].origin.Dns? then 0 else 1
  {
    assert (names + [n])[..|names|] == names;
  }

  /** While targets are only added, no set of old ones changes its lookups. */
  lemma PlanGrown(s: State, r: State, names: seq<Name>)
    requires Grown(s, r) && forall n :: n in names ==> n in s.targets
    ensures forall n :: n in names ==> n in r.targets
    ensures Plan(r.targets, names) == Plan(s.targets, names) && Literals(r.targets, names) == Literals(s.targets, names)
  {
    PlanSame(s.targets, r.targets, names);
  }

  /** The targets were `s.targets` and those `added`. */
  ghost predicate Undoing(s: State, r: State, added: set<Name>) {
    && r.deps == s.deps && r.destinations == s.destinations && r.candidate == s.candidate
    && r.nextDep == s.nextDep && r.terminalCount == s.terminalCount
    && (forall e :: e in s.entries && e in r.entries ==>
       Kept(s.entries[e], r.entries[e]) && r.entries[e].deps == s.entries[e].deps)
    && (forall e :: e in s.entries && !s.entries[e].owned ==> e in r.entries)
    && (forall e :: e in r.entries && e !in s.entries ==>
       r.entries[e].owned && !r.entries[e].interest && r.entries[e].deps == [])
    && (forall n :: n in s.targets ==> n in r.targets && r.targets[n] == s.targets[n])
    && r.targets.Keys == s.targets.Keys + added
  }

  lemma GrownUndoing(s: State, r: State, added: set<Name>)
    requires Grown(s, r) && r.targets.Keys == s.targets.Keys + added
    ensures Undoing(s, r, added)
  {
  }

  /** The last reference to an entry with an interest is never a target of the failed candidate. */
  lemma FreshTargetQuiet(s: State, r: State, i: nat, looseTargets: set<Name>, added: set<Name>, n: Name)
    requires Graph(s, i, {}, {}) && Graph(r, i, {}, looseTargets) && Undoing(s, r, added)
    requires n in r.targets && n !in s.targets
    ensures LastReferencesQuiet(r, n)
  {
    hide TargetsExact, TargetsResolvable, Shaped, CandidateShaped, DepsListed, QueueExact, DepsKnown;
    forall e | e in Referred(r.targets[n].origin) && e in r.entries && r.entries[e].uses == 1
      ensures !r.entries[e].owned || !r.entries[e].interest
    {
      if e in s.entries {
        assert EntryExact(r.entries[e], e, r.deps, r.targets, {});
        assert EntryExact(s.entries[e], e, s.deps, s.targets, {});
        OneUserLess(s.targets, r.targets, n, e);
        LastUserIsOld(s, r, e);
      }
    }
  }

  lemma OneUserLess(targets: map<Name, Target>, targets': map<Name, Target>, n: Name, e: EntryId)
    requires n in targets' && n !in targets && Uses(targets'[n], e)
    requires forall o :: o in targets ==> o in targets' && targets'[o] == targets[o]
    ensures |Users(targets, e)| + 1 <= |Users(targets', e)|
  {
    assert Users(targets, e) + {n} <= Users(targets', e);
    SubsetSizes(Users(targets, e) + {n}, Users(targets', e));
  }

  lemma LastUserIsOld(s: State, r: State, e: EntryId)
    requires e in s.entries && e in r.entries
    requires EntryExact(s.entries[e], e, s.deps, s.targets, {}) && EntryExact(r.entries[e], e, r.deps, r.targets, {})
    requires Kept(s.entries[e], r.entries[e]) && r.entries[e].deps == s.entries[e].deps
    requires |Users(s.targets, e)| + 1 <= |Users(r.targets, e)| && r.entries[e].uses == 1
    ensures !r.entries[e].owned
  {
  }

  /** One fresh target was taken back. */
  lemma UndoneOne(s: State, t: State, r: State, i: nat, added: set<Name>, n: Name)
    requires Undoing(s, t, added) && n in added && n !in s.targets
    requires Dissolving(t, r, i) && r.targets == t.targets - {n} && r.deps == t.deps && r.destinations == t.destinations
    requires forall e :: e in r.entries && e in t.entries ==> r.entries[e].deps == t.entries[e].deps
    ensures Undoing(s, r, added - {n})
  {
    forall e | e in s.entries && !s.entries[e].owned
      ensures e in r.entries
    {
      assert e in t.entries && Kept(s.entries[e], t.entries[e]);
    }
    assert r.targets.Keys == s.targets.Keys + (added - {n});
  }

  /** Exact reference counts determine the entries: taking back every fresh target restores them. */
  lemma Restored(s: State, r: State, i: nat)
    requires Graph(s, i, {}, {}) && Graph(r, i, {}, {}) && Undoing(s, r, {})
    ensures r.entries == s.entries && r.targets == s.targets && r == s.(queue := r.queue)
  {
    hide TargetsExact, Shaped, CandidateShaped, DepsListed, QueueExact;
    assert r.targets.Keys == s.targets.Keys;
    assert r.targets == s.targets;
    forall e | e in r.entries
      ensures e in s.entries
    {
      assert EntryExact(r.entries[e], e, r.deps, r.targets, {});
      if r.entries[e].owned {
        StillNeeded(s, r, e);
      }
    }
    forall e | e in s.entries
      ensures e in r.entries && r.entries[e] == s.entries[e]
    {
      assert EntryExact(s.entries[e], e, s.deps, s.targets, {});
      if s.entries[e].owned {
        StillReferred(s, r, e);
      }
      assert EntryExact(r.entries[e], e, r.deps, r.targets, {});
    }
  }

  lemma StillNeeded(s: State, r: State, e: EntryId)
    requires EntriesExact(r, {}) && DepsKnown(s) && TargetsResolvable(s) && e in r.entries
    requires r.deps == s.deps && r.targets == s.targets && r.entries[e].uses > 0
    ensures e in s.entries
  {
    assert EntryExact(r.entries[e], e, r.deps, r.targets, {});
    if r.entries[e].deps != [] {
      assert r.entries[e].deps[0] in r.entries[e].deps;
      assert LinkedTo(r.deps, r.entries[e].deps[0], e);
    } else {
      assert Users(r.targets, e) != {};
      var n :| n in Users(r.targets, e);
      assert Resolvable(s.targets[n].origin, s.entries);
    }
  }

  lemma StillReferred(s: State, r: State, e: EntryId)
    requires EntriesExact(s, {}) && DepsKnown(r) && TargetsResolvable(r) && e in s.entries && s.entries[e].owned
    requires r.deps == s.deps && r.targets == s.targets
    ensures e in r.entries
  {
    assert EntryExact(s.entries[e], e, s.deps, s.targets, {});
    if s.entries[e].deps != [] {
      assert s.entries[e].deps[0] in s.entries[e].deps;
      assert LinkedTo(s.deps, s.entries[e].deps[0], e);
    } else {
      assert Users(s.targets, e) != {};
      var n :| n in Users(s.targets, e);
      assert Resolvable(r.targets[n].origin, r.entries);
    }
  }

  // ---------------------------------------------------------------- linking a candidate

  /** Only destination `i`'s candidate gained references. */
  ghost predicate Linking(s: State, r: State, i: nat) {
    && r.destinations == s.destinations && r.terminalCount == s.terminalCount
    && (forall e :: e in s.entries <==> e in r.entries)
    && (forall e :: e in s.entries ==> e in r.entries && Kept(s.entries[e], r.entries[e]))
    && (forall d :: d in s.deps ==> d in r.deps && r.deps[d] == s.deps[d])
    && (forall d :: d in r.deps && d !in s.deps ==> r.deps[d].dest == i)
    && (forall n :: n in s.targets <==> n in r.targets)
    && (forall n :: n in s.targets ==> n in r.targets && r.targets[n].origin == s.targets[n].origin)
  }

  lemma LinkingTrans(s: State, t: State, r: State, i: nat)
    requires Linking(s, t, i) && Linking(t, r, i)
    ensures Linking(s, r, i)
  {
  }

  lemma HeldLinks(s: State, n: Name, i: nat)
    requires n in s.targets
    ensures Linking(s, TargetHeld(s, n), i)
  {
  }

  lemma CandidateLinks(s: State, e: EntryId, i: nat)
    requires e in s.entries && s.nextDep !in s.deps
    ensures Linking(s, CandidateLinked(s, e, i), i)
  {
  }

  lemma LinkedExact(s: State, e: EntryId, i: nat)
    requires DepsExact(s, {}) && e in s.entries && s.nextDep !in s.deps
    ensures DepsExact(CandidateLinked(s, e, i), {})
  {
    var r := CandidateLinked(s, e, i);
    forall d | d in r.deps
      ensures DepExact(r.deps[d], r.entries)
    {
      if d != s.nextDep {
        assert DepExact(s.deps[d], s.entries);
      }
    }
  }

  lemma PendingGrows(deps: map<DepId, Dependency>, list: seq<DepId>, list': seq<DepId>, d: DepId, x: Dependency)
    requires d !in deps && d !in list && forall o :: o in list' <==> o in list || o == d
    ensures |PendingIn(deps[d := x], list')| == |PendingIn(deps, list)| + (if x.pending then 1 else 0)
  {
    var before := PendingIn(deps, list);
    var after := PendingIn(deps[d := x], list');
    assert d !in before;
    assert d in after <==> x.pending;
    forall o
      ensures o != d ==> (o in after <==> o in before)
    {
      if o != d && o in deps {
        assert deps[d := x][o] == deps[o];
      }
    }
    assert after - {d} == before;
    SizeWithout(after, d);
  }

  lemma PositiveGrows(deps: map<DepId, Dependency>, list: seq<DepId>, list': seq<DepId>, d: DepId, x: Dependency)
    requires d !in deps && d !in list && forall o :: o in list' <==> o in list || o == d
    ensures |PositiveIn(deps[d := x], list')| == |PositiveIn(deps, list)| + (if x.positive then 1 else 0)
  {
    var before := PositiveIn(deps, list);
    var after := PositiveIn(deps[d := x], list');
    assert d !in before;
    assert d in after <==> x.positive;
    forall o
      ensures o != d ==> (o in after <==> o in before)
    {
      if o != d && o in deps {
        assert deps[d := x][o] == deps[o];
      }
    }
    assert after - {d} == before;
    SizeWithout(after, d);
  }

  lemma EntriesGrow(deps: map<DepId, Dependency>, list: seq<DepId>, d: DepId, x: Dependency)
    requires d !in deps && forall o :: o in list ==> o in deps
    ensures forall o :: o in list + [d] ==> o in deps[d := x]
    ensures EntriesOf(deps[d := x], list + [d]) == EntriesOf(deps, list) + [x.entry]
  {
  }

  /** The candidate's own counters grow with each linked dependency. */
  lemma LinkedCounts(s: State, e: EntryId, i: nat)
    requires e in s.entries && s.nextDep !in s.deps && forall d :: d in s.candidate.deps ==> d in s.deps
    ensures var r := CandidateLinked(s, e, i); var x := FreshDep(s, e, i, true);
            && |PendingIn(r.deps, r.candidate.deps)| == |PendingIn(s.deps, s.candidate.deps)|
               + (if x.pending then 1 else 0)
            && |PositiveIn(r.deps, r.candidate.deps)| == |PositiveIn(s.deps, s.candidate.deps)|
               + (if x.positive then 1 else 0)
            && (forall d :: d in r.candidate.deps ==> d in r.deps)
            && EntriesOf(r.deps, r.candidate.deps) == EntriesOf(s.deps, s.candidate.deps) + [e]
  {
    hide PendingIn, PositiveIn, EntriesOf;
    var x := FreshDep(s, e, i, true);
    var list' := s.candidate.deps + [s.nextDep];
    PendingGrows(s.deps, s.candidate.deps, list', s.nextDep, x);
    PositiveGrows(s.deps, s.candidate.deps, list', s.nextDep, x);
    EntriesGrow(s.deps, s.candidate.deps, s.nextDep, x);
  }

  lemma GrownElsewhere(s: State, r: State, i: nat, looseTargets: set<Name>)
    requires Grown(s, r) && Graph(s, i, {}, {}) && Graph(r, i, {}, looseTargets)
    ensures Elsewhere(s, r, i)
  {
    hide Graph, Shaped;
    GraphShaped(s, i, {}, {});
    GraphShaped(r, i, {}, looseTargets);
    ElsewhereBy(s, r, i);
  }

  lemma LinkingElsewhere(s: State, r: State, i: nat, looseTargets: set<Name>)
    requires Linking(s, r, i) && Graph(s, i, {}, looseTargets) && Graph(r, i, {}, {})
    ensures Elsewhere(s, r, i)
  {
    hide Graph, Shaped;
    GraphShaped(s, i, {}, looseTargets);
    GraphShaped(r, i, {}, {});
    ElsewhereBy(s, r, i);
  }

  // ---------------------------------------------------------------- the candidate under construction

  ghost function Set<T>(s: seq<T>): (r: set<T>) {
    set x | x in s
  }

  /** The part of a candidate collected so far: distinct targets, their lookups in order, and the
      targets created for it. */
  datatype Draft = Draft(names: seq<Name>, plan: seq<EntryId>, immediate: nat, created: seq<Name>)

  ghost predicate Drafted(s: State, r: State, i: nat, draft: Draft) {
    && Graph(r, i, {}, Set(draft.created))
    && Grown(s, r)
    && NameList(r.targets, draft.names)
    && draft.plan == Plan(r.targets, draft.names)
    && draft.immediate == Literals(r.targets, draft.names)
    && Distinct(draft.created) && (forall n :: n in draft.created ==> n in draft.names && n !in s.targets)
    && r.targets.Keys == s.targets.Keys + Set(draft.created)
  }

  function DraftWith(draft: Draft, n: Name, origin: Origin, created: bool): (r: Draft) {
    Draft(draft.names + [n], draft.plan + Lookups(origin), draft.immediate + (if origin.Dns? then 0 else 1),
          if created then draft.created + [n] else draft.created)
  }

  lemma DraftStarts(s: State, i: nat)
    requires Graph(s, i, {}, {})
    ensures Drafted(s, s, i, Draft([], [], 0, []))
  {
    hide Graph;
    assert Set<Name>([]) == {};
  }

  /** The name was drafted before: nothing to add. */
  lemma DraftKept(s: State, t: State, r: State, i: nat, draft: Draft)
    requires Drafted(s, t, i, draft) && Grown(t, r) && Graph(r, i, {}, Set(draft.created))
             && r.targets.Keys == t.targets.Keys
    ensures Drafted(s, r, i, draft)
  {
    hide Graph;
    GrownTrans(s, t, r);
    PlanGrown(t, r, draft.names);
  }

  lemma DraftNames(t: State, r: State, names: seq<Name>, n: Name)
    requires NameList(t.targets, names) && Grown(t, r) && n in r.targets && n !in names
    ensures NameList(r.targets, names + [n])
    ensures Plan(r.targets, names + [n]) == Plan(t.targets, names) + Lookups(r.targets[n].origin)
    ensures Literals(r.targets, names + [n]) == Literals(t.targets, names) + if r.targets[n].origin.Dns? then 0 else 1
  {
    PlanGrown(t, r, names);
    PlanExtended(r.targets, names, n);
    hide Plan, Literals;
    Extended(names, n, names + [n]);
  }

  lemma DraftCreated(known: set<Name>, before: set<Name>, after: set<Name>, names: seq<Name>, made: seq<Name>, n: Name,
      created: bool)
    requires Distinct(made) && (forall o :: o in made ==> o in names && o !in known) && before == known + Set(made)
             && n !in names
    requires created == (n !in before) && after == before + {n}
    ensures var made' := if created then made + [n] else made;
            && Distinct(made') && (forall o :: o in made' ==> o in names + [n] && o !in known)
               && after == known + Set(made')
            && Set(made') == (if created then Set(made) + {n} else Set(made))
  {
    if created {
      Extended(made, n, made + [n]);
      assert Set(made + [n]) == Set(made) + {n};
    } else {
      assert after == before;
    }
  }

  lemma DraftGrows(s: State, t: State, r: State, i: nat, draft: Draft, n: Name, created: bool)
    requires Drafted(s, t, i, draft) && Grown(t, r) && n in r.targets && n !in draft.names
             && created == (n !in t.targets)
    requires Graph(r, i, {}, if created then Set(draft.created) + {n} else Set(draft.created))
             && r.targets.Keys == t.targets.Keys + {n}
    ensures Drafted(s, r, i, DraftWith(draft, n, r.targets[n].origin, created))
  {
    hide Graph, Grown, Plan, Literals, Distinct, Set;
    GrownTrans(s, t, r);
    DraftNames(t, r, draft.names, n);
    DraftCreated(s.targets.Keys, t.targets.Keys, r.targets.Keys, draft.names, draft.created, n, created);
  }

  /** A target created while drafting is in the draft already, or new. */
  lemma DraftedKnown(s: State, r: State, i: nat, draft: Draft, n: Name)
    requires Drafted(s, r, i, draft)
    ensures n in draft.names ==> n in r.targets
    ensures Undoing(s, r, Set(draft.created))
  {
    hide Graph;
    GrownUndoing(s, r, Set(draft.created));
  }

  /** A fresh target is in no set, and removing it cannot drop an interest. */
  lemma UndoReady(s: State, r: State, i: nat, created: seq<Name>, n: Name)
    requires Graph(s, i, {}, {}) && Graph(r, i, {}, Set(created)) && Undoing(s, r, Set(created))
    requires n in created && n !in s.targets
    ensures n in r.targets && r.targets[n].uses == 0 && LastReferencesQuiet(r, n)
  {
    assert n in Set(created);
    FreshTargetQuiet(s, r, i, Set(created), Set(created), n);
    FreshUnheld(s, r, i, Set(created), n);
  }

  lemma FreshUnheld(s: State, r: State, i: nat, looseTargets: set<Name>, n: Name)
    requires Shaped(s) && CandidateShaped(s, i) && TargetsExact(r, looseTargets)
    requires r.destinations == s.destinations && r.candidate == s.candidate && n in r.targets && n !in s.targets
    ensures r.targets[n].uses == 0
  {
    forall k: nat | k <= |s.destinations|
      ensures n !in NamesAt(s.destinations, s.candidate, k)
    {
      if k < |s.destinations| {
        assert DestShaped(s.destinations[k], k, s.deps, s.targets);
      }
    }
    assert Holders(r.destinations, r.candidate, n) == {};
  }

  // ---------------------------------------------------------------- replacing a target set

  /** Everything the candidate was linked to is still there after the old set was dissolved. */
  lemma CandidateSurvives(s: State, r: State, i: nat)
    requires Shrunk(s, r) && Graph(r, i, {}, {}) && Wired(s.candidate, s.deps, s.targets)
    ensures Wired(r.candidate, r.deps, r.targets)
    ensures PendingIn(r.deps, r.candidate.deps) == PendingIn(s.deps, s.candidate.deps)
    ensures PositiveIn(r.deps, r.candidate.deps) == PositiveIn(s.deps, s.candidate.deps)
  {
    hide EntriesExact, TargetsExact, TargetsResolvable, Shaped, DepsListed, QueueExact, DepsKnown;
    forall d | d in r.candidate.deps
      ensures d in r.deps && d in s.deps && r.deps[d] == s.deps[d]
    {
      assert DepAt(r.deps, d, i, true);
    }
    WiredSame(s.candidate, s, r);
  }

  /** An entry the candidate needs outlives the dissolution of the old set, with all its flags. */
  lemma SharedSurvive(s: State, r: State, i: nat, e: EntryId)
    requires Shrunk(s, r) && Graph(r, i, {}, {}) && Wired(s.candidate, s.deps, s.targets)
    requires e in Plan(s.targets, s.candidate.names)
    ensures e in s.entries && e in r.entries && Kept(s.entries[e], r.entries[e])
  {
    hide EntriesExact, TargetsExact, TargetsResolvable, Shaped, DepsListed, QueueExact;
    var list := EntriesOf(s.deps, s.candidate.deps);
    var k :| 0 <= k < |list| && list[k] == e;
    var d := s.candidate.deps[k];
    assert d in r.candidate.deps;
    assert DepAt(r.deps, d, i, true);
  }

  /** Destination `i` with the linked candidate installed and its counters recomputed. */
  function Replaced(s: State, i: nat, pending: nat, positive: nat): (r: State)
    requires i < |s.destinations|
  {
    var x := s.destinations[i].(targets := s.candidate, expanded := true, pending := pending, positive := positive,
      result := Pending);
    s.(destinations := s.destinations[i := x], candidate := NO_TARGETS)
  }

  lemma ReplacedGraph(s: State, i: nat, pending: nat, positive: nat)
    requires Graph(s, i, {}, {}) && i < |s.destinations| && s.destinations[i].srv
             && s.destinations[i].targets == NO_TARGETS
    ensures Graph(Replaced(s, i, pending, positive), i, {}, {})
  {
    hide Graph, OnlyFlags;
    InstalledGraph(s, i, {}, {});
    var r := Replaced(s, i, pending, positive);
    CounterFlags(Installed(s, i), r, i);
    FlagsGraph(Installed(s, i), r, i, {}, {});
  }

  lemma ReplacedCounts(s: State, i: nat, pending: nat, positive: nat)
    requires Graph(s, i, {}, {}) && DepsExact(s, {}) && i < |s.destinations| && s.destinations[i].srv
             && s.destinations[i].targets == NO_TARGETS
    requires Wired(s.candidate, s.deps, s.targets)
    requires |s.destinations[i].owner| == 1 && s.destinations[i].owner[0] in s.deps
    requires pending == |PendingIn(s.deps, s.candidate.deps)|
             + (if s.deps[s.destinations[i].owner[0]].pending then 1 else 0)
    requires positive == |PositiveIn(s.deps, s.candidate.deps)| + s.candidate.immediate
    ensures var r := Replaced(s, i, pending, positive);
            Recounted(r.destinations[i], i, r.deps) && Wired(r.destinations[i].targets, r.deps, r.targets)
              && Decidable(r.destinations[i])
  {
    hide Graph, DepsExact, PendingIn, PositiveIn, PendingSet, PositiveSet;
    var r := Replaced(s, i, pending, positive);
    ReplacedGraph(s, i, pending, positive);
    FlagsExact(s, r);
    RecountSplits(r, i);
    NotLiteral(r, i, i, {}, {});
  }

  /** The whole replacement, from the state before the candidate was drafted. */
  lemma ReplacedCore(s: State, t: State, i: nat, pending: nat, positive: nat, undecided: set<nat>)
    requires Core(s, undecided) && Elsewhere(s, t, i) && Graph(t, i, {}, {}) && DepsExact(t, {})
             && |t.destinations| == |s.destinations|
    requires i < |t.destinations| && t.destinations[i].srv && t.destinations[i].targets == NO_TARGETS
    requires Wired(t.candidate, t.deps, t.targets)
    requires |t.destinations[i].owner| == 1 && t.destinations[i].owner[0] in t.deps
    requires pending == |PendingIn(t.deps, t.candidate.deps)|
             + (if t.deps[t.destinations[i].owner[0]].pending then 1 else 0)
    requires positive == |PositiveIn(t.deps, t.candidate.deps)| + t.candidate.immediate
    ensures Core(Replaced(t, i, pending, positive), undecided + {i})
            && Decidable(Replaced(t, i, pending, positive).destinations[i])
  {
    hide Graph, Elsewhere, Counters, DepsExact, Recounted, Wired, PendingIn, PositiveIn;
    var r := Replaced(t, i, pending, positive);
    GraphShaped(s, 0, {}, {});
    GraphShaped(t, i, {}, {});
    ElsewhereCounters(s, t, i, undecided);
    ReplacedGraph(t, i, pending, positive);
    ReplacedCounts(t, i, pending, positive);
    FlagsExact(t, r);
    ReopenedCounters(t, r, i, undecided);
    HomeFree(r, i, 0, {}, {});
  }

  lemma LinkingSelf(s: State, i: nat)
    ensures Linking(s, s, i)
  {
  }

  lemma LinkingEntry(s: State, t: State, i: nat, e: EntryId)
    requires Linking(s, t, i) && e in s.entries
    ensures e in t.entries && t.entries[e].kind == s.entries[e].kind
  {
  }

  lemma EmptyLists(deps: map<DepId, Dependency>)
    ensures PendingIn(deps, []) == {} && PositiveIn(deps, []) == {} && EntriesOf(deps, []) == []
  {
  }

  lemma CandidateLinkReady(s: State, i: nat)
    requires Graph(s, i, {}, {})
    ensures s.nextDep !in s.deps
    ensures forall d :: d in s.candidate.deps ==> d in s.deps
  {
    hide EntriesExact, TargetsExact, TargetsResolvable, Shaped, DepsListed, QueueExact;
    forall d | d in s.candidate.deps
      ensures d in s.deps
    {
      assert DepAt(s.deps, d, i, true);
    }
  }

  /** The candidate's own counts are no concern of the graph. */
  lemma RelabelledGraph(s: State, i: nat, looseTargets: set<Name>, immediate: nat, records: seq<SrvRecord>)
    requires Graph(s, i, {}, looseTargets)
    ensures Graph(s.(candidate := s.candidate.(immediate := immediate, records := records)), i, {}, looseTargets)
    ensures Linking(s, s.(candidate := s.candidate.(immediate := immediate, records := records)), i)
  {
    hide EntriesExact, TargetsExact, TargetsResolvable, QueueExact, DepsKnown;
    var r := s.(candidate := s.candidate.(immediate := immediate, records := records));
    EntriesIgnore(s, {}, r);
    TargetsSameNames(s, r, looseTargets);
    SameEntryKinds(s, r);
    QueueKept(s, r);
    ListsKept(s, r);
    forall d | d in r.deps && r.deps[d].dest < |r.destinations|
      ensures DepListed(r, i, d)
    {
      assert DepListed(s, i, d);
    }
  }

  lemma {:induction false} PlanKnown(s: State, names: seq<Name>, e: EntryId)
    requires TargetsResolvable(s) && (forall n :: n in names ==> n in s.targets) && e in Plan(s.targets, names)
    ensures e in s.entries && !s.entries[e].kind.SRV?
  {
    if names != [] {
      var rest := names[..|names| - 1];
      var n := names[|names| - 1];
      assert Resolvable(s.targets[n].origin, s.entries);
      if e in Plan(s.targets, rest) {
        PlanKnown(s, rest, e);
      }
    }
  }

  lemma DraftPlanKnown(s: State, r: State, i: nat, draft: Draft)
    requires Drafted(s, r, i, draft)
    ensures forall e :: e in draft.plan ==> e in r.entries && !r.entries[e].kind.SRV?
  {
    hide Plan, Literals, Grown;
    forall e | e in draft.plan
      ensures e in r.entries && !r.entries[e].kind.SRV?
    {
      PlanKnown(r, draft.names, e);
    }
  }

  lemma LinkingSilent(s: State, r: State, i: nat)
    requires Linking(s, r, i)
    ensures Silent(s.entries) ==> Silent(r.entries)
  {
  }

  lemma WiredCandidate(s: State, t: State, r: State, i: nat, draft: Draft)
    requires Drafted(s, t, i, draft) && Linking(t, r, i)
    requires r.candidate.names == draft.names && r.candidate.immediate == draft.immediate
    requires (forall d :: d in r.candidate.deps ==> d in r.deps) && EntriesOf(r.deps, r.candidate.deps) == draft.plan
    ensures Wired(r.candidate, r.deps, r.targets)
  {
    hide Graph, Grown;
    PlanSame(t.targets, r.targets, draft.names);
  }

  lemma ElsewhereChain(s: State, t: State, u: State, r: State, i: nat, draft: Draft)
    requires Graph(s, i, {}, {}) && Drafted(s, t, i, draft)
    requires Linking(t, u, i) && Graph(u, i, {}, {}) && Dissolving(u, r, i)
    ensures Elsewhere(s, r, i)
  {
    hide Graph, Grown, Linking, Elsewhere, Shrunk, Plan, Literals;
    GrownElsewhere(s, t, i, Set(draft.created));
    LinkingElsewhere(t, u, i, Set(draft.created));
    ElsewhereTrans(s, t, u, i);
    ElsewhereTrans(s, u, r, i);
  }

  lemma SurvivorsChain(s: State, t: State, u: State, r: State, i: nat)
    requires Grown(s, t) && Linking(t, u, i) && Shrunk(u, r)
    ensures forall e :: e in s.entries && !s.entries[e].owned ==> e in r.entries && Kept(s.entries[e], r.entries[e])
    ensures forall d :: d in s.deps && d in r.deps ==> r.deps[d] == s.deps[d]
  {
    forall e | e in s.entries && !s.entries[e].owned
      ensures e in r.entries && Kept(s.entries[e], r.entries[e])
    {
      assert e in t.entries && e in u.entries;
    }
  }

  lemma RebuiltChain(s: State, r: State, i: nat, pending: nat, positive: nat)
    requires Elsewhere(s, r, i) && i < |r.destinations|
    requires forall e :: e in s.entries && !s.entries[e].owned ==> e in r.entries && Kept(s.entries[e], r.entries[e])
    requires forall d :: d in s.deps && d in r.deps ==> r.deps[d] == s.deps[d]
    ensures Rebuilt(s, DestinationUpdated(Replaced(r, i, pending, positive), i), i)
  {
  }

  /** After the old set is dissolved the candidate is intact and the destination ready for it. */
  lemma ReplacementReady(s: State, t: State, u: State, r: State, i: nat, draft: Draft)
    requires Graph(s, i, {}, {}) && Drafted(s, t, i, draft) && Linking(t, u, i) && Graph(u, i, {}, {})
             && DepsExact(u, {}) && Dissolving(u, r, i)
    requires Graph(r, i, {}, {}) && Wired(u.candidate, u.deps, u.targets) && i < |s.destinations|
             && s.destinations[i].srv
    requires i < |u.destinations| == |r.destinations| && r.destinations[i] == u.destinations[i].(targets := NO_TARGETS)
    ensures Elsewhere(s, r, i) && DepsExact(r, {}) && Wired(r.candidate, r.deps, r.targets)
            && |r.destinations| == |s.destinations|
    ensures r.candidate == u.candidate
    ensures PendingIn(r.deps, r.candidate.deps) == PendingIn(u.deps, u.candidate.deps)
    ensures PositiveIn(r.deps, r.candidate.deps) == PositiveIn(u.deps, u.candidate.deps)
    ensures r.destinations[i].srv && |r.destinations[i].owner| == 1 && r.destinations[i].owner[0] in r.deps
    ensures forall e :: e in s.entries && !s.entries[e].owned ==> e in r.entries && Kept(s.entries[e], r.entries[e])
    ensures forall d :: d in s.deps && d in r.deps ==> r.deps[d] == s.deps[d]
  {
    SurvivorsChain(s, t, u, r, i);
    hide Graph, Plan, Literals, DepsExact, PendingIn, PositiveIn, EntriesOf;
    ElsewhereChain(s, t, u, r, i, draft);
    ShrunkExact(u, r);
    CandidateSurvives(u, r, i);
    NotLiteral(r, i, i, {}, {});
  }

  lemma DraftSurvives(s: State, t: State, u: State, r: State, i: nat, draft: Draft)
    requires Drafted(s, t, i, draft) && Linking(t, u, i) && Shrunk(u, r) && Graph(r, i, {}, {})
    requires Wired(u.candidate, u.deps, u.targets) && u.candidate.names == draft.names
    ensures forall e :: e in draft.plan ==> e in t.entries && e in r.entries && Kept(t.entries[e], r.entries[e])
  {
    hide Graph, Grown;
    PlanSame(t.targets, u.targets, draft.names);
    forall e | e in draft.plan
      ensures e in t.entries && e in r.entries && Kept(t.entries[e], r.entries[e])
    {
      SharedSurvive(u, r, i, e);
    }
  }

  lemma DraftSame(s: State, r: State, i: nat, draft: Draft)
    requires Drafted(s, r, i, draft)
    ensures r.destinations == s.destinations && r.candidate == s.candidate && (Silent(s.entries) ==> Silent(r.entries))
  {
    hide Graph, Plan, Literals;
  }

  lemma RequeuedCore(s: State, t: State, i: nat, undecided: set<nat>)
    requires Core(s, undecided) && t == s.(queue := t.queue) && Graph(t, i, {}, {})
    ensures Core(t, undecided)
  {
    hide Graph;
    HomeFree(t, i, 0, {}, {});
  }

  lemma RequeuedOwner(s: State, t: State, i: nat)
    requires OwnerAnswered(s, i) && t == s.(queue := t.queue)
    ensures OwnerAnswered(t, i)
  {
  }

  lemma RebuiltRequeued(s: State, t: State, r: State, i: nat)
    requires t == s.(queue := t.queue) && Rebuilt(t, r, i)
    ensures Rebuilt(s, r, i)
  {
  }

  // ---------------------------------------------------------------- observing an answer

  /** What every step keeps: decisions are not taken back, answers stay answers, and entries of the
      bindings stay with their interest. */
  ghost predicate Progress(s: State, r: State) {
    && |r.destinations| == |s.destinations| && r.terminalCount >= s.terminalCount
    && (forall k: nat :: k < |s.destinations| && s.destinations[k].firstTerminal ==> r.destinations[k].firstTerminal)
    && (forall e :: e in s.entries && !s.entries[e].owned ==> e in r.entries && Bound(s.entries[e], r.entries[e]))
  }

  predicate Bound(x: Entry, y: Entry) {
    && !y.owned && y.kind == x.kind && y.interest == x.interest
    && (x.terminal ==> y.terminal && y.positive == x.positive)
  }

  lemma ProgressTrans(s: State, t: State, r: State)
    requires Progress(s, t) && Progress(t, r)
    ensures Progress(s, r)
  {
  }

  lemma RebuiltProgress(s: State, r: State, i: nat)
    requires Rebuilt(s, r, i) && i < |s.destinations|
    ensures Progress(s, r)
  {
  }

  lemma UpdatedProgress(s: State, i: nat)
    requires i < |s.destinations|
    ensures Progress(s, DestinationUpdated(s, i))
  {
  }

  lemma SatisfiedProgress(s: State, d: DepId, positive: bool)
    requires d in s.deps && s.deps[d].dest < |s.destinations|
    ensures Progress(s, Satisfied(s, d, positive))
  {
  }

  lemma AnsweredProgress(s: State, e: EntryId, positive: bool)
    requires e in s.entries && !s.entries[e].terminal
    ensures Progress(s, Answered(s, e, positive))
  {
  }

  lemma DequeuedProgress(s: State, e: EntryId)
    requires e in s.entries
    ensures Progress(s, Dequeued(s, e))
  {
  }

  lemma DequeuedCore(s: State, e: EntryId, undecided: set<nat>)
    requires Core(s, undecided) && e in s.entries
    ensures Core(Dequeued(s, e), undecided)
  {
    hide Graph, Unlink;
    DequeuedGraph(s, 0, {}, {}, e);
    forall d | d in s.deps
      ensures DepExact(s.deps[d], Dequeued(s, e).entries)
    {
      assert DepExact(s.deps[d], s.entries);
    }
  }

  /** The state while the dependencies of a freshly answered entry are satisfied one by one. */
  ghost predicate Observing(s: State, e: EntryId, list: seq<DepId>, k: nat, positive: bool, undecided: set<nat>) {
    && Graph(s, 0, {}, {}) && s.candidate == NO_TARGETS
    && e in s.entries && s.entries[e].deps == list && s.entries[e].terminal && s.entries[e].positive == positive
       && !s.entries[e].queued
    && k <= |list|
    && DepsExact(s, Set(list[k..]))
    && (forall d :: d in list[k..] ==> d in s.deps && s.deps[d].pending && !s.deps[d].positive)
    && Counters(s, {}, undecided)
    && (forall d :: d in list ==>
       d in s.deps && s.deps[d].entry == e && s.deps[d].dest < |s.destinations| && s.deps[d].dest in undecided)
    && (forall d :: d in list ==> Waiting(s, s.entries[e].kind, s.deps[d].dest))
  }

  /** A destination that waits for an answer is undecided; only an SRV answer can expand it. */
  ghost predicate Waiting(s: State, kind: QueryKind, i: nat) {
    i < |s.destinations| && s.destinations[i].result.Pending? && (kind.SRV? || s.destinations[i].expanded)
  }

  lemma PendingWaits(s: State, d: DepId)
    requires Inv(s) && d in s.deps && s.deps[d].pending
    ensures s.deps[d].dest < |s.destinations| && s.destinations[s.deps[d].dest].result.Pending?
    ensures s.deps[d].source ==> s.destinations[s.deps[d].dest].expanded
  {
    var i := s.deps[d].dest;
    assert i < |s.destinations|;
    assert Recounted(s.destinations[i], i, s.deps) && Concluded(s.destinations[i]);
    assert d in PendingSet(s.deps, i);
    assert DepListed(s, 0, d);
    assert DestShaped(s.destinations[i], i, s.deps, s.targets);
    if s.deps[d].source && d in s.destinations[i].owner {
      assert DepAt(s.deps, d, i, !s.destinations[i].srv);
    }
  }

  /** The destinations that depend on an entry. */
  ghost function Dependents(s: State, e: EntryId): (r: set<nat>) {
    set d | d in s.deps && s.deps[d].entry == e :: s.deps[d].dest
  }

  lemma ListExact(s: State, e: EntryId)
    requires Graph(s, 0, {}, {}) && e in s.entries
    ensures forall d :: d in s.entries[e].deps <==> d in s.deps && s.deps[d].entry == e
    ensures Distinct(s.entries[e].deps)
    ensures forall d :: d in s.entries[e].deps ==>
            s.deps[d].dest < |s.destinations| && (s.deps[d].source <==> !s.entries[e].kind.SRV?)
  {
    assert EntryExact(s.entries[e], e, s.deps, s.targets, {});
    forall d
      ensures d in s.entries[e].deps <==> d in s.deps && s.deps[d].entry == e
    {
      assert d in s.entries[e].deps <==> LinkedTo(s.deps, d, e);
    }
  }

  lemma AnsweredFlags(s: State, e: EntryId, positive: bool)
    requires e in s.entries && !s.entries[e].queued
    ensures OnlyFlags(s, Answered(s, e, positive))
  {
    var r := Answered(s, e, positive);
    assert forall k :: k in s.entries ==> EntryFlags(s.entries[k], r.entries[k]);
  }

  lemma AnsweredStale(s: State, e: EntryId, positive: bool)
    requires DepsExact(s, {}) && e in s.entries && !s.entries[e].terminal
    requires forall d :: d in s.entries[e].deps <==> d in s.deps && s.deps[d].entry == e
    ensures DepsExact(Answered(s, e, positive), Set(s.entries[e].deps))
    ensures forall d :: d in s.entries[e].deps ==> s.deps[d].pending && !s.deps[d].positive
  {
    var r := Answered(s, e, positive);
    forall d | d in r.deps && d !in Set(s.entries[e].deps)
      ensures DepExact(r.deps[d], r.entries)
    {
      assert DepExact(s.deps[d], s.entries);
    }
    forall d | d in s.entries[e].deps
      ensures s.deps[d].pending && !s.deps[d].positive
    {
      assert DepExact(s.deps[d], s.entries);
    }
  }

  lemma AnsweredWaiting(s: State, e: EntryId)
    requires Inv(s) && e in s.entries && !s.entries[e].terminal
    ensures forall d :: d in s.entries[e].deps ==> d in s.deps && Waiting(s, s.entries[e].kind, s.deps[d].dest)
  {
    hide Inv;
    ListExact2(s, e);
    forall d | d in s.entries[e].deps
      ensures Waiting(s, s.entries[e].kind, s.deps[d].dest)
    {
      PendingWaits(s, d);
    }
  }

  lemma ListExact2(s: State, e: EntryId)
    requires Inv(s) && e in s.entries && !s.entries[e].terminal
    ensures forall d :: d in s.entries[e].deps ==>
            d in s.deps && s.deps[d].pending && (s.deps[d].source <==> !s.entries[e].kind.SRV?)
  {
    hide Graph;
    ListExact(s, e);
    forall d | d in s.entries[e].deps
      ensures s.deps[d].pending
    {
      assert DepExact(s.deps[d], s.entries);
    }
  }

  lemma AnsweredCounters(s: State, e: EntryId, positive: bool)
    requires Counters(s, {}, {}) && e in s.entries
    ensures Counters(Answered(s, e, positive), {}, Dependents(s, e))
  {
  }

  lemma ObservingStarts(s: State, e: EntryId, positive: bool)
    requires Inv(s) && e in s.entries && !s.entries[e].terminal && !s.entries[e].queued
    ensures Observing(Answered(s, e, positive), e, s.entries[e].deps, 0, positive, Dependents(s, e))
  {
    hide Graph, OnlyFlags, DepsExact, Counters;
    var r := Answered(s, e, positive);
    var list := s.entries[e].deps;
    AnsweredWaiting(s, e);
    AnsweredCounters(s, e, positive);
    ListExact(s, e);
    AnsweredFlags(s, e, positive);
    FlagsGraph(s, r, 0, {}, {});
    AnsweredStale(s, e, positive);
    assert list[0..] == list;
    forall d | d in list
      ensures s.deps[d].dest in Dependents(s, e)
    {
    }
  }

  lemma SatisfiedExact(s: State, e: EntryId, d: DepId, stale: set<DepId>, positive: bool)
    requires DepsExact(s, stale) && d in s.deps && s.deps[d].dest < |s.destinations| && s.deps[d].entry == e
             && s.deps[d].pending && !s.deps[d].positive
    requires e in s.entries && s.entries[e].terminal && s.entries[e].positive == positive
    ensures DepsExact(Satisfied(s, d, positive), stale - {d})
  {
    var r := Satisfied(s, d, positive);
    forall o | o in r.deps && o !in stale - {d}
      ensures DepExact(r.deps[o], r.entries)
    {
      if o != d {
        assert DepExact(s.deps[o], s.entries);
      }
    }
  }

  lemma ObservingStep(s: State, e: EntryId, list: seq<DepId>, k: nat, positive: bool, undecided: set<nat>)
    requires Observing(s, e, list, k, positive, undecided) && k < |list| && Distinct(list)
    ensures list[k] in s.deps && s.deps[list[k]].dest < |s.destinations|
    ensures Observing(Satisfied(s, list[k], positive), e, list, k + 1, positive, undecided)
  {
    hide Graph, OnlyFlags, DepsExact, Counters;
    var d := list[k];
    RestOf(list, k);
    var r := Satisfied(s, d, positive);
    SatisfiedFlags(s, d, positive);
    FlagsGraph(s, r, 0, {}, {});
    SatisfiedCounters(s, d, positive, undecided);
    SatisfiedExact(s, e, d, Set(list[k..]), positive);
  }

  lemma RestOf(list: seq<DepId>, k: nat)
    requires k < |list| && Distinct(list)
    ensures list[k] in list[k..] && Set(list[k..]) - {list[k]} == Set(list[k + 1..])
  {
    assert list[k..] == [list[k]] + list[k + 1..];
    assert list[k] !in list[k + 1..];
  }

  lemma EntryListDistinct(s: State, e: EntryId)
    requires Inv(s) && e in s.entries
    ensures Distinct(s.entries[e].deps)
  {
    hide Graph;
    ListExact(s, e);
  }

  lemma ProgressSelf(s: State)
    ensures Progress(s, s)
  {
  }

  /** The dependencies of SRV destinations on their answered SRV entry. */
  ghost predicate Owners(s: State, list: seq<DepId>) {
    forall d :: d in list ==>
      && d in s.deps && s.deps[d].dest < |s.destinations| && !s.deps[d].source && !s.deps[d].pending
      && s.destinations[s.deps[d].dest].srv && s.destinations[s.deps[d].dest].owner == [d]
  }

  ghost function Dests(s: State, list: seq<DepId>): (r: set<nat>) {
    set d | d in list && d in s.deps :: s.deps[d].dest
  }

  ghost predicate SameDests(s: State, r: State, list: seq<DepId>) {
    forall d :: d in list ==> d in s.deps && d in r.deps && r.deps[d].dest == s.deps[d].dest
  }

  lemma OwnersPrefix(s: State, list: seq<DepId>, k: nat)
    requires Owners(s, list)
    ensures Dests(s, []) == {} && SameDests(s, s, list)
  {
  }

  lemma OwnerFacts(s: State, list: seq<DepId>, d: DepId)
    requires Owners(s, list) && d in list
    ensures d in s.deps && s.deps[d].dest < |s.destinations| && !s.deps[d].source && s.destinations[s.deps[d].dest].srv
    ensures OwnerAnswered(s, s.deps[d].dest)
  {
  }

  lemma DestsNext(s: State, list: seq<DepId>, k: nat)
    requires k < |list| && list[k] in s.deps
    ensures Dests(s, list[..k + 1]) == Dests(s, list[..k]) + {s.deps[list[k]].dest}
  {
    assert list[..k + 1] == list[..k] + [list[k]];
    assert list[k] in list[..k + 1];
    forall i | i in Dests(s, list[..k])
      ensures i in Dests(s, list[..k + 1])
    {
      var d :| d in list[..k] && d in s.deps && s.deps[d].dest == i;
      assert d in list[..k + 1];
    }
  }

  /** Rebuilding one destination leaves every SRV owner in place. */
  lemma OwnersKept(s: State, r: State, list: seq<DepId>, i: nat, undecided: set<nat>, undecided': set<nat>)
    requires Core(s, undecided) && Core(r, undecided') && Rebuilt(s, r, i) && Owners(s, list) && i < |s.destinations|
    ensures Owners(r, list) && SameDests(s, r, list)
  {
    hide Counters, DepsExact, Graph;
    forall d | d in list
      ensures d in r.deps && r.deps[d] == s.deps[d] && r.destinations[s.deps[d].dest].srv
              && r.destinations[s.deps[d].dest].owner == [d]
    {
      var k := s.deps[d].dest;
      NotLiteral(r, k, 0, {}, {});
    }
  }

  /** The dependencies of an answered SRV entry are the owners of SRV destinations. */
  lemma SrvOwners(s: State, e: EntryId, undecided: set<nat>)
    requires Core(s, undecided) && e in s.entries && s.entries[e].terminal && s.entries[e].kind.SRV?
    ensures Owners(s, s.entries[e].deps)
  {
    hide Counters, TargetsExact, TargetsResolvable, QueueExact;
    ListExact(s, e);
    forall d | d in s.entries[e].deps
      ensures !s.deps[d].pending && s.destinations[s.deps[d].dest].srv && s.destinations[s.deps[d].dest].owner == [d]
    {
      SrvOwner(s, d);
      assert DepExact(s.deps[d], s.entries);
    }
  }

  lemma SrvOwner(s: State, d: DepId)
    requires DepsListed(s, 0) && Shaped(s) && s.candidate == NO_TARGETS && d in s.deps
             && s.deps[d].dest < |s.destinations| && !s.deps[d].source
    ensures s.destinations[s.deps[d].dest].srv && s.destinations[s.deps[d].dest].owner == [d]
  {
    var i := s.deps[d].dest;
    var x := s.destinations[i];
    assert DepListed(s, 0, d);
    assert DestShaped(x, i, s.deps, s.targets);
    assert !DepAt(s.deps, d, i, true);
    assert d in x.owner;
    assert DepAt(s.deps, d, i, !x.srv);
  }

  lemma DependentsAreDests(s: State, r: State, e: EntryId)
    requires Graph(s, 0, {}, {}) && e in s.entries && SameDests(s, r, s.entries[e].deps)
    ensures Dests(r, s.entries[e].deps) == Dependents(s, e)
  {
    hide Graph;
    ListExact(s, e);
  }

  lemma ObservedCore(s: State, e: EntryId, list: seq<DepId>, positive: bool, undecided: set<nat>)
    requires Observing(s, e, list, |list|, positive, undecided)
    ensures Core(s, undecided) && e in s.entries && s.entries[e].terminal && s.entries[e].deps == list
    ensures forall d :: d in list ==> d in s.deps && s.deps[d].dest < |s.destinations|
    ensures !s.entries[e].kind.SRV? ==> forall d :: d in list ==> Decidable(s.destinations[s.deps[d].dest])
  {
    hide Graph, Counters, DepsExact;
    assert Set(list[|list|..]) == {};
    forall d | d in list && !s.entries[e].kind.SRV?
      ensures Decidable(s.destinations[s.deps[d].dest])
    {
      assert Waiting(s, s.entries[e].kind, s.deps[d].dest);
    }
  }

  lemma ConcludedDecidable(s: State, list: seq<DepId>)
    requires Core(s, {}) && forall d :: d in list ==> d in s.deps && s.deps[d].dest < |s.destinations|
    ensures forall d :: d in list ==> Decidable(s.destinations[s.deps[d].dest])
  {
    hide Graph, DepsExact, Recounted, Wired;
    forall d | d in list
      ensures Decidable(s.destinations[s.deps[d].dest])
    {
      assert Concluded(s.destinations[s.deps[d].dest]);
    }
  }

  lemma UpdatedDecidable(x: Destination)
    requires Decidable(x)
    ensures Decidable(Updated(x))
  {
  }

  // ---------------------------------------------------------------- interest

  function WithInterest(s: State, e: EntryId, interest: bool): (r: State)
    requires e in s.entries
  {
    s.(entries := s.entries[e := s.entries[e].(interest := interest)])
  }

  lemma InterestFlags(s: State, e: EntryId, interest: bool)
    requires e in s.entries && (s.entries[e].queued ==> interest == s.entries[e].interest)
    ensures OnlyFlags(s, WithInterest(s, e, interest))
  {
    var r := WithInterest(s, e, interest);
    assert forall k :: k in s.entries ==> EntryFlags(s.entries[k], r.entries[k]);
  }

  lemma InterestExact(s: State, e: EntryId, interest: bool)
    requires DepsExact(s, {}) && e in s.entries
    ensures DepsExact(WithInterest(s, e, interest), {})
  {
    var r := WithInterest(s, e, interest);
    forall d | d in r.deps
      ensures DepExact(r.deps[d], r.entries)
    {
      assert DepExact(s.deps[d], s.entries);
    }
  }

  lemma InterestCore(s: State, e: EntryId, interest: bool, undecided: set<nat>)
    requires Core(s, undecided) && e in s.entries && (s.entries[e].queued ==> interest == s.entries[e].interest)
    ensures Core(WithInterest(s, e, interest), undecided) && Progressing(s, WithInterest(s, e, interest), e)
  {
    hide Graph, Counters, DepsExact, OnlyFlags;
    var r := WithInterest(s, e, interest);
    InterestFlags(s, e, interest);
    FlagsGraph(s, r, 0, {}, {});
    InterestCounters(s, e, interest, undecided);
    InterestExact(s, e, interest);
  }

  lemma InterestCounters(s: State, e: EntryId, interest: bool, undecided: set<nat>)
    requires Counters(s, {}, undecided) && e in s.entries
    ensures Counters(WithInterest(s, e, interest), {}, undecided)
  {
  }

  /** Progress, with the interest of entry `e` free to change. */
  ghost predicate Progressing(s: State, r: State, e: EntryId) {
    && |r.destinations| == |s.destinations| && r.terminalCount >= s.terminalCount
    && (forall k: nat :: k < |s.destinations| && s.destinations[k].firstTerminal ==> r.destinations[k].firstTerminal)
    && (forall k :: k in s.entries && !s.entries[k].owned ==>
       k in r.entries && !r.entries[k].owned && (k != e ==> Bound(s.entries[k], r.entries[k])))
  }

  lemma QueuedUninterested(s: State, e: EntryId)
    requires Inv(s) && e in s.entries
    ensures s.entries[e].queued ==> s.entries[e].owned && !s.entries[e].interest
    ensures e in s.queue <==> s.entries[e].queued
  {
  }

  lemma QueueHead(s: State)
    requires Inv(s) && s.queue != []
    ensures s.queue[0] in s.entries && s.entries[s.queue[0]].queued && !s.entries[s.queue[0]].interest
            && s.entries[s.queue[0]].owned
  {
    assert s.queue[0] in s.queue;
  }

  lemma EmptyDests(s: State)
    ensures Dests(s, []) == {}
  {
  }

  lemma SameDepsDests(s: State, r: State, list: seq<DepId>)
    requires r.deps == s.deps
    ensures Dests(r, list) == Dests(s, list)
  {
  }

  lemma InvCore(s: State)
    ensures Inv(s) <==> Core(s, {})
  {
  }

  lemma DequeuedInv(s: State, e: EntryId)
    requires Inv(s) && e in s.entries
    ensures Inv(Dequeued(s, e))
  {
    hide Core;
    DequeuedCore(s, e, {});
  }

  lemma BoundStays(s: State, r: State, e: EntryId)
    requires Progress(s, r) && e in s.entries
    ensures !s.entries[e].owned ==>
            e in r.entries && !r.entries[e].owned
              && (s.entries[e].terminal ==> r.entries[e].terminal && r.entries[e].positive == s.entries[e].positive)
    ensures !s.entries[e].owned ==> r.entries[e].interest == s.entries[e].interest
  {
  }

  /** Satisfying dependencies moves none of them. */
  lemma FlagDests(s: State, r: State, e: EntryId, list: seq<DepId>)
    requires Inv(s) && e in s.entries && list == s.entries[e].deps
    requires r.deps.Keys == s.deps.Keys && forall d :: d in r.deps ==> r.deps[d].dest == s.deps[d].dest
    ensures Dests(r, list) == Dependents(s, e)
  {
    hide Graph;
    ListExact(s, e);
    assert SameDests(s, r, list);
    DependentsAreDests(s, r, e);
  }

  lemma OwnersDests(s: State, list: seq<DepId>)
    requires Owners(s, list)
    ensures forall d :: d in list ==> d in s.deps && s.deps[d].dest < |s.destinations|
  {
  }

  lemma SrvBound(s: State, e: EntryId)
    requires Inv(s) && e in s.entries && s.entries[e].kind.SRV?
    ensures !s.entries[e].owned
  {
    assert EntryExact(s.entries[e], e, s.deps, s.targets, {});
  }

  // ---------------------------------------------------------------- building the coordinator

  const PLAIN: Destination := Destination(false, false, [], NO_TARGETS, false, false, 0, 0, Pending)

  const EMPTY: State := State(map[], map[], map[], [], NO_TARGETS, [], 0, 0)

  function Appended(s: State, x: Destination): (r: State) {
    s.(destinations := s.destinations + [x])
  }

  /** Links an owner dependency to the destination added last. */
  function OwnerLinked(s: State, e: EntryId): (r: State)
    requires e in s.entries && s.destinations != []
  {
    var i := |s.destinations| - 1;
    var x := s.destinations[i];
    var srv := s.entries[e].kind.SRV?;
    Attached(s, e, i, !srv).(destinations := s.destinations[i := x.(owner := x.owner + [s.nextDep], srv := srv)])
  }

  lemma AppendedTargets(s: State, x: Destination)
    requires TargetsExact(s, {}) && TargetsResolvable(s) && x.targets == NO_TARGETS && s.candidate == NO_TARGETS
    ensures TargetsExact(Appended(s, x), {}) && TargetsResolvable(Appended(s, x))
  {
    var r := Appended(s, x);
    forall n | n in r.targets
      ensures r.targets[n].uses == |Holders(r.destinations, r.candidate, n)|
    {
      assert forall i: nat :: NamesAt(r.destinations, r.candidate, i) == NamesAt(s.destinations, s.candidate, i);
      assert Holders(r.destinations, r.candidate, n) == Holders(s.destinations, s.candidate, n);
    }
  }

  lemma AppendedShape(s: State, x: Destination)
    requires Shaped(s) && DepsListed(s, 0) && DepsKnown(s) && CandidateShaped(s, 0) && s.candidate == NO_TARGETS
    requires x.targets == NO_TARGETS && x.owner == [] && !x.srv
    ensures Shaped(Appended(s, x)) && DepsListed(Appended(s, x), 0) && DepsKnown(Appended(s, x))
            && CandidateShaped(Appended(s, x), 0)
  {
    var r := Appended(s, x);
    forall k: nat | k < |r.destinations|
      ensures DestShaped(r.destinations[k], k, r.deps, r.targets)
    {
      if k < |s.destinations| {
        assert DestShaped(s.destinations[k], k, s.deps, s.targets);
      }
    }
    forall d | d in r.deps && r.deps[d].dest < |r.destinations|
      ensures DepListed(r, 0, d)
    {
      assert DepListed(s, 0, d);
    }
  }

  lemma AppendedGraph(s: State, x: Destination)
    requires Graph(s, 0, {}, {}) && s.candidate == NO_TARGETS && x.targets == NO_TARGETS && x.owner == [] && !x.srv
    ensures Graph(Appended(s, x), 0, {}, {})
  {
    hide EntriesExact, TargetsExact, TargetsResolvable, Shaped, CandidateShaped, DepsListed, QueueExact, DepsKnown;
    var r := Appended(s, x);
    EntriesIgnore(s, {}, r);
    AppendedTargets(s, x);
    AppendedShape(s, x);
    QueueKept(s, r);
  }

  lemma LaterDep(deps: map<DepId, Dependency>, deps': map<DepId, Dependency>, d: DepId, k: nat)
    requires d !in deps && d in deps' && deps' == deps[d := deps'[d]]
    ensures forall o, source :: DepAt(deps, o, k, source) ==> DepAt(deps', o, k, source)
  {
  }

  lemma OwnerExtended(deps: map<DepId, Dependency>, deps': map<DepId, Dependency>, k: nat, owner: seq<DepId>, d: DepId,
      source: bool)
    requires d !in deps && d in deps' && deps' == deps[d := deps'[d]] && DepList(deps, k, true, owner)
             && DepAt(deps', d, k, source)
    requires source || owner == []
    ensures DepList(deps', k, source, owner + [d])
  {
    assert forall o :: o in owner ==> DepAt(deps, o, k, true);
    LaterDep(deps, deps', d, k);
    Extended(owner, d, owner + [d]);
  }

  lemma OwnerLinkedDest(s: State, e: EntryId, k: nat)
    requires Shaped(s) && DepsKnown(s) && e in s.entries && k < |s.destinations|
    requires var x := s.destinations[|s.destinations| - 1];
             !x.srv && !x.literal && (s.entries[e].kind.SRV? ==> x.owner == [])
    ensures var r := OwnerLinked(s, e); s.nextDep !in s.deps && DestShaped(r.destinations[k], k, r.deps, r.targets)
  {
    var r := OwnerLinked(s, e);
    var d := s.nextDep;
    assert d !in s.deps;
    var x := s.destinations[k];
    assert DestShaped(x, k, s.deps, s.targets);
    hide Shaped, DepsKnown;
    LaterDep(s.deps, r.deps, d, k);
    if k == |s.destinations| - 1 {
      OwnerExtended(s.deps, r.deps, k, x.owner, d, !s.entries[e].kind.SRV?);
    }
  }

  lemma OwnerLinkedListed(s: State, e: EntryId)
    requires DepsListed(s, 0) && DepsKnown(s) && s.candidate == NO_TARGETS && e in s.entries && s.destinations != []
    ensures DepsListed(OwnerLinked(s, e), 0) && DepsKnown(OwnerLinked(s, e))
  {
    var r := OwnerLinked(s, e);
    forall o | o in r.deps && r.deps[o].dest < |r.destinations|
      ensures DepListed(r, 0, o)
    {
      if o != s.nextDep {
        assert DepListed(s, 0, o);
      }
    }
  }

  lemma OwnerLinkedShape(s: State, e: EntryId)
    requires Shaped(s) && DepsListed(s, 0) && DepsKnown(s) && CandidateShaped(s, 0) && s.candidate == NO_TARGETS
    requires e in s.entries && s.destinations != []
    requires var x := s.destinations[|s.destinations| - 1];
             !x.srv && !x.literal && (s.entries[e].kind.SRV? ==> x.owner == [])
    ensures Shaped(OwnerLinked(s, e)) && DepsListed(OwnerLinked(s, e), 0) && DepsKnown(OwnerLinked(s, e))
            && CandidateShaped(OwnerLinked(s, e), 0)
  {
    hide DestShaped, DepsListed, DepsKnown;
    var r := OwnerLinked(s, e);
    forall k: nat | k < |r.destinations|
      ensures DestShaped(r.destinations[k], k, r.deps, r.targets)
    {
      OwnerLinkedDest(s, e, k);
    }
    OwnerLinkedListed(s, e);
  }

  lemma OwnerLinkedTargets(s: State, e: EntryId)
    requires TargetsExact(s, {}) && TargetsResolvable(s) && e in s.entries && s.destinations != []
    ensures TargetsExact(OwnerLinked(s, e), {}) && TargetsResolvable(OwnerLinked(s, e))
  {
    TargetsSameNames(s, OwnerLinked(s, e), {});
  }

  lemma OwnerLinkedGraph(s: State, e: EntryId)
    requires Graph(s, 0, {}, {}) && s.candidate == NO_TARGETS && e in s.entries && s.destinations != []
    requires var x := s.destinations[|s.destinations| - 1];
             !x.srv && !x.literal && (s.entries[e].kind.SRV? ==> x.owner == [])
    ensures Graph(OwnerLinked(s, e), 0, {}, {})
  {
    hide EntriesExact, TargetsExact, TargetsResolvable, Shaped, CandidateShaped, DepsListed, QueueExact, DepsKnown;
    var r := OwnerLinked(s, e);
    var i := |s.destinations| - 1;
    AttachedEntries(s, {}, e, i, !s.entries[e].kind.SRV?);
    EntriesIgnore(Attached(s, e, i, !s.entries[e].kind.SRV?), {}, r);
    OwnerLinkedTargets(s, e);
    OwnerLinkedShape(s, e);
    QueueKept(s, r);
  }

  /** Before the first answer nothing is terminal and no interest is held. */
  ghost predicate Untouched(s: State) {
    && (forall e :: e in s.entries ==> !s.entries[e].terminal && !s.entries[e].interest && !s.entries[e].owned)
    && s.targets == map[]
  }

  ghost predicate Founded(s: State, count: nat) {
    && Graph(s, 0, {}, {}) && s.candidate == NO_TARGETS && DepsExact(s, {}) && Untouched(s) && |s.destinations| == count
  }

  lemma OwnerLinkedFounded(s: State, e: EntryId)
    requires Founded(s, |s.destinations|) && e in s.entries && s.destinations != []
    requires var x := s.destinations[|s.destinations| - 1];
             !x.srv && !x.literal && (s.entries[e].kind.SRV? ==> x.owner == [])
    ensures Founded(OwnerLinked(s, e), |s.destinations|)
  {
    OwnerLinkedExact(s, e);
    hide Graph, DepsExact;
    OwnerLinkedGraph(s, e);
  }

  lemma OwnerLinkedExact(s: State, e: EntryId)
    requires DepsExact(s, {}) && e in s.entries && s.destinations != [] && DepsKnown(s)
    ensures DepsExact(OwnerLinked(s, e), {})
  {
    var r := OwnerLinked(s, e);
    forall d | d in r.deps
      ensures DepExact(r.deps[d], r.entries)
    {
      if d != s.nextDep {
        assert DepExact(s.deps[d], s.entries);
      }
    }
  }

  lemma AppendedFounded(s: State, x: Destination)
    requires Founded(s, |s.destinations|) && x.targets == NO_TARGETS && x.owner == [] && !x.srv
    ensures Founded(Appended(s, x), |s.destinations| + 1)
  {
    hide Graph;
    AppendedGraph(s, x);
  }

  lemma AppendedCounters(s: State, x: Destination)
    requires Counters(s, {}, {}) && !x.firstTerminal
    ensures Counters(Appended(s, x), {|s.destinations|}, {})
  {
    hide Recounted, Wired, Concluded;
    assert Terminals(Appended(s, x).destinations) == Terminals(s.destinations);
  }

  lemma OwnerLinkedCounters(s: State, e: EntryId)
    requires e in s.entries && s.destinations != [] && s.nextDep !in s.deps && Counters(s, {|s.destinations| - 1}, {})
    ensures Counters(OwnerLinked(s, e), {|s.destinations| - 1}, {})
  {
    hide Recounted, Wired, Concluded;
    var r := OwnerLinked(s, e);
    assert Terminals(r.destinations) == Terminals(s.destinations);
    forall k: nat | k < |r.destinations| && k !in {|s.destinations| - 1}
      ensures Recounted(r.destinations[k], k, r.deps) && Wired(r.destinations[k].targets, r.deps, r.targets)
    {
      OwnerLinkedOne(s, e, k);
    }
  }

  lemma OwnerLinkedOne(s: State, e: EntryId, k: nat)
    requires e in s.entries && s.destinations != [] && s.nextDep !in s.deps && k < |s.destinations| - 1
    requires Recounted(s.destinations[k], k, s.deps) && Wired(s.destinations[k].targets, s.deps, s.targets)
    ensures var r := OwnerLinked(s, e);
            Recounted(r.destinations[k], k, r.deps) && Wired(r.destinations[k].targets, r.deps, r.targets)
  {
    var r := OwnerLinked(s, e);
    assert PendingSet(r.deps, k) == PendingSet(s.deps, k);
    assert PositiveSet(r.deps, k) == PositiveSet(s.deps, k);
    WiredSame(s.destinations[k].targets, s, r);
  }

  lemma {:induction false} SetSize<T>(s: seq<T>)
    requires Distinct(s)
    ensures |Set(s)| == |s|
  {
    if s != [] {
      SetSize(s[1..]);
      assert s == [s[0]] + s[1..];
      assert Set(s) == Set(s[1..]) + {s[0]};
    }
  }

  /** With nothing answered yet, exactly the owner dependencies are pending. */
  lemma FoundedCounts(s: State, k: nat)
    requires Founded(s, |s.destinations|) && k < |s.destinations| && s.destinations[k].targets == NO_TARGETS
    ensures |PendingSet(s.deps, k)| == |s.destinations[k].owner| && PositiveSet(s.deps, k) == {}
  {
    hide EntriesExact, TargetsExact, TargetsResolvable, CandidateShaped, QueueExact;
    var x := s.destinations[k];
    assert DestShaped(x, k, s.deps, s.targets);
    SetSize(x.owner);
    forall d | d in s.deps
      ensures s.deps[d].pending && !s.deps[d].positive
    {
      assert DepExact(s.deps[d], s.entries);
    }
    forall d
      ensures d in PendingSet(s.deps, k) <==> d in x.owner
    {
      if d in x.owner {
        assert DepAt(s.deps, d, k, !x.srv);
      } else if d in s.deps && s.deps[d].dest == k {
        assert DepListed(s, 0, d);
      }
    }
    assert PendingSet(s.deps, k) == Set(x.owner);
  }

  /** A destination whose counters match its owners closes the build step. */
  lemma FoundedStep(s: State, r: State)
    requires s.destinations != [] && |r.destinations| == |s.destinations| && Founded(s, |s.destinations|)
             && Counters(s, {|s.destinations| - 1}, {})
    requires r == s.(destinations := s.destinations[|s.destinations| - 1 := r.destinations[|s.destinations| - 1]])
    requires var x := s.destinations[|s.destinations| - 1]; var y := r.destinations[|s.destinations| - 1];
             && DestFlags(x, y) && x.targets == NO_TARGETS && y.pending == |x.owner|
                && y.positive == (if x.literal then 1 else 0)
             && y.firstTerminal == x.firstTerminal && Decidable(y)
    ensures Founded(DestinationUpdated(r, |s.destinations| - 1), |s.destinations|)
            && Inv(DestinationUpdated(r, |s.destinations| - 1))
  {
    var k := |s.destinations| - 1;
    hide Graph, DepsExact, OnlyFlags, Counters, PendingSet, PositiveSet;
    FoundedCounts(s, k);
    CounterFlags(s, r, k);
    FlagsGraph(s, r, 0, {}, {});
    FlagsExact(s, r);
    assert Recounted(r.destinations[k], k, r.deps);
    ReopenedCounters(s, r, k, {});
    assert Core(r, {} + {k});
    DecidedCore(r, k, {} + {k});
    assert {} + {k} - {k} == {};
  }

  lemma FoundedAppend(s: State, x: Destination)
    requires Founded(s, |s.destinations|) && Inv(s) && x.targets == NO_TARGETS && x.owner == [] && !x.srv
             && !x.firstTerminal
    ensures Founded(Appended(s, x), |s.destinations| + 1) && Counters(Appended(s, x), {|s.destinations|}, {})
  {
    hide Graph, Counters, Founded;
    AppendedFounded(s, x);
    AppendedCounters(s, x);
  }

  lemma FoundedLink(s: State, e: EntryId)
    requires Founded(s, |s.destinations|) && s.destinations != [] && Counters(s, {|s.destinations| - 1}, {})
             && e in s.entries
    requires var x := s.destinations[|s.destinations| - 1];
             !x.srv && !x.literal && (s.entries[e].kind.SRV? ==> x.owner == [])
    ensures Founded(OwnerLinked(s, e), |s.destinations|) && Counters(OwnerLinked(s, e), {|s.destinations| - 1}, {})
  {
    FoundedFresh(s);
    hide Founded, Counters;
    OwnerLinkedFounded(s, e);
    OwnerLinkedCounters(s, e);
  }

  lemma FoundedFresh(s: State)
    requires Founded(s, |s.destinations|)
    ensures s.nextDep !in s.deps
  {
    hide EntriesExact, TargetsExact, TargetsResolvable, CandidateShaped, QueueExact, Shaped, DepsListed;
    DepsFresh(s);
  }

  lemma FoundedQuiet(s: State)
    requires Founded(s, |s.destinations|)
    ensures Silent(s.entries) && forall e :: e in s.entries ==> !s.entries[e].owned
  {
    hide Graph;
  }

  /** A coordinator with entries but no destination yet. */
  lemma EntriesOnly(s: State)
    requires s == EMPTY.(entries := s.entries)
    requires forall e :: e in s.entries ==> s.entries[e] == NewEntry(s.entries[e].kind, false)
    ensures Founded(s, 0) && Inv(s)
  {
    forall e | e in s.entries
      ensures EntryExact(s.entries[e], e, s.deps, s.targets, {})
    {
      assert Users(s.targets, e) == {};
    }
    assert Terminals(s.destinations) == {};
  }

  lemma BoundQuiet(s: State, r: State, bindings: seq<EntryId>)
    requires Progress(s, r) && forall k :: 0 <= k < |bindings| ==>
             bindings[k] in s.entries && !s.entries[bindings[k]].owned
    ensures forall k :: 0 <= k < |bindings| ==> bindings[k] in r.entries && !r.entries[bindings[k]].owned
    ensures forall k :: 0 <= k < |bindings| ==> r.entries[bindings[k]].interest == s.entries[bindings[k]].interest
    ensures |r.destinations| == |s.destinations|
  {
    forall k | 0 <= k < |bindings|
      ensures bindings[k] in r.entries && Bound(s.entries[bindings[k]], r.entries[bindings[k]])
    {
      assert bindings[k] in s.entries;
    }
  }

  // ---------------------------------------------------------------- what every operation keeps

  /** Over any operation warm-up only advances and the bindings' entries stay. */
  ghost predicate Advances(s: State, r: State) {
    && |r.destinations| == |s.destinations| && r.terminalCount >= s.terminalCount
    && (forall k: nat :: k < |s.destinations| && s.destinations[k].firstTerminal ==> r.destinations[k].firstTerminal)
    && (forall e :: e in s.entries && !s.entries[e].owned ==> e in r.entries && Answers(s.entries[e], r.entries[e]))
  }

  predicate Answers(x: Entry, y: Entry) {
    !y.owned && y.kind == x.kind && (x.terminal ==> y.terminal && y.positive == x.positive)
  }

  lemma AdvancesSelf(s: State)
    ensures Advances(s, s)
  {
  }

  lemma AdvancesTrans(s: State, t: State, r: State)
    requires Advances(s, t) && Advances(t, r)
    ensures Advances(s, r)
  {
  }

  lemma InterestAdvances(s: State, r: State, e: EntryId)
    requires e in s.entries && e in r.entries && r == WithInterest(s, e, r.entries[e].interest)
    ensures Advances(s, r)
  {
  }

  lemma DynamicAdvances(s: State, r: State, e: EntryId)
    requires e in s.entries && e in r.entries
             && r.entries == s.entries[e := s.entries[e].(interest := r.entries[e].interest, queued := false)]
    requires r.destinations == s.destinations && r.terminalCount == s.terminalCount
    ensures Advances(s, r)
  {
  }

  lemma ProgressAdvances(s: State, t: State, r: State)
    requires Advances(s, t) && Progress(t, r)
    ensures Advances(s, r)
  {
    forall e | e in s.entries && !s.entries[e].owned
      ensures e in r.entries && Answers(s.entries[e], r.entries[e])
    {
      assert Answers(s.entries[e], t.entries[e]);
      assert Bound(t.entries[e], r.entries[e]);
    }
  }

  /** The first `k` drafted targets are held by the candidate. */
  ghost predicate Holding(s: State, r: State, i: nat, draft: Draft, k: nat, records: seq<SrvRecord>) {
    && k <= |draft.names| && Linking(s, r, i)
    && Graph(r, i, {}, Set(draft.created) * Set(draft.names[k..]))
    && r == s.(targets := r.targets, candidate := TargetSet(draft.names[..k], [], draft.immediate, records))
    && (forall n :: n in draft.names ==> n in r.targets)
  }

  lemma HoldingStarts(s: State, r: State, i: nat, draft: Draft, records: seq<SrvRecord>)
    requires Graph(s, i, {}, Set(draft.created)) && s.candidate == NO_TARGETS && NameList(s.targets, draft.names)
    requires forall n :: n in draft.created ==> n in draft.names
    requires r == s.(candidate := NO_TARGETS.(immediate := draft.immediate, records := records))
    ensures Holding(s, r, i, draft, 0, records)
  {
    hide Graph, Linking;
    RelabelledGraph(s, i, Set(draft.created), draft.immediate, records);
    assert draft.names[0..] == draft.names;
    assert Set(draft.created) * Set(draft.names) == Set(draft.created);
  }

  lemma HoldingStep(s: State, r: State, i: nat, draft: Draft, k: nat, records: seq<SrvRecord>)
    requires Holding(s, r, i, draft, k, records) && k < |draft.names| && Distinct(draft.names)
    ensures draft.names[k] in r.targets && Holding(s, TargetHeld(r, draft.names[k]), i, draft, k + 1, records)
  {
    hide Graph, Linking;
    var n := draft.names[k];
    var loose := Set(draft.created) * Set(draft.names[k..]);
    assert n !in draft.names[..k];
    TargetHeldGraph(r, i, {}, loose, n);
    HeldLinks(r, n, i);
    LinkingTrans(s, r, TargetHeld(r, n), i);
    assert draft.names[..k + 1] == draft.names[..k] + [n];
    assert draft.names[k..] == [n] + draft.names[k + 1..];
    assert n !in draft.names[k + 1..];
    assert loose - {n} == Set(draft.created) * Set(draft.names[k + 1..]);
  }

  lemma HoldingEnds(s: State, r: State, i: nat, draft: Draft, records: seq<SrvRecord>)
    requires Holding(s, r, i, draft, |draft.names|, records)
    ensures Graph(r, i, {}, {}) && Linking(s, r, i)
    ensures r == s.(targets := r.targets, candidate := TargetSet(draft.names, [], draft.immediate, records))
  {
    hide Graph, Linking;
    assert draft.names[..|draft.names|] == draft.names;
    assert Set(draft.created) * Set(draft.names[|draft.names|..]) == {};
  }

  /** A scheduled entry leaves the queue, with or without an interest. */
  lemma TakenInv(s: State, e: EntryId, interest: bool)
    requires Inv(s) && e in s.entries
    ensures Inv(WithInterest(Dequeued(s, e), e, interest)) && Advances(s, WithInterest(Dequeued(s, e), e, interest))
  {
    hide Core, Unlink;
    DequeuedCore(s, e, {});
    InterestCore(Dequeued(s, e), e, interest, {});
    DynamicAdvances(s, WithInterest(Dequeued(s, e), e, interest), e);
  }
}
