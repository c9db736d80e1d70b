/** The counters kept beside the dependency graph: per destination the pending entries and positive
    sources, the outcome, and over all destinations the warm-up count. Each is specified by a recount
    over the graph.
 */
module ResolutionCounts {
  import opened Basics
  import opened ResolutionGraph

  // ---------------------------------------------------------------- recounts

  ghost function PendingSet(deps: map<DepId, Dependency>, i: nat): (r: set<DepId>) {
    set d | d in deps && deps[d].dest == i && deps[d].pending
  }

  ghost function PositiveSet(deps: map<DepId, Dependency>, i: nat): (r: set<DepId>) {
    set d | d in deps && deps[d].dest == i && deps[d].positive
  }

  /** Sources that are positive without any lookup. */
  function Immediate(x: Destination): (n: nat) {
    x.targets.immediate + if x.literal then 1 else 0
  }

  ghost predicate Recounted(x: Destination, i: nat, deps: map<DepId, Dependency>) {
    && x.pending == |PendingSet(deps, i)|
    && x.positive == |PositiveSet(deps, i)| + Immediate(x)
  }

  /** A dependency is pending until its entry is terminal, and then positive if the answer was. */
  ghost predicate DepExact(x: Dependency, entries: map<EntryId, Entry>) {
    x.entry in entries ==>
      && (x.pending <==> !entries[x.entry].terminal)
      && (x.positive <==> entries[x.entry].terminal && entries[x.entry].positive && x.source)
  }

  ghost predicate DepsExact(s: State, stale: set<DepId>) {
    forall d :: d in s.deps && d !in stale ==> DepExact(s.deps[d], s.entries)
  }

  // ---------------------------------------------------------------- target sets

  function Lookups(origin: Origin): (r: seq<EntryId>) {
    if origin.Dns? then [origin.ipv4, origin.ipv6] else []
  }

  /** The lookups a list of targets needs, in order. */
  ghost function Plan(targets: map<Name, Target>, names: seq<Name>): (r: seq<EntryId>)
    requires forall n :: n in names ==> n in targets
  {
    if names == [] then [] else Plan(targets, names[..|names| - 1]) + Lookups(targets[names[|names| - 1]].origin)
  }

  ghost function Literals(targets: map<Name, Target>, names: seq<Name>): (r: nat)
    requires forall n :: n in names ==> n in targets
  {
    if names == [] then 0
    else Literals(targets, names[..|names| - 1]) + if targets[names[|names| - 1]].origin.Dns? then 0 else 1
  }

  ghost function EntriesOf(deps: map<DepId, Dependency>, list: seq<DepId>): (r: seq<EntryId>)
    requires forall d :: d in list ==> d in deps
  {
    seq(|list|, k requires 0 <= k < |list| => deps[list[k]].entry)
  }

  /** The dependencies of a target set are exactly the lookups of its DNS targets, and the others are
      counted as immediately positive. */
  ghost predicate Wired(ts: TargetSet, deps: map<DepId, Dependency>, targets: map<Name, Target>) {
    && (forall d :: d in ts.deps ==> d in deps)
    && (forall n :: n in ts.names ==> n in targets)
    && EntriesOf(deps, ts.deps) == Plan(targets, ts.names)
    && ts.immediate == Literals(targets, ts.names)
  }

  // ---------------------------------------------------------------- outcomes

  /** The outcome is decided exactly when nothing is pending, and is positive exactly when some source
      is; deciding it for the first time is what warm-up counts. */
  predicate Concluded(x: Destination) {
    && (x.result.Pending? <==> x.pending > 0)
    && (x.pending == 0 ==> x.expanded && x.firstTerminal && (x.result.Available? <==> x.positive > 0))
    && (!x.expanded ==> x.srv && x.targets == NO_TARGETS)
  }

  ghost function Terminals(destinations: seq<Destination>): (r: set<nat>) {
    set i: nat | i < |destinations| && destinations[i].firstTerminal
  }

  /** Counters, wiring and outcome of every destination outside `open`; `undecided` ones may lack
      their outcome. */
  ghost predicate Counters(s: State, open: set<nat>, undecided: set<nat>) {
    && (forall i: nat :: i < |s.destinations| && i !in open ==>
       Recounted(s.destinations[i], i, s.deps) && Wired(s.destinations[i].targets, s.deps, s.targets))
    && (forall i: nat :: i < |s.destinations| && i !in open && i !in undecided ==> Concluded(s.destinations[i]))
    && s.terminalCount == |Terminals(s.destinations)|
  }

  /** The invariant between operations, short of the outcomes of `undecided` destinations. */
  ghost predicate Core(s: State, undecided: set<nat>) {
    && Graph(s, 0, {}, {})
    && s.candidate == NO_TARGETS
    && DepsExact(s, {})
    && Counters(s, {}, undecided)
  }

  ghost predicate Inv(s: State) {
    Core(s, {})
  }

  lemma HomeFree(s: State, home: nat, home': nat, looseEntries: set<EntryId>, looseTargets: set<Name>)
    requires Graph(s, home, looseEntries, looseTargets) && s.candidate.deps == []
    ensures Graph(s, home', looseEntries, looseTargets)
  {
    hide EntriesExact, TargetsExact, TargetsResolvable, Shaped, QueueExact, DepsKnown;
    forall o | o in s.deps && s.deps[o].dest < |s.destinations|
      ensures DepListed(s, home', o)
    {
      assert DepListed(s, home, o);
    }
  }

  // ---------------------------------------------------------------- what warm-up means

  /** Once every known entry is terminal, every destination has been decided. */
  lemma AllTerminalWarmsUp(s: State)
    requires Inv(s)
    requires forall e :: e in s.entries ==> s.entries[e].terminal
    ensures s.terminalCount == |s.destinations|
  {
    forall i: nat | i < |s.destinations|
      ensures s.destinations[i].firstTerminal
    {
      assert Recounted(s.destinations[i], i, s.deps);
      NothingPending(s, i);
      assert Concluded(s.destinations[i]);
    }
    TerminalsBounded(s.destinations);
  }

  lemma NothingPending(s: State, i: nat)
    requires DepsKnown(s) && DepsExact(s, {})
    requires forall e :: e in s.entries ==> s.entries[e].terminal
    ensures PendingSet(s.deps, i) == {}
  {
    forall d | d in s.deps
      ensures !s.deps[d].pending
    {
      assert DepExact(s.deps[d], s.entries);
    }
  }

  ghost function Upto(n: nat): (r: set<nat>)
    ensures |r| == n && forall i: nat :: i in r <==> i < n
  {
    if n == 0 then {} else Upto(n - 1) + {n - 1}
  }

  lemma TerminalsBounded(destinations: seq<Destination>)
    ensures |Terminals(destinations)| <= |destinations|
    ensures |Terminals(destinations)| == |destinations| <==>
            forall i: nat :: i < |destinations| ==> destinations[i].firstTerminal
  {
    var all := Upto(|destinations|);
    SubsetSizes(Terminals(destinations), all);
    if forall i: nat :: i < |destinations| ==> destinations[i].firstTerminal {
      assert Terminals(destinations) == all;
    } else {
      var i: nat :| i < |destinations| && !destinations[i].firstTerminal;
      assert i in all && i !in Terminals(destinations);
    }
  }

  // ---------------------------------------------------------------- work on one destination

  /** Everything about the other destinations is untouched while destination `i` is rebuilt. */
  ghost predicate Elsewhere(s: State, r: State, i: nat) {
    && |r.destinations| == |s.destinations| && r.terminalCount == s.terminalCount
    && (forall k: nat :: k < |s.destinations| && k != i ==> r.destinations[k] == s.destinations[k])
    && (i < |s.destinations| ==> r.destinations[i] == s.destinations[i].(targets := r.destinations[i].targets))
    && (forall d :: d in s.deps && s.deps[d].dest != i ==> d in r.deps && r.deps[d] == s.deps[d])
    && (forall d :: d in r.deps && r.deps[d].dest != i ==> d in s.deps && r.deps[d] == s.deps[d])
    && (forall k: nat, n :: k < |s.destinations| && k != i && n in s.destinations[k].targets.names ==>
       SameOrigin(s, r, n))
  }

  ghost predicate SameOrigin(s: State, r: State, n: Name) {
    n in s.targets && n in r.targets && r.targets[n].origin == s.targets[n].origin
  }

  lemma ElsewhereTrans(s: State, t: State, r: State, i: nat)
    requires Elsewhere(s, t, i) && Elsewhere(t, r, i)
    ensures Elsewhere(s, r, i)
  {
    forall k: nat, n | k < |s.destinations| && k != i && n in s.destinations[k].targets.names
      ensures SameOrigin(s, r, n)
    {
      assert SameOrigin(s, t, n);
      assert n in t.destinations[k].targets.names;
      assert SameOrigin(t, r, n);
    }
  }

  lemma {:induction false} PlanSame(targets: map<Name, Target>, targets': map<Name, Target>, names: seq<Name>)
    requires forall n :: n in names ==> n in targets && n in targets' && targets'[n].origin == targets[n].origin
    ensures Plan(targets', names) == Plan(targets, names) && Literals(targets', names) == Literals(targets, names)
  {
    if names != [] {
      PlanSame(targets, targets', names[..|names| - 1]);
    }
  }

  lemma WiredSame(ts: TargetSet, s: State, r: State)
    requires Wired(ts, s.deps, s.targets)
    requires forall d :: d in ts.deps ==> d in r.deps && d in s.deps && r.deps[d].entry == s.deps[d].entry
    requires forall n :: n in ts.names ==>
             n in r.targets && n in s.targets && r.targets[n].origin == s.targets[n].origin
    ensures Wired(ts, r.deps, r.targets)
  {
    PlanSame(s.targets, r.targets, ts.names);
    assert EntriesOf(r.deps, ts.deps) == EntriesOf(s.deps, ts.deps);
  }

  lemma ElsewhereOne(s: State, r: State, i: nat, k: nat)
    requires Elsewhere(s, r, i) && k < |s.destinations| && k != i
    requires DestShaped(s.destinations[k], k, s.deps, s.targets) && DestShaped(r.destinations[k], k, r.deps, r.targets)
    requires Recounted(s.destinations[k], k, s.deps) && Wired(s.destinations[k].targets, s.deps, s.targets)
    ensures Recounted(r.destinations[k], k, r.deps) && Wired(r.destinations[k].targets, r.deps, r.targets)
  {
    assert PendingSet(r.deps, k) == PendingSet(s.deps, k);
    assert PositiveSet(r.deps, k) == PositiveSet(s.deps, k);
    var ts := s.destinations[k].targets;
    forall d | d in ts.deps
      ensures d in r.deps && d in s.deps && r.deps[d] == s.deps[d]
    {
      assert DepAt(s.deps, d, k, true);
    }
    assert forall n :: n in ts.names ==> SameOrigin(s, r, n);
    WiredSame(ts, s, r);
  }

  /** The counters of the other destinations survive. */
  lemma ElsewhereCounters(s: State, r: State, i: nat, undecided: set<nat>)
    requires Counters(s, {}, undecided) && Shaped(s) && Shaped(r) && Elsewhere(s, r, i) && i < |s.destinations|
    ensures Counters(r, {i}, undecided)
  {
    hide Recounted, Wired, Concluded, DestShaped;
    assert Terminals(r.destinations) == Terminals(s.destinations);
    forall k: nat | k < |r.destinations| && k != i
      ensures Recounted(r.destinations[k], k, r.deps) && Wired(r.destinations[k].targets, r.deps, r.targets)
    {
      ElsewhereOne(s, r, i, k);
    }
  }

  // ---------------------------------------------------------------- deciding a destination

  /** The outcome of a destination with nothing pending. */
  function Updated(x: Destination): (r: Destination) {
    if !x.expanded || x.pending != 0 then x
    else x.(result := if x.result.Pending? then (if x.positive > 0 then Available else Unavailable)
                      else x.result, firstTerminal := true)
  }

  function DestinationUpdated(s: State, i: nat): (r: State)
    requires i < |s.destinations|
  {
    var x := s.destinations[i];
    s.(destinations := s.destinations[i := Updated(x)],
       terminalCount := if !x.firstTerminal && Updated(x).firstTerminal then s.terminalCount + 1 else s.terminalCount)
  }

  /** A destination ready to be decided: it is expanded, or still waits for its SRV answer. */
  predicate Decidable(x: Destination) {
    && (!x.expanded ==> x.pending > 0 && x.result.Pending? && x.srv && x.targets == NO_TARGETS)
    && (x.pending > 0 ==> x.result.Pending?)
    && (x.pending == 0 && !x.result.Pending? ==> (x.result.Available? <==> x.positive > 0))
  }

  lemma TerminalsUpdated(s: State, i: nat)
    requires i < |s.destinations| && s.terminalCount == |Terminals(s.destinations)|
    ensures DestinationUpdated(s, i).terminalCount == |Terminals(DestinationUpdated(s, i).destinations)|
  {
    var r := DestinationUpdated(s, i);
    if !s.destinations[i].firstTerminal && r.destinations[i].firstTerminal {
      assert Terminals(r.destinations) == Terminals(s.destinations) + {i};
    } else {
      assert Terminals(r.destinations) == Terminals(s.destinations);
    }
  }

  lemma UpdatedCounters(s: State, i: nat, undecided: set<nat>)
    requires Counters(s, {}, undecided) && i < |s.destinations| && Decidable(s.destinations[i])
    ensures Counters(DestinationUpdated(s, i), {}, undecided - {i})
  {
    hide Terminals, Wired, PendingSet, PositiveSet;
    TerminalsUpdated(s, i);
  }

  lemma UpdatedFlags(s: State, i: nat)
    requires i < |s.destinations|
    ensures OnlyFlags(s, DestinationUpdated(s, i))
    ensures forall k: nat :: k < |s.destinations| && s.destinations[k].firstTerminal ==>
            DestinationUpdated(s, i).destinations[k].firstTerminal
  {
    assert forall e :: e in s.entries ==> EntryFlags(s.entries[e], s.entries[e]);
  }

  // ---------------------------------------------------------------- an entry becomes terminal

  function Answered(s: State, e: EntryId, positive: bool): (r: State)
    requires e in s.entries
  {
    s.(entries := s.entries[e := s.entries[e].(terminal := true, positive := positive)])
  }

  /** One dependency of an answered entry is satisfied. */
  function Satisfied(s: State, d: DepId, positive: bool): (r: State)
    requires d in s.deps && s.deps[d].dest < |s.destinations|
  {
    var x := s.deps[d];
    var y := s.destinations[x.dest];
    var gain := positive && x.source && !x.positive;
    s.(deps := s.deps[d := x.(pending := false, positive := x.positive || gain)],
       destinations := s.destinations[x.dest := y.(
         pending := if x.pending && y.pending > 0 then y.pending - 1 else y.pending,
         positive := if gain then y.positive + 1 else y.positive)])
  }

  lemma SatisfiedRecount(s: State, d: DepId, positive: bool)
    requires d in s.deps && s.deps[d].dest < |s.destinations| && s.deps[d].pending && !s.deps[d].positive
    requires Recounted(s.destinations[s.deps[d].dest], s.deps[d].dest, s.deps)
    ensures var i := s.deps[d].dest; var r := Satisfied(s, d, positive);
            s.destinations[i].pending > 0 && Recounted(r.destinations[i], i, r.deps)
  {
    var i := s.deps[d].dest;
    var r := Satisfied(s, d, positive);
    assert PendingSet(s.deps, i) == PendingSet(r.deps, i) + {d};
    if positive && s.deps[d].source {
      assert PositiveSet(r.deps, i) == PositiveSet(s.deps, i) + {d};
    } else {
      assert PositiveSet(r.deps, i) == PositiveSet(s.deps, i);
    }
  }

  lemma SatisfiedElsewhere(s: State, d: DepId, positive: bool, k: nat)
    requires d in s.deps && s.deps[d].dest < |s.destinations| && k < |s.destinations| && k != s.deps[d].dest
    requires Recounted(s.destinations[k], k, s.deps)
    ensures var r := Satisfied(s, d, positive); Recounted(r.destinations[k], k, r.deps)
  {
    var r := Satisfied(s, d, positive);
    assert PendingSet(r.deps, k) == PendingSet(s.deps, k);
    assert PositiveSet(r.deps, k) == PositiveSet(s.deps, k);
  }

  lemma SatisfiedCounters(s: State, d: DepId, positive: bool, undecided: set<nat>)
    requires Counters(s, {}, undecided)
    requires d in s.deps && s.deps[d].dest < |s.destinations| && s.deps[d].pending && !s.deps[d].positive
             && s.deps[d].dest in undecided
    ensures Counters(Satisfied(s, d, positive), {}, undecided)
  {
    hide Recounted, Wired, Concluded;
    var i := s.deps[d].dest;
    var r := Satisfied(s, d, positive);
    SatisfiedRecount(s, d, positive);
    forall k: nat | k < |r.destinations|
      ensures Recounted(r.destinations[k], k, r.deps) && Wired(r.destinations[k].targets, r.deps, r.targets)
    {
      if k != i {
        SatisfiedElsewhere(s, d, positive, k);
      }
      SatisfiedWired(s.destinations[k].targets, s, d, positive);
    }
    assert Terminals(r.destinations) == Terminals(s.destinations);
  }

  lemma SatisfiedWired(ts: TargetSet, s: State, d: DepId, positive: bool)
    requires Wired(ts, s.deps, s.targets) && d in s.deps && s.deps[d].dest < |s.destinations|
    ensures Wired(ts, Satisfied(s, d, positive).deps, s.targets)
  {
    WiredSame(ts, s, Satisfied(s, d, positive));
  }

  lemma SatisfiedFlags(s: State, d: DepId, positive: bool)
    requires d in s.deps && s.deps[d].dest < |s.destinations|
    ensures OnlyFlags(s, Satisfied(s, d, positive))
    ensures forall k: nat :: k < |s.destinations| ==> var r := Satisfied(s, d, positive);
              r.destinations[k]
                == s.destinations[k].(pending := r.destinations[k].pending, positive := r.destinations[k].positive)
  {
    assert forall e :: e in s.entries ==> EntryFlags(s.entries[e], s.entries[e]);
  }

  // ---------------------------------------------------------------- counting a rebuilt destination

  ghost function PendingIn(deps: map<DepId, Dependency>, list: seq<DepId>): (r: set<DepId>) {
    set d | d in list && d in deps && deps[d].pending
  }

  ghost function PositiveIn(deps: map<DepId, Dependency>, list: seq<DepId>): (r: set<DepId>) {
    set d | d in list && d in deps && deps[d].positive
  }

  /** What belongs to a destination of services: its own lookup, which is never positive, and its targets'. */
  lemma Members(s: State, i: nat)
    requires Graph(s, i, {}, {}) && s.candidate.deps == [] && i < |s.destinations| && s.destinations[i].srv
    requires DepsExact(s, {})
    ensures |s.destinations[i].owner| == 1 && s.destinations[i].owner[0] in s.deps
    ensures var x := s.destinations[i]; var o := x.owner[0];
            && s.deps[o].dest == i && !s.deps[o].positive
            && (forall d :: d in s.deps && s.deps[d].dest == i ==> d == o || d in x.targets.deps)
            && (forall d :: d in x.targets.deps ==> d != o && d in s.deps && s.deps[d].dest == i)
  {
    var x := s.destinations[i];
    assert DestShaped(x, i, s.deps, s.targets);
    var o := x.owner[0];
    assert o in x.owner && DepAt(s.deps, o, i, false);
    assert x.owner == [o];
    assert DepExact(s.deps[o], s.entries) && !s.deps[o].positive;
    hide EntriesExact, TargetsExact, TargetsResolvable, Shaped, CandidateShaped, QueueExact, DepsKnown, DepsExact;
    forall d | d in s.deps && s.deps[d].dest == i
      ensures d == o || d in x.targets.deps
    {
      assert DepListed(s, i, d);
    }
    forall d | d in x.targets.deps
      ensures d != o && d in s.deps && s.deps[d].dest == i
    {
      assert DepAt(s.deps, d, i, true);
    }
  }

  /** For an SRV destination the recount splits into its owner and its target dependencies. */
  lemma RecountSplits(s: State, i: nat)
    requires Graph(s, i, {}, {}) && s.candidate.deps == [] && i < |s.destinations| && s.destinations[i].srv
    requires DepsExact(s, {})
    ensures |s.destinations[i].owner| == 1 && s.destinations[i].owner[0] in s.deps
    ensures |PendingSet(s.deps, i)| == |PendingIn(s.deps, s.destinations[i].targets.deps)|
            + (if s.deps[s.destinations[i].owner[0]].pending then 1 else 0)
    ensures |PositiveSet(s.deps, i)| == |PositiveIn(s.deps, s.destinations[i].targets.deps)|
  {
    hide Graph, DepsExact;
    Members(s, i);
    var x := s.destinations[i];
    var o := x.owner[0];
    if s.deps[o].pending {
      assert PendingSet(s.deps, i) == PendingIn(s.deps, x.targets.deps) + {o};
    } else {
      assert PendingSet(s.deps, i) == PendingIn(s.deps, x.targets.deps);
    }
    assert PositiveSet(s.deps, i) == PositiveIn(s.deps, x.targets.deps);
  }

  /** Installing new counters for destination `i` closes it again. */
  lemma ReopenedCounters(s: State, r: State, i: nat, undecided: set<nat>)
    requires Counters(s, {i}, undecided) && i < |s.destinations| && |r.destinations| == |s.destinations|
    requires r.deps == s.deps && r.targets == s.targets && r.terminalCount == s.terminalCount
    requires forall k: nat :: k < |s.destinations| && k != i ==> r.destinations[k] == s.destinations[k]
    requires r.destinations[i].firstTerminal == s.destinations[i].firstTerminal
    requires Recounted(r.destinations[i], i, r.deps) && Wired(r.destinations[i].targets, r.deps, r.targets)
    ensures Counters(r, {}, undecided + {i})
  {
    hide Recounted, Wired, Concluded;
    assert Terminals(r.destinations) == Terminals(s.destinations);
  }
}
