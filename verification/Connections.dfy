/** The listener's waiting connections on one resolver supervisor. Any number of waiters come and go, ask, are told
    and give up, next to the background work of the route coordinators, in any order.
 */
module Connections {
  import opened Basics
  import opened Endpoint
  import opened WaiterSlots
  import opened Waiter
  import SupervisorState
  import SupervisorMoves
  import S = SupervisorSteps
  import Supervisor

  type Markers = set<SupervisorState.Marker>

  /** The supervisor only keeps answers whose time can be told and whose status is final. */
  type CompletionTime = t: nat | t < S.TIME_LIMIT
  type FinalStatus = s: nat | LOOKUP_OK <= s <= LOOKUP_TRUNCATED && s != LOOKUP_TEMPORARY witness LOOKUP_OK

  /** A connection is open, about to be ended, or gone. */
  datatype Phase = Open | Closing | Closed

  datatype Step =
    | Connect(deadline: nat)
    | Advance(connection: nat, world: World, preferred: Family, retain: EntryId -> bool)
    | TakeSnapshot(connection: nat)
    | Cancel(connection: nat)
    | Disconnect(connection: nat)
    | ProcessEvents
    | ScheduleBackground(entry: SupervisorState.Entry, view: S.CacheView, holder: nat)
    | ReleaseBackground(holder: nat, id: EntryId)
    | TakeCompletion(completedAt: CompletionTime, status: FinalStatus, addresses: seq<Address>, srvs: seq<Srv>,
        memory: bool)
    | BeginShutdown

  // ---------------------------------------------------------------- whose interest is whose

  function Background(markers: Markers): (r: Markers) {
    set m | m in markers && m.priority.Background?
  }

  function Foreground(markers: Markers): (r: Markers) {
    set m | m in markers && m.priority.Interactive?
  }

  ghost predicate Known(markers: Markers, connections: nat) {
    forall m :: m in markers && m.priority.Interactive? ==> m.holder < connections
  }

  /** What one waiter does to the supervisor's books is not seen by another. */
  lemma OthersKeep(before: Markers, after: Markers, i: nat, j: nat)
    requires Foreign(before, i) == Foreign(after, i) && i != j
    ensures Mine(after, j) == Mine(before, j)
  {
    forall e
      ensures e in Mine(after, j) <==> e in Mine(before, j)
    {
      MarkOf(before, j, e);
      MarkOf(after, j, e);
      assert InterestIn(j, e) in Foreign(before, i) <==> InterestIn(j, e) in before;
      assert InterestIn(j, e) in Foreign(after, i) <==> InterestIn(j, e) in after;
    }
  }

  lemma ForeignKeeps(before: Markers, after: Markers, i: nat, connections: nat)
    requires Foreign(before, i) == Foreign(after, i) && Known(before, connections) && i < connections
    ensures Background(after) == Background(before) && Known(after, connections)
  {
    forall m
      ensures m in Background(after) <==> m in Background(before)
    {
      assert m.priority.Background? ==>
             (m in Foreign(before, i) <==> m in before) && (m in Foreign(after, i) <==> m in after);
    }
    forall m | m in after && m.priority.Interactive?
      ensures m.holder < connections
    {
      assert m in Foreign(after, i) || m == InterestIn(i, m.entry);
    }
  }

  /** What happens in the background leaves every waiter's interests alone. */
  lemma WaitersKeep(before: Markers, after: Markers, connections: nat)
    requires Foreground(before) == Foreground(after) && Known(before, connections)
    ensures Known(after, connections) && forall j: nat :: Mine(after, j) == Mine(before, j)
  {
    forall m | m in after && m.priority.Interactive?
      ensures m.holder < connections
    {
      assert m in Foreground(after);
    }
    forall j: nat
      ensures Mine(after, j) == Mine(before, j)
    {
      forall e
        ensures e in Mine(after, j) <==> e in Mine(before, j)
      {
        MarkOf(before, j, e);
        MarkOf(after, j, e);
        assert InterestIn(j, e) in Foreground(before) <==> InterestIn(j, e) in before;
        assert InterestIn(j, e) in Foreground(after) <==> InterestIn(j, e) in after;
      }
    }
  }

  // ---------------------------------------------------------------- the listener's view

  /** A connection that is gone tracks nothing. */
  ghost predicate Gone(waiter: RouteWaiter)
    reads waiter
  {
    waiter.Coherent() && waiter.slots == [FREE, FREE, FREE]
  }

  /** Only an open connection is told of completions; one that is closing may have missed some. */
  ghost predicate Member(waiter: RouteWaiter, i: nat, phase: Phase)
    reads waiter
  {
    && waiter.holder == i
    && match phase
       case Open => waiter.Steady()
       case Closing => waiter.Coherent()
       case Closed => Gone(waiter)
  }

  /** Supervisor and waiters agree: what is counted for a connection is what its waiter believes, and nothing else is
      counted as interactive. */
  ghost predicate Agree(supervisor: Supervisor.ResolverSupervisor, waiters: seq<RouteWaiter>, phases: seq<Phase>)
    reads supervisor, waiters
  {
    && supervisor.Valid() && |phases| == |waiters| && Known(supervisor.markers, |waiters|)
    && (forall i :: 0 <= i < |waiters| ==>
       Member(waiters[i], i, phases[i]) && Mine(supervisor.markers, i) == waiters[i].marks)
  }

  /** Nothing is counted that a waiter gave up. */
  ghost predicate Tidy(waiters: seq<RouteWaiter>)
    reads waiters
  {
    forall i :: 0 <= i < |waiters| ==> waiters[i].stray == {}
  }

  /** The connections but one, as far as they are concerned. */
  lemma Apart(supervisor: Supervisor.ResolverSupervisor, waiters: seq<RouteWaiter>, phases: seq<Phase>, i: nat)
    requires Agree(supervisor, waiters, phases) && i < |waiters|
    ensures |phases| == |waiters| && Member(waiters[i], i, phases[i]) && waiters[i].Linked(supervisor)
            && Known(supervisor.markers, |waiters|)
    ensures forall j :: 0 <= j < |waiters| && j != i ==>
            waiters[j] != waiters[i] && Member(waiters[j], j, phases[j])
              && waiters[j].marks == Mine(supervisor.markers, j)
  {
    hide Mine, Known, SupervisorState.Inv;
    assert Member(waiters[i], i, phases[i]);
    forall j | 0 <= j < |waiters| && j != i
      ensures waiters[j] != waiters[i]
    {
      assert Member(waiters[j], j, phases[j]);
    }
  }

  /** One waiter's dealings with the supervisor keep the agreement. */
  lemma Together(before: Markers, supervisor: Supervisor.ResolverSupervisor, waiters: seq<RouteWaiter>,
      phases: seq<Phase>, i: nat)
    requires i < |waiters| == |phases| && Known(before, |waiters|)
    requires Foreign(supervisor.markers, i) == Foreign(before, i)
    requires Member(waiters[i], i, phases[i]) && waiters[i].Linked(supervisor)
    requires forall j :: 0 <= j < |waiters| && j != i ==>
             Member(waiters[j], j, phases[j]) && waiters[j].marks == Mine(before, j)
    ensures Agree(supervisor, waiters, phases) && Background(supervisor.markers) == Background(before)
  {
    hide Mine, Foreign, Background, Known, Member, SupervisorState.Inv;
    assert waiters[i].holder == i by {
      MemberHolder(waiters[i], i, phases[i]);
    }
    ForeignKeeps(before, supervisor.markers, i, |waiters|);
    forall j | 0 <= j < |waiters| && j != i
      ensures Mine(supervisor.markers, j) == waiters[j].marks
    {
      OthersKeep(before, supervisor.markers, i, j);
    }
  }

  lemma Everybody(supervisor: Supervisor.ResolverSupervisor, waiters: seq<RouteWaiter>, phases: seq<Phase>)
    requires Agree(supervisor, waiters, phases)
    ensures |phases| == |waiters| && supervisor.Valid() && Known(supervisor.markers, |waiters|)
    ensures forall j :: 0 <= j < |waiters| ==>
            Member(waiters[j], j, phases[j]) && waiters[j].marks == Mine(supervisor.markers, j)
  {
    hide Mine, Known, Member, SupervisorState.Inv;
  }

  lemma Assembled(supervisor: Supervisor.ResolverSupervisor, waiters: seq<RouteWaiter>, phases: seq<Phase>)
    requires |phases| == |waiters| && supervisor.Valid() && Known(supervisor.markers, |waiters|)
    requires forall j :: 0 <= j < |waiters| ==>
             Member(waiters[j], j, phases[j]) && waiters[j].marks == Mine(supervisor.markers, j)
    ensures Agree(supervisor, waiters, phases)
  {
    hide Mine, Known, Member, SupervisorState.Inv;
  }

  lemma TakenKnown(markers: Markers, e: EntryId, connections: nat)
    requires Known(markers, connections)
    ensures Known(SupervisorMoves.MarkersElsewhere(markers, e), connections)
    ensures Background(SupervisorMoves.MarkersElsewhere(markers, e))
            == SupervisorMoves.MarkersElsewhere(Background(markers), e)
  {
  }

  lemma Newcomer(markers: Markers, connections: nat)
    requires Known(markers, connections)
    ensures Mine(markers, connections) == {} && Known(markers, connections + 1)
  {
    forall e
      ensures e !in Mine(markers, connections)
    {
      MarkOf(markers, connections, e);
    }
  }

  lemma BackgroundMoved(markers: Markers, m: SupervisorState.Marker)
    requires m.priority.Background?
    ensures Foreground(markers + {m}) == Foreground(markers) == Foreground(markers - {m})
    ensures Background(markers + {m}) == Background(markers) + {m}
            && Background(markers - {m}) == Background(markers) - {m}
    ensures m in markers <==> m in Background(markers)
  {
  }

  lemma MemberHolder(waiter: RouteWaiter, i: nat, phase: Phase)
    requires Member(waiter, i, phase)
    ensures waiter.holder == i && waiter.Coherent() && (phase.Open? ==> waiter.Steady())
  {
  }

  lemma OpenMember(waiter: RouteWaiter, i: nat)
    requires waiter.Steady() && waiter.holder == i
    ensures Member(waiter, i, Open) && Member(waiter, i, Closing)
  {
  }

  lemma GoneMember(waiter: RouteWaiter, i: nat)
    requires waiter.Coherent() && waiter.slots == [FREE, FREE, FREE] && waiter.holder == i
    ensures Member(waiter, i, Closed)
  {
  }

  lemma MissedMember(waiter: RouteWaiter, i: nat, phase: Phase)
    requires waiter.Coherent() && waiter.holder == i && !phase.Open?
    requires phase.Closed? ==> waiter.slots == [FREE, FREE, FREE]
    ensures Member(waiter, i, phase)
  {
  }

  // ---------------------------------------------------------------- steps

  /** Drives one waiter. What could leave an interest behind is reported. */
  method Drive(supervisor: Supervisor.ResolverSupervisor, waiters: seq<RouteWaiter>, phases: seq<Phase>, i: nat,
      w: World, preferred: Family, retain: EntryId -> bool, now: Time) returns (disturbed: bool)
    requires Agree(supervisor, waiters, phases) && i < |waiters| && phases[i].Open?
    modifies supervisor, waiters[i]
    ensures Agree(supervisor, waiters, phases) && Background(supervisor.markers) == Background(old(supervisor.markers))
    ensures !disturbed && old(Tidy(waiters)) ==> Tidy(waiters)
    ensures forall j :: 0 <= j < |waiters| ==> waiters[j].lost == old(waiters[j].lost)
  {
    hide Agree, Member, Mine, Foreign, Background, Known, SupervisorState.Inv, Promised, Evaluate;
    ghost var before, waiter := supervisor.markers, waiters[i];
    Apart(supervisor, waiters, phases, i);
    MemberHolder(waiters[i], i, phases[i]);
    disturbed := supervisor.shuttingDown || now >= S.TIME_LIMIT || now < supervisor.lastNow;
    var _ := waiters[i].Progress(w, preferred, now, retain, supervisor);
    disturbed := disturbed || waiters[i].status == Failed(IoReason);
    OpenMember(waiter, i);
    Together(before, supervisor, waiters, phases, i);
  }

  /** Ends one connection. If it missed a completion and somebody waits for the same entry again, that one pays for it;
      otherwise all the others stay counted. */
  method Close(supervisor: Supervisor.ResolverSupervisor, waiters: seq<RouteWaiter>, phases: seq<Phase>, i: nat,
      now: Time) returns (disturbed: bool, ghost robbed: Markers)
    requires Agree(supervisor, waiters, phases) && i < |waiters| && !phases[i].Closed?
    modifies supervisor, waiters[i]
    ensures forall m :: m in robbed ==> m.entry in old(waiters[i].lost) && m in Rivals(old(supervisor.markers), m.entry)
    ensures Foreign(supervisor.markers, i) == Foreign(old(supervisor.markers), i) - robbed
    ensures robbed == {} ==>
              && Agree(supervisor, waiters, phases[i := Closed])
              && Background(supervisor.markers) == Background(old(supervisor.markers))
    ensures !disturbed && old(Tidy(waiters)) ==> Tidy(waiters)
    ensures forall j :: 0 <= j < |waiters| ==> waiters[j].lost == if j == i then {} else old(waiters[j].lost)
  {
    hide Agree, Member, Mine, Foreign, Background, Known, Rivals, SupervisorState.Inv;
    ghost var before, waiter := supervisor.markers, waiters[i];
    Apart(supervisor, waiters, phases, i);
    MemberHolder(waiters[i], i, phases[i]);
    disturbed := supervisor.shuttingDown || now >= S.TIME_LIMIT || now < supervisor.lastNow;
    var r;
    r, robbed := waiters[i].Destroy(supervisor, now);
    GoneMember(waiter, i);
    if robbed == {} {
      Together(before, supervisor, waiters, phases[i := Closed], i);
    }
  }

  /** Tells one open connection of a completion, or lets one that is closing miss it. */
  method Observe(waiter: RouteWaiter, ghost i: nat, phase: Phase, c: Completion, kind: QueryKind, memory: bool)
    requires Member(waiter, i, phase) && Sensible(c, kind)
    modifies waiter
    ensures Member(waiter, i, phase) && waiter.marks == old(waiter.marks) - {c.entry}
            && waiter.stray == old(waiter.stray) - {c.entry}
    ensures phase.Open? ==> waiter.lost == {}
    ensures !phase.Open? ==>
              && waiter.slots == old(waiter.slots)
              && waiter.lost == old(waiter.lost) + (if c.entry in Interested(waiter.slots) then {c.entry} else {})
  {
    hide Interested, Tracked, SlotsOk, Member;
    MemberHolder(waiter, i, phase);
    if phase.Open? {
      var _ := waiter.CompletionObserve(c, kind, memory);
      OpenMember(waiter, i);
    } else {
      ClosedFree(waiter, i, phase);
      waiter.Miss(c.entry);
      MissedMember(waiter, i, phase);
    }
  }

  lemma ClosedFree(waiter: RouteWaiter, i: nat, phase: Phase)
    requires Member(waiter, i, phase)
    ensures phase.Closed? ==> waiter.slots == [FREE, FREE, FREE]
  {
  }

  /** What connections that are closing miss when a completion is handed out. */
  function Missing(waiter: RouteWaiter, phase: Phase, missed: set<EntryId>, e: EntryId): (r: set<EntryId>)
    reads waiter
  {
    if !phase.Open? && e in Interested(waiter.slots) then missed + {e} else missed
  }

  /** Everybody is told of a completion, once. */
  method TellAll(waiters: seq<RouteWaiter>, phases: seq<Phase>, missed: seq<set<EntryId>>, c: Completion,
      kind: QueryKind, memory: bool, ghost before: Markers) returns (missed': seq<set<EntryId>>)
    requires |phases| == |waiters| == |missed| && Sensible(c, kind)
    requires forall j :: 0 <= j < |waiters| ==> Member(waiters[j], j, phases[j]) && waiters[j].marks == Mine(before, j)
    requires forall j :: 0 <= j < |waiters| ==> waiters[j].lost == missed[j]
    modifies waiters
    ensures |missed'| == |waiters|
    ensures forall j :: 0 <= j < |waiters| ==>
            Member(waiters[j], j, phases[j]) && waiters[j].marks == Mine(before, j) - {c.entry}
    ensures forall j :: 0 <= j < |waiters| ==> waiters[j].lost == missed'[j]
    ensures old(Tidy(waiters)) ==> Tidy(waiters)
  {
    hide Mine, Member, Interested;
    forall j | 0 <= j < |waiters|
      ensures waiters[j].holder == j
    {
      MemberHolder(waiters[j], j, phases[j]);
    }
    missed' := missed;
    var k := 0;
    while k < |waiters|
      invariant 0 <= k <= |waiters| == |missed'|
      invariant forall j :: 0 <= j < |waiters| ==> Member(waiters[j], j, phases[j])
      invariant forall j :: 0 <= j < |waiters| ==>
                waiters[j].marks == if j < k then Mine(before, j) - {c.entry} else Mine(before, j)
      invariant forall j :: 0 <= j < |waiters| ==> waiters[j].lost == missed'[j]
      invariant forall j :: 0 <= j < |waiters| && old(waiters[j].stray) == {} ==> waiters[j].stray == {}
    {
      missed' := missed'[k := if phases[k].Open? then {} else Missing(waiters[k], phases[k], missed'[k], c.entry)];
      Observe(waiters[k], k, phases[k], c, kind, memory);
      k := k + 1;
    }
  }

  /** Takes a completion and tells every open connection. The supervisor forgot all interest in the entry when it handed
      the completion out, and so do they; those that are closing go on believing in theirs. */
  method Tell(supervisor: Supervisor.ResolverSupervisor, waiters: seq<RouteWaiter>, phases: seq<Phase>,
      missed: seq<set<EntryId>>, step: Step) returns (told: Option<EntryId>, missed': seq<set<EntryId>>)
    requires Agree(supervisor, waiters, phases) && step.TakeCompletion? && |missed| == |waiters|
    requires forall j :: 0 <= j < |waiters| ==> waiters[j].lost == missed[j]
    modifies supervisor, waiters
    ensures Agree(supervisor, waiters, phases) && (old(Tidy(waiters)) ==> Tidy(waiters))
    ensures |missed'| == |waiters| && forall j :: 0 <= j < |waiters| ==> waiters[j].lost == missed'[j]
    ensures supervisor.markers == if told.None? then old(supervisor.markers)
                                  else SupervisorMoves.MarkersElsewhere(old(supervisor.markers), told.value)
    ensures Background(supervisor.markers)
            == if told.None? then Background(old(supervisor.markers))
               else SupervisorMoves.MarkersElsewhere(Background(old(supervisor.markers)), told.value)
  {
    hide Agree, Member, Mine, Known, Background, SupervisorState.Inv, SupervisorState.WorkConserving,
         SupervisorMoves.MarkersElsewhere;
    Everybody(supervisor, waiters, phases);
    ghost var before := supervisor.markers;
    missed' := missed;
    var taken := supervisor.CompletionTake();
    if taken.None? {
      Assembled(supervisor, waiters, phases);
      return None, missed';
    }
    var e, kind := taken.value.0.id, taken.value.0.kind;
    told := Some(e);
    var publication := match taken.value.1
      case Stored => WaiterSlots.Stored
      case Transient => TransientAnswer
      case _ => NotStored;
    var c := Completion(e, kind, step.completedAt, step.status, publication, step.addresses, step.srvs);
    missed' := TellAll(waiters, phases, missed, c, kind, step.memory, before);
    TakenKnown(before, e, |waiters|);
    forall j | 0 <= j < |waiters|
      ensures waiters[j].marks == Mine(supervisor.markers, j)
    {
      MarksTaken(before, j, e);
    }
    Assembled(supervisor, waiters, phases);
  }

  /** An interactive interest some connection's waiter believes in, and was not told to forget. */
  ghost predicate Wanted(m: SupervisorState.Marker, waiters: seq<RouteWaiter>)
    reads waiters
  {
    && m.priority.Interactive? && m.holder < |waiters|
    && m.entry in Interested(waiters[m.holder].slots) && m.entry !in waiters[m.holder].lost
  }

  lemma Accounted(supervisor: Supervisor.ResolverSupervisor, waiters: seq<RouteWaiter>, phases: seq<Phase>,
      m: SupervisorState.Marker)
    requires Agree(supervisor, waiters, phases) && Tidy(waiters)
    ensures m in supervisor.markers <==> m in Background(supervisor.markers) || Wanted(m, waiters)
    ensures Wanted(m, waiters) ==> m.holder < |phases| && !phases[m.holder].Closed?
  {
    hide Mine, SupervisorState.Inv, Interested, Tracked;
    if m.priority.Interactive? && m.holder < |waiters| {
      MarkOf(supervisor.markers, m.holder, m.entry);
      assert Member(waiters[m.holder], m.holder, phases[m.holder]);
      if phases[m.holder].Closed? {
        NobodyInterested(waiters[m.holder].slots);
      }
    }
  }

  /** Whether nobody else believes in an interest in entries a connection has missed. */
  method Uncontested(waiters: seq<RouteWaiter>, i: nat, missed: set<EntryId>) returns (free: bool)
    ensures free <==> forall j :: 0 <= j < |waiters| && j != i ==> missed !! Interested(waiters[j].slots)
  {
    hide Interested;
    free := true;
    var j := 0;
    while j < |waiters|
      invariant 0 <= j <= |waiters|
      invariant free <==> forall k :: 0 <= k < j && k != i ==> missed !! Interested(waiters[k].slots)
    {
      if j != i && !(missed !! Interested(waiters[j].slots)) {
        free := false;
      }
      j := j + 1;
    }
  }

  /** Then nobody is counted for them either. */
  lemma NoRivals(supervisor: Supervisor.ResolverSupervisor, waiters: seq<RouteWaiter>, phases: seq<Phase>, i: nat,
      e: EntryId)
    requires Agree(supervisor, waiters, phases) && Tidy(waiters) && i < |waiters| && e in waiters[i].lost
    requires forall j :: 0 <= j < |waiters| && j != i ==> e !in Interested(waiters[j].slots)
    ensures Rivals(supervisor.markers, e) == {}
  {
    hide Agree, Interested;
    if Rivals(supervisor.markers, e) != {} {
      var m :| m in Rivals(supervisor.markers, e);
      Accounted(supervisor, waiters, phases, m);
      assert false;
    }
  }

  /** A connection that missed completions endangers the others in a disturbed run, or if one of them believes in an
      interest in the same entry. */
  ghost predicate Endangers(waiters: seq<RouteWaiter>, i: nat, missed: set<EntryId>, disturbed: bool)
    reads waiters
  {
    && missed != {}
    && (disturbed || exists j :: 0 <= j < |waiters| && j != i && !(missed !! Interested(waiters[j].slots)))
  }

  /** Whether ending a connection could cost somebody else an interest. */
  method Contested(supervisor: Supervisor.ResolverSupervisor, waiters: seq<RouteWaiter>, phases: seq<Phase>, i: nat,
      missed: set<EntryId>, disturbed: bool) returns (contested: bool)
    requires Agree(supervisor, waiters, phases) && i < |waiters| && waiters[i].lost == missed
    requires !disturbed ==> Tidy(waiters)
    ensures contested <==> Endangers(waiters, i, missed, disturbed)
    ensures !contested ==> forall e :: e in missed ==> Rivals(supervisor.markers, e) == {}
  {
    hide Agree, Interested, Rivals, Tidy;
    var free := Uncontested(waiters, i, missed);
    contested := missed != {} && (disturbed || !free);
    if !contested {
      forall e | e in missed
        ensures Rivals(supervisor.markers, e) == {}
      {
        NoRivals(supervisor, waiters, phases, i, e);
      }
    }
  }

  /** An uncontested end robs nobody. */
  method CloseFreely(supervisor: Supervisor.ResolverSupervisor, waiters: seq<RouteWaiter>, phases: seq<Phase>, i: nat,
      ghost missed: set<EntryId>, now: Time) returns (disturbed: bool)
    requires Agree(supervisor, waiters, phases) && i < |waiters| && !phases[i].Closed? && waiters[i].lost == missed
    requires forall e :: e in missed ==> Rivals(supervisor.markers, e) == {}
    modifies supervisor, waiters[i]
    ensures Agree(supervisor, waiters, phases[i := Closed])
            && Background(supervisor.markers) == Background(old(supervisor.markers))
    ensures !disturbed && old(Tidy(waiters)) ==> Tidy(waiters)
    ensures forall j :: 0 <= j < |waiters| ==> waiters[j].lost == if j == i then {} else old(waiters[j].lost)
  {
    hide Agree, Rivals, Tidy, Background, Foreign;
    ghost var robbed;
    disturbed, robbed := Close(supervisor, waiters, phases, i, now);
    assert robbed == {};
  }

  /** A coordinator asks for a lookup, or gives its interest up. */
  method BackgroundStep(supervisor: Supervisor.ResolverSupervisor, waiters: seq<RouteWaiter>, phases: seq<Phase>,
      step: Step, held: Markers, now: Time) returns (held': Markers)
    requires Agree(supervisor, waiters, phases) && held == Background(supervisor.markers)
             && (step.ScheduleBackground? || step.ReleaseBackground?)
    modifies supervisor
    ensures Agree(supervisor, waiters, phases) && held' == Background(supervisor.markers)
  {
    hide Agree, Member, Mine, Known, Background, Foreground, SupervisorState.Inv, SupervisorState.WorkConserving,
         SupervisorState.MarkersFor, S.Unfinished;
    Everybody(supervisor, waiters, phases);
    ghost var before := supervisor.markers;
    var id := if step.ScheduleBackground? then step.entry.id else step.id;
    var m := SupervisorState.Marker(step.holder, id, SupervisorState.Background);
    BackgroundMoved(before, m);
    held' := held;
    if step.ScheduleBackground? {
      if m !in held {
        var status := supervisor.Schedule(step.entry, step.view, now, m, SupervisorState.Background);
        if status in {S.Started, S.Shared, S.ScheduleIo} {
          held' := held + {m};
        }
      }
    } else if m in held {
      var status, _ := supervisor.Release(id, SupervisorState.Background, now, m);
      if status in {S.ReleaseOk, S.ReleaseIo, S.Satisfied} {
        held' := held - {m};
      }
    }
    WaitersKeep(before, supervisor.markers, |waiters|);
    Assembled(supervisor, waiters, phases);
  }

  /** A new connection, which nothing is counted for yet. */
  method Begin(supervisor: Supervisor.ResolverSupervisor, waiters: seq<RouteWaiter>, phases: seq<Phase>, deadline: nat)
      returns (waiter: RouteWaiter)
    requires Agree(supervisor, waiters, phases)
    ensures Agree(supervisor, waiters + [waiter], phases + [Open]) && (old(Tidy(waiters)) ==> Tidy(waiters + [waiter]))
            && fresh(waiter) && waiter.lost == {}
  {
    hide Agree, Member, Mine, Known, Background, SupervisorState.Inv;
    Everybody(supervisor, waiters, phases);
    Newcomer(supervisor.markers, |waiters|);
    waiter := new RouteWaiter(|waiters|, deadline);
    OpenMember(waiter, |waiters|);
    Assembled(supervisor, waiters + [waiter], phases + [Open]);
  }

  /** A connection is about to be ended; from now on it is not told of completions. */
  lemma Cancelled(supervisor: Supervisor.ResolverSupervisor, waiters: seq<RouteWaiter>, phases: seq<Phase>, i: nat)
    requires Agree(supervisor, waiters, phases) && i < |waiters| && phases[i].Open?
    ensures Agree(supervisor, waiters, phases[i := Closing])
  {
    hide Agree, Member, Mine, Known, Background, SupervisorState.Inv;
    Everybody(supervisor, waiters, phases);
    MemberHolder(waiters[i], i, phases[i]);
    OpenMember(waiters[i], i);
    Assembled(supervisor, waiters, phases[i := Closing]);
  }

  lemma Nobody(supervisor: Supervisor.ResolverSupervisor)
    requires supervisor.Valid() && supervisor.markers == {}
    ensures Agree(supervisor, [], []) && Background(supervisor.markers) == {} && Tidy([])
  {
    hide SupervisorState.Inv;
  }

  method Hand(supervisor: Supervisor.ResolverSupervisor, waiters: seq<RouteWaiter>, phases: seq<Phase>, i: nat)
    requires Agree(supervisor, waiters, phases) && i < |waiters| && phases[i].Open?
    modifies waiters[i]
    ensures Agree(supervisor, waiters, phases) && (old(Tidy(waiters)) ==> Tidy(waiters))
    ensures forall j :: 0 <= j < |waiters| ==> waiters[j].lost == old(waiters[j].lost)
  {
    hide Agree, Member, Mine, Known, Background, SupervisorState.Inv;
    Everybody(supervisor, waiters, phases);
    Apart(supervisor, waiters, phases, i);
    MemberHolder(waiters[i], i, phases[i]);
    var _ := waiters[i].SnapshotTake();
    OpenMember(waiters[i], i);
    Assembled(supervisor, waiters, phases);
  }

  method Events(supervisor: Supervisor.ResolverSupervisor, waiters: seq<RouteWaiter>, phases: seq<Phase>, now: Time)
    requires Agree(supervisor, waiters, phases)
    modifies supervisor
    ensures Agree(supervisor, waiters, phases) && supervisor.markers == old(supervisor.markers)
  {
    hide Agree, Member, Mine, Known, SupervisorState.Inv, SupervisorState.WorkConserving;
    Everybody(supervisor, waiters, phases);
    var _ := supervisor.EventsProcess(now);
    Assembled(supervisor, waiters, phases);
  }

  method End(supervisor: Supervisor.ResolverSupervisor, waiters: seq<RouteWaiter>, phases: seq<Phase>, now: Time)
    requires Agree(supervisor, waiters, phases)
    modifies supervisor
    ensures Agree(supervisor, waiters, phases) && supervisor.markers == old(supervisor.markers)
  {
    hide Agree, Member, Mine, Known, SupervisorState.Inv;
    Everybody(supervisor, waiters, phases);
    var _ := supervisor.Shutdown(now);
    Assembled(supervisor, waiters, phases);
  }

  /** Any run of the listener, up to the first contested end: a connection that missed a completion while it was closing
      is about to give up an interest somebody else believes in. Up to there the supervisor always counts for every
      connection what its waiter believes is counted, save what was missed, and as long as nothing disturbed the run,
      that is what the connections and the coordinators want: no interest is lost, none is counted twice, and none
      outlives its connection. */
  method Serve(helperCount: nat, limit: nat, reserve: nat, start: Time, steps: seq<(Step, Time)>)
    returns (supervisor: Supervisor.ResolverSupervisor, waiters: seq<RouteWaiter>, phases: seq<Phase>,
             missed: seq<set<EntryId>>, held: Markers, disturbed: bool, contested: bool)
    requires 0 < helperCount && reserve <= limit && start < S.TIME_LIMIT
    ensures Agree(supervisor, waiters, phases) && held == Background(supervisor.markers)
    ensures |missed| == |waiters| && forall i :: 0 <= i < |waiters| ==> waiters[i].lost == missed[i]
    ensures !disturbed ==> forall m :: m in supervisor.markers <==> m in held || Wanted(m, waiters)
    ensures contested ==> exists i :: 0 <= i < |waiters| && Endangers(waiters, i, missed[i], disturbed)
  {
    hide Agree, Member, Mine, Known, Background, Foreground, Tidy, Wanted, Endangers, Interested, Rivals, Foreign,
         SupervisorState.Inv, SupervisorState.WorkConserving;
    supervisor := new Supervisor.ResolverSupervisor(helperCount, limit, reserve, start);
    waiters, phases, missed, held, disturbed, contested := [], [], [], {}, false, false;
    Nobody(supervisor);
    var k := 0;
    while k < |steps| && !contested
      invariant 0 <= k <= |steps| && fresh(supervisor) && (forall i :: 0 <= i < |waiters| ==> fresh(waiters[i]))
      invariant Agree(supervisor, waiters, phases) && |phases| == |waiters| && held == Background(supervisor.markers)
      invariant |missed| == |waiters| && forall i :: 0 <= i < |waiters| ==> waiters[i].lost == missed[i]
      invariant !disturbed ==> Tidy(waiters)
      invariant contested ==> exists i :: 0 <= i < |waiters| && Endangers(waiters, i, missed[i], disturbed)
    {
      var (step, now) := steps[k];
      match step {
        case Connect(deadline) =>
          var waiter := Begin(supervisor, waiters, phases, deadline);
          waiters, phases, missed := waiters + [waiter], phases + [Open], missed + [{}];
        case Advance(i, w, preferred, retain) =>
          if i < |waiters| && phases[i].Open? {
            var more := Drive(supervisor, waiters, phases, i, w, preferred, retain, now);
            disturbed := disturbed || more;
          }
        case TakeSnapshot(i) =>
          if i < |waiters| && phases[i].Open? {
            Hand(supervisor, waiters, phases, i);
          }
        case Cancel(i) =>
          if i < |waiters| && phases[i].Open? {
            Cancelled(supervisor, waiters, phases, i);
            phases := phases[i := Closing];
          }
        case Disconnect(i) =>
          if i < |waiters| && !phases[i].Closed? {
            contested := Contested(supervisor, waiters, phases, i, missed[i], disturbed);
            if !contested {
              var more := CloseFreely(supervisor, waiters, phases, i, missed[i], now);
              phases, missed := phases[i := Closed], missed[i := {}];
              disturbed := disturbed || more;
            }
          }
        case ProcessEvents =>
          Events(supervisor, waiters, phases, now);
        case ScheduleBackground(_, _, _) =>
          held := BackgroundStep(supervisor, waiters, phases, step, held, now);
        case ReleaseBackground(_, _) =>
          held := BackgroundStep(supervisor, waiters, phases, step, held, now);
        case TakeCompletion(_, _, _, _, _) =>
          var told;
          told, missed := Tell(supervisor, waiters, phases, missed, step);
          if told.Some? {
            held := SupervisorMoves.MarkersElsewhere(held, told.value);
          }
        case BeginShutdown =>
          End(supervisor, waiters, phases, now);
      }
      k := k + 1;
    }
    if !disturbed {
      forall m
        ensures m in supervisor.markers <==> m in held || Wanted(m, waiters)
      {
        Accounted(supervisor, waiters, phases, m);
      }
    }
  }
}
