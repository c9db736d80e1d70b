/** Concrete runs in which the interests a waiter believes in and those the supervisor counts come apart.
 */
module Mishaps {
  import opened Basics
  import opened Endpoint
  import opened WaiterSlots
  import opened Waiter
  import SupervisorState
  import SupervisorMoves
  import S = SupervisorSteps
  import Supervisor

  /** A world in which nothing is known of any entry. */
  const UNKNOWN: World := World(None, 0, (_: EntryId) => A, (_: EntryId) => Empty)

  /** Only what was asked for and taken up leaves an interest. */
  lemma TakenUp(before: seq<Slot>, after: seq<Slot>, e: EntryId, answer: S.ScheduleStatus)
    requires |before| == |after| && Tracked(after) <= {e} && forall i :: 0 <= i < |before| ==> !before[i].interest
    requires forall i :: 0 <= i < |after| ==> after[i] == Scheduled(before[i], {e}, _ => answer)
    ensures Interested(after) <= {e}
    ensures e in Interested(after) ==> DueAt(before, e) && (answer.Started? || answer.Shared?)
  {
    SlotsAt(after, e);
    if e in Interested(after) {
      var i :| 0 <= i < |after| && after[i].entry == Some(e) && after[i].interest;
      assert before[i].entry == Some(e) && Due(before[i]);
    }
  }

  lemma OnlyOne(e: EntryId)
    ensures Named([Requirement(e, true)]) == {e}
  {
  }

  lemma Untouched(slots: seq<Slot>)
    requires slots == [FREE, FREE, FREE]
    ensures Tracked(slots) == {}
  {
  }

  /** A new waiter starts to track one entry and has it looked up. */
  method Want(waiter: RouteWaiter, e: EntryId, supervisor: Supervisor.ResolverSupervisor, now: Time)
      returns (asked: bool)
    requires waiter.Steady() && waiter.Linked(supervisor) && waiter.status == Waiting
    requires waiter.slots == [FREE, FREE, FREE]
    modifies waiter, supervisor
    ensures waiter.Coherent() && waiter.Linked(supervisor) && waiter.lost == {}
    ensures asked <==> e in Interested(waiter.slots)
    ensures asked ==> waiter.marks == Interested(waiter.slots) == {e} && supervisor.lastNow == now
    ensures Foreign(supervisor.markers, waiter.holder) == Foreign(old(supervisor.markers), waiter.holder)
    ensures supervisor.shuttingDown == old(supervisor.shuttingDown)
  {
    hide Tracked, Interested, SlotsOk, Mine, Foreign, SupervisorState.Inv, Scheduled, DueAt;
    OnlyOne(e);
    Untouched(waiter.slots);
    var _ := waiter.AddMissing([Requirement(e, true)], _ => true);
    ghost var before := waiter.slots;
    ghost var answer;
    var fatal, again;
    fatal, again, answer := waiter.ScheduleOne(e, UNKNOWN, supervisor, now);
    TakenUp(before, waiter.slots, e, answer);
    asked := e in Interested(waiter.slots);
  }

  /** A waiter asks at one time and is destroyed at an earlier one. Its slots are free, but the supervisor refuses to
      take the interest back and goes on counting it. */
  method RefusedDestroy(holder: nat, e: EntryId, early: Time, late: Time)
      returns (supervisor: Supervisor.ResolverSupervisor, waiter: RouteWaiter, asked: bool, r: Option<Reason>)
    requires early < late < S.TIME_LIMIT
    ensures waiter.slots == [FREE, FREE, FREE] && waiter.holder == holder
    ensures asked ==> r == Some(TimeReason) && InterestIn(holder, e) in supervisor.markers
  {
    hide Tracked, Interested, SlotsOk, Mine, Foreign, Rivals, SupervisorState.Inv, SupervisorState.WorkConserving;
    supervisor := new Supervisor.ResolverSupervisor(1, 1, 0, early);
    waiter := new RouteWaiter(holder, late);
    Nowhere(holder);
    asked := Want(waiter, e, supervisor, late);
    ghost var robbed;
    r, robbed := waiter.Destroy(supervisor, early);
    MarkOf(supervisor.markers, holder, e);
  }

  /** The only interest there is. */
  lemma Alone(markers: set<SupervisorState.Marker>, holder: nat, e: EntryId)
    requires Foreign(markers, holder) == {} && Mine(markers, holder) == {e}
    ensures markers == {InterestIn(holder, e)} && SupervisorMoves.MarkersElsewhere(markers, e) == {}
    ensures Rivals(markers, e) == {InterestIn(holder, e)} && forall x: nat :: x != holder ==> Mine(markers, x) == {}
  {
    MarkOf(markers, holder, e);
    forall m | m in markers
      ensures m == InterestIn(holder, e)
    {
      assert m !in Foreign(markers, holder);
      MarkOf(markers, holder, m.entry);
    }
  }

  lemma Nowhere(holder: nat)
    ensures Mine({}, holder) == {} && Foreign({}, holder) == {}
  {
  }

  lemma InterestedFind(slots: seq<Slot>, deadline: nat, e: EntryId)
    requires SlotsOk(slots, deadline) && e in Interested(slots)
    ensures Find(slots, Some(e)).Some? && Find(slots, Some(e)).value < REQUIREMENTS
    ensures slots[Find(slots, Some(e)).value].interest
  {
    SlotsAt(slots, e);
    Whole(slots, deadline);
  }

  /** A waiter that was not told of a completion gives the interest in its entry up. */
  method GivenUp(waiter: RouteWaiter, e: EntryId, supervisor: Supervisor.ResolverSupervisor, now: Time)
    requires waiter.Coherent() && e in Interested(waiter.slots) && e in waiter.lost && waiter.Linked(supervisor)
    requires waiter.holder == 0 && supervisor.markers == {InterestIn(1, e)} && Usable(supervisor, now)
    modifies waiter, supervisor
    ensures old(S.Unfinished(supervisor.View(), e)) ==> InterestIn(1, e) !in supervisor.markers
  {
    hide Tracked, Interested, SlotsOk, SupervisorState.Inv, S.Unfinished, Mine;
    InterestedFind(waiter.slots, waiter.deadline, e);
    var k := Find(waiter.slots, Some(e)).value;
    ghost var robbed;
    var r;
    r, robbed := waiter.SlotClear(k, supervisor, now);
    assert InterestIn(1, e) in Rivals({InterestIn(1, e)}, e);
    assert old(S.Unfinished(supervisor.View(), e)) ==> robbed == Some(InterestIn(1, e));
    assert InterestIn(1, e) in supervisor.markers ==> InterestIn(1, e) in Foreign(supervisor.markers, 0);
  }

  /** A connection is closing when the completion of the entry it waits for is taken, so it is not told. */
  method Overlooked(e: EntryId, start: Time, later: Time)
      returns (supervisor: Supervisor.ResolverSupervisor, waiter: RouteWaiter, overlooked: bool)
    requires start <= later < S.TIME_LIMIT
    ensures fresh(supervisor) && fresh(waiter)
    ensures overlooked ==>
              && waiter.Coherent() && waiter.holder == 0 && waiter.marks == {}
              && e in Interested(waiter.slots) && e in waiter.lost
              && supervisor.Valid() && supervisor.markers == {} && Usable(supervisor, later)
  {
    hide Tracked, Interested, SlotsOk, Mine, Foreign, Rivals, SupervisorState.Inv, SupervisorState.WorkConserving,
         SupervisorMoves.MarkersElsewhere;
    supervisor := new Supervisor.ResolverSupervisor(1, 1, 0, start);
    waiter := new RouteWaiter(0, later);
    Nowhere(0);
    overlooked := Want(waiter, e, supervisor, start);
    if !overlooked {
      return;
    }
    Alone(supervisor.markers, 0, e);
    var status := supervisor.EventsProcess(later);
    var completion := supervisor.CompletionTake();
    overlooked := !status.EventTime? && completion.Some? && completion.value.0.id == e;
    if overlooked {
      waiter.Miss(e);
    }
  }

  /** Two connections want the same entry, one after the other. The first one was not told of its completion; the second
      one has the entry looked up again. Giving up what the first one still believes in takes the second one's interest
      away: it goes on waiting for a lookup nobody wants any more. */
  method StolenInterest(e: EntryId, start: Time, later: Time)
      returns (supervisor: Supervisor.ResolverSupervisor, second: RouteWaiter, wanted: bool, ghost unfinished: bool)
    requires start <= later < S.TIME_LIMIT
    ensures wanted && unfinished ==>
              && e in Interested(second.slots) && second.holder == 1
              && InterestIn(1, e) !in supervisor.markers
  {
    hide Tracked, Interested, SlotsOk, Mine, Foreign, Rivals, SupervisorState.Inv, SupervisorState.WorkConserving,
         S.Unfinished;
    var first;
    supervisor, first, wanted := Overlooked(e, start, later);
    second := new RouteWaiter(1, later);
    unfinished := false;
    if !wanted {
      return;
    }
    Nowhere(1);
    wanted := Want(second, e, supervisor, later);
    if !wanted {
      return;
    }
    Alone(supervisor.markers, 1, e);
    unfinished := S.Unfinished(supervisor.View(), e);
    GivenUp(first, e, supervisor, later);
  }
}
