/** A connection waiting for its route: it tracks the few cache entries the choice of an address depends on,
    has those looked up by the resolver supervisor that nothing is known of, and ends with a snapshot or a reason.
 */
module Waiter {
  import opened Basics
  import opened Endpoint
  import opened WaiterSlots
  import SupervisorState
  import SupervisorMoves
  import S = SupervisorSteps
  import Supervisor

  type Time = SupervisorState.Time
  const Interactive := SupervisorState.Interactive

  // ---------------------------------------------------------------- the supervisor's books

  function InterestIn(holder: nat, e: EntryId): (r: SupervisorState.Marker) {
    SupervisorState.Marker(holder, e, Interactive)
  }

  /** What the supervisor counts for one waiting holder, and all else it counts. */
  function Mine(markers: set<SupervisorState.Marker>, holder: nat): (r: set<EntryId>) {
    set m | m in markers && m == InterestIn(holder, m.entry) :: m.entry
  }

  function Foreign(markers: set<SupervisorState.Marker>, holder: nat): (r: set<SupervisorState.Marker>) {
    set m | m in markers && m != InterestIn(holder, m.entry)
  }

  lemma MarkOf(markers: set<SupervisorState.Marker>, holder: nat, e: EntryId)
    ensures e in Mine(markers, holder) <==> InterestIn(holder, e) in markers
  {
    if InterestIn(holder, e) in markers {
      assert InterestIn(holder, e).entry == e;
    }
  }

  lemma MarkAdded(markers: set<SupervisorState.Marker>, holder: nat, e: EntryId)
    ensures Mine(markers + {InterestIn(holder, e)}, holder) == Mine(markers, holder) + {e}
    ensures Foreign(markers + {InterestIn(holder, e)}, holder) == Foreign(markers, holder)
  {
    forall x
      ensures x in Mine(markers + {InterestIn(holder, e)}, holder) <==> x in Mine(markers, holder) || x == e
    {
      MarkOf(markers, holder, x);
      MarkOf(markers + {InterestIn(holder, e)}, holder, x);
    }
  }

  lemma MarkDropped(markers: set<SupervisorState.Marker>, holder: nat, e: EntryId)
    ensures Mine(markers - {InterestIn(holder, e)}, holder) == Mine(markers, holder) - {e}
    ensures Foreign(markers - {InterestIn(holder, e)}, holder) == Foreign(markers, holder)
  {
    forall x
      ensures x in Mine(markers - {InterestIn(holder, e)}, holder) <==> x in Mine(markers, holder) && x != e
    {
      MarkOf(markers, holder, x);
      MarkOf(markers - {InterestIn(holder, e)}, holder, x);
    }
  }

  lemma MarksTaken(markers: set<SupervisorState.Marker>, holder: nat, e: EntryId)
    ensures Mine(SupervisorMoves.MarkersElsewhere(markers, e), holder) == Mine(markers, holder) - {e}
    ensures Foreign(SupervisorMoves.MarkersElsewhere(markers, e), holder)
            == SupervisorMoves.MarkersElsewhere(Foreign(markers, holder), e)
  {
    forall x
      ensures x in Mine(SupervisorMoves.MarkersElsewhere(markers, e), holder) <==> x in Mine(markers, holder) && x != e
    {
      MarkOf(markers, holder, x);
      MarkOf(SupervisorMoves.MarkersElsewhere(markers, e), holder, x);
    }
  }

  /** All interactive interest in one entry. */
  function Rivals(markers: set<SupervisorState.Marker>, e: EntryId): (r: set<SupervisorState.Marker>) {
    set m | m in markers && m.entry == e && m.priority == Interactive
  }

  lemma RivalsAre(markers: set<SupervisorState.Marker>, e: EntryId)
    ensures Rivals(markers, e) == SupervisorState.MarkersFor(markers, e, Interactive)
  {
  }

  lemma RivalRobbed(markers: set<SupervisorState.Marker>, holder: nat, e: EntryId, m: SupervisorState.Marker)
    requires InterestIn(holder, e) !in markers && m in Rivals(markers, e)
    ensures Mine(markers - {m}, holder) == Mine(markers, holder)
    ensures Foreign(markers - {m}, holder) == Foreign(markers, holder) - {m} && m in Foreign(markers, holder)
  {
    forall x
      ensures x in Mine(markers - {m}, holder) <==> x in Mine(markers, holder)
    {
      MarkOf(markers, holder, x);
      MarkOf(markers - {m}, holder, x);
    }
  }

  lemma RivalHere(markers: set<SupervisorState.Marker>, m: SupervisorState.Marker)
    ensures m in markers && m.priority == Interactive ==> m in Rivals(markers, m.entry)
  {
  }

  lemma RivalsShrink(all: set<SupervisorState.Marker>, some: set<SupervisorState.Marker>, e: EntryId,
      m: SupervisorState.Marker)
    requires some <= all && m in Rivals(some, e)
    ensures m in Rivals(all, e) && m.entry == e
  {
  }

  /** A supervisor serves requests until it is shut down, as long as time does not run backwards. */
  ghost predicate Usable(supervisor: Supervisor.ResolverSupervisor, now: Time)
    reads supervisor
  {
    !supervisor.shuttingDown && now < S.TIME_LIMIT && supervisor.lastNow <= now
  }

  ghost function RefusalOf(supervisor: Supervisor.ResolverSupervisor): (r: Reason)
    reads supervisor
  {
    if supervisor.shuttingDown then BadArgumentReason else TimeReason
  }

  // ---------------------------------------------------------------- the waiter

  class RouteWaiter {
    const holder: nat
    const deadline: nat
    var slots: seq<Slot>
    var status: Status
    var snapshot: Option<Snapshot>
    var taken: bool
    /** The interests the supervisor counts for this waiter, those among them the waiter gave up without the
        supervisor taking them back, those the waiter believes in though they are not counted any more, and the
        entries it holds a reference to. */
    ghost var marks: set<EntryId>
    ghost var stray: set<EntryId>
    ghost var lost: set<EntryId>
    ghost var retained: set<EntryId>
    /** How many snapshots were handed out. */
    ghost var handed: nat

    ghost predicate Coherent()
      reads this
    {
      && SlotsOk(slots, deadline) && retained == Tracked(slots)
      && marks == (Interested(slots) - lost) + stray && Interested(slots) !! stray && lost <= Interested(slots)
      && handed == (if taken then 1 else 0) && (taken ==> status.Ready?)
      && (status.Ready? && !taken ==> snapshot.Some?)
    }

    /** A waiter that was told of every completion is counted for all it believes in. */
    ghost predicate Valid()
      reads this
    {
      Coherent() && lost == {}
    }

    /** Between operations a waiter that waits is counted for exactly what it wants, and one that is done wants
        nothing any more. */
    ghost predicate Steady()
      reads this
    {
      Valid() && (status == Waiting ==> stray == {})
        && (status != Waiting ==> Interested(slots) == {} && marks == stray)
    }

    /** The supervisor's books and the waiter's agree on what is counted for this waiter. */
    ghost predicate Linked(supervisor: Supervisor.ResolverSupervisor)
      reads this, supervisor
    {
      supervisor.Valid() && Mine(supervisor.markers, holder) == marks
    }

    /** Waiter and supervisor after the waiter called the supervisor: the books agree, and the supervisor can be used
        exactly if it could. */
    twostate predicate Onward(supervisor: Supervisor.ResolverSupervisor, now: Time)
      reads this, supervisor
    {
      && Coherent() && Linked(supervisor)
      && Usable(supervisor, now) == old(Usable(supervisor, now))
      && supervisor.shuttingDown == old(supervisor.shuttingDown)
    }

    /** The same for a waiter that was told of everything: nobody else's interest was touched. */
    twostate predicate Continued(supervisor: Supervisor.ResolverSupervisor, now: Time)
      reads this, supervisor
    {
      && Onward(supervisor, now) && lost == {}
      && Foreign(supervisor.markers, holder) == Foreign(old(supervisor.markers), holder)
    }

    constructor (holder: nat, deadline: nat)
      ensures Steady() && this.holder == holder && this.deadline == deadline
      ensures status == Waiting && slots == [FREE, FREE, FREE] && snapshot.None? && !taken
      ensures marks == {} && stray == {} && lost == {} && retained == {} && handed == 0 && fresh(this)
    {
      this.holder := holder;
      this.deadline := deadline;
      slots, status, snapshot, taken := [FREE, FREE, FREE], Waiting, None, false;
      marks, stray, lost, retained, handed := {}, {}, {}, {}, 0;
      new;
      assert Tracked(slots) == {} && Interested(slots) == {};
    }

    /** Asks the supervisor to take an interest back. */
    method GiveUp(e: EntryId, supervisor: Supervisor.ResolverSupervisor, now: Time)
        returns (r: Option<Reason>, ghost robbed: Option<SupervisorState.Marker>)
      requires Linked(supervisor)
      modifies supervisor
      ensures supervisor.Valid() && supervisor.markers <= old(supervisor.markers)
      ensures Usable(supervisor, now) == old(Usable(supervisor, now))
              && supervisor.shuttingDown == old(supervisor.shuttingDown)
      ensures Mine(supervisor.markers, holder) == if Usable(supervisor, now) then marks - {e} else marks
      ensures Usable(supervisor, now) ==>
                r in {None, Some(IoReason)} || (r == Some(BadArgumentReason) && e !in marks)
      ensures !Usable(supervisor, now) ==> r == Some(RefusalOf(supervisor))
      ensures robbed.Some? <==>
                && e !in marks && Usable(supervisor, now)
                && old(S.Unfinished(supervisor.View(), e)) && Rivals(old(supervisor.markers), e) != {}
      ensures robbed.Some? ==> robbed.value in Rivals(old(supervisor.markers), e)
      ensures Foreign(supervisor.markers, holder)
              == Foreign(old(supervisor.markers), holder) - (if robbed.Some? then {robbed.value} else {})
    {
      hide Mine, Foreign, Rivals, SupervisorState.Inv, SupervisorState.WorkConserving, S.Unfinished,
           SupervisorState.MarkersFor;
      ghost var m, before := InterestIn(holder, e), supervisor.markers;
      MarkOf(before, holder, e);
      MarkDropped(before, holder, e);
      RivalsAre(before, e);
      RivalHere(before, m);
      var answer;
      ghost var gone;
      answer, gone := supervisor.Release(e, Interactive, now, m);
      r := ReleaseReason(answer);
      robbed := None;
      if e !in marks {
        robbed := gone;
        if robbed.Some? {
          RivalRobbed(before, holder, e, robbed.value);
        }
      }
    }

    /** Gives up the interest in one entry. The waiter forgets it whatever the supervisor answers; an interest the
        supervisor would not take back stays counted. One that was not counted any more is another's loss, if that
        other one waits for an unfinished lookup of the same entry. */
    method InterestRelease(k: nat, supervisor: Supervisor.ResolverSupervisor, now: Time)
        returns (r: Option<Reason>, ghost robbed: Option<SupervisorState.Marker>)
      requires Coherent() && k < REQUIREMENTS && Linked(supervisor)
      modifies this`slots, this`marks, this`stray, this`lost, supervisor
      ensures Onward(supervisor, now) && slots == old(slots)[k := old(slots)[k].(interest := false)]
      ensures !old(slots)[k].interest ==> r.None? && stray == old(stray) && marks == old(marks) && lost == old(lost)
      ensures old(slots)[k].interest ==> old(slots)[k].entry.Some? && lost == old(lost) - {old(slots)[k].entry.value}
      ensures old(slots)[k].interest && Usable(supervisor, now) ==> stray == old(stray)
      ensures old(slots)[k].interest && Usable(supervisor, now) ==>
                r in {None, Some(IoReason)} || (r == Some(BadArgumentReason) && old(slots)[k].entry.value in old(lost))
      ensures old(slots)[k].interest && !Usable(supervisor, now) ==>
              r == Some(RefusalOf(supervisor)) && marks == old(marks)
      ensures robbed.Some? <==>
                && old(slots)[k].interest && old(slots)[k].entry.value in old(lost) && Usable(supervisor, now)
                && old(S.Unfinished(supervisor.View(), slots[k].entry.value))
                && Rivals(old(supervisor.markers), old(slots)[k].entry.value) != {}
      ensures robbed.Some? ==> robbed.value in Rivals(old(supervisor.markers), old(slots)[k].entry.value)
      ensures supervisor.markers <= old(supervisor.markers)
      ensures Foreign(supervisor.markers, holder)
              == Foreign(old(supervisor.markers), holder) - (if robbed.Some? then {robbed.value} else {})
    {
      hide Tracked, Interested, SlotsOk, Mine, Foreign, Rivals, SupervisorState.Inv, S.Unfinished;
      Whole(slots, deadline);
      robbed := None;
      if !slots[k].interest {
        assert slots[k].(interest := false) == slots[k];
        assert slots[k := slots[k]] == slots;
        return None, None;
      }
      var e := slots[k].entry.value;
      MarkedSlot(slots, deadline, k);
      SlotChanged(slots, deadline, k, slots[k].(interest := false));
      r, robbed := GiveUp(e, supervisor, now);
      slots := slots[k := slots[k].(interest := false)];
      if e in lost {
        lost := lost - {e};
      } else if Usable(supervisor, now) {
        marks := marks - {e};
      } else {
        stray := stray + {e};
      }
    }

    /** Stops tracking one entry. */
    method SlotClear(k: nat, supervisor: Supervisor.ResolverSupervisor, now: Time)
        returns (r: Option<Reason>, ghost robbed: Option<SupervisorState.Marker>)
      requires Coherent() && k < REQUIREMENTS && slots[k].entry.Some? && Linked(supervisor)
      modifies this`slots, this`marks, this`stray, this`lost, this`retained, supervisor
      ensures Onward(supervisor, now)
      ensures slots == old(slots)[k := FREE] && retained == old(retained) - {old(slots)[k].entry.value}
      ensures lost == old(lost) - {old(slots)[k].entry.value}
      ensures !old(slots)[k].interest ==> r.None? && stray == old(stray) && marks == old(marks)
      ensures old(slots)[k].interest && Usable(supervisor, now) ==> stray == old(stray)
      ensures old(slots)[k].interest && Usable(supervisor, now) ==>
                r in {None, Some(IoReason)} || (r == Some(BadArgumentReason) && old(slots)[k].entry.value in old(lost))
      ensures old(slots)[k].interest && !Usable(supervisor, now) ==>
              r == Some(RefusalOf(supervisor)) && marks == old(marks)
      ensures robbed.Some? <==>
                && old(slots)[k].interest && old(slots)[k].entry.value in old(lost) && Usable(supervisor, now)
                && old(S.Unfinished(supervisor.View(), slots[k].entry.value))
                && Rivals(old(supervisor.markers), old(slots)[k].entry.value) != {}
      ensures robbed.Some? ==> robbed.value in Rivals(old(supervisor.markers), old(slots)[k].entry.value)
      ensures supervisor.markers <= old(supervisor.markers)
      ensures Foreign(supervisor.markers, holder)
              == Foreign(old(supervisor.markers), holder) - (if robbed.Some? then {robbed.value} else {})
    {
      hide Tracked, Interested, SlotsOk, Mine, Foreign, Rivals, SupervisorState.Inv, S.Unfinished;
      Whole(slots, deadline);
      ghost var e := slots[k].entry.value;
      if !slots[k].interest {
        Uninterested(slots, deadline, k);
      }
      r, robbed := InterestRelease(k, supervisor, now);
      Uninterested(slots, deadline, k);
      SlotFreed(slots, deadline, k);
      assert slots[k := FREE] == old(slots)[k := FREE];
      slots := slots[k := FREE];
      retained := retained - {e};
    }

    /** A completion this waiter is not told of, because its connection is already closing. */
    ghost method Miss(e: EntryId)
      requires Coherent()
      modifies this`marks, this`stray, this`lost
      ensures Coherent() && marks == old(marks) - {e} && stray == old(stray) - {e}
      ensures lost == if e in Interested(slots) then old(lost) + {e} else old(lost)
    {
      hide Interested, Tracked, SlotsOk;
      marks, stray := marks - {e}, stray - {e};
      lost := if e in Interested(slots) then lost + {e} else lost;
    }

    /** The same for a waiter that was told of everything. */
    method InterestDrop(k: nat, supervisor: Supervisor.ResolverSupervisor, now: Time) returns (r: Option<Reason>)
      requires Valid() && k < REQUIREMENTS && slots[k].interest && Linked(supervisor)
      modifies this`slots, this`marks, this`stray, this`lost, supervisor
      ensures Continued(supervisor, now) && slots == old(slots)[k := old(slots)[k].(interest := false)]
      ensures Usable(supervisor, now) ==> stray == old(stray) && r in {None, Some(IoReason)}
      ensures !Usable(supervisor, now) ==> marks == old(marks) && r == Some(RefusalOf(supervisor))
    {
      hide Tracked, Interested, SlotsOk, Mine, Foreign, Rivals, SupervisorState.Inv, S.Unfinished;
      Whole(slots, deadline);
      ghost var robbed;
      r, robbed := InterestRelease(k, supervisor, now);
    }

    /** A terminal waiter first gives up every interest; a release that fails becomes its reason. */
    method TerminalSet(wanted: Status, supervisor: Supervisor.ResolverSupervisor, now: Time)
      requires Valid() && wanted != Waiting && !taken && (wanted.Ready? ==> snapshot.Some?) && Linked(supervisor)
      modifies this`slots, this`marks, this`stray, this`lost, this`status, supervisor
      ensures Continued(supervisor, now) && Steady() && retained == old(retained)
      ensures marks == stray == if Usable(supervisor, now) then old(stray) else old(marks)
      ensures |slots| == |old(slots)| && forall i :: 0 <= i < |slots| ==> slots[i] == old(slots)[i].(interest := false)
      ensures Usable(supervisor, now) ==> status in {wanted, Failed(IoReason)}
      ensures !Usable(supervisor, now) ==>
              status == if Interested(old(slots)) == {} then wanted else Failed(RefusalOf(supervisor))
    {
      hide Tracked, Interested, SlotsOk, Mine, Foreign, SupervisorState.Inv;
      Whole(slots, deadline);
      var r: Option<Reason>, k := None, 0;
      ghost var before := slots;
      while k < REQUIREMENTS
        invariant 0 <= k <= REQUIREMENTS && Valid() && |slots| == |before| == REQUIREMENTS && retained == old(retained)
        invariant Continued(supervisor, now)
        invariant forall i :: 0 <= i < |slots| ==>
                  slots[i] == if i < k then before[i].(interest := false) else before[i]
        invariant Usable(supervisor, now) ==> stray == old(stray) && r in {None, Some(IoReason)}
        invariant !Usable(supervisor, now) ==> marks == old(marks)
        invariant !Usable(supervisor, now) ==>
                  r == if forall i :: 0 <= i < k ==> !before[i].interest then None else Some(RefusalOf(supervisor))
      {
        if slots[k].interest {
          var one := InterestDrop(k, supervisor, now);
          r := FirstReason(r, one);
        } else {
          assert before[k].(interest := false) == before[k];
        }
        k := k + 1;
      }
      NobodyInterested(slots);
      SomebodyInterested(before, deadline);
      status := if r.Some? then Failed(r.value) else wanted;
    }

    /** Which slots a list of requirements still needs. */
    method Needed(reqs: seq<Requirement>) returns (needed: seq<bool>)
      requires Valid()
      ensures |needed| == REQUIREMENTS
              && forall k :: 0 <= k < REQUIREMENTS ==>
                 needed[k] == (slots[k].entry.Some? && slots[k].entry.value in Named(reqs))
    {
      hide Tracked, Interested, SlotsOk, Named;
      Whole(slots, deadline);
      needed := [false, false, false];
      var i := 0;
      while i < |reqs|
        invariant 0 <= i <= |reqs| && |needed| == REQUIREMENTS
        invariant forall k :: 0 <= k < REQUIREMENTS ==>
                  needed[k] == (slots[k].entry.Some? && exists j :: 0 <= j < i && reqs[j].entry == slots[k].entry.value)
      {
        var k := Find(slots, Some(reqs[i].entry));
        if k.Some? {
          needed := needed[k.value := true];
        }
        i := i + 1;
      }
      forall k | 0 <= k < REQUIREMENTS && slots[k].entry.Some?
        ensures slots[k].entry.value in Named(reqs) <==>
                exists j :: 0 <= j < |reqs| && reqs[j].entry == slots[k].entry.value
      {
        NamedAt(reqs, slots[k].entry.value);
      }
    }

    /** Stops tracking what is not needed any more. */
    method ClearUnneeded(reqs: seq<Requirement>, supervisor: Supervisor.ResolverSupervisor, now: Time)
        returns (r: Option<Reason>)
      requires Valid() && Linked(supervisor)
      modifies this`slots, this`marks, this`stray, this`lost, this`retained, supervisor
      ensures Continued(supervisor, now) && (r.None? || Usable(supervisor, now) ==> stray == old(stray))
      ensures Usable(supervisor, now) ==> r in {None, Some(IoReason)}
      ensures |old(slots)| == |slots| == REQUIREMENTS
      ensures forall i :: 0 <= i < REQUIREMENTS ==>
                slots[i] == if old(slots)[i].entry.Some? && old(slots)[i].entry.value !in Named(reqs) then FREE
                            else old(slots)[i]
    {
      hide Tracked, Interested, SlotsOk, Named, Mine, Foreign, SupervisorState.Inv;
      Whole(slots, deadline);
      var needed := Needed(reqs);
      ghost var before := slots;
      r := None;
      var k := 0;
      while k < REQUIREMENTS
        invariant 0 <= k <= REQUIREMENTS && Continued(supervisor, now) && |slots| == REQUIREMENTS
        invariant r.None? || Usable(supervisor, now) ==> stray == old(stray)
        invariant Usable(supervisor, now) ==> r in {None, Some(IoReason)}
        invariant forall i :: 0 <= i < REQUIREMENTS ==>
                    slots[i] == if i < k && before[i].entry.Some? && before[i].entry.value !in Named(reqs) then FREE
                                else before[i]
      {
        if slots[k].entry.Some? && !needed[k] {
          var one, _ := SlotClear(k, supervisor, now);
          r := FirstReason(r, one);
        }
        k := k + 1;
      }
    }

    /** Starts tracking what is needed and not tracked yet. There is always a free slot for it, so this only
        fails when an entry has as many references as can be counted. */
    method AddMissing(reqs: seq<Requirement>, retain: EntryId -> bool) returns (ok: bool)
      requires Valid() && |reqs| <= REQUIREMENTS && Tracked(slots) <= Named(reqs)
      modifies this`slots, this`retained
      ensures Valid() && |slots| == |old(slots)| == REQUIREMENTS
      ensures forall i :: 0 <= i < REQUIREMENTS ==>
                slots[i] == old(slots)[i]
                  || (old(slots)[i].entry.None? && slots[i].entry.Some? && slots[i] == FREE.(entry := slots[i].entry)
                     && slots[i].entry.value !in Tracked(old(slots)))
      ensures ok ==> Tracked(slots) == Named(reqs)
      ensures !ok ==> exists e :: e in Named(reqs) && !retain(e)
    {
      hide Tracked, Interested, SlotsOk, Named;
      Whole(slots, deadline);
      ghost var before := slots;
      var i := 0;
      while i < |reqs|
        invariant 0 <= i <= |reqs| && Valid() && |slots| == REQUIREMENTS
                  && Tracked(before) <= Tracked(slots) <= Named(reqs)
        invariant forall j :: 0 <= j < i ==> reqs[j].entry in Tracked(slots)
        invariant forall k :: 0 <= k < REQUIREMENTS ==>
                    slots[k] == before[k]
                      || (before[k].entry.None? && slots[k].entry.Some? && slots[k] == FREE.(entry := slots[k].entry)
                         && slots[k].entry.value !in Tracked(before))
      {
        var e := reqs[i].entry;
        NamedAt(reqs, e);
        TrackedFind(slots, e);
        if Find(slots, Some(e)).None? {
          RoomLeft(slots, deadline, reqs, e);
          var k := Find(slots, None);
          if k.None? || !retain(e) {
            return false;
          }
          SlotUsed(slots, deadline, k.value, e);
          slots := slots[k.value := FREE.(entry := Some(e))];
          retained := retained + {e};
        }
        i := i + 1;
      }
      AllNamed(reqs, slots);
      ok := true;
    }

    /** Makes the tracked entries those the evaluation named. What stays tracked keeps all it knows. */
    method Reconcile(reqs: seq<Requirement>, retain: EntryId -> bool, supervisor: Supervisor.ResolverSupervisor,
        now: Time) returns (r: Option<Reason>)
      requires Valid() && |reqs| <= REQUIREMENTS && Linked(supervisor)
      modifies this`slots, this`marks, this`stray, this`lost, this`retained, supervisor
      ensures Continued(supervisor, now) && (r.None? || Usable(supervisor, now) ==> stray == old(stray))
      ensures r.None? ==> Tracked(slots) == Named(reqs) && Kept(old(slots), slots, Named(reqs))
    {
      hide Tracked, Interested, SlotsOk, Named, Mine, Foreign, SupervisorState.Inv;
      Whole(slots, deadline);
      ghost var before := slots;
      r := ClearUnneeded(reqs, supervisor, now);
      if r.Some? {
        return;
      }
      ghost var cleared := slots;
      ClearedTracks(before, cleared, reqs);
      var ok := AddMissing(reqs, retain);
      if !ok {
        return Some(LimitReason);
      }
      KeptSlots(before, cleared, slots, reqs);
    }

    /** Asks the supervisor for a lookup. */
    method Ask(e: EntryId, w: World, supervisor: Supervisor.ResolverSupervisor, now: Time)
        returns (status: S.ScheduleStatus)
      requires Linked(supervisor) && e !in marks
      modifies supervisor
      ensures supervisor.Valid() && Foreign(supervisor.markers, holder) == Foreign(old(supervisor.markers), holder)
      ensures Mine(supervisor.markers, holder) == if status.Started? || status.Shared? || status.ScheduleIo?
                                                    then marks + {e} else marks
      ensures Usable(supervisor, now) == old(Usable(supervisor, now))
              && supervisor.shuttingDown == old(supervisor.shuttingDown)
      ensures status.Fresh? ==> !w.cached(e).Empty?
      ensures !Usable(supervisor, now) <==> status.ScheduleBadArgument? || status.ScheduleTime?
      ensures status.Started? || status.Shared? ==> supervisor.lastNow == now
    {
      hide Mine, Foreign, SupervisorState.Inv, SupervisorState.WorkConserving;
      MarkOf(supervisor.markers, holder, e);
      MarkAdded(supervisor.markers, holder, e);
      var view := if w.cached(e).Empty? then S.CacheView.Empty else S.CacheView.FreshView;
      status := supervisor.Schedule(SupervisorState.Entry(e, w.kind(e)), view, now, InterestIn(holder, e), Interactive);
    }

    /** Has one pending entry looked up, unless that is under way or given up. When the supervisor takes the job but
        cannot go on, it counts an interest the waiter never learns of. */
    method ScheduleOne(e: EntryId, w: World, supervisor: Supervisor.ResolverSupervisor, now: Time)
      returns (fatal: Option<Reason>, again: bool, ghost answer: S.ScheduleStatus)
      requires Valid() && Linked(supervisor) && e in Tracked(slots) && stray == {}
      modifies this`slots, this`marks, this`stray, supervisor
      ensures Continued(supervisor, now) && |slots| == |old(slots)| && Tracked(slots) == Tracked(old(slots))
      ensures forall i :: 0 <= i < |slots| ==> slots[i] == Scheduled(old(slots)[i], {e}, _ => answer)
      ensures fatal == if DueAt(old(slots), e) then FatalReason(answer) else None
      ensures stray == if fatal == Some(IoReason) then {e} else {}
      ensures again <==> DueAt(old(slots), e) && Retries(answer)
      ensures answer.Fresh? ==> !w.cached(e).Empty?
      ensures DueAt(old(slots), e) && (answer.Started? || answer.Shared?) ==> supervisor.lastNow == now
    {
      hide Tracked, Interested, SlotsOk, Mine, Foreign, SupervisorState.Inv, Scheduled, DueAt, Due, Asked, Find;
      Whole(slots, deadline);
      TrackedFind(slots, e);
      var k := Find(slots, Some(e)).value;
      AskedSlots(slots, deadline, k, e, S.Started);
      if !Due(slots[k]) {
        return None, false, S.Started;
      }
      var status := Ask(e, w, supervisor, now);
      answer := status;
      again := Retries(status);
      fatal := FatalReason(status);
      AskedSlots(slots, deadline, k, e, status);
      if status.Started? || status.Shared? {
        marks := marks + {e};
      } else if status.ScheduleIo? {
        marks, stray := marks + {e}, {e};
      }
      slots := slots[k := Asked(slots[k], status)];
    }

    /** Has every pending entry looked up. */
    method ScheduleAll(reqs: seq<Requirement>, w: World, supervisor: Supervisor.ResolverSupervisor, now: Time)
      returns (fatal: Option<Reason>, again: bool, ghost schedule: EntryId -> S.ScheduleStatus)
      requires Valid() && Linked(supervisor) && stray == {} && Named(reqs) <= Tracked(slots) && Unrepeated(reqs)
      modifies this`slots, this`marks, this`stray, supervisor
      ensures Continued(supervisor, now) && |slots| == |old(slots)| && Tracked(slots) == Tracked(old(slots))
      ensures fatal != Some(IoReason) ==> stray == {}
      ensures fatal.None? ==>
              forall i :: 0 <= i < |slots| ==> slots[i] == Scheduled(old(slots)[i], PendingOf(reqs), schedule)
      ensures fatal.Some? ==> exists e :: e in PendingOf(reqs) && DueAt(old(slots), e)
      ensures fatal.None? ==> forall e :: e in PendingOf(reqs) && DueAt(old(slots), e) ==> !Fatal(schedule(e))
      ensures fatal.None? ==>
              (again <==> exists e :: e in PendingOf(reqs) && DueAt(old(slots), e) && Retries(schedule(e)))
      ensures fatal.None? ==> forall e :: schedule(e).Fresh? ==> !w.cached(e).Empty?
    {
      hide Tracked, Interested, SlotsOk, Named, PendingOf, Scheduled, DueAt, Mine, Foreign, SupervisorState.Inv;
      fatal, again, schedule := None, false, _ => S.Started;
      ghost var before := slots;
      NobodyScheduled(before, schedule);
      var i := 0;
      assert reqs[..0] == [];
      while i < |reqs|
        invariant 0 <= i <= |reqs| && Continued(supervisor, now) && |slots| == |before|
                  && Tracked(slots) == Tracked(before)
        invariant fatal.None? && stray == {}
        invariant forall k :: 0 <= k < |slots| ==> slots[k] == Scheduled(before[k], PendingOf(reqs[..i]), schedule)
        invariant forall e :: e in PendingOf(reqs[..i]) && DueAt(before, e) ==> !Fatal(schedule(e))
        invariant again <==> exists e :: e in PendingOf(reqs[..i]) && DueAt(before, e) && Retries(schedule(e))
        invariant forall e :: schedule(e).Fresh? ==> !w.cached(e).Empty?
      {
        var q := reqs[i];
        assert reqs[..i + 1] == reqs[..i] + [q];
        PendingLonger(reqs[..i], q);
        if q.pending {
          NamedAt(reqs, q.entry);
          ghost var between, earlier := slots, schedule;
          NotYetPending(reqs, i);
          StillDue(before, between, PendingOf(reqs[..i]), q.entry, schedule);
          var more;
          ghost var answer;
          fatal, more, answer := ScheduleOne(q.entry, w, supervisor, now);
          if fatal.Some? {
            PendingPart(reqs, i);
            return;
          }
          schedule := Amended(earlier, q.entry, answer);
          ScheduledTwice(before, between, slots, PendingOf(reqs[..i]), q.entry, earlier, answer);
          again := again || more;
        }
        i := i + 1;
      }
      assert reqs[..i] == reqs;
    }

    /** One evaluation, and what it asks for. */
    method Round(w: World, preferred: Family, now: Time, retain: EntryId -> bool,
        supervisor: Supervisor.ResolverSupervisor) returns (again: bool)
      requires Valid() && status == Waiting && stray == {} && Linked(supervisor)
      modifies this`slots, this`marks, this`stray, this`lost, this`retained, this`status, this`snapshot, supervisor
      ensures Continued(supervisor, now) && (again ==> stray == {})
      ensures Usable(supervisor, now) && status != Failed(IoReason) ==> stray == {}
      ensures again ==> Valid() && status == Waiting && Settled(w, preferred, Overlays(old(slots)), slots)
      ensures forall first :: Settled(w, preferred, first, old(slots)) ==> !again
      ensures !again ==> Steady() && (status == Waiting ==> now < deadline && Promised(w, slots))
      ensures status.Ready? ==> snapshot.Some? && Evaluate(w, Overlays(slots), preferred).0 == Selected(snapshot.value)
    {
      hide Tracked, Interested, SlotsOk, Named, Evaluate, Seen, Overlays, PendingOf, DueAt, Settled, Kept, Sound,
           Promised, Separate, Mine, Foreign, SupervisorState.Inv;
      ghost var before := slots;
      Whole(slots, deadline);
      var overlays := Overlays(slots);
      var (chosen, reqs) := Evaluate(w, overlays, preferred);
      EvaluateWaits(w, overlays, preferred);
      Few(w, overlays, reqs);
      snapshot := if chosen.Selected? then Some(chosen.snapshot) else None;
      if !chosen.Pending? {
        TerminalSet(StatusOf(chosen), supervisor, now);
        OverlaysSame(before, slots);
        return false;
      }
      var failed := Reconcile(reqs, retain, supervisor, now);
      if failed.Some? {
        TerminalSet(Failed(failed.value), supervisor, now);
        return false;
      }
      if now >= deadline {
        TerminalSet(Failed(TimeoutReason), supervisor, now);
        return false;
      }
      ghost var tracked := slots;
      Whole(slots, deadline);
      forall e | e in Named(reqs)
        ensures Seen(w, Overlays(tracked), e) == Seen(w, overlays, e)
      {
        KeptSeen(w, before, tracked, Named(reqs), e);
      }
      forall first, e | Settled(w, preferred, first, before) && e in PendingOf(reqs)
        ensures !DueAt(tracked, e)
      {
        NoneDue(w, preferred, first, before, tracked, e);
      }
      SoundSame(w, overlays, Overlays(tracked), reqs);
      var fatal;
      ghost var schedule;
      fatal, again, schedule := ScheduleAll(reqs, w, supervisor, now);
      if fatal.Some? {
        TerminalSet(Failed(fatal.value), supervisor, now);
        return false;
      }
      Whole(slots, deadline);
      if again {
        DueSlots(tracked, PendingOf(reqs), schedule);
        ScheduledSettles(w, preferred, tracked, deadline, schedule, slots, overlays);
      } else {
        ScheduledPromises(w, tracked, slots, reqs, schedule);
      }
    }

    /** Drives a waiter at one moment. A terminal waiter stays as it is; any other needs at most two
        evaluations, so the bound on the rounds is never reached. */
    method Progress(w: World, preferred: Family, now: Time, retain: EntryId -> bool,
        supervisor: Supervisor.ResolverSupervisor) returns (evaluations: nat)
      requires Steady() && Linked(supervisor)
      modifies this`slots, this`marks, this`stray, this`lost, this`retained, this`status, this`snapshot, supervisor
      ensures Continued(supervisor, now) && Steady() && evaluations <= 2
      ensures old(stray) == {} && Usable(supervisor, now) && status != Failed(IoReason) ==> stray == {}
      ensures old(status) != Waiting ==>
              evaluations == 0 && status == old(status) && slots == old(slots) && snapshot == old(snapshot)
      ensures status == Waiting ==> now < deadline && Promised(w, slots)
      ensures old(status) == Waiting && status.Ready? ==>
              snapshot.Some? && Evaluate(w, Overlays(slots), preferred).0 == Selected(snapshot.value)
    {
      hide Tracked, Interested, SlotsOk, Evaluate, Overlays, Settled, Promised, Mine, Foreign, SupervisorState.Inv;
      evaluations := 0;
      if status != Waiting {
        return;
      }
      ghost var first := Overlays(slots);
      while evaluations < ROUNDS
        invariant Continued(supervisor, now) && status == Waiting && stray == {} && evaluations <= 1
        invariant if evaluations == 0 then Overlays(slots) == first else Settled(w, preferred, first, slots)
        decreases ROUNDS - evaluations
      {
        var again := Round(w, preferred, now, retain, supervisor);
        evaluations := evaluations + 1;
        if !again {
          return;
        }
      }
      assert false;
    }

    /** A finished lookup, which the supervisor forgot every interest in when it handed it out. A transient answer for
        a tracked entry is kept only if it was completed in time. */
    method CompletionObserve(c: Completion, kind: QueryKind, memory: bool) returns (r: ObserveStatus)
      requires Valid()
      modifies this`slots, this`marks, this`stray
      ensures Valid() && (old(Steady()) ==> Steady())
      ensures !Sensible(c, kind) ==> r.ObserveBad? && slots == old(slots) && marks == old(marks) && stray == old(stray)
      ensures Sensible(c, kind) ==>
              marks == old(marks) - {c.entry} && stray == old(stray) - {c.entry}
                && Tracked(slots) == Tracked(old(slots))
      ensures Sensible(c, kind) ==> forall i :: 0 <= i < REQUIREMENTS ==>
                slots[i] == if old(slots)[i].entry == Some(c.entry)
                              then Slot(Some(c.entry), false, false, Learned(c, deadline, memory)) else old(slots)[i]
      ensures Sensible(c, kind) ==> r == if c.entry !in Tracked(old(slots)) then Ignored
                                         else if !Fleeting(c, deadline) then Observed
                                         else if Oversized(c) then ObserveBad
                                         else if !memory then ObserveMemory
                                         else Observed
    {
      hide Tracked, Interested, SlotsOk;
      Whole(slots, deadline);
      if !Sensible(c, kind) {
        return ObserveBad;
      }
      marks, stray := marks - {c.entry}, stray - {c.entry};
      TrackedFind(slots, c.entry);
      var k := Find(slots, Some(c.entry));
      if k.None? {
        UntrackedFree(slots, c.entry);
        return Ignored;
      }
      assert forall i :: 0 <= i < |slots| && i != k.value ==> slots[i].entry != Some(c.entry);
      var s := Slot(Some(c.entry), false, false, Learned(c, deadline, memory));
      SlotChanged(slots, deadline, k.value, s);
      slots := slots[k.value := s];
      r := if c.completedAt > deadline || !c.publication.TransientAnswer? || c.status != LOOKUP_OK then Observed
           else if Oversized(c) then ObserveBad
           else if !memory then ObserveMemory
           else Observed;
    }

    /** Hands the snapshot out, once. */
    method SnapshotTake() returns (result: Option<Snapshot>)
      requires Steady()
      modifies this`snapshot, this`taken, this`handed
      ensures Steady() && handed <= 1 && (result.Some? <==> old(status.Ready? && !taken))
              && (result.Some? ==> result == old(snapshot) && taken && handed == 1)
      ensures result.None? ==> handed == old(handed) && taken == old(taken)
    {
      if status != Ready || taken {
        return None;
      }
      result := snapshot;
      snapshot, taken, handed := None, true, handed + 1;
    }

    /** Gives back every interest and every reference. A waiter that was told of everything takes nothing from anybody;
        one that missed a completion may take away another's interest in the same entry. */
    method Destroy(supervisor: Supervisor.ResolverSupervisor, now: Time)
        returns (r: Option<Reason>, ghost robbed: set<SupervisorState.Marker>)
      requires Coherent() && Linked(supervisor)
      modifies this`slots, this`marks, this`stray, this`lost, this`retained, supervisor
      ensures Onward(supervisor, now) && slots == [FREE, FREE, FREE] && retained == {} && lost == {}
      ensures marks == stray == if Usable(supervisor, now) then old(stray) else old(marks)
      ensures Usable(supervisor, now) ==>
                r in {None, Some(IoReason)} || (r == Some(BadArgumentReason) && old(lost) != {})
      ensures !Usable(supervisor, now) ==>
              r == if Interested(old(slots)) == {} then None else Some(RefusalOf(supervisor))
      ensures Foreign(supervisor.markers, holder) == Foreign(old(supervisor.markers), holder) - robbed
      ensures forall m :: m in robbed ==> m.entry in old(lost) && m in Rivals(old(supervisor.markers), m.entry)
    {
      hide Tracked, Interested, SlotsOk, Mine, Foreign, Rivals, SupervisorState.Inv, S.Unfinished;
      Whole(slots, deadline);
      r, robbed := None, {};
      ghost var before := slots;
      var k := 0;
      while k < REQUIREMENTS
        invariant 0 <= k <= REQUIREMENTS && Onward(supervisor, now) && |slots| == REQUIREMENTS && lost <= old(lost)
        invariant supervisor.markers <= old(supervisor.markers)
        invariant Foreign(supervisor.markers, holder) == Foreign(old(supervisor.markers), holder) - robbed
        invariant forall m :: m in robbed ==> m.entry in old(lost) && m in Rivals(old(supervisor.markers), m.entry)
        invariant forall i :: 0 <= i < REQUIREMENTS ==> slots[i] == if i < k then FREE else before[i]
        invariant Usable(supervisor, now) ==>
                    && stray == old(stray)
                    && (r in {None, Some(IoReason)} || (r == Some(BadArgumentReason) && old(lost) != {}))
        invariant !Usable(supervisor, now) ==> marks == old(marks)
        invariant !Usable(supervisor, now) ==>
                  r == if forall i :: 0 <= i < k ==> !before[i].interest then None else Some(RefusalOf(supervisor))
      {
        if slots[k].entry.Some? {
          ghost var between := supervisor.markers;
          ghost var victim;
          var one;
          one, victim := SlotClear(k, supervisor, now);
          r := FirstReason(r, one);
          if victim.Some? {
            RivalsShrink(old(supervisor.markers), between, before[k].entry.value, victim.value);
            robbed := robbed + {victim.value};
          }
        } else {
          Whole(slots, deadline);
        }
        k := k + 1;
      }
      assert slots == [FREE, FREE, FREE];
      NobodyTracked(slots);
      NobodyInterested(slots);
      SomebodyInterested(before, deadline);
    }
  }
}
