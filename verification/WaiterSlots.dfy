/** What a connection waiting for its route remembers: a slot for each cache entry the choice of an address depends
    on, and what asking for a lookup makes of it.
 */
module WaiterSlots {
  import opened Basics
  import opened Endpoint
  import S = SupervisorSteps

  const ROUNDS: nat := 8
  const RECORDS: nat := 128
  const LOOKUP_OK: nat := 1
  const LOOKUP_TEMPORARY: nat := 9
  const LOOKUP_TRUNCATED: nat := 10

  datatype Status = Waiting | Ready | Failed(reason: Reason)
  datatype Reason = BadArgumentReason | ContradictoryReason | IoReason | LimitReason | NoRouteReason | ServiceReason
      | TimeReason | TimeoutReason | UnavailableReason
  datatype Publication = Stored | TransientAnswer | NotStored
  /** A finished lookup: the entry, the type and time of the answer, how the lookup ended, whether the cache took the
      answer, and its records. */
  datatype Completion = Completion(entry: EntryId, kind: QueryKind, completedAt: nat, status: nat,
      publication: Publication, addresses: seq<Address>, srvs: seq<Srv>)
  datatype ObserveStatus = Observed | Ignored | ObserveBad | ObserveMemory

  /** One tracked entry. */
  datatype Slot = Slot(entry: Option<EntryId>, interest: bool, completionPending: bool, overlay: Overlay)

  const FREE: Slot := Slot(None, false, false, Clear)

  // ---------------------------------------------------------------- slots

  function Find(slots: seq<Slot>, entry: Option<EntryId>): (r: Option<nat>)
    ensures r.Some? ==> r.value < |slots| && slots[r.value].entry == entry
    ensures r.None? ==> forall i :: 0 <= i < |slots| ==> slots[i].entry != entry
  {
    if slots == [] then None
    else if slots[0].entry == entry then Some(0)
    else
      var k := Find(slots[1..], entry);
      if k.Some? then Some(k.value + 1) else None
  }

  /** The entries being tracked, and those among them this waiter holds an interest in. */
  function Tracked(slots: seq<Slot>): (r: set<EntryId>) {
    set s | s in slots && s.entry.Some? :: s.entry.value
  }

  function Interested(slots: seq<Slot>): (r: set<EntryId>) {
    set s | s in slots && s.entry.Some? && s.interest :: s.entry.value
  }

  ghost predicate Separate(slots: seq<Slot>) {
    forall i, j :: 0 <= i < j < |slots| && slots[i].entry.Some? ==> slots[i].entry != slots[j].entry
  }

  ghost predicate SlotOk(s: Slot, deadline: nat) {
    && (s.entry.None? ==> s == FREE)
    && (s.overlay.Transient? ==> s.overlay.completedAt <= deadline)
  }

  ghost predicate SlotsOk(slots: seq<Slot>, deadline: nat) {
    |slots| == REQUIREMENTS && Separate(slots) && forall i :: 0 <= i < |slots| ==> SlotOk(slots[i], deadline)
  }

  /** What the waiter itself knows, entry by entry. */
  function Overlays(slots: seq<Slot>): (r: map<EntryId, Overlay>) {
    if slots == [] then map[]
    else if slots[0].entry.Some? then Overlays(slots[1..])[slots[0].entry.value := slots[0].overlay]
    else Overlays(slots[1..])
  }

  lemma {:induction false} OverlaysMean(slots: seq<Slot>, e: EntryId)
    requires Separate(slots)
    ensures e in Overlays(slots) <==> Find(slots, Some(e)).Some?
    ensures e in Overlays(slots) ==> Overlays(slots)[e] == slots[Find(slots, Some(e)).value].overlay
  {
    if slots != [] {
      assert Separate(slots[1..]);
      OverlaysMean(slots[1..], e);
    }
  }

  lemma TrackedFind(slots: seq<Slot>, e: EntryId)
    ensures e in Tracked(slots) <==> Find(slots, Some(e)).Some?
  {
    var k := Find(slots, Some(e));
    if k.Some? {
      assert slots[k.value] in slots;
    }
  }

  /** A slot changes without changing its entry. */
  lemma SlotChanged(slots: seq<Slot>, deadline: nat, k: nat, s: Slot)
    requires SlotsOk(slots, deadline) && k < |slots| && slots[k].entry.Some? && s.entry == slots[k].entry
             && SlotOk(s, deadline)
    ensures SlotsOk(slots[k := s], deadline) && Tracked(slots[k := s]) == Tracked(slots)
    ensures Interested(slots[k := s]) == if s.interest then Interested(slots) + {s.entry.value}
                                         else Interested(slots) - {s.entry.value}
  {
    var after, e := slots[k := s], s.entry.value;
    assert forall i :: 0 <= i < |slots| ==> after[i].entry == slots[i].entry;
    assert Separate(after);
    forall x
      ensures x in Tracked(after) <==> x in Tracked(slots)
      ensures x in Interested(after) <==> if x == e then s.interest else x in Interested(slots)
    {
      SlotsAt(slots, x);
      SlotsAt(after, x);
    }
  }

  lemma SlotsAt(slots: seq<Slot>, e: EntryId)
    ensures e in Tracked(slots) <==> exists i :: 0 <= i < |slots| && slots[i].entry == Some(e)
    ensures e in Interested(slots) <==> exists i :: 0 <= i < |slots| && slots[i].entry == Some(e) && slots[i].interest
  {
    assert forall i :: 0 <= i < |slots| ==> slots[i] in slots;
  }

  lemma SlotFreed(slots: seq<Slot>, deadline: nat, k: nat)
    requires SlotsOk(slots, deadline) && k < |slots| && slots[k].entry.Some?
    ensures SlotsOk(slots[k := FREE], deadline)
    ensures Tracked(slots[k := FREE]) == Tracked(slots) - {slots[k].entry.value}
    ensures Interested(slots[k := FREE]) == Interested(slots) - {slots[k].entry.value}
  {
    var after, e := slots[k := FREE], slots[k].entry.value;
    assert forall i :: 0 <= i < |slots| && i != k ==> after[i] == slots[i] && slots[i].entry != Some(e);
    assert Separate(after);
    forall x
      ensures x in Tracked(after) <==> x in Tracked(slots) && x != e
      ensures x in Interested(after) <==> x in Interested(slots) && x != e
    {
      SlotsAt(slots, x);
      SlotsAt(after, x);
    }
  }

  lemma SlotUsed(slots: seq<Slot>, deadline: nat, k: nat, e: EntryId)
    requires SlotsOk(slots, deadline) && k < |slots| && slots[k].entry.None? && e !in Tracked(slots)
    ensures var s := FREE.(entry := Some(e));
            && SlotsOk(slots[k := s], deadline) && Tracked(slots[k := s]) == Tracked(slots) + {e}
               && Interested(slots[k := s]) == Interested(slots)
  {
    var after := slots[k := FREE.(entry := Some(e))];
    SlotsAt(slots, e);
    assert forall i :: 0 <= i < |slots| && i != k ==> after[i] == slots[i] && slots[i].entry != Some(e);
    assert Separate(after);
    forall x
      ensures x in Tracked(after) <==> x in Tracked(slots) || x == e
      ensures x in Interested(after) <==> x in Interested(slots)
    {
      SlotsAt(slots, x);
      SlotsAt(after, x);
      if x in Tracked(slots) {
        var i :| 0 <= i < |slots| && slots[i].entry == Some(x);
        assert after[i].entry == Some(x);
      }
      assert after[k].entry == Some(e);
    }
  }

  /** While a required entry is not tracked and nothing else is, a slot is free. */
  lemma RoomLeft(slots: seq<Slot>, deadline: nat, reqs: seq<Requirement>, e: EntryId)
    requires SlotsOk(slots, deadline) && |reqs| <= REQUIREMENTS && Tracked(slots) <= Named(reqs) && e in Named(reqs)
             && e !in Tracked(slots)
    ensures Find(slots, None).Some?
  {
    NamedSize(reqs);
    SubsetSizes(Tracked(slots), Named(reqs));
    if Find(slots, None).None? {
      AllTracked(slots);
      assert false;
    }
  }

  lemma NamedSize(reqs: seq<Requirement>)
    requires |reqs| <= REQUIREMENTS
    ensures |Named(reqs)| <= REQUIREMENTS
  {
    NamedSizeFrom(reqs);
  }

  lemma {:induction false} NamedSizeFrom(reqs: seq<Requirement>)
    ensures |Named(reqs)| <= |reqs|
  {
    if reqs == [] {
      assert Named(reqs) == {};
    } else {
      NamedSizeFrom(reqs[1..]);
      assert reqs == [reqs[0]] + reqs[1..];
      assert Named(reqs) == Named(reqs[1..]) + {reqs[0].entry};
    }
  }

  lemma AllTracked(slots: seq<Slot>)
    requires |slots| == REQUIREMENTS && Separate(slots) && forall i :: 0 <= i < |slots| ==> slots[i].entry.Some?
    ensures |Tracked(slots)| == REQUIREMENTS
  {
    var a, b, c := slots[0].entry.value, slots[1].entry.value, slots[2].entry.value;
    assert slots == [slots[0], slots[1], slots[2]];
    assert Tracked(slots) == {a, b, c};
  }

  // ---------------------------------------------------------------- scheduling

  /** An entry nothing is known of and nobody was asked about yet. */
  predicate Due(s: Slot) {
    s.overlay.Clear? && !s.interest && !s.completionPending
  }

  predicate Fatal(status: S.ScheduleStatus) {
    status.ScheduleIo? || status.ScheduleTime? || status.ScheduleBadArgument?
  }

  predicate Retries(status: S.ScheduleStatus) {
    status.Fresh? || status.ScheduleLimit? || status.ScheduleMemory?
  }

  /** What asking the supervisor makes of a slot. */
  function Asked(s: Slot, status: S.ScheduleStatus): (r: Slot) {
    if status.Started? || status.Shared? then s.(interest := true)
    else if status.AlreadyComplete? then s.(completionPending := true)
    else if status.ScheduleLimit? || status.ScheduleMemory? then s.(overlay := Unavailable)
    else s
  }

  function Scheduled(s: Slot, pending: set<EntryId>, schedule: EntryId -> S.ScheduleStatus): (r: Slot) {
    if s.entry.Some? && s.entry.value in pending && Due(s) then Asked(s, schedule(s.entry.value)) else s
  }

  function PendingOf(reqs: seq<Requirement>): (r: set<EntryId>) {
    set q | q in reqs && q.pending :: q.entry
  }

  ghost predicate AskedFor(slots: seq<Slot>, e: EntryId) {
    exists i :: 0 <= i < |slots| && slots[i].entry == Some(e) && (slots[i].interest || slots[i].completionPending)
  }

  /** What follows when a pending evaluation's entries have been scheduled: nothing named looks different but
      what was given up, and everybody was asked about what is still unknown. */
  ghost predicate Settled(w: World, preferred: Family, before: map<EntryId, Overlay>, slots: seq<Slot>) {
    var r := Evaluate(w, before, preferred);
    && r.0.Pending? && GivenUp(w, before, Overlays(slots), Named(r.1)) && Tracked(slots) == Named(r.1)
    && forall e :: e in Named(r.1) && Seen(w, Overlays(slots), e).Empty? ==> AskedFor(slots, e)
  }

  lemma SeenSlot(w: World, slots: seq<Slot>, k: nat)
    requires Separate(slots) && k < |slots| && slots[k].entry.Some?
    ensures var e := slots[k].entry.value;
            Seen(w, Overlays(slots), e)
              == match slots[k].overlay case Clear => w.cached(e) case Unavailable => Negative case Transient(a, s,
                _) => Positive(a, s)
  {
    var e := slots[k].entry.value;
    OverlaysMean(slots, e);
    assert Find(slots, Some(e)) == Some(k);
  }

  lemma ScheduledSettles(w: World, preferred: Family, slots: seq<Slot>, deadline: nat,
      schedule: EntryId -> S.ScheduleStatus, after: seq<Slot>, before: map<EntryId, Overlay>)
    requires var r := Evaluate(w, before, preferred);
             && r.0.Pending? && Tracked(slots) == Named(r.1) && SlotsOk(slots, deadline) && SlotsOk(after, deadline)
             && (forall e :: e in Named(r.1) ==> Seen(w, Overlays(slots), e) == Seen(w, before, e))
             && (forall i :: 0 <= i < |slots| ==> after[i] == Scheduled(slots[i], PendingOf(r.1), schedule))
    requires forall e :: schedule(e).Fresh? ==> !w.cached(e).Empty?
    requires forall i ::
               && 0 <= i < |slots| && slots[i].entry.Some? && Due(slots[i])
               && slots[i].entry.value in PendingOf(Evaluate(w, before, preferred).1)
               ==> !Fatal(schedule(slots[i].entry.value))
    ensures Settled(w, preferred, before, after)
  {
    hide Evaluate, Seen, Overlays, AskedFor, Scheduled, Sound, Due;
    var r := Evaluate(w, before, preferred);
    EvaluateWaits(w, before, preferred);
    forall x
      ensures x in Tracked(after) <==> x in Tracked(slots)
    {
      SlotsAt(slots, x);
      SlotsAt(after, x);
      SameEntries(slots, after, PendingOf(r.1), schedule);
    }
    forall e | e in Named(r.1)
      ensures Seen(w, Overlays(after), e) == Seen(w, before, e)
              || (Seen(w, before, e).Empty? && Seen(w, Overlays(after), e).Negative?)
      ensures Seen(w, Overlays(after), e).Empty? ==> AskedFor(after, e)
    {
      SlotsAt(slots, e);
      var k: nat :| k < |slots| && slots[k].entry == Some(e);
      PendingNamed(w, before, r.1, e);
      SeenScheduled(w, slots, after, k, PendingOf(r.1), schedule);
    }
  }

  lemma SameEntries(slots: seq<Slot>, after: seq<Slot>, pending: set<EntryId>, schedule: EntryId -> S.ScheduleStatus)
    requires |slots| == |after| && forall i :: 0 <= i < |slots| ==> after[i] == Scheduled(slots[i], pending, schedule)
    ensures forall i :: 0 <= i < |slots| ==> after[i].entry == slots[i].entry
  {
  }

  lemma SeenScheduled(w: World, slots: seq<Slot>, after: seq<Slot>, k: nat, pending: set<EntryId>,
      schedule: EntryId -> S.ScheduleStatus)
    requires Separate(slots) && Separate(after) && k < |slots| == |after| && slots[k].entry.Some?
             && after[k] == Scheduled(slots[k], pending, schedule)
    requires var e := slots[k].entry.value;
             && (schedule(e).Fresh? ==> !w.cached(e).Empty?) && (e in pending && Due(slots[k]) ==> !Fatal(schedule(e)))
             && (e in pending <==> Seen(w, Overlays(slots), e).Empty?)
    ensures var e := slots[k].entry.value;
            var earlier, later := Seen(w, Overlays(slots), e), Seen(w, Overlays(after), e);
            && (later == earlier || (earlier.Empty? && later.Negative?))
            && (later.Empty? ==> AskedFor(after, e))
  {
    hide Seen, Overlays;
    SeenSlot(w, slots, k);
    SeenSlot(w, after, k);
  }

  lemma PendingNamed(w: World, overlays: map<EntryId, Overlay>, reqs: seq<Requirement>, e: EntryId)
    requires Sound(w, overlays, reqs) && e in Named(reqs)
    ensures e in PendingOf(reqs) <==> Seen(w, overlays, e).Empty?
  {
    hide Seen;
    var q :| q in reqs && q.entry == e;
    var i :| 0 <= i < |reqs| && reqs[i] == q;
    forall p | p in reqs && p.entry == e
      ensures p == q
    {
      var j :| 0 <= j < |reqs| && reqs[j] == p;
    }
  }

  // ---------------------------------------------------------------- statuses

  function ReleaseReason(status: S.ReleaseStatus): (r: Option<Reason>) {
    match status
    case ReleaseOk => None
    case Satisfied => None
    case ReleaseIo => Some(IoReason)
    case ReleaseTime => Some(TimeReason)
    case ReleaseBadArgument => Some(BadArgumentReason)
  }

  function FatalReason(status: S.ScheduleStatus): (r: Option<Reason>)
    ensures r.Some? <==> Fatal(status)
  {
    match status
    case ScheduleIo => Some(IoReason)
    case ScheduleTime => Some(TimeReason)
    case ScheduleBadArgument => Some(BadArgumentReason)
    case _ => None
  }

  function FirstReason(a: Option<Reason>, b: Option<Reason>): (r: Option<Reason>) {
    if a.None? then b else a
  }

  function StatusOf(s: SelectStatus): (r: Status) {
    match s
    case Selected(_) => Ready
    case Contradictory => Failed(ContradictoryReason)
    case Limit => Failed(LimitReason)
    case NoRoute => Failed(NoRouteReason)
    case Pending => Waiting
    case ServiceUnavailable => Failed(ServiceReason)
    case UnavailableRoute => Failed(UnavailableReason)
    case BadArgument => Failed(BadArgumentReason)
  }

  /** A completion that can be: at a time that can be told, of the type of its entry, with a final status. */
  predicate Sensible(c: Completion, kind: QueryKind) {
    c.completedAt < S.TIME_LIMIT && c.kind == kind && LOOKUP_OK <= c.status <= LOOKUP_TRUNCATED
      && c.status != LOOKUP_TEMPORARY
  }

  /** An answer that came in time, was found and is nowhere but in this completion. */
  predicate Fleeting(c: Completion, deadline: nat) {
    c.completedAt <= deadline && c.publication.TransientAnswer? && c.status == LOOKUP_OK
  }

  /** What an observed completion leaves behind. */
  function Learned(c: Completion, deadline: nat, memory: bool): (r: Overlay)
    ensures r.Transient? ==> r.completedAt <= deadline
  {
    if Fleeting(c, deadline) then
      if Oversized(c) || !memory then Unavailable
      else Transient(if c.kind.SRV? then [] else c.addresses, if c.kind.SRV? then c.srvs else [], c.completedAt)
    else if c.publication.Stored? && c.completedAt <= deadline then Clear
    else Unavailable
  }

  /** The records of an answer must be between one and as many as can be kept. */
  predicate Oversized(c: Completion) {
    var n := if c.kind.SRV? then |c.srvs| else |c.addresses|;
    !(0 < n <= RECORDS)
  }

  lemma Few(w: World, overlays: map<EntryId, Overlay>, reqs: seq<Requirement>)
    requires Sound(w, overlays, reqs)
    ensures |reqs| <= REQUIREMENTS && Unrepeated(reqs)
  {
  }

  lemma DueSlots(slots: seq<Slot>, pending: set<EntryId>, schedule: EntryId -> S.ScheduleStatus)
    requires forall e :: e in pending && DueAt(slots, e) ==> !Fatal(schedule(e))
    ensures forall i :: 0 <= i < |slots| && slots[i].entry.Some? && slots[i].entry.value in pending && Due(slots[i]) ==>
            !Fatal(schedule(slots[i].entry.value))
  {
    forall i | 0 <= i < |slots| && slots[i].entry.Some? && slots[i].entry.value in pending && Due(slots[i])
      ensures !Fatal(schedule(slots[i].entry.value))
    {
      assert DueAt(slots, slots[i].entry.value);
    }
  }

  // ---------------------------------------------------------------- one round after another

  /** Whoever still waits has asked about everything it tracks and knows nothing of, and there is such a thing. */
  ghost predicate Promised(w: World, slots: seq<Slot>) {
    && (forall e :: e in Tracked(slots) && Seen(w, Overlays(slots), e).Empty? ==> AskedFor(slots, e))
    && exists e :: e in Tracked(slots) && AskedFor(slots, e)
  }

  lemma KeptSeen(w: World, before: seq<Slot>, after: seq<Slot>, named: set<EntryId>, e: EntryId)
    requires Separate(before) && Separate(after) && Kept(before, after, named) && Tracked(after) == named && e in named
    ensures Seen(w, Overlays(after), e) == Seen(w, Overlays(before), e)
    ensures DueAt(after, e) ==> DueAt(before, e) || e !in Tracked(before)
    ensures e in Tracked(before) && AskedFor(before, e) ==> !DueAt(after, e)
  {
    hide Seen, Overlays, Tracked;
    SlotsAt(after, e);
    SlotsAt(before, e);
    var k: nat :| k < |after| && after[k].entry == Some(e);
    SeenSlot(w, after, k);
    if e in Tracked(before) {
      var i: nat :| i < |before| && before[i].entry == Some(e);
      assert after[i] == before[i] && i == k;
      SeenSlot(w, before, i);
      OneSlot(before, i, e);
      OneSlot(after, i, e);
    } else {
      UntrackedSeen(w, before, e);
    }
  }

  lemma OneSlot(slots: seq<Slot>, k: nat, e: EntryId)
    requires Separate(slots) && k < |slots| && slots[k].entry == Some(e)
    ensures DueAt(slots, e) <==> Due(slots[k])
    ensures AskedFor(slots, e) <==> slots[k].interest || slots[k].completionPending
  {
    assert forall i :: 0 <= i < |slots| && slots[i].entry == Some(e) ==> i == k;
  }

  lemma UntrackedSeen(w: World, slots: seq<Slot>, e: EntryId)
    requires Separate(slots) && e !in Tracked(slots)
    ensures Seen(w, Overlays(slots), e) == w.cached(e)
  {
    OverlaysMean(slots, e);
    TrackedFind(slots, e);
  }

  /** Nothing is left to ask when a pending evaluation follows another one at the same time. */
  lemma NoneDue(w: World, preferred: Family, first: map<EntryId, Overlay>, slots: seq<Slot>, after: seq<Slot>,
      e: EntryId)
    requires Settled(w, preferred, first, slots) && Separate(slots) && Separate(after)
    requires var r := Evaluate(w, Overlays(slots), preferred);
             r.0.Pending? && Kept(slots, after, Named(r.1)) && Tracked(after) == Named(r.1) && e in PendingOf(r.1)
    ensures !DueAt(after, e)
  {
    hide Evaluate, Seen, Overlays, Tracked, DueAt, AskedFor, Kept;
    var r := Evaluate(w, Overlays(slots), preferred);
    EvaluateAgain(w, first, Overlays(slots), preferred);
    EvaluateWaits(w, Overlays(slots), preferred);
    PendingIsNamed(r.1, e);
    PendingNamed(w, Overlays(slots), r.1, e);
    KeptSeen(w, slots, after, Named(r.1), e);
  }

  lemma PendingIsNamed(reqs: seq<Requirement>, e: EntryId)
    requires e in PendingOf(reqs)
    ensures e in Named(reqs)
  {
  }

  lemma ScheduledPromises(w: World, slots: seq<Slot>, after: seq<Slot>, reqs: seq<Requirement>,
      schedule: EntryId -> S.ScheduleStatus)
    requires Separate(slots) && Separate(after) && |slots| == |after| && Tracked(slots) == Tracked(after) == Named(reqs)
             && Sound(w, Overlays(slots), reqs)
    requires forall i :: 0 <= i < |slots| ==> after[i] == Scheduled(slots[i], PendingOf(reqs), schedule)
    requires forall e :: e in PendingOf(reqs) && DueAt(slots, e) ==> !Fatal(schedule(e)) && !Retries(schedule(e))
    requires exists e :: e in Named(reqs) && Seen(w, Overlays(slots), e).Empty?
    ensures Promised(w, after)
  {
    hide Seen, Overlays, Tracked, DueAt, AskedFor, Named, PendingOf, Scheduled, Sound;
    forall e | e in Named(reqs)
      ensures Seen(w, Overlays(after), e).Empty? ==> AskedFor(after, e)
      ensures Seen(w, Overlays(slots), e).Empty? ==> AskedFor(after, e)
    {
      PromisedOne(w, slots, after, reqs, schedule, e);
    }
  }

  lemma PromisedOne(w: World, slots: seq<Slot>, after: seq<Slot>, reqs: seq<Requirement>,
      schedule: EntryId -> S.ScheduleStatus, e: EntryId)
    requires Separate(slots) && Separate(after) && |slots| == |after| && Tracked(slots) == Named(reqs)
             && Sound(w, Overlays(slots), reqs) && e in Named(reqs)
    requires forall i :: 0 <= i < |slots| ==> after[i] == Scheduled(slots[i], PendingOf(reqs), schedule)
    requires e in PendingOf(reqs) && DueAt(slots, e) ==> !Fatal(schedule(e)) && !Retries(schedule(e))
    ensures Seen(w, Overlays(after), e).Empty? ==> AskedFor(after, e)
    ensures Seen(w, Overlays(slots), e).Empty? ==> AskedFor(after, e)
  {
    hide Seen, Overlays, Tracked, Sound, Named, PendingOf;
    SlotsAt(slots, e);
    var k: nat :| k < |slots| && slots[k].entry == Some(e);
    PendingNamed(w, Overlays(slots), reqs, e);
    OneSlot(slots, k, e);
    OneSlot(after, k, e);
    SeenSlot(w, slots, k);
    SeenSlot(w, after, k);
  }

  lemma SoundSame(w: World, before: map<EntryId, Overlay>, after: map<EntryId, Overlay>, reqs: seq<Requirement>)
    requires Sound(w, before, reqs) && forall e :: e in Named(reqs) ==> Seen(w, after, e) == Seen(w, before, e)
    ensures Sound(w, after, reqs)
  {
    hide Seen;
    assert forall i :: 0 <= i < |reqs| ==> reqs[i] in reqs && reqs[i].entry in Named(reqs);
  }

  lemma {:induction false} OverlaysSame(slots: seq<Slot>, after: seq<Slot>)
    requires |slots| == |after|
             && forall i :: 0 <= i < |slots| ==>
                after[i].entry == slots[i].entry && after[i].overlay == slots[i].overlay
    ensures Overlays(after) == Overlays(slots)
  {
    if slots != [] {
      OverlaysSame(slots[1..], after[1..]);
    }
  }

  ghost predicate DueAt(slots: seq<Slot>, e: EntryId) {
    exists i :: 0 <= i < |slots| && slots[i].entry == Some(e) && Due(slots[i])
  }

  ghost predicate Unrepeated(reqs: seq<Requirement>) {
    forall i, j :: 0 <= i < j < |reqs| ==> reqs[i].entry != reqs[j].entry
  }

  lemma NobodyScheduled(slots: seq<Slot>, schedule: EntryId -> S.ScheduleStatus)
    ensures PendingOf([]) == {} && forall k :: 0 <= k < |slots| ==> slots[k] == Scheduled(slots[k], {}, schedule)
  {
  }

  lemma PendingLonger(reqs: seq<Requirement>, q: Requirement)
    ensures PendingOf(reqs + [q]) == if q.pending then PendingOf(reqs) + {q.entry} else PendingOf(reqs)
  {
    assert forall p :: p in reqs + [q] <==> p in reqs || p == q;
  }

  lemma PendingPart(reqs: seq<Requirement>, i: nat)
    requires i < |reqs|
    ensures reqs[i].pending ==> reqs[i].entry in PendingOf(reqs)
  {
    assert reqs[i] in reqs;
  }

  lemma NotYetPending(reqs: seq<Requirement>, i: nat)
    requires Unrepeated(reqs) && i < |reqs|
    ensures reqs[i].entry !in PendingOf(reqs[..i])
  {
    forall q | q in reqs[..i]
      ensures q.entry != reqs[i].entry
    {
      var j :| 0 <= j < i && reqs[j] == q;
    }
  }

  lemma StillDue(before: seq<Slot>, between: seq<Slot>, pending: set<EntryId>, e: EntryId,
      schedule: EntryId -> S.ScheduleStatus)
    requires |before| == |between| && e !in pending
             && forall k :: 0 <= k < |before| ==> between[k] == Scheduled(before[k], pending, schedule)
    ensures DueAt(between, e) <==> DueAt(before, e)
  {
    assert forall k :: 0 <= k < |before| && before[k].entry == Some(e) ==> between[k] == before[k];
    assert forall k :: 0 <= k < |before| ==> between[k].entry == before[k].entry;
    if DueAt(before, e) {
      var i :| 0 <= i < |before| && before[i].entry == Some(e) && Due(before[i]);
      assert between[i].entry == Some(e) && Due(between[i]);
    }
  }

  lemma AskedSlots(slots: seq<Slot>, deadline: nat, k: nat, e: EntryId, answer: S.ScheduleStatus)
    requires SlotsOk(slots, deadline) && k < |slots| && slots[k].entry == Some(e)
    ensures DueAt(slots, e) <==> Due(slots[k])
    ensures !Due(slots[k]) ==> forall i :: 0 <= i < |slots| ==> slots[i] == Scheduled(slots[i], {e}, _ => answer)
    ensures Due(slots[k]) ==>
              var after := slots[k := Asked(slots[k], answer)];
              && SlotsOk(after, deadline) && Tracked(after) == Tracked(slots) && e !in Interested(slots)
              && Interested(after)
                 == (if answer.Started? || answer.Shared? then Interested(slots) + {e} else Interested(slots))
              && forall i :: 0 <= i < |slots| ==> after[i] == Scheduled(slots[i], {e}, _ => answer)
  {
    hide Tracked, Interested;
    OneSlot(slots, k, e);
    if Due(slots[k]) {
      SlotChanged(slots, deadline, k, Asked(slots[k], answer));
      Uninterested(slots, deadline, k);
    }
  }

  /** The answers so far, with one more. */
  ghost function Amended(schedule: EntryId -> S.ScheduleStatus, e: EntryId,
      answer: S.ScheduleStatus): (r: EntryId -> S.ScheduleStatus) {
    (x: EntryId) => if x == e then answer else schedule(x)
  }

  lemma ScheduledTwice(before: seq<Slot>, between: seq<Slot>, after: seq<Slot>, pending: set<EntryId>, e: EntryId,
      schedule: EntryId -> S.ScheduleStatus, answer: S.ScheduleStatus)
    requires |before| == |between| == |after| && e !in pending
    requires forall k :: 0 <= k < |before| ==> between[k] == Scheduled(before[k], pending, schedule)
    requires forall k :: 0 <= k < |before| ==> after[k] == Scheduled(between[k], {e}, _ => answer)
    ensures forall k :: 0 <= k < |before| ==>
            after[k] == Scheduled(before[k], pending + {e}, Amended(schedule, e, answer))
  {
  }

  /** Slots of entries that stay needed are as they were; new ones know nothing. */
  ghost predicate Kept(before: seq<Slot>, after: seq<Slot>, named: set<EntryId>) {
    && |before| == |after|
    && (forall i :: 0 <= i < |before| && before[i].entry.Some? && before[i].entry.value in named ==>
       after[i] == before[i])
    && (forall i :: 0 <= i < |after| && after[i].entry.Some? && after[i].entry.value !in Tracked(before) ==>
       after[i] == FREE.(entry := after[i].entry))
  }

  lemma NamedAt(reqs: seq<Requirement>, e: EntryId)
    ensures e in Named(reqs) <==> exists j :: 0 <= j < |reqs| && reqs[j].entry == e
  {
    assert forall j :: 0 <= j < |reqs| ==> reqs[j] in reqs;
  }

  lemma AllNamed(reqs: seq<Requirement>, slots: seq<Slot>)
    requires Tracked(slots) <= Named(reqs) && forall j :: 0 <= j < |reqs| ==> reqs[j].entry in Tracked(slots)
    ensures Tracked(slots) == Named(reqs)
  {
    hide Tracked;
  }

  lemma ClearedTracks(before: seq<Slot>, cleared: seq<Slot>, reqs: seq<Requirement>)
    requires |before| == |cleared| == REQUIREMENTS
    requires forall i :: 0 <= i < REQUIREMENTS ==>
               cleared[i] == if before[i].entry.Some? && before[i].entry.value !in Named(reqs) then FREE else before[i]
    ensures Tracked(cleared) <= Named(reqs) && Tracked(cleared) <= Tracked(before)
    ensures forall e :: e in Named(reqs) && e in Tracked(before) ==> e in Tracked(cleared)
  {
    hide Named;
    forall e
      ensures e in Tracked(cleared) <==> e in Tracked(before) && e in Named(reqs)
    {
      SlotsAt(before, e);
      SlotsAt(cleared, e);
      if e in Tracked(before) && e in Named(reqs) {
        var i :| 0 <= i < |before| && before[i].entry == Some(e);
        assert cleared[i].entry == Some(e);
      }
    }
  }

  lemma KeptSlots(before: seq<Slot>, cleared: seq<Slot>, after: seq<Slot>, reqs: seq<Requirement>)
    requires |before| == |cleared| == |after| == REQUIREMENTS && Separate(before)
    requires forall i :: 0 <= i < REQUIREMENTS ==>
               cleared[i] == if before[i].entry.Some? && before[i].entry.value !in Named(reqs) then FREE else before[i]
    requires forall i :: 0 <= i < REQUIREMENTS ==>
               after[i] == cleared[i]
                 || (cleared[i].entry.None? && after[i].entry.Some? && after[i] == FREE.(entry := after[i].entry)
                    && after[i].entry.value !in Tracked(cleared))
    ensures Kept(before, after, Named(reqs))
  {
    hide Named;
    forall i | 0 <= i < |after| && after[i].entry.Some? && after[i].entry.value !in Tracked(before)
      ensures after[i] == FREE.(entry := after[i].entry)
    {
      SlotsAt(before, after[i].entry.value);
    }
  }

  lemma Whole(slots: seq<Slot>, deadline: nat)
    requires SlotsOk(slots, deadline)
    ensures |slots| == REQUIREMENTS && Separate(slots) && forall i :: 0 <= i < |slots| ==> SlotOk(slots[i], deadline)
  {
  }

  lemma Uninterested(slots: seq<Slot>, deadline: nat, k: nat)
    requires SlotsOk(slots, deadline) && k < |slots| && !slots[k].interest
    ensures slots[k].entry.Some? ==> slots[k].entry.value !in Interested(slots)
  {
    if slots[k].entry.Some? {
      SlotsAt(slots, slots[k].entry.value);
    }
  }

  lemma MarkedSlot(slots: seq<Slot>, deadline: nat, k: nat)
    requires SlotsOk(slots, deadline) && k < |slots| && slots[k].interest
    ensures slots[k].entry.Some? && slots[k].entry.value in Interested(slots)
  {
    assert slots[k] in slots;
  }

  lemma NobodyInterested(slots: seq<Slot>)
    requires forall i :: 0 <= i < |slots| ==> !slots[i].interest
    ensures Interested(slots) == {}
  {
  }

  lemma SomebodyInterested(slots: seq<Slot>, deadline: nat)
    requires SlotsOk(slots, deadline)
    ensures Interested(slots) == {} <==> forall i :: 0 <= i < |slots| ==> !slots[i].interest
  {
    forall i | 0 <= i < |slots| && slots[i].interest
      ensures slots[i].entry.Some? && slots[i].entry.value in Interested(slots)
    {
      MarkedSlot(slots, deadline, i);
    }
  }

  lemma NobodyTracked(slots: seq<Slot>)
    requires forall i :: 0 <= i < |slots| ==> slots[i].entry.None?
    ensures Tracked(slots) == {}
  {
  }

  lemma UntrackedFree(slots: seq<Slot>, e: EntryId)
    requires e !in Tracked(slots)
    ensures e !in Interested(slots)
  {
  }
}
