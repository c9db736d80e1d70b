/** The supervisor's state changes as functions on the value-level state, each with the lemma that
    it keeps the whole invariant. Every such lemma is assembled from three independent ones: for
    placement, for the interest ledger and for the attempt books.
 */
module SupervisorMoves {
  import opened Basics
  import opened SupervisorState

  // ---------------------------------------------------------------- shared steps

  /** Interest changes neither the place nor the request of a job; its priority may change unless queued. */
  predicate SamePlace(job: Job, job': Job) {
    && job'.entry == job.entry && job'.queryId == job.queryId && job'.slot == job.slot && job'.state == job.state
    && (job.state.Queued? ==> job'.priority == job.priority)
  }

  lemma ChangeInterest(s: State, d: set<JobId>, j: JobId, job: Job)
    requires Placed(s, d)
    requires j in s.jobs && SamePlace(s.jobs[j], job)
    ensures Placed(WithJob(s, j, job), d)
  {
    hide Listed, Lent, Indexed, Counted;
    var r := WithJob(s, j, job);
    ReplacedIndexed(s, j, job);
    assert forall q, k :: Waits(r, q, d, k) <==> Waits(s, q, d, k);
    assert forall k :: Finished(r, d, k) <==> Finished(s, d, k);
    ListedUnchanged(s, d, r, d);
    LentInterest(s, d, j, job);
  }

  lemma LentInterest(s: State, d: set<JobId>, j: JobId, job: Job)
    requires Lent(s, d)
    requires j in s.jobs && SamePlace(s.jobs[j], job)
    ensures Lent(WithJob(s, j, job), d)
  {
    var r := WithJob(s, j, job);
    assert forall k :: Outstanding(r, d, k) <==> Outstanding(s, d, k);
    assert forall h: nat :: h < |s.helpers| && HelperExact(s, d, h) ==> HelperExact(r, d, h);
    assert forall k :: k in s.jobs && HeldBy(s, k) ==> HeldBy(r, k);
    assert forall k :: k in s.jobs && QueryIdFits(s, k) ==> QueryIdFits(r, k);
  }

  ghost predicate OnlyJobChanged(s: State, r: State, j: JobId) {
    && j in s.jobs && j in r.jobs && r.jobs == s.jobs[j := r.jobs[j]]
    && r.jobs[j].entry == s.jobs[j].entry
    && r.index == s.index && r.shuttingDown == s.shuttingDown
  }

  /** The ledger after one job and the markers on its entry changed. */
  lemma LedgerUpdated(s: State, r: State, j: JobId)
    requires Indexed(s) && Ledger(s) && OnlyJobChanged(s, r, j)
    requires CountsMarkers(r.markers, r.jobs[j])
    requires forall m :: m in r.markers ==> m in s.markers || m.entry == s.jobs[j].entry.id
    requires forall e: EntryId, p :: e != s.jobs[j].entry.id ==>
             MarkersFor(r.markers, e, p) == MarkersFor(s.markers, e, p)
    ensures Ledger(r)
  {
    forall k | k in r.jobs
      ensures CountsMarkers(r.markers, r.jobs[k])
    {
      if k != j {
        assert s.jobs[k].entry.id != s.jobs[j].entry.id;
        assert CountsMarkers(s.markers, s.jobs[k]);
      }
    }
  }

  /** The ledger after one job changed without touching any marker. */
  lemma LedgerSame(s: State, r: State, j: JobId)
    requires Ledger(s) && OnlyJobChanged(s, r, j) && r.markers == s.markers
    requires r.jobs[j].state.Complete?
             || (r.jobs[j].background == s.jobs[j].background && r.jobs[j].interactive == s.jobs[j].interactive)
    requires s.jobs[j].state.Complete? ==> r.jobs[j].state.Complete?
    ensures Ledger(r)
  {
    forall k | k in r.jobs
      ensures CountsMarkers(r.markers, r.jobs[k])
    {
      assert CountsMarkers(s.markers, s.jobs[k]);
    }
  }

  lemma InterestsUpdated(s: State, r: State, j: JobId)
    requires InterestsOk(s) && OnlyJobChanged(s, r, j) && InterestOk(r.jobs[j])
    ensures InterestsOk(r)
  {
  }

  /** Books after job `j` left, or never was in, the dispatched state. */
  lemma BooksUndispatched(s: State, r: State, j: JobId)
    requires Conserved(s, {j}) && OnlyJobChanged(s, r, j)
    requires r.attempts == s.attempts && r.saturations == s.saturations
    requires !r.jobs[j].state.Dispatched? && (r.jobs[j].state.Complete? <==> s.jobs[j].state.Complete?)
    ensures Conserved(r, {})
  {
    hide Balanced;
    assert forall k :: DispatchedSet(r, k, {}) == DispatchedSet(s, k, {j});
    assert forall k :: CompleteSet(r, k) == CompleteSet(s, k);
    ConservedSameJobs(s, {j}, r, {});
  }

  lemma BooksSame(s: State, d: set<JobId>, r: State)
    requires Conserved(s, d)
    requires r.jobs == s.jobs && r.attempts == s.attempts && r.saturations == s.saturations
    ensures Conserved(r, d)
  {
    hide Balanced;
    assert forall k :: DispatchedSet(r, k, d) == DispatchedSet(s, k, d);
    assert forall k :: CompleteSet(r, k) == CompleteSet(s, k);
    ConservedSameJobs(s, d, r, d);
  }

  lemma LedgerKept(s: State, r: State)
    requires Ledger(s) && InterestsOk(s)
    requires r.jobs == s.jobs && r.index == s.index && r.markers == s.markers
    ensures Ledger(r) && InterestsOk(r)
  {
  }

  lemma InterestsKept(s: State, r: State)
    requires InterestsOk(s) && r.jobs == s.jobs
    ensures InterestsOk(r)
  {
  }

  // ---------------------------------------------------------------- queues

  function Dequeued(s: State, j: JobId): (r: State)
    requires j in s.jobs
  {
    WithQueue(s, s.jobs[j].priority, Unlink(QueueOf(s, s.jobs[j].priority), j))
  }

  lemma DequeuedKeeps(s: State, j: JobId)
    requires Inv(s, {}, {})
    requires j in s.jobs && s.jobs[j].state.Queued?
    ensures Inv(Dequeued(s, j), {j}, {j})
  {
    hide Placed, Conserved, Ledger, InterestsOk, Unlink;
    LeaveQueue(s, j);
    var r := Dequeued(s, j);
    NothingToSettle(s, j);
    BooksSame(s, {j}, r);
    InterestsKept(s, r);
    if !s.shuttingDown {
      LedgerKept(s, r);
    }
  }

  function Requeued(s: State, j: JobId, front: bool): (r: State)
    requires j in s.jobs
  {
    var job := s.jobs[j].(state := Queued);
    var q := QueueOf(s, job.priority);
    WithQueue(WithJob(s, j, job), job.priority, if front then [j] + q else q + [j])
  }

  lemma JobInterestOk(s: State, j: JobId)
    requires InterestsOk(s) && j in s.jobs
    ensures InterestOk(s.jobs[j])
  {
  }

  /** A wanted job in transit may always wait again. */
  lemma RequeuedKeeps(s: State, j: JobId, front: bool)
    requires Inv(s, {j}, {j})
    requires j in s.jobs && s.jobs[j].queryId == 0 && !s.jobs[j].state.Complete? && !s.jobs[j].orphaned
    ensures Inv(Requeued(s, j, front), {}, {})
  {
    hide Placed, Conserved, Ledger, InterestsOk;
    var job := s.jobs[j].(state := Queued);
    ChangeDetached(s, j, job);
    var t := WithJob(s, j, job);
    EnterQueue(t, j, if front then [j] + QueueOf(s, job.priority) else QueueOf(s, job.priority) + [j]);
    var r := Requeued(s, j, front);
    JobInterestOk(s, j);
    InterestsUpdated(s, r, j);
    BooksUndispatched(s, r, j);
    if !s.shuttingDown {
      LedgerSame(s, r, j);
    }
  }

  // ---------------------------------------------------------------- completion and retry

  function Completed(s: State, j: JobId, publication: Publication): (r: State)
    requires j in s.jobs
  {
    var job := s.jobs[j].(background := 0, interactive := 0, publication := publication, state := Complete);
    WithJob(RecordEnqueued(s, job.entry.kind), j, job).(completions := s.completions + [j])
  }

  lemma CompletedBooks(s: State, j: JobId, publication: Publication)
    requires Conserved(s, {j})
    requires j in s.jobs && !s.jobs[j].state.Complete?
    ensures Conserved(Completed(s, j, publication), {})
  {
    var kind := s.jobs[j].entry.kind;
    var r := Completed(s, j, publication);
    assert forall k :: DispatchedSet(r, k, {}) == DispatchedSet(s, k, {j});
    assert CompleteSet(r, kind) == CompleteSet(s, kind) + {j};
    assert forall k: QueryKind :: k != kind ==> CompleteSet(r, k) == CompleteSet(s, k);
    ConservedBy(s, {j}, r, {}, kind);
  }

  lemma CompletedPlaced(s: State, j: JobId, publication: Publication)
    requires Placed(s, {j})
    requires j in s.jobs && s.jobs[j].queryId == 0
    ensures Placed(Completed(s, j, publication), {})
  {
    hide Placed;
    var job := s.jobs[j].(background := 0, interactive := 0, publication := publication, state := Complete);
    var t := RecordEnqueued(s, job.entry.kind);
    PlacedIgnores(s, {j}, t);
    ChangeDetached(t, j, job);
    EnterCompletions(WithJob(t, j, job), j);
  }

  lemma CompletedKeeps(s: State, j: JobId, publication: Publication)
    requires Inv(s, {j}, {j})
    requires j in s.jobs && s.jobs[j].queryId == 0 && !s.jobs[j].state.Complete? && !s.jobs[j].orphaned
    ensures Inv(Completed(s, j, publication), {}, {})
  {
    hide Placed, Conserved, Ledger, InterestsOk;
    var r := Completed(s, j, publication);
    CompletedPlaced(s, j, publication);
    CompletedBooks(s, j, publication);
    InterestsUpdated(s, r, j);
    if !s.shuttingDown {
      LedgerSame(s, r, j);
    }
  }

  function RetryPlanned(s: State, j: JobId, retryCount: nat, retryAt: Time): (r: State)
    requires j in s.jobs
  {
    var job := s.jobs[j].(retryCount := retryCount, retryAt := retryAt, state := RetryWait);
    RecordRetry(WithJob(s, j, job), job.entry.kind)
  }

  lemma RetryPlannedPlaced(s: State, j: JobId, retryCount: nat, retryAt: Time)
    requires Placed(s, {j})
    requires j in s.jobs && s.jobs[j].queryId == 0
    ensures Placed(RetryPlanned(s, j, retryCount, retryAt), {})
  {
    hide Placed;
    var job := s.jobs[j].(retryCount := retryCount, retryAt := retryAt, state := RetryWait);
    ChangeDetached(s, j, job);
    var t := WithJob(s, j, job);
    RetryIsNowhere(t, j);
    PlacedIgnores(t, {}, RetryPlanned(s, j, retryCount, retryAt));
  }

  lemma RetryPlannedBooks(s: State, j: JobId, retryCount: nat, retryAt: Time)
    requires Conserved(s, {j})
    requires j in s.jobs && !s.jobs[j].state.Complete?
    ensures Conserved(RetryPlanned(s, j, retryCount, retryAt), {})
  {
    var r := RetryPlanned(s, j, retryCount, retryAt);
    assert forall k :: DispatchedSet(r, k, {}) == DispatchedSet(s, k, {j});
    assert forall k :: CompleteSet(r, k) == CompleteSet(s, k);
    ConservedBy(s, {j}, r, {}, s.jobs[j].entry.kind);
  }

  lemma RetryPlannedKeeps(s: State, j: JobId, retryCount: nat, retryAt: Time)
    requires Inv(s, {j}, {j})
    requires j in s.jobs && s.jobs[j].queryId == 0 && !s.jobs[j].state.Complete? && !s.jobs[j].orphaned
    ensures Inv(RetryPlanned(s, j, retryCount, retryAt), {}, {})
  {
    hide Placed, Conserved, Ledger, InterestsOk;
    var r := RetryPlanned(s, j, retryCount, retryAt);
    RetryPlannedPlaced(s, j, retryCount, retryAt);
    RetryPlannedBooks(s, j, retryCount, retryAt);
    JobInterestOk(s, j);
    InterestsUpdated(s, r, j);
    if !s.shuttingDown {
      LedgerSame(s, r, j);
    }
  }

  // ---------------------------------------------------------------- removal

  lemma NoMarkers(s: State, j: JobId)
    requires Ledger(s)
    requires j in s.jobs && !s.jobs[j].state.Complete? && s.jobs[j].Unwanted()
    ensures forall m :: m in s.markers ==> m.entry != s.jobs[j].entry.id
  {
    var e := s.jobs[j].entry.id;
    assert CountsMarkers(s.markers, s.jobs[j]);
    assert MarkersFor(s.markers, e, Background) == {} && MarkersFor(s.markers, e, Interactive) == {};
    forall m | m in s.markers
      ensures m.entry != e
    {
      assert m !in MarkersFor(s.markers, e, m.priority);
    }
  }

  lemma LedgerForgotten(s: State, j: JobId)
    requires Ledger(s) && InterestsOk(s)
    requires j in s.jobs && s.jobCount > 0
    requires forall m :: m in s.markers ==> m.entry != s.jobs[j].entry.id
    ensures Ledger(WithoutJob(s, j))
  {
    var r := WithoutJob(s, j);
    forall k | k in r.jobs
      ensures CountsMarkers(r.markers, r.jobs[k])
    {
      assert CountsMarkers(s.markers, s.jobs[k]);
    }
  }

  lemma InterestsForgotten(s: State, j: JobId)
    requires InterestsOk(s) && j in s.jobs && s.jobCount > 0
    ensures InterestsOk(WithoutJob(s, j))
  {
  }

  lemma ForgottenBooks(s: State, j: JobId)
    requires Conserved(s, {j})
    requires j in s.jobs && !s.jobs[j].state.Complete? && s.jobCount > 0
    ensures Conserved(WithoutJob(s, j), {})
  {
    hide Balanced;
    var r := WithoutJob(s, j);
    assert forall k :: DispatchedSet(r, k, {}) == DispatchedSet(s, k, {j});
    assert forall k :: CompleteSet(r, k) == CompleteSet(s, k);
    ConservedSameJobs(s, {j}, r, {});
  }

  /** A job in transit may be dropped when nobody wants it any more. */
  lemma ForgottenKeeps(s: State, j: JobId)
    requires Inv(s, {j}, {j})
    requires j in s.jobs && !s.jobs[j].state.Complete?
    requires s.shuttingDown || s.jobs[j].Unwanted()
    ensures s.jobCount > 0
    ensures Inv(WithoutJob(s, j), {}, {})
  {
    hide Placed, Conserved, Ledger, InterestsOk;
    Forget(s, j);
    ForgottenBooks(s, j);
    InterestsForgotten(s, j);
    if !s.shuttingDown {
      NoMarkers(s, j);
      LedgerForgotten(s, j);
    }
  }

  function Uncompleted(s: State, j: JobId): (r: State)
    requires j in s.jobs && s.jobCount > 0
  {
    WithoutJob(s.(completions := Unlink(s.completions, j)), j)
  }

  lemma UncompletedPlaced(s: State, j: JobId)
    requires Placed(s, {}) && j in s.jobs && s.jobs[j].state.Complete?
    ensures s.jobCount > 0
    ensures Placed(Uncompleted(s, j), {})
  {
    hide Placed;
    LeaveCompletions(s, j);
    Forget(s.(completions := Unlink(s.completions, j)), j);
  }

  function MarkersElsewhere(markers: set<Marker>, e: EntryId): (r: set<Marker>) {
    set m | m in markers && m.entry != e
  }

  /** Taking a completion hands the entry over and, since every holder observes it, clears its markers. */
  function TakenAway(s: State, j: JobId): (r: State)
    requires j in s.jobs && s.jobCount > 0
  {
    Uncompleted(RecordTaken(s, s.jobs[j].entry.kind), j).(markers := MarkersElsewhere(s.markers, s.jobs[j].entry.id))
  }

  lemma TakenAwayPlaced(s: State, j: JobId)
    requires Placed(s, {})
    requires j in s.jobs && s.jobs[j].state.Complete?
    ensures s.jobCount > 0 && Placed(TakenAway(s, j), {})
  {
    hide Placed;
    var t := RecordTaken(s, s.jobs[j].entry.kind);
    PlacedIgnores(s, {}, t);
    UncompletedPlaced(t, j);
    PlacedIgnores(Uncompleted(t, j), {}, TakenAway(s, j));
  }

  lemma TakenAwayLedger(s: State, j: JobId)
    requires Indexed(s) && Ledger(s) && j in s.jobs && s.jobCount > 0
    ensures Ledger(TakenAway(s, j))
  {
    var r := TakenAway(s, j);
    forall k | k in r.jobs
      ensures CountsMarkers(r.markers, r.jobs[k])
    {
      var e := s.jobs[k].entry.id;
      assert e != s.jobs[j].entry.id;
      assert CountsMarkers(s.markers, s.jobs[k]);
      assert MarkersFor(r.markers, e, Background) == MarkersFor(s.markers, e, Background);
      assert MarkersFor(r.markers, e, Interactive) == MarkersFor(s.markers, e, Interactive);
    }
  }

  lemma UncompletedSets(s: State, r: State, j: JobId)
    requires j in s.jobs && s.jobs[j].state.Complete? && r.jobs == s.jobs - {j}
    ensures forall k :: DispatchedSet(r, k, {}) == DispatchedSet(s, k, {})
    ensures |CompleteSet(s, s.jobs[j].entry.kind)| == |CompleteSet(r, s.jobs[j].entry.kind)| + 1
    ensures forall k: QueryKind :: k != s.jobs[j].entry.kind ==> CompleteSet(r, k) == CompleteSet(s, k)
  {
    var kind := s.jobs[j].entry.kind;
    assert CompleteSet(s, kind) == CompleteSet(r, kind) + {j};
  }

  lemma TakenAwayBooks(s: State, j: JobId)
    requires Conserved(s, {})
    requires j in s.jobs && s.jobs[j].state.Complete? && s.jobCount > 0
    ensures Conserved(TakenAway(s, j), {})
  {
    hide DispatchedSet, CompleteSet, MarkersElsewhere, Unlink;
    var r := TakenAway(s, j);
    UncompletedSets(s, r, j);
    ConservedBy(s, {}, r, {}, s.jobs[j].entry.kind);
  }

  lemma TakenAwayKeeps(s: State, j: JobId)
    requires Inv(s, {}, {})
    requires j in s.jobs && s.jobs[j].state.Complete?
    ensures s.jobCount > 0
    ensures Inv(TakenAway(s, j), {}, {})
  {
    assert Indexed(s);
    hide Placed, Ledger, InterestsOk, Conserved, MarkersElsewhere, Indexed, Unlink;
    TakenAwayPlaced(s, j);
    var r := TakenAway(s, j);
    if !s.shuttingDown {
      TakenAwayLedger(s, j);
    }
    InterestsForgotten(s, j);
    InterestsKept(WithoutJob(s, j), r);
    TakenAwayBooks(s, j);
  }

  /** Shutdown counts a completion that nobody will take. */
  lemma AbandonedCompletionKeeps(s: State, j: JobId)
    requires Inv(s, {}, {}) && s.shuttingDown
    requires j in s.jobs && s.jobs[j].state.Complete?
    ensures s.jobCount > 0
    ensures Inv(Uncompleted(RecordCompletionAbandoned(s, s.jobs[j].entry.kind), j), {}, {})
  {
    hide Placed, Ledger, InterestsOk, DispatchedSet, CompleteSet;
    var kind := s.jobs[j].entry.kind;
    var t := RecordCompletionAbandoned(s, kind);
    PlacedIgnores(s, {}, t);
    UncompletedPlaced(t, j);
    var r := Uncompleted(t, j);
    InterestsForgotten(s, j);
    InterestsKept(WithoutJob(s, j), r);
    UncompletedSets(s, r, j);
    ConservedBy(s, {}, r, {}, kind);
  }

  lemma AbandonedAttemptSettles(s: State, j: JobId)
    requires Conserved(s, {})
    requires j in s.jobs && s.jobs[j].state.Dispatched?
    ensures Conserved(RecordAttemptAbandoned(s, s.jobs[j].entry.kind), {j})
  {
    var k := s.jobs[j].entry.kind;
    var r := RecordAttemptAbandoned(s, k);
    assert DispatchedSet(s, k, {}) == DispatchedSet(r, k, {j}) + {j};
    assert forall o: QueryKind :: o != k ==> DispatchedSet(r, o, {j}) == DispatchedSet(s, o, {});
    assert forall o: QueryKind :: CompleteSet(r, o) == CompleteSet(s, o);
    ConservedBy(s, {}, r, {j}, k);
  }

  // ---------------------------------------------------------------- helpers

  predicate FreeHelper(helper: Helper) {
    && helper.job.None? && helper.state !in {SendPending, Busy}
    && (helper.connected <==> helper.state in {Idle, ShuttingDown})
  }

  lemma HelperChangedKeeps(s: State, d: set<JobId>, settled: set<JobId>, h: nat, helper: Helper)
    requires Inv(s, d, settled)
    requires h < |s.helpers| && s.helpers[h].job.None? && FreeHelper(helper)
    ensures Inv(WithHelper(s, h, helper), d, settled)
  {
    hide Placed, Conserved, Ledger, InterestsOk;
    var r := WithHelper(s, h, helper);
    ChangeHelper(s, d, h, helper);
    BooksSame(s, settled, r);
    InterestsKept(s, r);
    if !s.shuttingDown {
      LedgerKept(s, r);
    }
  }

  /** Taking the job away from a helper leaves it in transit with its attempt not yet settled. */
  lemma HelperLeftKeeps(s: State, h: nat, helper: Helper)
    requires Inv(s, {}, {})
    requires h < |s.helpers| && s.helpers[h].job.Some? && FreeHelper(helper)
    ensures Inv(WithHelper(s, h, helper), {s.helpers[h].job.value}, {})
  {
    hide Placed, Conserved, Ledger, InterestsOk;
    var r := WithHelper(s, h, helper);
    LeaveHelper(s, h, helper);
    BooksSame(s, {}, r);
    InterestsKept(s, r);
    if !s.shuttingDown {
      LedgerKept(s, r);
    }
  }

  function Allocated(s: State): (r: State) {
    s.(nextQueryId := if s.nextQueryId == UINT64_MAX then 0 else s.nextQueryId + 1)
  }

  /** A fresh query id exceeds every outstanding one. */
  lemma AllocatedPlaced(s: State, d: set<JobId>)
    requires Placed(s, d) && s.nextQueryId != 0
    ensures Placed(Allocated(s), d)
    ensures forall k :: Outstanding(Allocated(s), d, k) ==> s.jobs[k].queryId < s.nextQueryId
  {
    hide Listed, Lent;
    var r := Allocated(s);
    assert forall o, k :: Waits(r, o, d, k) <==> Waits(s, o, d, k);
    assert forall k :: Finished(r, d, k) <==> Finished(s, d, k);
    ListedUnchanged(s, d, r, d);
    AllocatedLent(s, d);
  }

  lemma AllocatedLent(s: State, d: set<JobId>)
    requires Lent(s, d) && s.nextQueryId != 0
    ensures Lent(Allocated(s), d)
    ensures forall k :: Outstanding(Allocated(s), d, k) ==> s.jobs[k].queryId < s.nextQueryId
  {
    var r := Allocated(s);
    assert forall k :: Outstanding(r, d, k) <==> Outstanding(s, d, k);
    assert forall h: nat :: h < |s.helpers| && HelperExact(s, d, h) ==> HelperExact(r, d, h);
    assert forall k :: k in s.jobs && HeldBy(s, k) ==> HeldBy(r, k);
    assert forall k :: Outstanding(s, d, k) ==> QueryIdFits(s, k) && QueryIdFits(r, k);
  }

  lemma AllocatedKeeps(s: State, d: set<JobId>, settled: set<JobId>)
    requires Inv(s, d, settled) && s.nextQueryId != 0
    ensures Inv(Allocated(s), d, settled)
    ensures forall k :: Outstanding(Allocated(s), d, k) ==> s.jobs[k].queryId < s.nextQueryId
  {
    hide Placed, Conserved, Ledger, InterestsOk;
    var r := Allocated(s);
    AllocatedPlaced(s, d);
    BooksSame(s, settled, r);
    InterestsKept(s, r);
    if !s.shuttingDown {
      LedgerKept(s, r);
    }
  }

  /** The job record of a request handed to helper `h`. */
  function Lending(job: Job, h: nat, queryId: nat, state: JobState, dispatchedAt: Time, deadline: Time): (r: Job) {
    job.(queryId := queryId, slot := h, state := state, dispatchedAt := dispatchedAt, deadline := deadline)
  }

  ghost predicate CanLend(s: State, h: nat, j: JobId, queryId: nat) {
    && j in s.jobs && !s.jobs[j].state.Complete? && !s.jobs[j].orphaned
    && h < |s.helpers| && s.helpers[h].job.None? && s.helpers[h].connected
    && 0 < queryId <= UINT64_MAX && (s.nextQueryId != 0 ==> queryId < s.nextQueryId)
    && (forall k :: Outstanding(s, {j}, k) ==> s.jobs[k].queryId != queryId)
  }

  function LentTo(s: State, h: nat, j: JobId, job: Job): (r: State)
    requires h < |s.helpers|
  {
    WithHelper(WithJob(s, j, job), h,
      s.helpers[h].(job := Some(j), state := if job.state.Dispatched? then Busy else SendPending))
  }

  lemma LentToPlaced(s: State, h: nat, j: JobId, queryId: nat, state: JobState, dispatchedAt: Time, deadline: Time)
    requires Placed(s, {j}) && CanLend(s, h, j, queryId) && (state.Dispatched? || state.Sending?)
    ensures Placed(LentTo(s, h, j, Lending(s.jobs[j], h, queryId, state, dispatchedAt, deadline)), {})
  {
    hide Placed;
    var job := Lending(s.jobs[j], h, queryId, state, dispatchedAt, deadline);
    ChangeDetached(s, j, job);
    var t := WithJob(s, j, job);
    assert forall k :: Outstanding(t, {j}, k) ==> Outstanding(s, {j}, k);
    EnterHelper(t, h, j, s.helpers[h].(job := Some(j), state := if job.state.Dispatched? then Busy else SendPending));
  }

  lemma DispatchedBooks(s: State, r: State, j: JobId)
    requires Conserved(s, {j})
    requires OnlyJobChanged(s, r, j) && !s.jobs[j].state.Complete? && r.jobs[j].state.Dispatched?
    requires r.attempts == s.attempts && r.saturations == s.saturations
    ensures Conserved(RecordDispatched(r, s.jobs[j].entry.kind), {})
  {
    var kind := s.jobs[j].entry.kind;
    var u := RecordDispatched(r, kind);
    assert DispatchedSet(u, kind, {}) == DispatchedSet(s, kind, {j}) + {j};
    assert forall k: QueryKind :: k != kind ==> DispatchedSet(u, k, {}) == DispatchedSet(s, k, {j});
    assert forall k :: CompleteSet(u, k) == CompleteSet(s, k);
    ConservedBy(s, {j}, u, {}, kind);
  }

  /** Giving a job to a helper: the request was sent, or the socket is full. */
  lemma LentKeeps(s: State, h: nat, j: JobId, queryId: nat, state: JobState, dispatchedAt: Time, deadline: Time)
    requires Inv(s, {j}, {j}) && CanLend(s, h, j, queryId) && (state.Dispatched? || state.Sending?)
    ensures var r := LentTo(s, h, j, Lending(s.jobs[j], h, queryId, state, dispatchedAt, deadline));
            Inv(if state.Dispatched? then RecordDispatched(r, s.jobs[j].entry.kind) else r, {}, {})
  {
    hide Placed, Conserved, Ledger, InterestsOk;
    LentToPlaced(s, h, j, queryId, state, dispatchedAt, deadline);
    var r := LentTo(s, h, j, Lending(s.jobs[j], h, queryId, state, dispatchedAt, deadline));
    JobInterestOk(s, j);
    InterestsUpdated(s, r, j);
    if !s.shuttingDown {
      LedgerSame(s, r, j);
    }
    if state.Dispatched? {
      var u := RecordDispatched(r, s.jobs[j].entry.kind);
      PlacedIgnores(r, {}, u);
      InterestsKept(r, u);
      DispatchedBooks(s, r, j);
      if !s.shuttingDown {
        LedgerKept(r, u);
      }
    } else {
      BooksUndispatched(s, r, j);
    }
  }

  // ---------------------------------------------------------------- interest

  lemma MarkerAdded(markers: set<Marker>, m: Marker)
    requires m !in markers
    ensures |MarkersFor(markers + {m}, m.entry, m.priority)| == |MarkersFor(markers, m.entry, m.priority)| + 1
    ensures forall e: EntryId, p :: e != m.entry || p != m.priority ==>
            MarkersFor(markers + {m}, e, p) == MarkersFor(markers, e, p)
  {
    assert MarkersFor(markers + {m}, m.entry, m.priority) == MarkersFor(markers, m.entry, m.priority) + {m};
  }

  lemma MarkerRemoved(markers: set<Marker>, m: Marker)
    requires m in markers
    ensures |MarkersFor(markers - {m}, m.entry, m.priority)| == |MarkersFor(markers, m.entry, m.priority)| - 1
    ensures forall e: EntryId, p :: e != m.entry || p != m.priority ==>
            MarkersFor(markers - {m}, e, p) == MarkersFor(markers, e, p)
  {
    assert MarkersFor(markers, m.entry, m.priority) == MarkersFor(markers - {m}, m.entry, m.priority) + {m};
  }

  function Joined(job: Job, p: Priority): (r: Job) {
    if p.Interactive? then job.(interactive := job.interactive + 1, orphaned := false)
    else job.(background := job.background + 1, orphaned := false)
  }

  predicate Holds(job: Job, p: Priority) {
    if p.Interactive? then job.interactive > 0 else job.background > 0
  }

  function Withdrawn(job: Job, p: Priority): (r: Job)
    requires Holds(job, p)
  {
    if p.Interactive? then job.(interactive := job.interactive - 1) else job.(background := job.background - 1)
  }

  /** Changing a job's priority moves it to the tail of the other queue when it is queued. */
  function Reprioritised(s: State, j: JobId, p: Priority): (r: State)
    requires j in s.jobs
  {
    if s.jobs[j].priority == p then s
    else if s.jobs[j].state.Queued? then
      var t := Dequeued(s, j);
      WithQueue(WithJob(t, j, s.jobs[j].(priority := p)), p, QueueOf(t, p) + [j])
    else WithJob(s, j, s.jobs[j].(priority := p))
  }

  lemma ReprioritisedPlaced(s: State, j: JobId, p: Priority)
    requires Placed(s, {})
    requires j in s.jobs && (s.jobs[j].state.Queued? ==> s.jobs[j].queryId == 0)
    ensures Placed(Reprioritised(s, j, p), {})
  {
    hide Placed;
    if s.jobs[j].priority != p {
      if s.jobs[j].state.Queued? {
        LeaveQueue(s, j);
        var t := Dequeued(s, j);
        ChangeDetached(t, j, s.jobs[j].(priority := p));
        EnterQueue(WithJob(t, j, s.jobs[j].(priority := p)), j, QueueOf(t, p) + [j]);
      } else {
        ChangeInterest(s, {}, j, s.jobs[j].(priority := p));
      }
    }
  }

  lemma ReprioritisedJobs(s: State, j: JobId, p: Priority)
    requires j in s.jobs
    ensures var r := Reprioritised(s, j, p);
            r == s.(jobs := s.jobs[j := s.jobs[j].(priority := p)], interactive := r.interactive,
              background := r.background)
    ensures |Reprioritised(s, j, p).interactive| + |Reprioritised(s, j, p).background| >= |s.interactive|
            + |s.background|
  {
    if s.jobs[j].priority == p {
      assert s.jobs[j].(priority := p) == s.jobs[j];
      assert s.jobs[j := s.jobs[j]] == s.jobs;
    }
  }

  /** New interest counts together with the marker that caused them. */
  function WithInterest(s: State, j: JobId, job: Job, markers: set<Marker>): (r: State) {
    WithJob(s, j, job).(markers := markers)
  }

  lemma BooksInterest(s: State, r: State, j: JobId)
    requires Conserved(s, {}) && OnlyJobChanged(s, r, j)
    requires r.attempts == s.attempts && r.saturations == s.saturations
    requires r.jobs[j].state == s.jobs[j].state
    ensures Conserved(r, {})
  {
    hide Balanced;
    assert forall k :: DispatchedSet(r, k, {}) == DispatchedSet(s, k, {});
    assert forall k :: CompleteSet(r, k) == CompleteSet(s, k);
    ConservedSameJobs(s, {}, r, {});
  }

  function Coalesced(s: State, j: JobId, m: Marker): (r: State)
    requires j in s.jobs
  {
    var t := WithInterest(s, j, Joined(s.jobs[j], m.priority), s.markers + {m});
    if m.priority.Interactive? then Reprioritised(t, j, Interactive) else t
  }

  lemma QueuedHasNoQuery(s: State, j: JobId)
    requires Placed(s, {}) && j in s.jobs && s.jobs[j].state.Queued?
    ensures s.jobs[j].queryId == 0
  {
  }

  lemma InterestPlaced(s: State, j: JobId, job: Job, markers: set<Marker>, p: Priority)
    requires Placed(s, {})
    requires j in s.jobs && SamePlace(s.jobs[j], job)
    ensures Placed(WithInterest(s, j, job, markers), {})
    ensures Placed(Reprioritised(WithInterest(s, j, job, markers), j, p), {})
  {
    hide Placed;
    ChangeInterest(s, {}, j, job);
    var t := WithInterest(s, j, job, markers);
    PlacedIgnores(WithJob(s, j, job), {}, t);
    if job.state.Queued? {
      QueuedHasNoQuery(s, j);
    }
    ReprioritisedPlaced(t, j, p);
  }

  lemma CoalescedCounts(s: State, j: JobId, m: Marker)
    requires Ledger(s) && Indexed(s)
    requires j in s.jobs && m !in s.markers && m.entry == s.jobs[j].entry.id
    requires !s.jobs[j].state.Complete?
    ensures CountsMarkers(s.markers + {m}, Joined(s.jobs[j], m.priority))
    ensures forall e: EntryId, p :: e != s.jobs[j].entry.id ==>
            MarkersFor(s.markers + {m}, e, p) == MarkersFor(s.markers, e, p)
  {
    MarkerAdded(s.markers, m);
    assert CountsMarkers(s.markers, s.jobs[j]);
  }

  lemma CoalescedJob(s: State, j: JobId, m: Marker)
    requires j in s.jobs
    ensures var r := Coalesced(s, j, m);
            && OnlyJobChanged(s, r, j)
            && r.jobs[j] == (if m.priority.Interactive? then Joined(s.jobs[j], m.priority).(priority := Interactive)
                             else Joined(s.jobs[j], m.priority))
            && r == s.(jobs := r.jobs, markers := s.markers
               + {m}, interactive := r.interactive, background := r.background)
  {
    hide Reprioritised;
    ReprioritisedJobs(WithInterest(s, j, Joined(s.jobs[j], m.priority), s.markers + {m}), j, Interactive);
  }

  lemma CoalescedPlaced(s: State, j: JobId, m: Marker)
    requires Inv(s, {}, {}) && j in s.jobs && !s.jobs[j].state.Complete?
    ensures Placed(Coalesced(s, j, m), {})
  {
    hide Placed, Conserved, Ledger, InterestsOk, MarkersFor, Reprioritised;
    InterestPlaced(s, j, Joined(s.jobs[j], m.priority), s.markers + {m}, Interactive);
  }

  /** Another holder joins a running job. */
  lemma CoalescedKeeps(s: State, j: JobId, m: Marker)
    requires Inv(s, {}, {}) && !s.shuttingDown
    requires j in s.jobs && !s.jobs[j].state.Complete?
    requires m !in s.markers && m.entry == s.jobs[j].entry.id
    ensures Inv(Coalesced(s, j, m), {}, {})
  {
    hide Placed, Conserved, Ledger, InterestsOk, Indexed, MarkersFor, Reprioritised, Coalesced;
    var r := Coalesced(s, j, m);
    PlacedIndexed(s, {});
    CoalescedPlaced(s, j, m);
    CoalescedJob(s, j, m);
    CoalescedCounts(s, j, m);
    LedgerUpdated(s, r, j);
    JobInterestOk(s, j);
    InterestsUpdated(s, r, j);
    BooksInterest(s, r, j);
  }

  lemma PlacedIndexed(s: State, d: set<JobId>)
    requires Placed(s, d)
    ensures Indexed(s)
  {
    hide Indexed;
  }

  /** One holder withdraws and others, or a running attempt, remain. */
  function Released(s: State, j: JobId, m: Marker): (r: State)
    requires j in s.jobs && Holds(s.jobs[j], m.priority)
  {
    var job := Withdrawn(s.jobs[j], m.priority);
    var t := WithInterest(s, j, if job.Unwanted() then job.(orphaned := true) else job, s.markers - {m});
    if job.interactive == 0 then Reprioritised(t, j, Background) else t
  }

  lemma HeldMarkerCounts(s: State, j: JobId, m: Marker)
    requires Ledger(s) && j in s.jobs && !s.jobs[j].state.Complete?
    requires m in s.markers && m.entry == s.jobs[j].entry.id
    ensures Holds(s.jobs[j], m.priority)
    ensures CountsMarkers(s.markers - {m}, Withdrawn(s.jobs[j], m.priority))
    ensures forall e: EntryId, p :: e != s.jobs[j].entry.id ==>
            MarkersFor(s.markers - {m}, e, p) == MarkersFor(s.markers, e, p)
  {
    assert m in MarkersFor(s.markers, m.entry, m.priority);
    assert CountsMarkers(s.markers, s.jobs[j]);
    MarkerRemoved(s.markers, m);
  }

  function Reduced(job: Job, p: Priority): (r: Job)
    requires Holds(job, p)
  {
    var rest := Withdrawn(job, p);
    if rest.Unwanted() then rest.(orphaned := true) else rest
  }

  lemma ReleasedJob(s: State, j: JobId, m: Marker)
    requires j in s.jobs && Holds(s.jobs[j], m.priority)
    ensures var r := Released(s, j, m);
            && OnlyJobChanged(s, r, j)
            && r.jobs[j] == (if Reduced(s.jobs[j], m.priority).interactive == 0
                               then Reduced(s.jobs[j], m.priority).(priority := Background) else Reduced(s.jobs[j],
                                 m.priority))
            && r == s.(jobs := r.jobs, markers := s.markers - {m}, interactive := r.interactive,
               background := r.background)
  {
    hide Reprioritised;
    ReprioritisedJobs(WithInterest(s, j, Reduced(s.jobs[j], m.priority), s.markers - {m}), j, Background);
  }

  lemma ReleasedPlaced(s: State, j: JobId, m: Marker)
    requires Placed(s, {}) && Indexed(s) && j in s.jobs && !s.jobs[j].state.Complete? && Holds(s.jobs[j], m.priority)
    ensures Placed(Released(s, j, m), {})
  {
    hide Placed, Indexed, MarkersFor, Reprioritised;
    InterestPlaced(s, j, Reduced(s.jobs[j], m.priority), s.markers - {m}, Background);
  }

  lemma ReleasedKeeps(s: State, j: JobId, m: Marker)
    requires Inv(s, {}, {}) && !s.shuttingDown
    requires j in s.jobs && !s.jobs[j].state.Complete?
    requires m in s.markers && m.entry == s.jobs[j].entry.id && Holds(s.jobs[j], m.priority)
    requires s.jobs[j].state.Dispatched? || !Withdrawn(s.jobs[j], m.priority).Unwanted()
    ensures Inv(Released(s, j, m), {}, {})
  {
    hide Placed, Conserved, Ledger, InterestsOk, Indexed, MarkersFor, Reprioritised, Released;
    var r := Released(s, j, m);
    PlacedIndexed(s, {});
    ReleasedPlaced(s, j, m);
    ReleasedJob(s, j, m);
    HeldMarkerCounts(s, j, m);
    LedgerUpdated(s, r, j);
    JobInterestOk(s, j);
    InterestsUpdated(s, r, j);
    BooksInterest(s, r, j);
  }

  lemma LastReleaseLedger(s: State, j: JobId, m: Marker)
    requires Indexed(s) && Ledger(s) && s.jobCount > 0
    requires j in s.jobs && !s.jobs[j].state.Complete?
    requires m in s.markers && m.entry == s.jobs[j].entry.id && Holds(s.jobs[j], m.priority)
    requires Withdrawn(s.jobs[j], m.priority).Unwanted()
    ensures Ledger(WithoutJob(s, j).(markers := s.markers - {m}))
  {
    var r := WithoutJob(s, j).(markers := s.markers - {m});
    HeldMarkerCounts(s, j, m);
    var e := s.jobs[j].entry.id;
    assert MarkersFor(r.markers, e, Background) == {} && MarkersFor(r.markers, e, Interactive) == {};
    forall n | n in r.markers
      ensures n.entry in r.index
    {
      assert n !in MarkersFor(r.markers, e, n.priority);
    }
    forall k | k in r.jobs
      ensures CountsMarkers(r.markers, r.jobs[k])
    {
      assert s.jobs[k].entry.id != e;
      assert CountsMarkers(s.markers, s.jobs[k]);
    }
  }

  /** The last holder withdraws from a job no helper has answered for: the job, already taken out of
      its list or helper, is dropped together with the marker. */
  lemma LastReleaseKeeps(s: State, j: JobId, m: Marker)
    requires Inv(s, {j}, {j}) && !s.shuttingDown
    requires j in s.jobs && !s.jobs[j].state.Complete?
    requires m in s.markers && m.entry == s.jobs[j].entry.id && Holds(s.jobs[j], m.priority)
    requires Withdrawn(s.jobs[j], m.priority).Unwanted()
    ensures s.jobCount > 0
    ensures Inv(WithoutJob(s, j).(markers := s.markers - {m}), {}, {})
  {
    assert Indexed(s);
    hide Placed, Conserved, Ledger, InterestsOk, Indexed;
    Forget(s, j);
    var t := WithoutJob(s, j);
    var r := t.(markers := s.markers - {m});
    PlacedIgnores(t, {}, r);
    LastReleaseLedger(s, j, m);
    InterestsForgotten(s, j);
    InterestsKept(t, r);
    ForgottenBooks(s, j);
    BooksSame(t, {}, r);
  }

  function FreshJob(entry: Entry, p: Priority): (job: Job) {
    Job(entry, if p.Background? then 1
               else 0, if p.Interactive? then 1 else 0, false, p, 0, UINT64_MAX, Queued, 0, 0, 0, 0, Stored)
  }

  lemma AdmittedLedger(s: State, entry: Entry, m: Marker)
    requires Ledger(s) && Indexed(s)
    requires entry.id !in s.index && m !in s.markers && m.entry == entry.id
    ensures Ledger(WithNewJob(s, FreshJob(entry, m.priority)).(markers := s.markers + {m}))
  {
    var r := WithNewJob(s, FreshJob(entry, m.priority)).(markers := s.markers + {m});
    MarkerAdded(s.markers, m);
    assert MarkersFor(s.markers, entry.id, Background) == {} && MarkersFor(s.markers, entry.id, Interactive) == {};
    forall k | k in r.jobs
      ensures CountsMarkers(r.markers, r.jobs[k])
    {
      if k != s.nextJobId {
        assert s.jobs[k].entry.id != entry.id;
        assert CountsMarkers(s.markers, s.jobs[k]);
      }
    }
  }

  lemma AdmittedBooks(s: State, job: Job, markers: set<Marker>)
    requires Conserved(s, {}) && Counted(s) && job.state.Queued?
    ensures Conserved(WithNewJob(s, job).(markers := markers), {s.nextJobId})
  {
    hide Balanced;
    var j := s.nextJobId;
    var r := WithNewJob(s, job).(markers := markers);
    assert j !in s.jobs;
    assert forall k :: DispatchedSet(r, k, {j}) == DispatchedSet(s, k, {});
    assert forall k :: CompleteSet(r, k) == CompleteSet(s, k);
    ConservedSameJobs(s, {}, r, {j});
  }

  lemma AdmittedKeeps(s: State, entry: Entry, m: Marker)
    requires Inv(s, {}, {}) && !s.shuttingDown
    requires entry.id !in s.index && s.jobCount < s.jobLimit
    requires m !in s.markers && m.entry == entry.id
    ensures Inv(WithNewJob(s, FreshJob(entry, m.priority)).(markers := s.markers + {m}), {s.nextJobId}, {s.nextJobId})
  {
    assert Counted(s) && Indexed(s);
    hide Placed, Conserved, Ledger, Counted, Indexed;
    var job := FreshJob(entry, m.priority);
    var j := s.nextJobId;
    Introduce(s, job);
    var t := WithNewJob(s, job);
    var r := t.(markers := s.markers + {m});
    PlacedIgnores(t, {j}, r);
    AdmittedLedger(s, entry, m);
    AdmittedBooks(s, job, s.markers + {m});
  }
}
