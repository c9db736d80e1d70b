/** What one step of the resolver supervisor does to the value-level state: retries, helper
    failures, handing a job over, dispatch rounds, answers, timers and shutdown, each with the
    lemma that it keeps the invariant and a statement of what it leaves alone.
 */
module SupervisorSteps {
  import opened Basics
  import opened SupervisorState
  import opened SupervisorMoves

  const NANOSECONDS_PER_MILLISECOND: nat := 1_000_000
  const NANOSECONDS_PER_SECOND: nat := 1_000_000_000
  const TIME_LIMIT: nat := 0x8000_0000_0000_0000 * 1_000_000_000
  const QUERY_TIMEOUT_SEC: nat := 10
  const RESPAWN_RESET_STABLE_SEC: nat := 60
  const RESPAWN_RESET_SUCCESS_COUNT: nat := 3
  const SHUTDOWN_GRACE_MS: nat := 1000
  const INTEREST_COUNT_LIMIT: nat := UINT64_MAX

  const OUTCOME_OK: nat := 0
  const OUTCOME_NODATA: nat := 5
  const OUTCOME_NOT_FOUND: nat := 6
  const OUTCOME_TEMPORARY: nat := 8

  const FAILURE_EXIT: nat := 1
  const FAILURE_IO: nat := 2
  const FAILURE_PROTOCOL: nat := 3
  const FAILURE_TIMEOUT: nat := 5

  datatype SendStatus = SendOk | SendIo | SendTime
  datatype SendEffect = NotSent | SentWhole | WouldBlock
  datatype AssignStatus = AssignOk | AssignRetry | AssignLimit | AssignTime | AssignIo
  datatype RetryOutcome = Dropped | Planned(count: nat, at: Time) | Overflowed(count: nat)
  datatype ScheduleStatus = Started | Shared | AlreadyComplete | Fresh | ScheduleBadArgument | ScheduleIo
      | ScheduleLimit | ScheduleMemory | ScheduleTime
  datatype ReleaseStatus = ReleaseOk | Satisfied | ReleaseBadArgument | ReleaseIo | ReleaseTime
  datatype EventStatus = EventOk | EventIo | EventTime
  datatype CacheView = Unreadable | Empty | FreshView
  /** What one `recv` on a helper socket can bring. */
  datatype Received = Oversized | Accepted | Completing(completedAt: int) | Rejected | EmptyRead | ReadError

  function TimeAfter(now: Time, nanoseconds: nat): (r: Option<Time>) {
    if now + nanoseconds < TIME_LIMIT then Some(now + nanoseconds) else None
  }

  // ---------------------------------------------------------------- specification of one retry

  function AfterRetry(s: State, j: JobId, outcome: RetryOutcome): (r: State)
    requires j in s.jobs && s.jobCount > 0
  {
    match outcome
    case Dropped => WithoutJob(s, j)
    case Planned(count, at) => RetryPlanned(s, j, count, at)
    case Overflowed(count) => Completed(WithJob(s, j, s.jobs[j].(retryCount := count)), j, TimeOverflow)
  }

  /** Fields that neither placement, interest nor the books look at. */
  predicate Tweaked(job: Job, job': Job) {
    job' == job.(queryId := job'.queryId, slot := job'.slot, retryCount := job'.retryCount, deadline := job'.deadline)
  }

  lemma TweakedBooks(s: State, settled: set<JobId>, j: JobId, job: Job)
    requires Conserved(s, settled) && j in s.jobs && Tweaked(s.jobs[j], job)
    ensures Conserved(WithJob(s, j, job), settled)
  {
    hide Balanced;
    var r := WithJob(s, j, job);
    assert forall k :: DispatchedSet(r, k, settled) == DispatchedSet(s, k, settled);
    assert forall k :: CompleteSet(r, k) == CompleteSet(s, k);
    ConservedSameJobs(s, settled, r, settled);
  }

  lemma TweakedKeeps(s: State, settled: set<JobId>, j: JobId, job: Job)
    requires Inv(s, {j}, settled)
    requires j in s.jobs && !s.jobs[j].state.Complete? && Tweaked(s.jobs[j], job)
    ensures Inv(WithJob(s, j, job), {j}, settled)
  {
    hide Placed, Conserved, Ledger, InterestsOk;
    var r := WithJob(s, j, job);
    ChangeDetached(s, j, job);
    JobInterestOk(s, j);
    InterestsUpdated(s, r, j);
    TweakedBooks(s, settled, j, job);
    if !s.shuttingDown {
      LedgerSame(s, r, j);
    }
  }

  /** Retrying a job in transit is safe because only a dispatched job can be orphaned. */
  lemma AfterRetryKeeps(s: State, j: JobId, outcome: RetryOutcome)
    requires Inv(s, {j}, {j})
    requires j in s.jobs && s.jobs[j].queryId == 0 && !s.jobs[j].state.Complete?
    requires outcome.Dropped? <==> s.jobs[j].orphaned
    ensures s.jobCount > 0
    ensures Inv(AfterRetry(s, j, outcome), {}, {})
  {
    assert InterestOk(s.jobs[j]);
    hide Placed, Conserved, Ledger, InterestsOk, Inv;
    HasJobs(s, {j}, {j}, j);
    match outcome
    case Dropped => ForgottenKeeps(s, j);
    case Planned(count, at) => RetryPlannedKeeps(s, j, count, at);
    case Overflowed(count) =>
      TweakedKeeps(s, {j}, j, s.jobs[j].(retryCount := count));
      CompletedKeeps(WithJob(s, j, s.jobs[j].(retryCount := count)), j, TimeOverflow);
  }

  lemma HasJobs(s: State, d: set<JobId>, settled: set<JobId>, j: JobId)
    requires Inv(s, d, settled) && j in s.jobs
    ensures s.jobCount > 0
    ensures s.jobs[j].entry.id in s.index && s.index[s.jobs[j].entry.id] == j
  {
    assert j in s.jobs.Keys;
  }

  /** Everything a retry leaves alone. */
  lemma AfterRetryFrame(s: State, j: JobId, outcome: RetryOutcome)
    requires j in s.jobs && s.jobCount > 0
    ensures var r := AfterRetry(s, j, outcome);
            && r.helpers == s.helpers && r.markers == s.markers && r.decisions == s.decisions
            && r.interactive == s.interactive && r.background == s.background
            && r.shuttingDown == s.shuttingDown && r.nextQueryId == s.nextQueryId && r.jobLimit == s.jobLimit
               && r.nextJobId == s.nextJobId
            && (!outcome.Dropped? ==> r.index == s.index)
            && (forall k :: k in r.jobs ==> k in s.jobs && (k != j ==> r.jobs[k] == s.jobs[k]))
            && (j in r.jobs ==>
               !r.jobs[j].state.Dispatched?
                 && (r.jobs[j].state.RetryWait? ==> outcome.Planned? && r.jobs[j].retryAt == outcome.at))
  {
  }

  // ---------------------------------------------------------------- timeliness

  /** No running attempt is past its deadline and no postponed retry is due. */
  ghost predicate AttemptsTimely(s: State, now: Time) {
    forall j :: j in s.jobs && s.jobs[j].state.Dispatched? ==> now < s.jobs[j].deadline
  }

  ghost predicate RetriesTimely(s: State, now: Time) {
    forall j :: j in s.jobs && s.jobs[j].state.RetryWait? ==> now < s.jobs[j].retryAt
  }

  /** Only a dispatch starts an attempt; a job that is dispatched afterwards was so before. */
  ghost predicate NoNewAttempts(s: State, r: State) {
    forall j :: j in r.jobs && r.jobs[j].state.Dispatched? ==> j in s.jobs && r.jobs[j] == s.jobs[j]
  }

  /** Retries planned since were planned after `now`. */
  ghost predicate NewRetriesLater(s: State, r: State, now: Time) {
    forall j :: j in r.jobs && r.jobs[j].state.RetryWait? ==>
      now < r.jobs[j].retryAt || (j in s.jobs && r.jobs[j] == s.jobs[j])
  }

  // ---------------------------------------------------------------- specification of a helper failure

  /** What a failing helper does to the job it held; the helper itself is handled separately. */
  function FailedJob(s: State, j: JobId, failure: nat, outcome: RetryOutcome): (r: State)
    requires j in s.jobs && s.jobCount > 0 && failure < FAILURE_COUNT
  {
    var t := WithJob(s, j, s.jobs[j].(queryId := 0));
    if s.jobs[j].state.Dispatched? then AfterRetry(RecordFailure(t, s.jobs[j].entry.kind, failure), j, outcome)
    else Requeued(t, j, true)
  }

  predicate Attemptable(job: Job) {
    && job.state in {Queued, Sending, Dispatched}
    && (job.orphaned ==> job.state.Dispatched?)
  }

  lemma RecordedKeeps(s: State, j: JobId, r: State)
    requires Inv(s, {j}, {})
    requires r == s.(attempts := r.attempts, saturations := r.saturations)
    requires Conserved(r, {j})
    ensures Inv(r, {j}, {j})
  {
    hide Placed, Conserved, Ledger, InterestsOk;
    PlacedIgnores(s, {j}, r);
    InterestsKept(s, r);
    if !s.shuttingDown {
      LedgerKept(s, r);
    }
  }

  lemma FailedJobKeeps(s: State, j: JobId, failure: nat, outcome: RetryOutcome)
    requires Inv(s, {j}, {})
    requires j in s.jobs && Attemptable(s.jobs[j]) && failure < FAILURE_COUNT
    requires s.jobs[j].state.Dispatched? ==> (outcome.Dropped? <==> s.jobs[j].orphaned)
    ensures s.jobCount > 0
    ensures Inv(FailedJob(s, j, failure, outcome), {}, {})
  {
    HasJobs(s, {j}, {}, j);
    TweakedKeeps(s, {}, j, s.jobs[j].(queryId := 0));
    var t := WithJob(s, j, s.jobs[j].(queryId := 0));
    if s.jobs[j].state.Dispatched? {
      SettleByFailure(t, j, failure);
      var u := RecordFailure(t, s.jobs[j].entry.kind, failure);
      hide Placed, Conserved, Ledger, InterestsOk, Inv;
      RecordedKeeps(t, j, u);
      AfterRetryKeeps(u, j, outcome);
    } else {
      NothingToSettle(t, j);
      hide Placed, Conserved, Ledger, InterestsOk;
      RequeuedKeeps(t, j, true);
    }
  }

  /** The job part of a failure and the helper table are independent. */
  lemma FailedJobHelpers(s: State, helpers: seq<Helper>, j: JobId, failure: nat, outcome: RetryOutcome)
    requires j in s.jobs && s.jobCount > 0 && failure < FAILURE_COUNT
    ensures FailedJob(s.(helpers := helpers), j, failure, outcome)
            == FailedJob(s, j, failure, outcome).(helpers := helpers)
  {
    hide AfterRetry;
    var t := RecordFailure(WithJob(s, j, s.jobs[j].(queryId := 0)), s.jobs[j].entry.kind, failure);
    AfterRetryHelpers(t, helpers, j, outcome);
  }

  /** A failure clears the query id itself, so it does not matter whether that happened before. */
  lemma FailedUnnumbered(s: State, j: JobId, failure: nat)
    requires j in s.jobs && failure < FAILURE_COUNT
    ensures s.jobCount > 0 ==>
            forall outcome :: FailedJob(WithJob(s, j, s.jobs[j].(queryId := 0)), j, failure, outcome)
              == FailedJob(s, j, failure, outcome)
  {
    var t := WithJob(s, j, s.jobs[j].(queryId := 0));
    assert WithJob(t, j, t.jobs[j].(queryId := 0)) == t;
  }

  /** Dealing with a failed job leaves the helpers and the mode of operation alone. */
  lemma FailedJobQuiet(s: State, j: JobId, failure: nat, outcome: RetryOutcome)
    requires j in s.jobs && s.jobCount > 0 && failure < FAILURE_COUNT
    ensures FailedJob(s, j, failure, outcome).shuttingDown == s.shuttingDown
            && FailedJob(s, j, failure, outcome).helpers == s.helpers
  {
  }

  lemma AfterRetryHelpers(s: State, helpers: seq<Helper>, j: JobId, outcome: RetryOutcome)
    requires j in s.jobs && s.jobCount > 0
    ensures AfterRetry(s.(helpers := helpers), j, outcome) == AfterRetry(s, j, outcome).(helpers := helpers)
  {
  }

  lemma FailedJobFrame(s: State, j: JobId, failure: nat, outcome: RetryOutcome)
    requires j in s.jobs && s.jobCount > 0 && failure < FAILURE_COUNT
    ensures var r := FailedJob(s, j, failure, outcome);
            && r.helpers == s.helpers && r.markers == s.markers && r.decisions == s.decisions
               && r.shuttingDown == s.shuttingDown
            && r.jobLimit == s.jobLimit
            && |r.interactive| + |r.background| == |s.interactive| + |s.background|
               + (if s.jobs[j].state.Dispatched? then 0 else 1)
            && (!s.jobs[j].state.Dispatched? || !outcome.Dropped? ==> r.index == s.index)
            && (j in r.jobs ==> !r.jobs[j].state.Dispatched?)
  {
    hide AfterRetry;
    var t := WithJob(s, j, s.jobs[j].(queryId := 0));
    AfterRetryFrame(RecordFailure(t, s.jobs[j].entry.kind, failure), j, outcome);
  }

  lemma FailedJobTimes(s: State, j: JobId, failure: nat, outcome: RetryOutcome, now: Time)
    requires j in s.jobs && s.jobCount > 0 && failure < FAILURE_COUNT && !s.jobs[j].state.RetryWait?
    requires outcome.Planned? ==> now < outcome.at
    ensures NoNewAttempts(s, FailedJob(s, j, failure, outcome))
    ensures NewRetriesLater(s, FailedJob(s, j, failure, outcome), now)
  {
    hide AfterRetry, RecordFailure;
    var t := WithJob(s, j, s.jobs[j].(queryId := 0));
    FailureRecorded(t, s.jobs[j].entry.kind, failure);
    if s.jobs[j].state.Dispatched? {
      AfterRetryFrame(RecordFailure(t, s.jobs[j].entry.kind, failure), j, outcome);
    }
  }

  lemma FailureRecorded(s: State, k: QueryKind, f: nat)
    requires f < FAILURE_COUNT
    ensures RecordFailure(s, k, f).jobs == s.jobs && RecordFailure(s, k, f).jobCount == s.jobCount
  {
  }

  lemma TimesKept(s: State, t: State, r: State, now: Time)
    requires NoNewAttempts(s, t) && NewRetriesLater(s, t, now) && r.jobs == t.jobs
    ensures NoNewAttempts(s, r) && NewRetriesLater(s, r, now)
  {
  }

  lemma TimesSame(s: State, r: State, now: Time)
    requires r.jobs == s.jobs
    ensures NoNewAttempts(s, r) && NewRetriesLater(s, r, now)
  {
  }

  // ---------------------------------------------------------------- specification of sending

  function Freed(helper: Helper): (r: Helper) {
    helper.(job := None, state := Backoff, connected := false)
  }

  lemma HelperJob(s: State, h: nat)
    requires Inv(s, {}, {}) && h < |s.helpers|
    ensures s.helpers[h].connected <==> s.helpers[h].state in {Idle, SendPending, Busy, ShuttingDown}
    ensures s.helpers[h].job.Some? <==> s.helpers[h].state in {SendPending, Busy}
    ensures s.helpers[h].job.Some? ==>
              var j := s.helpers[h].job.value;
              j in s.jobs && s.jobs[j].slot == h
                && s.jobs[j].state == (if s.helpers[h].state.Busy? then Dispatched else Sending)
              && (s.jobs[j].orphaned ==> s.jobs[j].state.Dispatched?) && Outstanding(s, {}, j) && QueryIdFits(s, j)
  {
    assert HelperExact(s, {}, h);
    if s.helpers[h].job.Some? {
      assert InterestOk(s.jobs[s.helpers[h].job.value]);
      assert Outstanding(s, {}, s.helpers[h].job.value);
    }
  }

  /** A helper in place can always fail. */
  lemma PlacedCanFail(s: State, h: nat)
    requires Inv(s, {}, {}) && h < |s.helpers| && s.helpers[h].job.Some?
    ensures s.helpers[h].job.value in s.jobs && Attemptable(s.jobs[s.helpers[h].job.value])
    ensures Inv(WithHelper(s, h, Freed(s.helpers[h])), {s.helpers[h].job.value}, {})
  {
    hide Placed, Conserved, Ledger, InterestsOk, Inv;
    HelperJob(s, h);
    HelperLeftKeeps(s, h, Freed(s.helpers[h]));
  }

  /** A helper whose job was being handed over when the send failed. */
  lemma HandoverCanFail(s: State, h: nat, j: JobId, job: Job)
    requires Inv(s, {j}, {j}) && h < |s.helpers| && s.helpers[h].job.None?
    requires j in s.jobs && s.jobs[j].state.Queued? && Tweaked(s.jobs[j], job)
    ensures Inv(WithHelper(WithJob(s, j, job), h, Freed(s.helpers[h])), {j}, {})
  {
    TweakedKeeps(s, {j}, j, job);
    var t := WithJob(s, j, job);
    HelperChangedKeeps(t, {j}, {j}, h, Freed(s.helpers[h]));
    hide Placed, Ledger, InterestsOk, Conserved;
    NothingToSettle(WithHelper(t, h, Freed(s.helpers[h])), j);
  }

  /** The state after a whole request left for helper `h`, or would have blocked. */
  function Handed(s: State, h: nat, j: JobId, state: JobState, now: Time, deadline: Time): (r: State)
    requires h < |s.helpers| && j in s.jobs
  {
    var t := HandedOver(s, h, j, state, now, deadline);
    if state.Dispatched? then RecordDispatched(t, s.jobs[j].entry.kind) else t
  }

  function HandedOver(s: State, h: nat, j: JobId, state: JobState, now: Time, deadline: Time): (r: State)
    requires h < |s.helpers| && j in s.jobs
  {
    var job := if state.Dispatched? then s.jobs[j].(state := Dispatched, dispatchedAt := now, deadline := deadline)
               else s.jobs[j].(state := Sending);
    WithHelper(WithJob(s, j, job), h, s.helpers[h].(state := if state.Dispatched? then Busy else SendPending))
  }

  lemma HandedIsLent(s: State, h: nat, j: JobId, queryId: nat, state: JobState, now: Time, deadline: Time)
    requires h < |s.helpers| && j in s.jobs && (state.Dispatched? || state.Sending?)
    ensures var v := WithHelper(WithJob(s, j, s.jobs[j].(queryId := queryId, slot := h)), h,
            s.helpers[h].(job := Some(j)));
            var job := if state.Dispatched? then Lending(s.jobs[j], h, queryId, state, now, deadline)
                       else Lending(s.jobs[j], h, queryId, state, s.jobs[j].dispatchedAt, s.jobs[j].deadline);
            var r := LentTo(s, h, j, job);
            Handed(v, h, j, state, now, deadline) == if state.Dispatched? then RecordDispatched(r, s.jobs[j].entry.kind)
                                                     else r
  {
    hide RecordDispatched;
    var v := WithHelper(WithJob(s, j, s.jobs[j].(queryId := queryId, slot := h)), h, s.helpers[h].(job := Some(j)));
    var job := if state.Dispatched? then Lending(s.jobs[j], h, queryId, state, now, deadline)
               else Lending(s.jobs[j], h, queryId, state, s.jobs[j].dispatchedAt, s.jobs[j].deadline);
    var r := LentTo(s, h, j, job);
    var o := HandedOver(v, h, j, state, now, deadline);
    assert o.jobs == r.jobs && o.helpers == r.helpers;
    assert o == r;
  }

  /** Handing over a job taken from its queue. */
  lemma HandedKeeps(s: State, h: nat, j: JobId, queryId: nat, state: JobState, now: Time, deadline: Time)
    requires Inv(s, {j}, {j}) && CanLend(s, h, j, queryId) && (state.Dispatched? || state.Sending?)
    ensures j in s.jobs && h < |s.helpers|
    ensures var v := WithHelper(WithJob(s, j, s.jobs[j].(queryId := queryId, slot := h)), h,
            s.helpers[h].(job := Some(j)));
            Inv(Handed(v, h, j, state, now, deadline), {}, {})
  {
    assert j in s.jobs && h < |s.helpers|;
    hide Inv, CanLend, Handed, LentTo, RecordDispatched;
    if state.Dispatched? {
      LentKeeps(s, h, j, queryId, state, now, deadline);
    } else {
      LentKeeps(s, h, j, queryId, state, s.jobs[j].dispatchedAt, s.jobs[j].deadline);
    }
    HandedIsLent(s, h, j, queryId, state, now, deadline);
  }

  lemma ResendCanLend(s: State, h: nat)
    requires Inv(s, {}, {}) && h < |s.helpers| && s.helpers[h].state.SendPending?
    ensures s.helpers[h].job.Some? && s.helpers[h].job.value in s.jobs
    ensures var j := s.helpers[h].job.value;
            CanLend(WithHelper(s, h, s.helpers[h].(job := None, state := Idle)), h, j, s.jobs[j].queryId)
  {
    HelperJob(s, h);
    var j := s.helpers[h].job.value;
    var t := WithHelper(s, h, s.helpers[h].(job := None, state := Idle));
    forall k | Outstanding(t, {j}, k)
      ensures s.jobs[k].queryId != s.jobs[j].queryId
    {
      assert Outstanding(s, {}, k) && Outstanding(s, {}, j);
    }
  }

  lemma ResentIsHanded(s: State, h: nat, j: JobId, state: JobState, now: Time, deadline: Time)
    requires h < |s.helpers| && s.helpers[h].job == Some(j) && s.helpers[h].state.SendPending? && j in s.jobs
             && s.jobs[j].slot == h
    ensures var t := WithHelper(s, h, s.helpers[h].(job := None, state := Idle));
            var v := WithHelper(WithJob(t, j, t.jobs[j].(queryId := s.jobs[j].queryId, slot := h)), h,
              t.helpers[h].(job := Some(j)));
            Handed(v, h, j, state, now, deadline) == Handed(s, h, j, state, now, deadline)
  {
    hide RecordDispatched;
    var t := WithHelper(s, h, s.helpers[h].(job := None, state := Idle));
    var v := WithHelper(WithJob(t, j, t.jobs[j].(queryId := s.jobs[j].queryId, slot := h)), h,
      t.helpers[h].(job := Some(j)));
    assert v.jobs == s.jobs;
    var o := HandedOver(v, h, j, state, now, deadline);
    var r := HandedOver(s, h, j, state, now, deadline);
    assert o.helpers == r.helpers;
    assert o == r;
  }

  /** Taking the job back from a helper that could not send it yet. */
  lemma RecalledKeeps(s: State, h: nat)
    requires Inv(s, {}, {}) && h < |s.helpers| && s.helpers[h].state.SendPending?
    ensures s.helpers[h].job.Some? && s.helpers[h].job.value in s.jobs
    ensures var j := s.helpers[h].job.value; Inv(WithHelper(s, h, s.helpers[h].(job := None, state := Idle)), {j}, {j})
  {
    HelperJob(s, h);
    hide Placed, Conserved, Ledger, InterestsOk;
    var j := s.helpers[h].job.value;
    var idle := s.helpers[h].(job := None, state := Idle);
    HelperLeftKeeps(s, h, idle);
    NothingToSettle(WithHelper(s, h, idle), j);
  }

  /** Sending again from a helper that was waiting for its socket. */
  lemma ResentKeeps(s: State, h: nat, state: JobState, now: Time, deadline: Time)
    requires Inv(s, {}, {}) && h < |s.helpers| && s.helpers[h].state.SendPending?
             && (state.Dispatched? || state.Sending?)
    ensures s.helpers[h].job.Some? && s.helpers[h].job.value in s.jobs
    ensures Inv(Handed(s, h, s.helpers[h].job.value, state, now, deadline), {}, {})
  {
    hide Inv, CanLend, Handed, Outstanding, QueryIdFits;
    HelperJob(s, h);
    ResendCanLend(s, h);
    RecalledKeeps(s, h);
    var j := s.helpers[h].job.value;
    HandedKeeps(WithHelper(s, h, s.helpers[h].(job := None, state := Idle)), h, j, s.jobs[j].queryId, state, now,
      deadline);
    ResentIsHanded(s, h, j, state, now, deadline);
  }

  /** Handing one job to one helper touches nothing else. */
  ghost predicate OnlyHandover(s: State, r: State, h: nat, j: JobId) {
    && j in s.jobs && j in r.jobs && h < |s.helpers| && |r.helpers| == |s.helpers|
    && r == s.(jobs := s.jobs[j := r.jobs[j]], helpers := s.helpers[h := r.helpers[h]], nextQueryId := r.nextQueryId,
               attempts := r.attempts, saturations := r.saturations, decisions := r.decisions)
    && r.jobs[j].entry == s.jobs[j].entry && r.jobs[j].orphaned == s.jobs[j].orphaned
       && r.jobs[j].priority == s.jobs[j].priority
  }

  function Decided(s: State, j: JobId): (r: State)
    requires j in s.jobs
  {
    s.(decisions := s.decisions + [Assignment(j, s.jobs[j].priority, |s.interactive|)])
  }

  /** A background job is only ever handed out when no interactive one waits. */
  lemma DecidedKeeps(s: State, d: set<JobId>, settled: set<JobId>, j: JobId)
    requires Inv(s, d, settled) && j in s.jobs
    requires s.jobs[j].priority.Background? ==> s.interactive == []
    ensures Inv(Decided(s, j), d, settled)
  {
    var r := Decided(s, j);
    assert Prioritised(r.decisions);
    hide Placed, Conserved, Ledger, InterestsOk, Prioritised;
    PlacedIgnores(s, d, r);
    BooksSame(s, settled, r);
    InterestsKept(s, r);
    if !s.shuttingDown {
      LedgerKept(s, r);
    }
  }

  lemma FreshQueryCanLend(s: State, h: nat, j: JobId)
    requires Inv(s, {j}, {j}) && s.nextQueryId != 0
    requires j in s.jobs && s.jobs[j].state.Queued? && h < |s.helpers| && s.helpers[h].state.Idle?
    ensures Inv(Allocated(s), {j}, {j}) && CanLend(Allocated(s), h, j, s.nextQueryId)
  {
    AllocatedKeeps(s, {j}, {j});
    assert HelperExact(s, {j}, h);
    assert InterestOk(s.jobs[j]);
  }

  lemma HandedFrame(s: State, h: nat, j: JobId, queryId: nat, state: JobState, now: Time, deadline: Time)
    requires j in s.jobs && h < |s.helpers| && (state.Dispatched? || state.Sending?) && now < deadline
    ensures var v := WithHelper(WithJob(s, j, s.jobs[j].(queryId := queryId, slot := h)), h,
            s.helpers[h].(job := Some(j)));
            var r := Handed(v, h, j, state, now, deadline);
            && OnlyHandover(s, r, h, j)
            && r.helpers[h].job == Some(j) && r.helpers[h].state == (if state.Dispatched? then Busy else SendPending)
            && r.jobs[j].state == state && (state.Dispatched? ==> now < r.jobs[j].deadline)
  {
    var v := WithHelper(WithJob(s, j, s.jobs[j].(queryId := queryId, slot := h)), h, s.helpers[h].(job := Some(j)));
    var r := Handed(v, h, j, state, now, deadline);
    assert r.jobs == s.jobs[j := r.jobs[j]];
    assert r.helpers == s.helpers[h := r.helpers[h]];
  }

  /** A helper whose job, if any, may be taken away by a failure: either everything is in place, or
      the job was being handed to this very helper. */
  ghost predicate CanFail(s: State, h: nat) {
    && h < |s.helpers|
    && (s.helpers[h].job.None? ==> Inv(s, {}, {}))
    && (s.helpers[h].job.Some? ==>
          && s.helpers[h].job.value in s.jobs
          && Attemptable(s.jobs[s.helpers[h].job.value])
          && Inv(WithHelper(s, h, Freed(s.helpers[h])), {s.helpers[h].job.value}, {}))
  }

  /** What an attempt to hand job `j` to helper `h` may lead to. */
  ghost predicate AssignOutcome(s: State, r: State, h: nat, j: JobId, status: AssignStatus, now: Time) {
    && OnlyHandover(s, r, h, j)
    && r.helpers[h].state in {Idle, SendPending, Busy}
    && r.jobs[j].state in {Queued, Sending, Dispatched}
    && (r.jobs[j].state.Dispatched? ==> now < r.jobs[j].deadline)
    && (match status
        case AssignOk => Inv(r, {}, {}) && !r.helpers[h].state.Idle?
        case AssignIo => CanFail(r, h) && r.helpers[h].job == Some(j)
        case _ => Inv(r, {j}, {j}) && r.helpers == s.helpers && r.jobs[j].state.Queued? && r.jobs[j].queryId == 0)
  }

  function HandedTo(s: State, h: nat, j: JobId, queryId: nat): (r: State)
    requires j in s.jobs && h < |s.helpers|
  {
    WithHelper(WithJob(s, j, s.jobs[j].(queryId := queryId, slot := h)), h, s.helpers[h].(job := Some(j)))
  }

  ghost predicate ReadyToHand(s: State, h: nat, j: JobId) {
    && h < |s.helpers| && s.helpers[h].state.Idle? && s.helpers[h].job.None?
    && j in s.jobs && s.jobs[j].state.Queued? && s.jobs[j].queryId == 0
    && Inv(s, {j}, {j})
  }

  lemma HandoverUndone(s: State, h: nat, j: JobId, now: Time)
    requires ReadyToHand(s, h, j)
    ensures AssignOutcome(s, WithJob(s, j, s.jobs[j].(queryId := 0, slot := h)), h, j, AssignTime, now)
  {
    hide Inv;
    TweakedKeeps(s, {j}, j, s.jobs[j].(queryId := 0, slot := h));
    assert s.helpers[h := s.helpers[h]] == s.helpers;
  }

  lemma HandoverFailed(s: State, h: nat, j: JobId, queryId: nat, now: Time)
    requires ReadyToHand(s, h, j) && !s.jobs[j].orphaned
    ensures AssignOutcome(s, HandedTo(s, h, j, queryId), h, j, AssignIo, now)
  {
    hide Inv;
    var r := HandedTo(s, h, j, queryId);
    HandoverCanFail(s, h, j, s.jobs[j].(queryId := queryId, slot := h));
    assert r.helpers[h := Freed(r.helpers[h])] == s.helpers[h := Freed(s.helpers[h])];
    assert WithHelper(r, h, Freed(r.helpers[h]))
           == WithHelper(WithJob(s, j, s.jobs[j].(queryId := queryId, slot := h)), h, Freed(s.helpers[h]));
  }

  lemma HandoverDone(s: State, h: nat, j: JobId, queryId: nat, state: JobState, now: Time, deadline: Time)
    requires ReadyToHand(s, h, j) && CanLend(s, h, j, queryId) && (state.Dispatched? || state.Sending?)
             && now < deadline
    ensures var r := Handed(HandedTo(s, h, j, queryId), h, j, state, now, deadline);
            AssignOutcome(s, r, h, j, AssignOk, now) && AssignOutcome(s, r, h, j, AssignIo, now)
  {
    hide Inv, CanLend;
    HandedKeeps(s, h, j, queryId, state, now, deadline);
    var r := Handed(HandedTo(s, h, j, queryId), h, j, state, now, deadline);
    HandedFrame(s, h, j, queryId, state, now, deadline);
    PlacedCanFail(r, h);
  }

  lemma AssignOutcomeFrom(s: State, u: State, r: State, h: nat, j: JobId, status: AssignStatus, now: Time)
    requires AssignOutcome(u, r, h, j, status, now)
    requires j in s.jobs && j in u.jobs && Tweaked(s.jobs[j], u.jobs[j])
    requires u == s.(jobs := s.jobs[j := u.jobs[j]], nextQueryId := u.nextQueryId, decisions := u.decisions)
    ensures AssignOutcome(s, r, h, j, status, now)
  {
    hide Inv, CanFail;
    assert r.jobs == s.jobs[j := r.jobs[j]];
  }

  lemma AssignUnchanged(s: State, r: State, h: nat, j: JobId, status: AssignStatus, now: Time)
    requires status in {AssignRetry, AssignLimit, AssignTime}
    requires ReadyToHand(s, h, j)
    requires j in r.jobs && Tweaked(s.jobs[j], r.jobs[j]) && r.jobs[j].queryId == 0
    requires r == s.(jobs := s.jobs[j := r.jobs[j]], nextQueryId := r.nextQueryId)
    requires Inv(r, {j}, {j})
    ensures AssignOutcome(s, r, h, j, status, now)
  {
    hide Inv;
    assert s.helpers[h := s.helpers[h]] == s.helpers;
  }

  lemma DecidedReady(s: State, h: nat, j: JobId, queryId: nat)
    requires ReadyToHand(s, h, j) && CanLend(s, h, j, queryId)
    requires s.jobs[j].priority.Background? ==> s.interactive == []
    ensures ReadyToHand(Decided(s, j), h, j) && CanLend(Decided(s, j), h, j, queryId)
    ensures Decided(s, j) == s.(jobs := s.jobs[j := Decided(s, j).jobs[j]], decisions := Decided(s, j).decisions)
  {
    hide Inv;
    var u := Decided(s, j);
    DecidedKeeps(s, {j}, {j}, j);
    assert forall k :: Outstanding(u, {j}, k) <==> Outstanding(s, {j}, k);
    assert s.jobs[j := s.jobs[j]] == s.jobs;
  }

  lemma HandoverPlan(s: State, h: nat, j: JobId)
    requires ReadyToHand(s, h, j)
    ensures h < |s.helpers| && j in s.jobs
  {
  }

  lemma HandoverUndoResult(s: State, h: nat, j: JobId, queryId: nat, now: Time)
    requires ReadyToHand(s, h, j) && CanLend(s, h, j, queryId)
    requires s.jobs[j].priority.Background? ==> s.interactive == []
    ensures AssignOutcome(s, WithJob(Decided(s, j), j, s.jobs[j].(queryId := 0, slot := h)), h, j, AssignTime, now)
  {
    hide Inv, CanLend, AssignOutcome, CanFail;
    var u := Decided(s, j);
    DecidedReady(s, h, j, queryId);
    HandoverUndone(u, h, j, now);
    AssignOutcomeFrom(s, u, WithJob(u, j, s.jobs[j].(queryId := 0, slot := h)), h, j, AssignTime, now);
  }

  lemma HandoverResult(s: State, h: nat, j: JobId, queryId: nat, effect: SendEffect, status: AssignStatus, now: Time,
      deadline: Time)
    requires ReadyToHand(s, h, j) && CanLend(s, h, j, queryId) && now < deadline
    requires s.jobs[j].priority.Background? ==> s.interactive == []
    requires status in {AssignOk, AssignIo} && (status.AssignOk? ==> !effect.NotSent?)
    ensures var v := HandedTo(Decided(s, j), h, j, queryId);
            AssignOutcome(s, if effect.NotSent? then v
                             else Handed(v, h, j, if effect.SentWhole? then Dispatched else Sending, now, deadline), h,
                               j, status, now)
  {
    hide Inv, AssignOutcome, CanFail, Handed;
    var u := Decided(s, j);
    DecidedReady(s, h, j, queryId);
    if effect.NotSent? {
      HandoverFailed(u, h, j, queryId, now);
      AssignOutcomeFrom(s, u, HandedTo(u, h, j, queryId), h, j, status, now);
    } else {
      HandoverDone(u, h, j, queryId, if effect.SentWhole? then Dispatched else Sending, now, deadline);
      AssignOutcomeFrom(s, u,
        Handed(HandedTo(u, h, j, queryId), h, j, if effect.SentWhole? then Dispatched else Sending, now, deadline), h,
          j, status, now);
    }
  }

  // ---------------------------------------------------------------- specification of dispatching

  /** What dispatching never disturbs: the index, the markers and the timeliness of what runs. */
  ghost predicate DispatchFrame(s: State, r: State, now: Time) {
    && r.index == s.index && r.markers == s.markers && r.shuttingDown == s.shuttingDown && r.jobLimit == s.jobLimit
    && |r.helpers| == |s.helpers|
    && (AttemptsTimely(s, now) ==> AttemptsTimely(r, now))
    && (RetriesTimely(s, now) ==> RetriesTimely(r, now))
  }

  lemma FrameSameJobs(s: State, r: State, now: Time)
    requires r.jobs == s.jobs && r.index == s.index && r.markers == s.markers && r.shuttingDown == s.shuttingDown
    requires r.jobLimit == s.jobLimit && |r.helpers| == |s.helpers|
    ensures DispatchFrame(s, r, now)
  {
  }

  lemma FrameAssign(s: State, r: State, h: nat, j: JobId, status: AssignStatus, now: Time)
    requires AssignOutcome(s, r, h, j, status, now)
    ensures DispatchFrame(s, r, now)
  {
    hide Inv, CanFail;
  }

  lemma FrameRetry(s: State, j: JobId, outcome: RetryOutcome, now: Time)
    requires j in s.jobs && s.jobCount > 0 && !outcome.Dropped? && (outcome.Planned? ==> now < outcome.at)
    ensures DispatchFrame(s, AfterRetry(s, j, outcome), now)
  {
    hide AfterRetry;
    AfterRetryFrame(s, j, outcome);
  }

  lemma FrameCompleted(s: State, j: JobId, publication: Publication, now: Time)
    requires j in s.jobs
    ensures DispatchFrame(s, Completed(s, j, publication), now)
  {
  }

  lemma FrameFailed(s: State, r: State, now: Time)
    requires r.index == s.index && r.markers == s.markers && r.shuttingDown == s.shuttingDown
             && r.jobLimit == s.jobLimit && |r.helpers| == |s.helpers|
    requires NoNewAttempts(s, r) && NewRetriesLater(s, r, now)
    ensures DispatchFrame(s, r, now)
  {
  }

  lemma FrameTrans(s: State, t: State, r: State, now: Time)
    requires DispatchFrame(s, t, now) && DispatchFrame(t, r, now)
    ensures DispatchFrame(s, r, now)
  {
    hide AttemptsTimely, RetriesTimely;
  }

  /** The head of the queues: a waiting job of the highest priority present. */
  lemma HeadReady(s: State, h: nat, j: JobId)
    requires Inv(s, {}, {}) && h < |s.helpers| && s.helpers[h].state.Idle?
    requires (s.interactive != [] && j == s.interactive[0])
             || (s.interactive == [] && s.background != [] && j == s.background[0])
    ensures j in s.jobs && s.jobs[j].state.Queued? && !s.jobs[j].orphaned
    ensures s.jobs[j].priority == if s.interactive != [] then Interactive else Background
    ensures j in QueueOf(s, s.jobs[j].priority)
    ensures ReadyToHand(Dequeued(s, j), h, j)
    ensures |Dequeued(s, j).interactive| + |Dequeued(s, j).background| == |s.interactive| + |s.background| - 1
    ensures s.interactive == [] ==> Dequeued(s, j).interactive == []
  {
    var p := if s.interactive != [] then Interactive else Background;
    assert j in QueueOf(s, p);
    assert Waits(s, p, {}, j);
    assert InterestOk(s.jobs[j]);
    QueuedHasNoQuery(s, j);
    HelperJob(s, h);
    hide Inv, Unlink;
    DequeuedKeeps(s, j);
  }

  ghost function Backlog(s: State): (n: nat) {
    |s.interactive| + |s.background|
  }

  // ---------------------------------------------------------------- specification of helper events

  /** An attempt running afterwards ran before, unless its deadline is still ahead. */
  ghost predicate NewAttemptsLater(s: State, r: State, now: Time) {
    forall j :: j in r.jobs && r.jobs[j].state.Dispatched? ==>
      now < r.jobs[j].deadline || (j in s.jobs && r.jobs[j] == s.jobs[j])
  }

  /** What handling helper events never disturbs. */
  ghost predicate EventFrame(s: State, r: State, now: Time) {
    && r.markers == s.markers && r.shuttingDown == s.shuttingDown && r.jobLimit == s.jobLimit
       && |r.helpers| == |s.helpers|
    && NewAttemptsLater(s, r, now) && NewRetriesLater(s, r, now)
  }

  lemma EventTrans(s: State, t: State, r: State, now: Time)
    requires EventFrame(s, t, now) && EventFrame(t, r, now)
    ensures EventFrame(s, r, now)
  {
  }

  lemma EventSameJobs(s: State, r: State, now: Time)
    requires r.jobs == s.jobs && r.markers == s.markers && r.shuttingDown == s.shuttingDown && r.jobLimit == s.jobLimit
             && |r.helpers| == |s.helpers|
    ensures EventFrame(s, r, now)
  {
  }

  lemma EventFailed(s: State, r: State, now: Time)
    requires r.markers == s.markers && r.shuttingDown == s.shuttingDown && r.jobLimit == s.jobLimit
             && |r.helpers| == |s.helpers|
    requires NoNewAttempts(s, r) && NewRetriesLater(s, r, now)
    ensures EventFrame(s, r, now)
  {
  }

  /** One job changed to something that is neither running nor waiting for a retry, or left. */
  lemma EventOneJob(s: State, r: State, j: JobId, now: Time)
    requires r.markers == s.markers && r.shuttingDown == s.shuttingDown && r.jobLimit == s.jobLimit
             && |r.helpers| == |s.helpers|
    requires forall k :: k in r.jobs && k != j ==> k in s.jobs && r.jobs[k] == s.jobs[k]
    requires j in r.jobs && r.jobs[j].state.Dispatched? ==> now < r.jobs[j].deadline
    requires j in r.jobs && r.jobs[j].state.RetryWait? ==> now < r.jobs[j].retryAt
    ensures EventFrame(s, r, now)
  {
  }

  /** The answered job, taken from its helper, with its attempt counted as answered. */
  function Answered(s: State, h: nat, j: JobId, helper: Helper, outcome: nat): (r: State)
    requires h < |s.helpers| && j in s.jobs && outcome < OUTCOME_COUNT
  {
    RecordResponse(WithJob(WithHelper(s, h, helper), j, s.jobs[j].(queryId := 0)), s.jobs[j].entry.kind, outcome,
      s.jobs[j].orphaned)
  }

  /** What becomes of a job whose attempt was answered. */
  datatype Disposal = Retried(plan: RetryOutcome) | Discarded | Concluded(publication: Publication)

  /** A temporary failure is retried; otherwise an orphan is discarded and any other job completes, published only
      if the answer is one the cache may keep. */
  ghost predicate Disposes(fate: Disposal, job: Job, outcome: nat) {
    if outcome == OUTCOME_TEMPORARY then fate.Retried? && (fate.plan.Dropped? <==> job.orphaned)
    else if job.orphaned then fate.Discarded?
    else fate.Concluded? && (outcome !in {OUTCOME_OK, OUTCOME_NODATA, OUTCOME_NOT_FOUND} ==> fate.publication.Invalid?)
  }

  ghost function Disposed(s: State, j: JobId, fate: Disposal): (r: State)
    requires j in s.jobs && s.jobCount > 0
  {
    match fate
    case Retried(plan) => AfterRetry(s, j, plan)
    case Discarded => WithoutJob(s, j)
    case Concluded(publication) => Completed(s, j, publication)
  }

  lemma AnsweredKeeps(s: State, h: nat, j: JobId, helper: Helper, outcome: nat)
    requires Inv(s, {}, {}) && h < |s.helpers| && s.helpers[h].job == Some(j) && s.helpers[h].state.Busy?
    requires FreeHelper(helper) && outcome < OUTCOME_COUNT
    ensures j in s.jobs && s.jobs[j].state.Dispatched?
    ensures Inv(Answered(s, h, j, helper, outcome), {j}, {j})
  {
    HelperJob(s, h);
    HelperLeftKeeps(s, h, helper);
    var t := WithHelper(s, h, helper);
    var u := WithJob(t, j, s.jobs[j].(queryId := 0));
    TweakedKeeps(t, {}, j, u.jobs[j]);
    assert Conserved(u, {});
    hide Inv, Conserved;
    SettleByResponse(u, j, outcome);
    RecordedKeeps(u, j, Answered(s, h, j, helper, outcome));
  }

  /** An answer whose time stamp is rejected leaves a helper that can fail. */
  lemma UnnumberedCanFail(s: State, h: nat, j: JobId)
    requires Inv(s, {}, {}) && h < |s.helpers| && s.helpers[h].job == Some(j)
    ensures j in s.jobs && CanFail(WithJob(s, j, s.jobs[j].(queryId := 0)), h)
  {
    hide Inv;
    PlacedCanFail(s, h);
    var t := WithHelper(s, h, Freed(s.helpers[h]));
    TweakedKeeps(t, {}, j, s.jobs[j].(queryId := 0));
    assert WithJob(t, j, s.jobs[j].(queryId := 0))
           == WithHelper(WithJob(s, j, s.jobs[j].(queryId := 0)), h, Freed(s.helpers[h]));
  }

  lemma PlacedCanFailAny(s: State, h: nat)
    requires Inv(s, {}, {}) && h < |s.helpers|
    ensures CanFail(s, h)
  {
    hide Inv;
    if s.helpers[h].job.Some? {
      PlacedCanFail(s, h);
    }
  }

  lemma ForgottenOrphan(s: State, j: JobId)
    requires Inv(s, {j}, {j}) && j in s.jobs && s.jobs[j].orphaned
    ensures s.jobs[j].state.Dispatched? && s.jobCount > 0
    ensures Inv(WithoutJob(s, j), {}, {})
  {
    assert InterestOk(s.jobs[j]);
    hide Inv;
    ForgottenKeeps(s, j);
  }

  lemma UnnumberedTimes(s: State, r: State, j: JobId, now: Time)
    requires j in s.jobs && s.jobs[j].state.Dispatched?
    requires r.markers == s.markers && r.shuttingDown == s.shuttingDown && r.jobLimit == s.jobLimit
             && |r.helpers| == |s.helpers|
    requires NoNewAttempts(WithJob(s, j, s.jobs[j].(queryId := 0)), r)
    requires NewRetriesLater(WithJob(s, j, s.jobs[j].(queryId := 0)), r, now)
    requires j in r.jobs ==> !r.jobs[j].state.Dispatched?
    ensures EventFrame(s, r, now)
  {
  }

  /** One helper changed; the mode of the supervisor did not. */
  lemma ModeKept(s: State, r: State, h: nat)
    requires ModeOk(s) && h < |s.helpers| == |r.helpers| && r.helpers == s.helpers[h := r.helpers[h]]
    requires r.shuttingDown == s.shuttingDown
    requires s.shuttingDown ==> r.jobs == s.jobs
    requires s.shuttingDown <==> r.helpers[h].state in {ShuttingDown, Stopped}
    ensures ModeOk(r)
  {
  }

  /** A helper's recovery bookkeeping is no concern of placement. */
  predicate SameDuty(helper: Helper, helper': Helper) {
    helper' == helper.(failureCount := helper'.failureCount, consecutiveSuccesses := helper'.consecutiveSuccesses,
      nextEventAt := helper'.nextEventAt)
  }

  lemma SameDutyPlaced(s: State, h: nat, helper: Helper)
    requires Placed(s, {}) && h < |s.helpers| && SameDuty(s.helpers[h], helper)
    ensures Placed(WithHelper(s, h, helper), {})
  {
    hide Listed, Lent;
    var r := WithHelper(s, h, helper);
    assert forall o, k :: Waits(r, o, {}, k) <==> Waits(s, o, {}, k);
    assert forall k :: Finished(r, {}, k) <==> Finished(s, {}, k);
    ListedUnchanged(s, {}, r, {});
    SameDutyLent(s, h, helper);
  }

  lemma SameDutyLent(s: State, h: nat, helper: Helper)
    requires Lent(s, {}) && h < |s.helpers| && SameDuty(s.helpers[h], helper)
    ensures Lent(WithHelper(s, h, helper), {})
  {
    var r := WithHelper(s, h, helper);
    assert forall k :: Outstanding(r, {}, k) <==> Outstanding(s, {}, k);
    assert forall i: nat :: i < |s.helpers| && HelperExact(s, {}, i) ==> HelperExact(r, {}, i);
    assert forall k :: k in s.jobs && HeldBy(s, k) ==> HeldBy(r, k);
    assert forall k :: k in s.jobs && QueryIdFits(s, k) ==> QueryIdFits(r, k);
  }

  lemma SameDutyKeeps(s: State, h: nat, helper: Helper)
    requires Inv(s, {}, {}) && h < |s.helpers| && SameDuty(s.helpers[h], helper)
    ensures Inv(WithHelper(s, h, helper), {}, {})
  {
    hide Placed, Conserved, Ledger, InterestsOk;
    var r := WithHelper(s, h, helper);
    SameDutyPlaced(s, h, helper);
    BooksSame(s, {}, r);
    InterestsKept(s, r);
    if !s.shuttingDown {
      LedgerKept(s, r);
    }
  }

  /** A request that could not be sent because the clock overflowed completes its job. */
  function GivenUp(s: State, h: nat, j: JobId): (r: State)
    requires h < |s.helpers| && j in s.jobs
  {
    Completed(WithJob(WithHelper(s, h, s.helpers[h].(job := None, state := Idle)), j, s.jobs[j].(queryId := 0)), j,
      TimeOverflow)
  }

  lemma GivenUpKeeps(s: State, h: nat)
    requires Inv(s, {}, {}) && h < |s.helpers| && s.helpers[h].state.SendPending?
    ensures s.helpers[h].job.Some? && s.helpers[h].job.value in s.jobs
    ensures Inv(GivenUp(s, h, s.helpers[h].job.value), {}, {})
  {
    hide Inv;
    HelperJob(s, h);
    RecalledKeeps(s, h);
    var j := s.helpers[h].job.value;
    var t := WithHelper(s, h, s.helpers[h].(job := None, state := Idle));
    TweakedKeeps(t, {j}, j, s.jobs[j].(queryId := 0));
    CompletedKeeps(WithJob(t, j, s.jobs[j].(queryId := 0)), j, TimeOverflow);
  }

  // ---------------------------------------------------------------- specification of the timers

  /** The attempt held by helper `h`, if any, still has time. */
  ghost predicate HelperTimely(s: State, h: nat, now: Time)
    requires h < |s.helpers|
  {
    s.helpers[h].state.Busy? && s.helpers[h].job.Some? && s.helpers[h].job.value in s.jobs ==>
      now < s.jobs[s.helpers[h].job.value].deadline
  }

  lemma HelperStaysTimely(s: State, r: State, h: nat, now: Time)
    requires Inv(r, {}, {}) && EventFrame(s, r, now)
    requires h < |s.helpers| && r.helpers[h] == s.helpers[h] && HelperTimely(s, h, now)
    ensures HelperTimely(r, h, now)
  {
    HelperJob(r, h);
  }

  lemma AllHelpersTimely(s: State, now: Time)
    requires Inv(s, {}, {}) && forall h: nat :: h < |s.helpers| ==> HelperTimely(s, h, now)
    ensures AttemptsTimely(s, now)
  {
    forall j | j in s.jobs && s.jobs[j].state.Dispatched?
      ensures now < s.jobs[j].deadline
    {
      assert Outstanding(s, {}, j);
      assert HeldBy(s, j);
      HelperJob(s, s.jobs[j].slot);
      assert HelperTimely(s, s.jobs[j].slot, now);
    }
  }

  /** A retry that comes due starts no attempt, and what waits after it waits as before. */
  lemma RetryDueQuiet(s: State, t: State, j: JobId)
    requires NoNewAttempts(s, t) && j in t.jobs
    ensures var r := Requeued(t, j, false);
            && NoNewAttempts(s, r) && r.jobs.Keys == t.jobs.Keys
            && (forall k :: k in r.jobs && r.jobs[k].state.RetryWait? ==> k != j && r.jobs[k] == t.jobs[k])
            && r.index == t.index && r.helpers == t.helpers
            && r.markers == t.markers && r.shuttingDown == t.shuttingDown
  {
  }

  lemma NoNewSelf(s: State)
    ensures NoNewAttempts(s, s)
  {
  }

  lemma RetryDueKeeps(s: State, j: JobId)
    requires Inv(s, {}, {}) && j in s.jobs && s.jobs[j].state.RetryWait?
    ensures Inv(Requeued(s, j, false), {}, {})
  {
    WaitingIsNowhere(s, j);
    hide Inv;
    RequeuedKeeps(s, j, false);
  }

  lemma WaitingIsNowhere(s: State, j: JobId)
    requires Inv(s, {}, {}) && j in s.jobs && s.jobs[j].state.RetryWait?
    ensures Inv(s, {j}, {j}) && s.jobs[j].queryId == 0 && !s.jobs[j].orphaned
  {
    JobInterestOk(s, j);
    assert s.jobs[j].queryId == 0;
    hide Placed, Ledger, InterestsOk, Conserved;
    RetryIsNowhere(s, j);
    NothingToSettle(s, j);
  }

  // ---------------------------------------------------------------- specification of resending

  /** A resent request changes one job, and only to an attempt with time ahead. */
  lemma ResentFrame(s: State, h: nat, j: JobId, state: JobState, now: Time, deadline: Time)
    requires h < |s.helpers| && j in s.jobs && (state.Dispatched? || state.Sending?) && now < deadline
    ensures var r := Handed(s, h, j, state, now, deadline);
            && EventFrame(s, r, now) && r.helpers == s.helpers[h := r.helpers[h]] && |r.helpers| == |s.helpers|
            && r.helpers[h].state in {Busy, SendPending} && r.helpers[h].job == s.helpers[h].job
               && r.shuttingDown == s.shuttingDown
  {
    hide EventFrame;
    var r := Handed(s, h, j, state, now, deadline);
    EventOneJob(s, r, j, now);
  }

  lemma GivenUpFrame(s: State, h: nat, j: JobId, now: Time)
    requires h < |s.helpers| && j in s.jobs
    ensures EventFrame(s, GivenUp(s, h, j), now)
            && GivenUp(s, h, j).helpers == s.helpers[h := s.helpers[h].(job := None, state := Idle)]
    ensures GivenUp(s, h, j).shuttingDown == s.shuttingDown
  {
    hide EventFrame;
    EventOneJob(s, GivenUp(s, h, j), j, now);
  }

  // ---------------------------------------------------------------- specification of interest

  /** A holder forgets a marker on a job that has already completed. */
  lemma MarkerDroppedKeeps(s: State, m: Marker)
    requires Inv(s, {}, {}) && m.entry in s.index && s.index[m.entry] in s.jobs
             && s.jobs[s.index[m.entry]].state.Complete?
    ensures Inv(s.(markers := s.markers - {m}), {}, {})
  {
    var r := s.(markers := s.markers - {m});
    if !s.shuttingDown {
      MarkerDroppedLedger(s, m);
    }
    hide Placed, Conserved, Ledger, InterestsOk;
    PlacedIgnores(s, {}, r);
    BooksSame(s, {}, r);
    InterestsKept(s, r);
  }

  lemma MarkerDroppedLedger(s: State, m: Marker)
    requires Indexed(s) && Ledger(s) && m.entry in s.index && s.jobs[s.index[m.entry]].state.Complete?
    ensures Ledger(s.(markers := s.markers - {m}))
  {
    var r := s.(markers := s.markers - {m});
    forall k | k in r.jobs
      ensures CountsMarkers(r.markers, r.jobs[k])
    {
      assert CountsMarkers(s.markers, s.jobs[k]);
      var e := s.jobs[k].entry.id;
      if e != m.entry {
        assert MarkersFor(r.markers, e, Background) == MarkersFor(s.markers, e, Background);
        assert MarkersFor(r.markers, e, Interactive) == MarkersFor(s.markers, e, Interactive);
      }
    }
  }

  /** A marker's job: the ledger promises there is one. */
  /** Whether a lookup of an entry is wanted and not done yet. */
  predicate Unfinished(s: State, e: EntryId) {
    e in s.index && s.index[e] in s.jobs && !s.jobs[s.index[e]].state.Complete?
  }

  /** An unfinished job counts somebody's interest exactly if there is a marker on its entry. */
  lemma UnfinishedCounts(s: State, m: Marker)
    requires Inv(s, {}, {}) && !s.shuttingDown
    ensures m.entry in s.index ==> s.index[m.entry] in s.jobs
    ensures m in s.markers ==> m in MarkersFor(s.markers, m.entry, m.priority)
    ensures Unfinished(s, m.entry) ==>
              (Holds(s.jobs[s.index[m.entry]], m.priority) <==> MarkersFor(s.markers, m.entry, m.priority) != {})
  {
  }

  ghost function Somebody(s: State, m: Marker): (r: Marker)
    requires MarkersFor(s.markers, m.entry, m.priority) != {}
    ensures r in MarkersFor(s.markers, m.entry, m.priority)
    ensures r in s.markers && r == Marker(r.holder, m.entry, m.priority)
  {
    var r :| r in MarkersFor(s.markers, m.entry, m.priority);
    r
  }

  lemma MarkerHasJob(s: State, m: Marker)
    requires Inv(s, {}, {}) && !s.shuttingDown && m in s.markers
    ensures m.entry in s.index && s.index[m.entry] in s.jobs && s.jobs[s.index[m.entry]].entry.id == m.entry
    ensures var job := s.jobs[s.index[m.entry]];
            && (!job.state.Complete? ==> Holds(job, m.priority))
            && (job.state.Sending? ==> HeldBy(s, s.index[m.entry]) && s.helpers[job.slot].state.SendPending?)
            && (job.state.Queued? ==> s.index[m.entry] in QueueOf(s, job.priority))
            && s.jobCount > 0
  {
    var j := s.index[m.entry];
    if !s.jobs[j].state.Complete? {
      HeldMarkerCounts(s, j, m);
    }
    if s.jobs[j].state.Sending? {
      assert Outstanding(s, {}, j);
      assert HeldBy(s, j);
      assert HelperExact(s, {}, s.jobs[j].slot);
    }
    if s.jobs[j].state.Queued? {
      assert Waits(s, s.jobs[j].priority, {}, j);
    }
    HasJobs(s, {}, {}, j);
  }

  /** What remains after the last holder of an unsent job withdrew. */
  function LastReleased(s: State, j: JobId, m: Marker): (r: State)
    requires j in s.jobs && s.jobCount > 0 && (s.jobs[j].state.Sending? ==> s.jobs[j].slot < |s.helpers|)
  {
    var t := if s.jobs[j].state.Queued? then Dequeued(s, j)
             else if s.jobs[j].state.Sending?
                    then WithHelper(s, s.jobs[j].slot, s.helpers[s.jobs[j].slot].(job := None, state := Idle))
             else s;
    WithoutJob(t, j).(markers := s.markers - {m})
  }

  /** One interest less: the job goes with the last one unless a helper works on it, which ends as an orphan. */
  ghost predicate WithdrawnFrom(s: State, r: State, j: JobId, m: Marker) {
    && j in s.jobs && Holds(s.jobs[j], m.priority)
    && if Withdrawn(s.jobs[j], m.priority).Unwanted() && !s.jobs[j].state.Dispatched? then
         s.jobCount > 0 && (s.jobs[j].state.Sending? ==> s.jobs[j].slot < |s.helpers|) && r == LastReleased(s, j, m)
       else
         r == Released(s, j, m)
  }

  lemma LastReleasedKeeps(s: State, j: JobId, m: Marker)
    requires Inv(s, {}, {}) && !s.shuttingDown
    requires j in s.jobs && s.jobs[j].state in {Queued, Sending, RetryWait}
    requires m in s.markers && m.entry == s.jobs[j].entry.id && Holds(s.jobs[j], m.priority)
    requires Withdrawn(s.jobs[j], m.priority).Unwanted()
    requires s.jobs[j].state.Sending? ==> HeldBy(s, j) && s.helpers[s.jobs[j].slot].state.SendPending?
    ensures s.jobCount > 0 && Inv(LastReleased(s, j, m), {}, {})
  {
    hide Inv, Unlink;
    HasJobs(s, {}, {}, j);
    if s.jobs[j].state.Queued? {
      DequeuedKeeps(s, j);
      LastReleaseKeeps(Dequeued(s, j), j, m);
    } else if s.jobs[j].state.Sending? {
      RecalledKeeps(s, s.jobs[j].slot);
      LastReleaseKeeps(WithHelper(s, s.jobs[j].slot, s.helpers[s.jobs[j].slot].(job := None, state := Idle)), j, m);
    } else {
      WaitingIsNowhere(s, j);
      LastReleaseKeeps(s, j, m);
    }
  }

  /** Joining a job moves it between the queues at most, so nothing starts to wait. */
  lemma CoalescedWork(s: State, j: JobId, m: Marker)
    requires Inv(s, {}, {}) && j in s.jobs && WorkConserving(s)
    ensures WorkConserving(Coalesced(s, j, m))
  {
    if s.jobs[j].state.Queued? {
      assert Waits(s, s.jobs[j].priority, {}, j);
      assert j in QueueOf(s, s.jobs[j].priority);
    }
  }

  lemma WorkConservingOf(s: State, r: State)
    requires WorkConserving(s) && r.helpers == s.helpers && r.interactive == s.interactive
             && r.background == s.background
    ensures WorkConserving(r)
  {
  }

  /** Taking a completion touches neither the queues nor the helpers. */
  lemma TakenAwayFrame(s: State, j: JobId)
    requires j in s.jobs && s.jobCount > 0
    ensures var r := TakenAway(s, j);
            && r.helpers == s.helpers && r.interactive == s.interactive && r.background == s.background
               && r.shuttingDown == s.shuttingDown
            && r.jobs == s.jobs - {j} && r.index == s.index - {s.jobs[j].entry.id} && r.jobLimit == s.jobLimit
  {
  }

  lemma TakenAwayMode(s: State, j: JobId)
    requires ModeOk(s) && j in s.jobs && s.jobCount > 0
    ensures ModeOk(TakenAway(s, j))
  {
    hide TakenAway;
    TakenAwayFrame(s, j);
  }

  lemma LastReleasedFrame(s: State, j: JobId, m: Marker)
    requires j in s.jobs && s.jobCount > 0 && (s.jobs[j].state.Sending? ==> s.jobs[j].slot < |s.helpers|)
    requires ModeOk(s) && !s.shuttingDown
    ensures var r := LastReleased(s, j, m);
            ModeOk(r) && !r.shuttingDown && |r.helpers| == |s.helpers| && r.markers == s.markers - {m}
              && r.index == s.index - {s.jobs[j].entry.id}
  {
  }

  lemma CoalescedMode(s: State, j: JobId, m: Marker)
    requires ModeOk(s) && !s.shuttingDown && j in s.jobs
    ensures ModeOk(Coalesced(s, j, m))
  {
  }

  lemma TimelyKept(s: State, r: State, now: Time)
    requires AttemptsTimely(s, now) && NoNewAttempts(s, r)
    ensures AttemptsTimely(r, now)
  {
  }

  lemma DispatchedTimely(s: State, r: State, now: Time)
    requires DispatchFrame(s, r, now) || r == s
    requires AttemptsTimely(s, now) && RetriesTimely(s, now)
    ensures AttemptsTimely(r, now) && RetriesTimely(r, now)
    ensures DispatchFrame(s, r, now) ==>
            r.markers == s.markers && r.shuttingDown == s.shuttingDown && |r.helpers| == |s.helpers|
  {
    hide AttemptsTimely, RetriesTimely;
  }

  /** The mode looks only at the helpers and, in shutdown, at whether any job is left. */
  lemma ModeQueues(s: State, r: State)
    requires ModeOk(s) && r.helpers == s.helpers && r.shuttingDown == s.shuttingDown
    requires s.shuttingDown ==> r.jobs.Keys == s.jobs.Keys
    ensures ModeOk(r)
  {
    if s.shuttingDown {
      assert r.jobs.Keys == {};
    }
  }

  lemma WorkSame(s: State, r: State)
    requires r.helpers == s.helpers && r.interactive == s.interactive && r.background == s.background
    ensures WorkConserving(r) == WorkConserving(s)
  {
  }

  lemma IndexedJob(s: State, e: EntryId)
    requires Inv(s, {}, {}) && e in s.index
    ensures s.index[e] in s.jobs && s.jobs[s.index[e]].entry.id == e
    ensures var job := s.jobs[s.index[e]]; job.state.Queued? ==> s.index[e] in QueueOf(s, job.priority)
  {
    var j := s.index[e];
    if s.jobs[j].state.Queued? {
      assert Waits(s, s.jobs[j].priority, {}, j);
    }
  }

  lemma FirstCompletion(s: State)
    requires Inv(s, {}, {}) && s.completions != []
    ensures s.completions[0] in s.jobs && s.jobs[s.completions[0]].state.Complete?
    ensures s.jobCount > 0
  {
    assert s.completions[0] in s.completions;
    assert Finished(s, {}, s.completions[0]);
    HasJobs(s, {}, {}, s.completions[0]);
  }

  // ---------------------------------------------------------------- specification of shutdown

  /** During shutdown a helper loses its job before it leaves the sending or busy state. */
  function Quieted(helper: Helper): (r: Helper) {
    if helper.job.None? && helper.state in {SendPending, Busy} then helper.(state := Idle) else helper
  }

  function Quiet(helpers: seq<Helper>): (r: seq<Helper>)
    ensures |r| == |helpers| && forall i :: 0 <= i < |helpers| ==> r[i] == Quieted(helpers[i])
  {
    seq(|helpers|, i requires 0 <= i < |helpers| => Quieted(helpers[i]))
  }

  function Quietly(s: State): (r: State) {
    s.(helpers := Quiet(s.helpers))
  }

  lemma QuietDropped(helpers: seq<Helper>, slot: nat)
    requires slot < |helpers| && helpers[slot].state in {SendPending, Busy}
    ensures Quiet(helpers[slot := helpers[slot].(job := None)])
            == Quiet(helpers)[slot := helpers[slot].(job := None, state := Idle)]
    ensures |Quiet(helpers)| == |helpers| && Quiet(helpers)[slot] == Quieted(helpers[slot])
  {
  }

  lemma QuietAlready(s: State)
    requires Inv(s, {}, {})
    ensures Quietly(s) == s
  {
    forall i | 0 <= i < |s.helpers|
      ensures Quieted(s.helpers[i]) == s.helpers[i]
    {
      assert HelperExact(s, {}, i);
    }
    assert Quiet(s.helpers) == s.helpers;
  }

  /** A job given up at shutdown. */
  function Abandoned(s: State, j: JobId): (r: State)
    requires j in s.jobs && s.jobCount > 0 && (s.jobs[j].InFlight() ==> s.jobs[j].slot < |s.helpers|)
  {
    var job := s.jobs[j];
    match job.state
    case Queued => WithoutJob(Dequeued(s, j), j)
    case Complete => Uncompleted(RecordCompletionAbandoned(s, job.entry.kind), j)
    case RetryWait => WithoutJob(s, j)
    case Sending => WithoutJob(WithHelper(s, job.slot, s.helpers[job.slot].(job := None, state := Idle)), j)
    case Dispatched => WithoutJob(RecordAttemptAbandoned(WithHelper(s, job.slot,
      s.helpers[job.slot].(job := None, state := Idle)), job.entry.kind), j)
  }

  lemma JobInPlace(s: State, j: JobId)
    requires Inv(s, {}, {}) && j in s.jobs
    ensures s.jobCount > 0
    ensures s.jobs[j].state.Queued? ==> j in QueueOf(s, s.jobs[j].priority)
    ensures s.jobs[j].state.Complete? ==> j in s.completions
    ensures s.jobs[j].InFlight() ==> HeldBy(s, j) && s.helpers[s.jobs[j].slot].state in {SendPending, Busy}
    ensures s.jobs[j].state.Sending? ==> s.helpers[s.jobs[j].slot].state.SendPending?
  {
    HasJobs(s, {}, {}, j);
    if s.jobs[j].state.Queued? {
      assert Waits(s, s.jobs[j].priority, {}, j);
    } else if s.jobs[j].state.Complete? {
      assert Finished(s, {}, j);
    } else if s.jobs[j].InFlight() {
      assert Outstanding(s, {}, j);
      assert HeldBy(s, j);
      HelperJob(s, s.jobs[j].slot);
    }
  }

  lemma AbandonedAttemptKeeps(s: State, j: JobId)
    requires Inv(s, {}, {}) && s.shuttingDown && j in s.jobs && s.jobs[j].state.Dispatched?
    ensures s.jobs[j].slot < |s.helpers| && s.jobCount > 0
    ensures Inv(Abandoned(s, j), {}, {})
  {
    JobInPlace(s, j);
    HelperJob(s, s.jobs[j].slot);
    var h := s.jobs[j].slot;
    var idle := s.helpers[h].(job := None, state := Idle);
    HelperLeftKeeps(s, h, idle);
    var t := WithHelper(s, h, idle);
    assert Conserved(t, {});
    hide Inv, Conserved;
    AbandonedAttemptSettles(t, j);
    var u := RecordAttemptAbandoned(t, s.jobs[j].entry.kind);
    RecordedKeeps(t, j, u);
    ForgottenKeeps(u, j);
  }

  lemma AbandonedKeeps(s: State, j: JobId)
    requires Inv(s, {}, {}) && s.shuttingDown && j in s.jobs
    ensures s.jobCount > 0 && (s.jobs[j].InFlight() ==> s.jobs[j].slot < |s.helpers|)
    ensures Inv(Abandoned(s, j), {}, {})
  {
    hide Inv, HeldBy;
    JobInPlace(s, j);
    match s.jobs[j].state
    case Queued =>
      DequeuedKeeps(s, j);
      ForgottenKeeps(Dequeued(s, j), j);
    case Complete => AbandonedCompletionKeeps(s, j);
    case RetryWait =>
      WaitingIsNowhere(s, j);
      ForgottenKeeps(s, j);
    case Sending => AbandonedRequestKeeps(s, j);
    case Dispatched => AbandonedAttemptKeeps(s, j);
  }

  lemma AbandonedRequestKeeps(s: State, j: JobId)
    requires Inv(s, {}, {}) && s.shuttingDown && j in s.jobs && s.jobs[j].state.Sending?
    ensures s.jobs[j].slot < |s.helpers| && s.jobCount > 0
    ensures Inv(Abandoned(s, j), {}, {})
  {
    hide Inv;
    JobInPlace(s, j);
    var h := s.jobs[j].slot;
    RecalledKeeps(s, h);
    ForgottenKeeps(WithHelper(s, h, s.helpers[h].(job := None, state := Idle)), j);
  }

  lemma AbandonedFrame(s: State, j: JobId)
    requires j in s.jobs && s.jobCount > 0 && (s.jobs[j].InFlight() ==> s.jobs[j].slot < |s.helpers|)
    ensures var r := Abandoned(s, j);
            r.jobs == s.jobs - {j} && r.markers == s.markers && r.shuttingDown == s.shuttingDown
              && |r.helpers| == |s.helpers|
  {
    hide Unlink, Bumped;
    match s.jobs[j].state
    case Queued =>
    case Complete =>
    case RetryWait =>
    case Sending =>
    case Dispatched =>
  }

  lemma ShutdownBegunKeeps(s: State)
    requires Inv(s, {}, {})
    ensures Inv(s.(shuttingDown := true), {}, {})
  {
    hide Placed, Conserved, Ledger, InterestsOk;
    var r := s.(shuttingDown := true);
    PlacedIgnores(s, {}, r);
    BooksSame(s, {}, r);
    InterestsKept(s, r);
  }

  lemma NoJobsNoDuty(s: State, h: nat)
    requires Inv(s, {}, {}) && s.jobs == map[] && h < |s.helpers|
    ensures s.helpers[h].job.None? && s.helpers[h].state !in {SendPending, Busy}
    ensures s.helpers[h].connected <==> s.helpers[h].state in {Idle, ShuttingDown}
  {
    HelperJob(s, h);
  }

  /** At every moment, while no counter has saturated: every dispatched attempt was answered, failed, is running or was
      abandoned, and every completion was taken, waits or was abandoned. */
  lemma BooksBalance(s: State, k: QueryKind)
    requires Inv(s, {}, {}) && s.saturations == 0
    ensures var a := s.attempts.At(k);
            && a.dispatched == Sum(a.response) + Sum(a.failure) + |set j | j in s.jobs && s.jobs[j].state.Dispatched?
               && s.jobs[j].entry.kind == k| + a.attemptAbandoned
            && a.enqueued == a.taken + |CompleteSet(s, k)| + a.completionAbandoned
  {
    assert DispatchedSet(s, k, {}) == set j | j in s.jobs && s.jobs[j].state.Dispatched? && s.jobs[j].entry.kind == k;
  }

  /** Nothing is outstanding: every attempt was answered, failed or abandoned, every completion taken or abandoned. */
  ghost predicate Closed(a: Attempt) {
    && a.dispatched == Sum(a.response) + Sum(a.failure) + a.attemptAbandoned
    && a.enqueued == a.taken + a.completionAbandoned
  }

  /** Books that balance with nothing outstanding: every attempt was answered, failed or abandoned. */
  lemma BooksClosed(s: State, k: QueryKind)
    requires Inv(s, {}, {}) && s.jobs == map[] && s.saturations == 0
    ensures Closed(s.attempts.At(k))
  {
    assert DispatchedSet(s, k, {}) == {};
    assert CompleteSet(s, k) == {};
    assert Balanced(s.attempts.At(k), |DispatchedSet(s, k, {})|, |CompleteSet(s, k)|);
  }

  // ---------------------------------------------------------------- the initial state

  const NO_COUNTS: Attempt := Attempt(0, seq(OUTCOME_COUNT, _ => 0), seq(OUTCOME_COUNT, _ => 0),
    seq(FAILURE_COUNT, _ => 0), 0, 0, 0, 0, 0)

  function Initial(helperCount: nat, jobLimit: nat): (s: State) {
    State(map[], map[], [], [], [], seq(helperCount, _ => Helper(Stopped, None, false, 0, 0, 0)), 0, jobLimit, 0, 1,
          Attempts(NO_COUNTS, NO_COUNTS, NO_COUNTS), 0, {}, [], false)
  }

  lemma {:induction false} SumZero(n: nat)
    ensures Sum(seq(n, _ => 0)) == 0
  {
    if n > 0 {
      assert seq(n, _ => 0)[1..] == seq(n - 1, _ => 0);
      SumZero(n - 1);
    }
  }

  lemma InitialInv(helperCount: nat, jobLimit: nat)
    ensures Inv(Initial(helperCount, jobLimit), {}, {})
  {
    var s := Initial(helperCount, jobLimit);
    SumZero(OUTCOME_COUNT);
    SumZero(FAILURE_COUNT);
    assert forall k :: !Outstanding(s, {}, k);
    assert forall p, k :: !Waits(s, p, {}, k);
    assert forall k :: !Finished(s, {}, k);
    InitialBooks(helperCount, jobLimit);
  }

  lemma InitialBooks(helperCount: nat, jobLimit: nat)
    ensures Conserved(Initial(helperCount, jobLimit), {})
  {
    var s := Initial(helperCount, jobLimit);
    SumZero(OUTCOME_COUNT);
    SumZero(FAILURE_COUNT);
    forall k: QueryKind
      ensures Balanced(s.attempts.At(k), |DispatchedSet(s, k, {})|, |CompleteSet(s, k)|)
    {
      assert DispatchedSet(s, k, {}) == {} && CompleteSet(s, k) == {};
      assert s.attempts.At(k) == NO_COUNTS;
    }
  }

  lemma ShutDownEmpty(s: State)
    requires ModeOk(s)
    ensures s.shuttingDown ==> s.jobs == map[]
  {
  }

  /** Quieting the helpers hides nothing about where a job is. */
  lemma QuietPlace(s: State, j: JobId)
    requires Inv(Quietly(s), {}, {}) && j in s.jobs
    ensures s.jobCount > 0
    ensures s.jobs[j].state.Queued? ==> j in QueueOf(s, s.jobs[j].priority)
    ensures s.jobs[j].state.Complete? ==> j in s.completions
    ensures s.jobs[j].InFlight() ==>
            s.jobs[j].slot < |s.helpers| && s.helpers[s.jobs[j].slot].job == Some(j)
              && s.helpers[s.jobs[j].slot].state in {SendPending, Busy}
  {
    hide Inv;
    JobInPlace(Quietly(s), j);
  }

  // ---------------------------------------------------------------- what the invariant says of one job

  ghost function Holders(s: State, j: JobId): (r: set<nat>) {
    set h: nat | h < |s.helpers| && s.helpers[h].job == Some(j)
  }

  lemma HoldersExact(s: State, j: JobId)
    requires Inv(s, {}, {}) && j in s.jobs
    ensures Holders(s, j) == if s.jobs[j].InFlight() then {s.jobs[j].slot} else {}
  {
    if s.jobs[j].InFlight() {
      assert Outstanding(s, {}, j);
      assert HeldBy(s, j);
    }
    forall h | h in Holders(s, j)
      ensures s.jobs[j].InFlight() && h == s.jobs[j].slot
    {
      HelperJob(s, h);
    }
  }

  /** Every job is in exactly one place: once in the queue of its priority, once among the
      completions, or with exactly one helper. Only a job waiting for its retry is nowhere. */
  lemma ExactlyOnePlace(s: State, j: JobId)
    requires Inv(s, {}, {}) && j in s.jobs
    ensures multiset(s.interactive)[j] + multiset(s.background)[j] + multiset(s.completions)[j] + |Holders(s, j)|
            == if s.jobs[j].state.RetryWait? then 0 else 1
  {
    DistinctOnce(s.interactive, j);
    DistinctOnce(s.background, j);
    DistinctOnce(s.completions, j);
    HoldersExact(s, j);
    assert j in s.interactive <==> Waits(s, Interactive, {}, j);
    assert j in s.background <==> Waits(s, Background, {}, j);
    assert j in s.completions <==> Finished(s, {}, j);
  }
}
