/** Value-level view of the resolver supervisor: jobs, queues, helpers, interest markers and
    attempt metrics, the invariant that ties them together, and one small lemma per way in which
    a job may change place.
 */
module SupervisorState {
  import opened Basics

  type JobId = nat
  type EntryId = nat
  type Time = nat

  const OUTCOME_COUNT: nat := 10
  const FAILURE_COUNT: nat := 6

  datatype Priority = Background | Interactive
  datatype JobState = Queued | Sending | Dispatched | RetryWait | Complete
  datatype HelperState = Idle | SendPending | Busy | Backoff | ShuttingDown | Stopped
  datatype Publication = Stored | Transient | Invalid | LimitReached | TimeOverflow
  /** The cache entry a job resolves; its identity is never reused by the cache. */
  datatype Entry = Entry(id: EntryId, kind: QueryKind)

  datatype Job = Job(
    entry: Entry,
    background: nat,
    interactive: nat,
    orphaned: bool,
    priority: Priority,
    queryId: nat,
    slot: nat,
    state: JobState,
    retryCount: nat,
    retryAt: Time,
    dispatchedAt: Time,
    deadline: Time,
    publication: Publication)
  {
    predicate InFlight() { state.Sending? || state.Dispatched? }
    predicate Unwanted() { background == 0 && interactive == 0 }
  }

  datatype Helper = Helper(
    state: HelperState,
    job: Option<JobId>,
    connected: bool,
    failureCount: nat,
    consecutiveSuccesses: nat,
    nextEventAt: Time)

  /** One holder's interest marker: a coordinator entry or a waiter slot that scheduled an entry. */
  datatype Marker = Marker(holder: nat, entry: EntryId, priority: Priority)

  type OutcomeCounters = s: seq<nat> | |s| == OUTCOME_COUNT witness seq(OUTCOME_COUNT, _ => 0)
  type FailureCounters = s: seq<nat> | |s| == FAILURE_COUNT witness seq(FAILURE_COUNT, _ => 0)

  /** Attempt metrics of one query type. */
  datatype Attempt = Attempt(
    dispatched: nat,
    response: OutcomeCounters,
    orphanResponse: OutcomeCounters,
    failure: FailureCounters,
    attemptAbandoned: nat,
    retryScheduled: nat,
    enqueued: nat,
    taken: nat,
    completionAbandoned: nat)

  datatype Attempts = Attempts(a: Attempt, aaaa: Attempt, srv: Attempt) {
    function At(k: QueryKind): (r: Attempt) {
      match k case A => a case AAAA => aaaa case SRV => srv
    }
    function With(k: QueryKind, attempt: Attempt): (r: Attempts) {
      match k case A => this.(a := attempt) case AAAA => this.(aaaa := attempt) case SRV => this.(srv := attempt)
    }
  }

  /** A ghost record of one dispatch decision. */
  datatype Assignment = Assignment(job: JobId, priority: Priority, interactiveQueued: nat)

  datatype State = State(
    jobs: map<JobId, Job>,
    index: map<EntryId, JobId>,
    interactive: seq<JobId>,
    background: seq<JobId>,
    completions: seq<JobId>,
    helpers: seq<Helper>,
    jobCount: nat,
    jobLimit: nat,
    nextJobId: nat,
    nextQueryId: nat,
    attempts: Attempts,
    saturations: nat,
    markers: set<Marker>,
    decisions: seq<Assignment>,
    shuttingDown: bool)

  // ---------------------------------------------------------------- sequences

  function Sum(s: seq<nat>): (n: nat) {
    if s == [] then 0 else s[0] + Sum(s[1..])
  }

  lemma {:induction false} SumUpdate(s: seq<nat>, i: nat, v: nat)
    requires i < |s|
    ensures Sum(s[i := v]) == Sum(s) - s[i] + v
  {
    if i == 0 {
      assert s[0 := v][1..] == s[1..];
    } else {
      assert s[i := v][1..] == s[1..][i - 1 := v];
      SumUpdate(s[1..], i - 1, v);
    }
  }

  // ---------------------------------------------------------------- invariant

  ghost predicate Indexed(s: State) {
    && (forall j :: j in s.jobs ==> s.jobs[j].entry.id in s.index && s.index[s.jobs[j].entry.id] == j)
    && (forall e :: e in s.index ==> s.index[e] in s.jobs && s.jobs[s.index[e]].entry.id == e)
  }

  function QueueOf(s: State, p: Priority): (q: seq<JobId>) {
    if p.Interactive? then s.interactive else s.background
  }

  ghost predicate Waits(s: State, p: Priority, detached: set<JobId>, j: JobId) {
    j in s.jobs && j !in detached && s.jobs[j].state.Queued? && s.jobs[j].priority == p
  }

  ghost predicate QueueExact(s: State, p: Priority, detached: set<JobId>) {
    && Distinct(QueueOf(s, p))
    && (forall j :: j in QueueOf(s, p) <==> Waits(s, p, detached, j))
  }

  ghost predicate Finished(s: State, detached: set<JobId>, j: JobId) {
    j in s.jobs && j !in detached && s.jobs[j].state.Complete?
  }

  ghost predicate CompletionExact(s: State, detached: set<JobId>) {
    && Distinct(s.completions)
    && (forall j :: j in s.completions <==> Finished(s, detached, j))
  }

  /** The job a helper holds and the state both must then be in. */
  ghost predicate HelperExact(s: State, detached: set<JobId>, h: nat)
    requires h < |s.helpers|
  {
    var helper := s.helpers[h];
    && (helper.connected <==> helper.state in {Idle, SendPending, Busy, ShuttingDown})
    && (helper.job.Some? <==> helper.state in {SendPending, Busy})
    && (helper.job.Some? ==>
          && helper.job.value in s.jobs
          && helper.job.value !in detached
          && s.jobs[helper.job.value].slot == h
          && s.jobs[helper.job.value].state == (if helper.state.Busy? then Dispatched else Sending))
  }

  ghost predicate HeldBy(s: State, j: JobId)
    requires j in s.jobs
  {
    s.jobs[j].slot < |s.helpers| && s.helpers[s.jobs[j].slot].job == Some(j)
  }

  /** A request of this job is out with a helper. */
  ghost predicate Outstanding(s: State, detached: set<JobId>, j: JobId) {
    j in s.jobs && j !in detached && s.jobs[j].InFlight()
  }

  ghost predicate Held(s: State, detached: set<JobId>) {
    && (forall h: nat :: h < |s.helpers| ==> HelperExact(s, detached, h))
    && (forall j :: Outstanding(s, detached, j) ==> HeldBy(s, j))
  }

  ghost predicate QueryIdFits(s: State, j: JobId)
    requires j in s.jobs
  {
    0 < s.jobs[j].queryId <= UINT64_MAX && (s.nextQueryId != 0 ==> s.jobs[j].queryId < s.nextQueryId)
  }

  ghost predicate QueryIdsExact(s: State, detached: set<JobId>) {
    && s.nextQueryId <= UINT64_MAX
    && (forall j :: Outstanding(s, detached, j) ==> QueryIdFits(s, j))
    && (forall j :: j in s.jobs && j !in detached && !s.jobs[j].InFlight() ==> s.jobs[j].queryId == 0)
    && (forall i, j :: Outstanding(s, detached, i) && Outstanding(s, detached, j) && i != j ==>
       s.jobs[i].queryId != s.jobs[j].queryId)
  }

  /** What interest means for one job. */
  predicate InterestOk(job: Job) {
    if job.state.Complete? then job.Unwanted() && !job.orphaned
    else
      && (job.orphaned <==> job.Unwanted())
      && (job.orphaned ==> job.state.Dispatched?)
      && (job.priority.Interactive? <==> job.interactive > 0)
  }

  ghost predicate InterestsOk(s: State) {
    forall j :: j in s.jobs ==> InterestOk(s.jobs[j])
  }

  function MarkersFor(markers: set<Marker>, e: EntryId, p: Priority): (r: set<Marker>) {
    set m | m in markers && m.entry == e && m.priority == p
  }

  ghost predicate CountsMarkers(markers: set<Marker>, job: Job) {
    !job.state.Complete? ==>
      && job.background == |MarkersFor(markers, job.entry.id, Background)|
      && job.interactive == |MarkersFor(markers, job.entry.id, Interactive)|
  }

  /** The interest ledger: every marker belongs to a live job, and an unfinished job counts exactly
      the markers held on its entry. */
  ghost predicate Ledger(s: State) {
    && (forall m :: m in s.markers ==> m.entry in s.index)
    && (forall j :: j in s.jobs ==> CountsMarkers(s.markers, s.jobs[j]))
  }

  ghost function DispatchedSet(s: State, k: QueryKind, settled: set<JobId>): (r: set<JobId>) {
    set j | j in s.jobs && j !in settled && s.jobs[j].state.Dispatched? && s.jobs[j].entry.kind == k
  }

  ghost function CompleteSet(s: State, k: QueryKind): (r: set<JobId>) {
    set j | j in s.jobs && s.jobs[j].state.Complete? && s.jobs[j].entry.kind == k
  }

  ghost predicate Balanced(a: Attempt, dispatchedNow: nat, completeNow: nat) {
    && a.dispatched == Sum(a.response) + Sum(a.failure) + dispatchedNow + a.attemptAbandoned
    && a.enqueued == a.taken + completeNow + a.completionAbandoned
    && (forall i :: 0 <= i < OUTCOME_COUNT ==> a.orphanResponse[i] <= a.response[i])
  }

  /** Conservation of attempts and completions, per query type, until a counter has saturated. */
  ghost predicate Conserved(s: State, settled: set<JobId>) {
    s.saturations == 0 ==>
      forall k: QueryKind :: Balanced(s.attempts.At(k), |DispatchedSet(s, k, settled)|, |CompleteSet(s, k)|)
  }

  ghost predicate Prioritised(decisions: seq<Assignment>) {
    forall i :: 0 <= i < |decisions| && decisions[i].priority.Background? ==> decisions[i].interactiveQueued == 0
  }

  ghost predicate Counted(s: State) {
    && s.jobCount == |s.jobs| <= s.jobLimit
    && (forall j :: j in s.jobs ==> j < s.nextJobId)
  }

  /** Placement: every job outside `detached` is exactly where its state says; jobs in `detached`
      are nowhere. */
  ghost predicate Placed(s: State, detached: set<JobId>) {
    && Indexed(s)
    && Listed(s, detached)
    && Lent(s, detached)
    && Counted(s)
  }

  ghost predicate Listed(s: State, detached: set<JobId>) {
    && QueueExact(s, Interactive, detached)
    && QueueExact(s, Background, detached)
    && CompletionExact(s, detached)
  }

  ghost predicate Lent(s: State, detached: set<JobId>) {
    && Held(s, detached)
    && QueryIdsExact(s, detached)
  }

  /** The whole invariant. `detached` jobs are in transit between two places; the attempts of
      `settled` jobs have already been counted as answered or failed. */
  ghost predicate Inv(s: State, detached: set<JobId>, settled: set<JobId>) {
    && Placed(s, detached)
    && InterestsOk(s)
    && (!s.shuttingDown ==> Ledger(s))
    && Conserved(s, settled)
    && Prioritised(s.decisions)
  }

  /** Helpers leave the working states exactly when shutdown begins, and then no job is left. */
  ghost predicate ModeOk(s: State) {
    if s.shuttingDown then
      && s.jobs == map[]
      && (forall h: nat :: h < |s.helpers| ==> s.helpers[h].state in {ShuttingDown, Stopped})
    else
      forall h: nat :: h < |s.helpers| ==> s.helpers[h].state !in {ShuttingDown, Stopped}
  }

  /** No helper idles while a job waits. */
  ghost predicate WorkConserving(s: State) {
    (s.interactive == [] && s.background == []) || forall h: nat :: h < |s.helpers| ==> !s.helpers[h].state.Idle?
  }

  // ---------------------------------------------------------------- moving one job

  function WithQueue(s: State, p: Priority, q: seq<JobId>): (r: State) {
    if p.Interactive? then s.(interactive := q) else s.(background := q)
  }

  function WithJob(s: State, j: JobId, job: Job): (r: State) {
    s.(jobs := s.jobs[j := job])
  }

  function WithHelper(s: State, h: nat, helper: Helper): (r: State)
    requires h < |s.helpers|
  {
    s.(helpers := s.helpers[h := helper])
  }

  /** Moves that leave the helpers and every outstanding job alone. */
  lemma LentUnchanged(s: State, d: set<JobId>, r: State, d': set<JobId>)
    requires Lent(s, d)
    requires r.helpers == s.helpers && r.nextQueryId == s.nextQueryId
    requires forall k :: Outstanding(r, d', k) <==> Outstanding(s, d, k)
    requires forall k :: Outstanding(s, d, k) ==> k in r.jobs && r.jobs[k] == s.jobs[k]
    requires forall k :: k in r.jobs && k !in d' && !r.jobs[k].InFlight() ==> r.jobs[k].queryId == 0
    ensures Lent(r, d')
  {
    forall h: nat | h < |s.helpers|
      ensures HelperExact(r, d', h)
    {
      assert HelperExact(s, d, h);
      if s.helpers[h].job.Some? {
        assert Outstanding(s, d, s.helpers[h].job.value);
      }
    }
    assert forall k :: Outstanding(s, d, k) ==> HeldBy(s, k) && HeldBy(r, k);
    assert forall k :: Outstanding(s, d, k) ==> QueryIdFits(s, k) && QueryIdFits(r, k);
  }

  /** Moves that leave the three lists and their members alone. */
  lemma ListedUnchanged(s: State, d: set<JobId>, r: State, d': set<JobId>)
    requires Listed(s, d)
    requires r.interactive == s.interactive && r.background == s.background && r.completions == s.completions
    requires forall p, k :: Waits(r, p, d', k) <==> Waits(s, p, d, k)
    requires forall k :: Finished(r, d', k) <==> Finished(s, d, k)
    ensures Listed(r, d')
  {
  }

  lemma LentReattached(s: State, d: set<JobId>, r: State, d': set<JobId>)
    requires Lent(s, d)
    requires r.helpers == s.helpers && r.nextQueryId == s.nextQueryId
    requires r.jobs.Keys <= s.jobs.Keys
    requires forall k :: k in r.jobs && k !in d ==> r.jobs[k] == s.jobs[k]
    requires forall k :: k in s.jobs && k !in d && s.jobs[k].InFlight() ==> k in r.jobs && k !in d'
    requires forall k :: k in r.jobs && k in d && k !in d' ==> !r.jobs[k].InFlight() && r.jobs[k].queryId == 0
    ensures Lent(r, d')
  {
    assert forall k :: Outstanding(r, d', k) <==> Outstanding(s, d, k);
    LentUnchanged(s, d, r, d');
  }

  lemma LeaveQueueListed(s: State, j: JobId)
    requires Listed(s, {})
    requires j in s.jobs && s.jobs[j].state.Queued?
    ensures Listed(WithQueue(s, s.jobs[j].priority, Unlink(QueueOf(s, s.jobs[j].priority), j)), {j})
  {
    var p := s.jobs[j].priority;
    UnlinkDistinct(QueueOf(s, p), j);
    var r := WithQueue(s, p, Unlink(QueueOf(s, p), j));
    assert forall q, k :: Waits(r, q, {j}, k) <==> Waits(s, q, {}, k) && k != j;
    assert forall k :: Finished(r, {j}, k) <==> Finished(s, {}, k);
  }

  lemma LeaveQueue(s: State, j: JobId)
    requires Placed(s, {})
    requires j in s.jobs && s.jobs[j].state.Queued?
    ensures Placed(WithQueue(s, s.jobs[j].priority, Unlink(QueueOf(s, s.jobs[j].priority), j)), {j})
  {
    hide Listed, Lent;
    LeaveQueueListed(s, j);
    LentReattached(s, {}, WithQueue(s, s.jobs[j].priority, Unlink(QueueOf(s, s.jobs[j].priority), j)), {j});
  }

  lemma ReplacedIndexed(s: State, j: JobId, job: Job)
    requires Indexed(s) && Counted(s) && j in s.jobs && job.entry == s.jobs[j].entry
    ensures Indexed(WithJob(s, j, job)) && Counted(WithJob(s, j, job))
  {
    assert WithJob(s, j, job).jobs.Keys == s.jobs.Keys;
  }

  /** A job that is nowhere may change freely, short of its entry. */
  lemma ChangeDetached(s: State, j: JobId, job: Job)
    requires Placed(s, {j})
    requires j in s.jobs && job.entry == s.jobs[j].entry
    ensures Placed(WithJob(s, j, job), {j})
  {
    hide Listed, Lent, Indexed, Counted;
    var r := WithJob(s, j, job);
    ReplacedIndexed(s, j, job);
    assert forall q, k :: Waits(r, q, {j}, k) <==> Waits(s, q, {j}, k);
    assert forall k :: Finished(r, {j}, k) <==> Finished(s, {j}, k);
    ListedUnchanged(s, {j}, r, {j});
    LentReattached(s, {j}, r, {j});
  }

  lemma EnterQueueListed(s: State, j: JobId, q: seq<JobId>)
    requires Listed(s, {j})
    requires j in s.jobs && s.jobs[j].state.Queued?
    requires q == [j] + QueueOf(s, s.jobs[j].priority) || q == QueueOf(s, s.jobs[j].priority) + [j]
    ensures Listed(WithQueue(s, s.jobs[j].priority, q), {})
  {
    var p := s.jobs[j].priority;
    var r := WithQueue(s, p, q);
    assert !Waits(s, p, {j}, j);
    Extended(QueueOf(s, p), j, q);
    assert forall o, k :: Waits(r, o, {}, k) <==> Waits(s, o, {j}, k) || (k == j && o == p);
    assert forall k :: Finished(r, {}, k) <==> Finished(s, {j}, k);
  }

  lemma EnterQueue(s: State, j: JobId, q: seq<JobId>)
    requires Placed(s, {j})
    requires j in s.jobs && s.jobs[j].state.Queued? && s.jobs[j].queryId == 0
    requires q == [j] + QueueOf(s, s.jobs[j].priority) || q == QueueOf(s, s.jobs[j].priority) + [j]
    ensures Placed(WithQueue(s, s.jobs[j].priority, q), {})
  {
    hide Listed, Lent;
    EnterQueueListed(s, j, q);
    LentReattached(s, {j}, WithQueue(s, s.jobs[j].priority, q), {});
  }

  lemma EnterCompletionsListed(s: State, j: JobId)
    requires Listed(s, {j})
    requires j in s.jobs && s.jobs[j].state.Complete?
    ensures Listed(s.(completions := s.completions + [j]), {})
  {
    var r := s.(completions := s.completions + [j]);
    assert !Finished(s, {j}, j);
    Extended(s.completions, j, s.completions + [j]);
    assert forall o, k :: Waits(r, o, {}, k) <==> Waits(s, o, {j}, k);
    assert forall k :: Finished(r, {}, k) <==> Finished(s, {j}, k) || k == j;
  }

  lemma EnterCompletions(s: State, j: JobId)
    requires Placed(s, {j})
    requires j in s.jobs && s.jobs[j].state.Complete? && s.jobs[j].queryId == 0
    ensures Placed(s.(completions := s.completions + [j]), {})
  {
    hide Listed, Lent;
    EnterCompletionsListed(s, j);
    LentReattached(s, {j}, s.(completions := s.completions + [j]), {});
  }

  lemma LeaveCompletionsListed(s: State, j: JobId)
    requires Listed(s, {})
    requires j in s.jobs && s.jobs[j].state.Complete?
    ensures Listed(s.(completions := Unlink(s.completions, j)), {j})
  {
    UnlinkDistinct(s.completions, j);
    var r := s.(completions := Unlink(s.completions, j));
    assert forall o, k :: Waits(r, o, {j}, k) <==> Waits(s, o, {}, k);
    assert forall k :: Finished(r, {j}, k) <==> Finished(s, {}, k) && k != j;
  }

  lemma LeaveCompletions(s: State, j: JobId)
    requires Placed(s, {})
    requires j in s.jobs && s.jobs[j].state.Complete?
    ensures Placed(s.(completions := Unlink(s.completions, j)), {j})
  {
    hide Listed, Lent;
    LeaveCompletionsListed(s, j);
    LentReattached(s, {}, s.(completions := Unlink(s.completions, j)), {j});
  }

  /** Waiting for a retry is being in no list at all. */
  lemma RetryIsNowhere(s: State, j: JobId)
    requires j in s.jobs && s.jobs[j].state.RetryWait? && s.jobs[j].queryId == 0
    ensures Placed(s, {j}) <==> Placed(s, {})
  {
    hide Listed, Lent;
    assert forall o, k :: Waits(s, o, {}, k) <==> Waits(s, o, {j}, k);
    assert forall k :: Finished(s, {}, k) <==> Finished(s, {j}, k);
    if Placed(s, {j}) {
      ListedUnchanged(s, {j}, s, {});
      LentReattached(s, {j}, s, {});
    }
    if Placed(s, {}) {
      ListedUnchanged(s, {}, s, {j});
      LentReattached(s, {}, s, {j});
    }
  }

  lemma EnterHelperLent(s: State, h: nat, j: JobId, helper: Helper)
    requires Lent(s, {j})
    requires j in s.jobs && s.jobs[j].InFlight() && s.jobs[j].slot == h
    requires h < |s.helpers| && s.helpers[h].job.None?
    requires helper.job == Some(j) && helper.connected
    requires helper.state == (if s.jobs[j].state.Dispatched? then Busy else SendPending)
    requires QueryIdFits(s, j)
    requires forall k :: Outstanding(s, {j}, k) ==> s.jobs[k].queryId != s.jobs[j].queryId
    ensures Lent(WithHelper(s, h, helper), {})
  {
    var r := WithHelper(s, h, helper);
    assert forall k :: Outstanding(r, {}, k) <==> Outstanding(s, {j}, k) || k == j;
    assert forall i: nat :: i < |s.helpers| && i != h && HelperExact(s, {j}, i) ==> HelperExact(r, {}, i);
    assert forall k :: k in s.jobs && HeldBy(s, k) ==> HeldBy(r, k);
    assert forall k :: k in s.jobs && QueryIdFits(s, k) ==> QueryIdFits(r, k);
  }

  lemma EnterHelper(s: State, h: nat, j: JobId, helper: Helper)
    requires Placed(s, {j})
    requires j in s.jobs && s.jobs[j].InFlight() && s.jobs[j].slot == h
    requires h < |s.helpers| && s.helpers[h].job.None?
    requires helper.job == Some(j) && helper.connected
    requires helper.state == (if s.jobs[j].state.Dispatched? then Busy else SendPending)
    requires QueryIdFits(s, j)
    requires forall k :: Outstanding(s, {j}, k) ==> s.jobs[k].queryId != s.jobs[j].queryId
    ensures Placed(WithHelper(s, h, helper), {})
  {
    hide Listed, Lent;
    var r := WithHelper(s, h, helper);
    assert forall o, k :: Waits(r, o, {}, k) <==> Waits(s, o, {j}, k);
    assert forall k :: Finished(r, {}, k) <==> Finished(s, {j}, k);
    ListedUnchanged(s, {j}, r, {});
    EnterHelperLent(s, h, j, helper);
  }

  lemma LeaveHelperLent(s: State, h: nat, helper: Helper)
    requires Lent(s, {})
    requires h < |s.helpers| && s.helpers[h].job.Some?
    requires helper.job.None? && helper.state !in {SendPending, Busy}
    requires helper.connected <==> helper.state in {Idle, ShuttingDown}
    ensures s.helpers[h].job.value in s.jobs && s.jobs[s.helpers[h].job.value].InFlight()
    ensures Lent(WithHelper(s, h, helper), {s.helpers[h].job.value})
  {
    var j := s.helpers[h].job.value;
    assert HelperExact(s, {}, h);
    var r := WithHelper(s, h, helper);
    assert forall k :: Outstanding(r, {j}, k) <==> Outstanding(s, {}, k) && k != j;
    forall i: nat | i < |s.helpers| && i != h
      ensures HelperExact(r, {j}, i)
    {
      assert HelperExact(s, {}, i);
    }
    assert forall k :: k in s.jobs && k != j && HeldBy(s, k) ==> HeldBy(r, k);
    assert forall k :: k in s.jobs && QueryIdFits(s, k) ==> QueryIdFits(r, k);
  }

  lemma LeaveHelper(s: State, h: nat, helper: Helper)
    requires Placed(s, {})
    requires h < |s.helpers| && s.helpers[h].job.Some?
    requires helper.job.None? && helper.state !in {SendPending, Busy}
    requires helper.connected <==> helper.state in {Idle, ShuttingDown}
    ensures Placed(WithHelper(s, h, helper), {s.helpers[h].job.value})
  {
    hide Listed, Lent;
    var j := s.helpers[h].job.value;
    LeaveHelperLent(s, h, helper);
    var r := WithHelper(s, h, helper);
    assert forall o, k :: Waits(r, o, {j}, k) <==> Waits(s, o, {}, k);
    assert forall k :: Finished(r, {j}, k) <==> Finished(s, {}, k);
    ListedUnchanged(s, {}, r, {j});
  }

  lemma ChangeHelperLent(s: State, d: set<JobId>, h: nat, helper: Helper)
    requires Lent(s, d)
    requires h < |s.helpers| && s.helpers[h].job.None?
    requires helper.job.None? && helper.state !in {SendPending, Busy}
    requires helper.connected <==> helper.state in {Idle, ShuttingDown}
    ensures Lent(WithHelper(s, h, helper), d)
  {
    var r := WithHelper(s, h, helper);
    assert forall k :: Outstanding(r, d, k) <==> Outstanding(s, d, k);
    assert forall i: nat :: i < |s.helpers| && i != h && HelperExact(s, d, i) ==> HelperExact(r, d, i);
    assert forall k :: k in s.jobs && HeldBy(s, k) ==> HeldBy(r, k);
    assert forall k :: k in s.jobs && QueryIdFits(s, k) ==> QueryIdFits(r, k);
  }

  /** A helper that holds no job may change among the states that hold none. */
  lemma ChangeHelper(s: State, d: set<JobId>, h: nat, helper: Helper)
    requires Placed(s, d)
    requires h < |s.helpers| && s.helpers[h].job.None?
    requires helper.job.None? && helper.state !in {SendPending, Busy}
    requires helper.connected <==> helper.state in {Idle, ShuttingDown}
    ensures Placed(WithHelper(s, h, helper), d)
  {
    hide Listed, Lent;
    var r := WithHelper(s, h, helper);
    assert forall o, k :: Waits(r, o, d, k) <==> Waits(s, o, d, k);
    assert forall k :: Finished(r, d, k) <==> Finished(s, d, k);
    ListedUnchanged(s, d, r, d);
    ChangeHelperLent(s, d, h, helper);
  }

  function WithoutJob(s: State, j: JobId): (r: State)
    requires j in s.jobs && s.jobCount > 0
  {
    s.(jobs := s.jobs - {j}, index := s.index - {s.jobs[j].entry.id}, jobCount := s.jobCount - 1)
  }

  lemma ForgetIndexed(s: State, j: JobId)
    requires Indexed(s) && Counted(s) && j in s.jobs
    ensures s.jobCount > 0
    ensures Indexed(WithoutJob(s, j)) && Counted(WithoutJob(s, j))
  {
    assert s.jobs.Keys == (s.jobs - {j}).Keys + {j};
  }

  lemma Forget(s: State, j: JobId)
    requires Placed(s, {j})
    requires j in s.jobs
    ensures s.jobCount > 0
    ensures Placed(WithoutJob(s, j), {})
  {
    hide Listed, Lent, Indexed, Counted;
    ForgetIndexed(s, j);
    var r := WithoutJob(s, j);
    assert forall o, k :: Waits(r, o, {}, k) <==> Waits(s, o, {j}, k);
    assert forall k :: Finished(r, {}, k) <==> Finished(s, {j}, k);
    ListedUnchanged(s, {j}, r, {});
    LentReattached(s, {j}, r, {});
  }

  function WithNewJob(s: State, job: Job): (r: State) {
    s.(jobs := s.jobs[s.nextJobId := job], index := s.index[job.entry.id := s.nextJobId],
       jobCount := s.jobCount + 1, nextJobId := s.nextJobId + 1)
  }

  lemma IntroduceIndexed(s: State, job: Job)
    requires Indexed(s) && s.nextJobId !in s.jobs && job.entry.id !in s.index
    ensures Indexed(WithNewJob(s, job))
  {
    var r := WithNewJob(s, job);
    forall j | j in r.jobs
      ensures r.jobs[j].entry.id in r.index && r.index[r.jobs[j].entry.id] == j
    {
      if j != s.nextJobId {
        assert s.jobs[j].entry.id in s.index && s.index[s.jobs[j].entry.id] == j;
      }
    }
    forall e | e in r.index
      ensures r.index[e] in r.jobs && r.jobs[r.index[e]].entry.id == e
    {
      if e != job.entry.id {
        assert s.index[e] in s.jobs;
      }
    }
  }

  lemma IntroduceCounted(s: State, job: Job)
    requires Counted(s) && s.jobCount < s.jobLimit
    ensures s.nextJobId !in s.jobs
    ensures Counted(WithNewJob(s, job))
  {
    assert WithNewJob(s, job).jobs.Keys == s.jobs.Keys + {s.nextJobId};
  }

  lemma Introduce(s: State, job: Job)
    requires Placed(s, {})
    requires job.entry.id !in s.index && s.jobCount < s.jobLimit
    ensures Placed(WithNewJob(s, job), {s.nextJobId})
  {
    hide Listed, Lent, Indexed, Counted;
    IntroduceCounted(s, job);
    IntroduceIndexed(s, job);
    var j := s.nextJobId;
    var r := WithNewJob(s, job);
    assert forall o, k :: Waits(r, o, {j}, k) <==> Waits(s, o, {}, k);
    assert forall k :: Finished(r, {j}, k) <==> Finished(s, {}, k);
    ListedUnchanged(s, {}, r, {j});
    assert forall k :: Outstanding(r, {j}, k) <==> Outstanding(s, {}, k);
    IntroduceLent(s, job);
  }

  lemma IntroduceLent(s: State, job: Job)
    requires Lent(s, {}) && s.nextJobId !in s.jobs
    ensures Lent(WithNewJob(s, job), {s.nextJobId})
  {
    var j := s.nextJobId;
    var r := WithNewJob(s, job);
    assert forall k :: Outstanding(r, {j}, k) <==> Outstanding(s, {}, k);
    LentUnchanged(s, {}, r, {j});
  }

  // ---------------------------------------------------------------- counting

  function Bumped(c: nat): (r: nat) {
    if c < UINT64_MAX then c + 1 else c
  }

  function WithAttempt(s: State, k: QueryKind, counter: nat, a: Attempt): (r: State) {
    s.(attempts := s.attempts.With(k, a), saturations := if counter < UINT64_MAX then s.saturations
                                                         else Bumped(s.saturations))
  }

  function RecordDispatched(s: State, k: QueryKind): (r: State) {
    var a := s.attempts.At(k);
    WithAttempt(s, k, a.dispatched, a.(dispatched := Bumped(a.dispatched)))
  }

  function RecordFailure(s: State, k: QueryKind, f: nat): (r: State)
    requires f < FAILURE_COUNT
  {
    var a := s.attempts.At(k);
    WithAttempt(s, k, a.failure[f], a.(failure := a.failure[f := Bumped(a.failure[f])]))
  }

  function RecordAnswer(s: State, k: QueryKind, outcome: nat): (r: State)
    requires outcome < OUTCOME_COUNT
  {
    var a := s.attempts.At(k);
    WithAttempt(s, k, a.response[outcome], a.(response := a.response[outcome := Bumped(a.response[outcome])]))
  }

  function RecordOrphanAnswer(s: State, k: QueryKind, outcome: nat): (r: State)
    requires outcome < OUTCOME_COUNT
  {
    var a := s.attempts.At(k);
    WithAttempt(s, k, a.orphanResponse[outcome],
      a.(orphanResponse := a.orphanResponse[outcome := Bumped(a.orphanResponse[outcome])]))
  }

  function RecordResponse(s: State, k: QueryKind, outcome: nat, orphaned: bool): (r: State)
    requires outcome < OUTCOME_COUNT
  {
    var answered := RecordAnswer(s, k, outcome);
    if orphaned then RecordOrphanAnswer(answered, k, outcome) else answered
  }

  function RecordRetry(s: State, k: QueryKind): (r: State) {
    var a := s.attempts.At(k);
    WithAttempt(s, k, a.retryScheduled, a.(retryScheduled := Bumped(a.retryScheduled)))
  }

  function RecordEnqueued(s: State, k: QueryKind): (r: State) {
    var a := s.attempts.At(k);
    WithAttempt(s, k, a.enqueued, a.(enqueued := Bumped(a.enqueued)))
  }

  function RecordTaken(s: State, k: QueryKind): (r: State) {
    var a := s.attempts.At(k);
    WithAttempt(s, k, a.taken, a.(taken := Bumped(a.taken)))
  }

  function RecordAttemptAbandoned(s: State, k: QueryKind): (r: State) {
    var a := s.attempts.At(k);
    WithAttempt(s, k, a.attemptAbandoned, a.(attemptAbandoned := Bumped(a.attemptAbandoned)))
  }

  function RecordCompletionAbandoned(s: State, k: QueryKind): (r: State) {
    var a := s.attempts.At(k);
    WithAttempt(s, k, a.completionAbandoned, a.(completionAbandoned := Bumped(a.completionAbandoned)))
  }

  lemma LentIgnores(s: State, d: set<JobId>, r: State)
    requires Lent(s, d)
    requires r.jobs == s.jobs && r.helpers == s.helpers && r.nextQueryId == s.nextQueryId
    ensures Lent(r, d)
  {
    assert forall k :: Outstanding(r, d, k) <==> Outstanding(s, d, k);
    LentUnchanged(s, d, r, d);
  }

  /** Placement does not look at the metrics, the markers or the decision log. */
  lemma PlacedIgnores(s: State, d: set<JobId>, r: State)
    requires Placed(s, d)
    requires r == s.(attempts := r.attempts, saturations := r.saturations, markers := r.markers,
             decisions := r.decisions, shuttingDown := r.shuttingDown)
    ensures Placed(r, d)
  {
    hide Listed, Lent;
    assert forall o, k :: Waits(r, o, d, k) <==> Waits(s, o, d, k);
    assert forall k :: Finished(r, d, k) <==> Finished(s, d, k);
    ListedUnchanged(s, d, r, d);
    LentIgnores(s, d, r);
  }

  /** Conservation carries over when only one query type's numbers move, and move together. */
  lemma ConservedBy(s: State, d: set<JobId>, r: State, d': set<JobId>, k: QueryKind)
    requires Conserved(s, d)
    requires r.attempts == s.attempts.With(k, r.attempts.At(k))
    requires r.saturations == 0 ==> s.saturations == 0
    requires forall o: QueryKind :: o != k ==>
             DispatchedSet(r, o, d') == DispatchedSet(s, o, d) && CompleteSet(r, o) == CompleteSet(s, o)
    requires r.saturations == 0 && Balanced(s.attempts.At(k), |DispatchedSet(s, k, d)|, |CompleteSet(s, k)|) ==>
             Balanced(r.attempts.At(k), |DispatchedSet(r, k, d')|, |CompleteSet(r, k)|)
    ensures Conserved(r, d')
  {
    if r.saturations == 0 {
      forall o: QueryKind
        ensures Balanced(r.attempts.At(o), |DispatchedSet(r, o, d')|, |CompleteSet(r, o)|)
      {
        assert Balanced(s.attempts.At(o), |DispatchedSet(s, o, d)|, |CompleteSet(s, o)|);
        if o != k {
          assert r.attempts.At(o) == s.attempts.At(o);
        }
      }
    }
  }

  /** A placed job's attempt is settled once, by an answer or by a failure. */
  lemma SettleByFailure(s: State, j: JobId, f: nat)
    requires Conserved(s, {})
    requires j in s.jobs && s.jobs[j].state.Dispatched? && f < FAILURE_COUNT
    ensures Conserved(RecordFailure(s, s.jobs[j].entry.kind, f), {j})
  {
    var k := s.jobs[j].entry.kind;
    var a := s.attempts.At(k);
    var r := RecordFailure(s, k, f);
    SumUpdate(a.failure, f, Bumped(a.failure[f]));
    assert DispatchedSet(s, k, {}) == DispatchedSet(r, k, {j}) + {j};
    assert forall o: QueryKind :: o != k ==> DispatchedSet(r, o, {j}) == DispatchedSet(s, o, {});
    assert forall o: QueryKind :: CompleteSet(r, o) == CompleteSet(s, o);
    ConservedBy(s, {}, r, {j}, k);
  }

  lemma ResponseBalanced(s: State, k: QueryKind, outcome: nat, orphaned: bool, dispatchedNow: nat, completeNow: nat)
    requires outcome < OUTCOME_COUNT
    requires s.saturations == 0 && RecordResponse(s, k, outcome, orphaned).saturations == 0
    requires Balanced(s.attempts.At(k), dispatchedNow + 1, completeNow)
    ensures Balanced(RecordResponse(s, k, outcome, orphaned).attempts.At(k), dispatchedNow, completeNow)
  {
    var a := s.attempts.At(k);
    var b := RecordAnswer(s, k, outcome).attempts.At(k);
    assert b == a.(response := a.response[outcome := a.response[outcome] + 1]);
    SumUpdate(a.response, outcome, a.response[outcome] + 1);
    if orphaned {
      assert RecordResponse(s, k, outcome, orphaned).attempts.At(k)
          == b.(orphanResponse := b.orphanResponse[outcome := b.orphanResponse[outcome] + 1]);
    }
  }

  lemma SettleByResponse(s: State, j: JobId, outcome: nat)
    requires Conserved(s, {})
    requires j in s.jobs && s.jobs[j].state.Dispatched? && outcome < OUTCOME_COUNT
    ensures Conserved(RecordResponse(s, s.jobs[j].entry.kind, outcome, s.jobs[j].orphaned), {j})
  {
    hide Balanced;
    var k := s.jobs[j].entry.kind;
    var r := RecordResponse(s, k, outcome, s.jobs[j].orphaned);
    assert DispatchedSet(s, k, {}) == DispatchedSet(r, k, {j}) + {j};
    assert forall o: QueryKind :: o != k ==> DispatchedSet(r, o, {j}) == DispatchedSet(s, o, {});
    assert forall o: QueryKind :: CompleteSet(r, o) == CompleteSet(s, o);
    if r.saturations == 0 {
      ResponseBalanced(s, k, outcome, s.jobs[j].orphaned, |DispatchedSet(r, k, {j})|, |CompleteSet(s, k)|);
    }
    ConservedBy(s, {}, r, {j}, k);
  }

  /** A job that is not dispatched has no attempt to settle. */
  lemma NothingToSettle(s: State, j: JobId)
    requires j in s.jobs ==> !s.jobs[j].state.Dispatched?
    ensures Conserved(s, {}) <==> Conserved(s, {j})
  {
    assert forall k :: DispatchedSet(s, k, {}) == DispatchedSet(s, k, {j});
  }

  lemma ConservedSameJobs(s: State, d: set<JobId>, r: State, d': set<JobId>)
    requires Conserved(s, d)
    requires r.attempts == s.attempts && r.saturations == s.saturations
    requires forall k :: DispatchedSet(r, k, d') == DispatchedSet(s, k, d)
    requires forall k :: CompleteSet(r, k) == CompleteSet(s, k)
    ensures Conserved(r, d')
  {
  }
}
