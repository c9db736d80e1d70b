/** The resolver supervisor: a scheduler of DNS jobs over a pool of helper processes.

    Every operating-system outcome (a send, a received packet, a spawn, an allocation, a timer) is
    an arbitrary value chosen inside the method, so a contract holds for whatever the system does.
 */
module Supervisor {
  import opened Basics
  import opened SupervisorState
  import opened SupervisorMoves
  import opened SupervisorDelay
  import opened SupervisorSteps

  class ResolverSupervisor {
    const jobLimit: nat
    const interactiveReserve: nat
    var jobs: map<JobId, Job>
    var index: map<EntryId, JobId>
    var interactive: seq<JobId>
    var background: seq<JobId>
    var completions: seq<JobId>
    var helpers: seq<Helper>
    var jobCount: nat
    var nextJobId: nat
    var nextQueryId: nat
    var attempts: Attempts
    var saturations: nat
    var shuttingDown: bool
    var lastNow: Time
    ghost var markers: set<Marker>
    ghost var decisions: seq<Assignment>

    ghost function View(): (s: State)
      reads this
    {
      State(jobs, index, interactive, background, completions, helpers, jobCount, jobLimit, nextJobId, nextQueryId,
            attempts, saturations, markers, decisions, shuttingDown)
    }

    ghost predicate Valid()
      reads this
    {
      && |helpers| > 0
      && interactiveReserve <= jobLimit
      && Inv(View(), {}, {})
      && ModeOk(View())
    }

    // -------------------------------------------------------------- lists

    function QueueFirst(): (r: Option<JobId>)
      reads this
      ensures r.None? <==> interactive == [] && background == []
      ensures r.Some? ==> r.value == if interactive != [] then interactive[0] else background[0]
    {
      if interactive != [] then Some(interactive[0])
      else if background != [] then Some(background[0])
      else None
    }

    /** Unlinking is only meaningful for a job that is in the list of its priority. */
    method QueueRemove(j: JobId)
      requires j in jobs && j in QueueOf(View(), jobs[j].priority)
      modifies this
      ensures View() == Dequeued(old(View()), j) && lastNow == old(lastNow)
    {
      if jobs[j].priority.Interactive? {
        interactive := Unlink(interactive, j);
      } else {
        background := Unlink(background, j);
      }
    }

    method QueueAppend(j: JobId)
      requires j in jobs
      modifies this
      ensures View() == Requeued(old(View()), j, false) && lastNow == old(lastNow)
    {
      if jobs[j].priority.Interactive? {
        interactive := interactive + [j];
      } else {
        background := background + [j];
      }
      jobs := jobs[j := jobs[j].(state := Queued)];
    }

    method QueuePrepend(j: JobId)
      requires j in jobs
      modifies this
      ensures View() == Requeued(old(View()), j, true) && lastNow == old(lastNow)
    {
      if jobs[j].priority.Interactive? {
        interactive := [j] + interactive;
      } else {
        background := [j] + background;
      }
      jobs := jobs[j := jobs[j].(state := Queued)];
    }

    method CompletionRemove(j: JobId)
      requires j in completions
      modifies this`completions
      ensures completions == Unlink(old(completions), j)
    {
      completions := Unlink(completions, j);
    }

    method JobComplete(j: JobId, publication: Publication)
      requires j in jobs
      modifies this
      ensures View() == Completed(old(View()), j, publication) && lastNow == old(lastNow)
    {
      var kind := jobs[j].entry.kind;
      CountEnqueued(kind);
      jobs := jobs[j := jobs[j].(background := 0, interactive := 0, publication := publication, state := Complete)];
      completions := completions + [j];
    }

    /** Frees a job. Its state says which list, if any, it must first be unlinked from. */
    method JobDestroy(j: JobId)
      requires j in jobs && jobCount > 0
      requires jobs[j].state.Queued? ==> j in QueueOf(View(), jobs[j].priority)
      requires jobs[j].state.Complete? ==> j in completions
      modifies this
      ensures lastNow == old(lastNow)
      ensures View() == (if old(jobs)[j].state.Queued? then WithoutJob(Dequeued(old(View()), j), j)
                         else if old(jobs)[j].state.Complete? then Uncompleted(old(View()), j)
                         else WithoutJob(old(View()), j))
    {
      if jobs[j].state.Queued? {
        QueueRemove(j);
      } else if jobs[j].state.Complete? {
        CompletionRemove(j);
      }
      index := index - {jobs[j].entry.id};
      jobs := jobs - {j};
      jobCount := jobCount - 1;
    }

    method JobPrioritise(j: JobId, p: Priority)
      requires j in jobs
      requires jobs[j].state.Queued? ==> j in QueueOf(View(), jobs[j].priority)
      modifies this
      ensures View() == Reprioritised(old(View()), j, p) && lastNow == old(lastNow)
    {
      if jobs[j].priority == p {
        return;
      }
      var queued := jobs[j].state.Queued?;
      if queued {
        QueueRemove(j);
      }
      jobs := jobs[j := jobs[j].(priority := p)];
      if queued {
        QueueAppend(j);
      }
    }

    // -------------------------------------------------------------- metrics

    method Count(k: QueryKind, counter: nat, a: Attempt)
      modifies this`attempts, this`saturations
      ensures View() == WithAttempt(old(View()), k, counter, a)
    {
      attempts := attempts.With(k, a);
      if counter >= UINT64_MAX && saturations < UINT64_MAX {
        saturations := saturations + 1;
      }
    }

    method CountEnqueued(k: QueryKind)
      modifies this`attempts, this`saturations
      ensures View() == RecordEnqueued(old(View()), k)
    {
      var a := attempts.At(k);
      Count(k, a.enqueued, a.(enqueued := Bumped(a.enqueued)));
    }

    // -------------------------------------------------------------- retry

    /** Retries, drops or gives up on a job that is in no list. Dropping does not unlink it, which is
        right because a queued or completed job is never orphaned. */
    method JobRetry(j: JobId, now: Time) returns (ghost outcome: RetryOutcome)
      requires j in jobs && jobCount > 0
      requires jobs[j].orphaned ==> !jobs[j].state.Queued? && !jobs[j].state.Complete?
      modifies this
      ensures outcome.Dropped? <==> old(jobs)[j].orphaned
      ensures outcome.Planned? ==> now < outcome.at
      ensures !outcome.Dropped? ==> outcome.count == Bumped(old(jobs)[j].retryCount)
      ensures View() == AfterRetry(old(View()), j, outcome) && lastNow == old(lastNow)
    {
      if jobs[j].orphaned {
        outcome := Dropped;
        JobDestroy(j);
        return;
      }
      var count := Bumped(jobs[j].retryCount);
      jobs := jobs[j := jobs[j].(retryCount := count)];
      var base := QueryBase(count);
      Pow2Monotone(0, count - 1);
      var percentage: int :| -JITTER_PERCENT <= percentage <= JITTER_PERCENT;
      var delay := Jitter(base, QUERY_RETRY_MAX_MS, percentage);
      var retryAt := TimeAfter(now, delay * NANOSECONDS_PER_MILLISECOND);
      if retryAt.None? {
        outcome := Overflowed(count);
        JobComplete(j, TimeOverflow);
        return;
      }
      outcome := Planned(count, retryAt.value);
      jobs := jobs[j := jobs[j].(retryAt := retryAt.value, state := RetryWait)];
      var kind := jobs[j].entry.kind;
      var a := attempts.At(kind);
      Count(kind, a.retryScheduled, a.(retryScheduled := Bumped(a.retryScheduled)));
    }

    // -------------------------------------------------------------- helpers

    method RespawnSchedule(h: nat, now: Time)
      requires h < |helpers|
      modifies this`helpers
      ensures |helpers| == |old(helpers)|
      ensures helpers == old(helpers)[h := helpers[h]]
      ensures helpers[h] == old(helpers)[h].(
                consecutiveSuccesses := 0,
                state := if shuttingDown then Stopped else Backoff,
                failureCount := if shuttingDown then old(helpers)[h].failureCount
                                else Bumped(old(helpers)[h].failureCount),
                nextEventAt := helpers[h].nextEventAt)
      ensures !shuttingDown ==> now <= helpers[h].nextEventAt <= now + RESPAWN_MAX_MS * NANOSECONDS_PER_MILLISECOND
    {
      var helper := helpers[h].(consecutiveSuccesses := 0);
      if shuttingDown {
        helpers := helpers[h := helper.(state := Stopped, nextEventAt := 0)];
        return;
      }
      var failures := Bumped(helper.failureCount);
      var base := RespawnBase(failures);
      var percentage: int :| -JITTER_PERCENT <= percentage <= JITTER_PERCENT;
      var delay := if base == 0 then 0 else Jitter(base, RESPAWN_MAX_MS, percentage);
      var at := TimeAfter(now, delay * NANOSECONDS_PER_MILLISECOND);
      var next := if at.Some? then at.value else now;
      helpers := helpers[h := helper.(failureCount := failures, state := Backoff, nextEventAt := next)];
    }

    /** Exactly what a failure does: the helper loses its job and backs off or stops, and the job it held is
        dealt with. */
    method HelperFree(h: nat, failure: nat, now: Time) returns (ghost outcome: RetryOutcome)
      requires h < |helpers| && failure < FAILURE_COUNT
      requires helpers[h].job.Some? ==>
               helpers[h].job.value in jobs && jobCount > 0 && Attemptable(jobs[helpers[h].job.value])
      modifies this
      ensures lastNow == old(lastNow) && |helpers| == |old(helpers)| && helpers == old(helpers)[h := helpers[h]]
      ensures helpers[h] == old(helpers)[h].(
                job := None, connected := false, consecutiveSuccesses := 0,
                state := if shuttingDown then Stopped else Backoff,
                failureCount := if shuttingDown then old(helpers)[h].failureCount
                                else Bumped(old(helpers)[h].failureCount),
                nextEventAt := helpers[h].nextEventAt)
      ensures !shuttingDown ==> now <= helpers[h].nextEventAt <= now + RESPAWN_MAX_MS * NANOSECONDS_PER_MILLISECOND
      ensures old(helpers)[h].job.None? ==> View() == old(View()).(helpers := helpers)
      ensures old(helpers)[h].job.Some? ==>
                var j := old(helpers)[h].job.value;
                && View() == FailedJob(old(View()), j, failure, outcome).(helpers := helpers)
                && (old(jobs)[j].state.Dispatched? ==> (outcome.Dropped? <==> old(jobs)[j].orphaned))
                && (outcome.Planned? ==> now < outcome.at)
    {
      hide FailedJob, Bumped;
      ghost var s := View();
      outcome := Dropped;
      if helpers[h].job.Some? {
        var j := helpers[h].job.value;
        var dispatched := jobs[j].state.Dispatched?;
        jobs := jobs[j := jobs[j].(queryId := 0)];
        helpers := helpers[h := helpers[h].(job := None)];
        ghost var table := helpers;
        outcome := JobFail(j, failure, dispatched, s, now);
        FailedJobHelpers(s, table, j, failure, outcome);
        FailedJobQuiet(s, j, failure, outcome);
      }
      helpers := helpers[h := helpers[h].(connected := false)];
      RespawnSchedule(h, now);
    }

    method HelperFail(h: nat, failure: nat, now: Time) returns (ghost outcome: RetryOutcome)
      requires CanFail(View(), h) && failure < FAILURE_COUNT
      modifies this
      ensures Inv(View(), {}, {}) && lastNow == old(lastNow)
      ensures |helpers| == |old(helpers)| && helpers == old(helpers)[h := helpers[h]]
      ensures helpers[h].state == (if shuttingDown then Stopped else Backoff) && helpers[h].job.None?
      ensures markers == old(markers) && shuttingDown == old(shuttingDown)
      ensures NoNewAttempts(old(View()), View()) && NewRetriesLater(old(View()), View(), now)
      ensures old(helpers)[h].job.Some? && !old(jobs)[old(helpers)[h].job.value].orphaned ==> index == old(index)
      ensures |interactive| + |background| <= |old(interactive)| + |old(background)| + 1
      ensures old(helpers)[h].job.Some? && old(helpers)[h].job.value in jobs ==>
              !jobs[old(helpers)[h].job.value].state.Dispatched?
      ensures old(helpers)[h].job.None? ==> View() == old(View()).(helpers := helpers)
      ensures old(helpers)[h].job.Some? ==>
                old(jobCount) > 0
                  && View() == FailedJob(old(View()), old(helpers)[h].job.value, failure, outcome).(helpers := helpers)
    {
      hide Inv, FailedJob, NoNewAttempts, NewRetriesLater, Bumped;
      ghost var s := View();
      ghost var freed := Freed(helpers[h]);
      ghost var t := s;
      TimesSame(s, s, now);
      if helpers[h].job.Some? {
        HasJobs(WithHelper(s, h, freed), {helpers[h].job.value}, {}, helpers[h].job.value);
      }
      outcome := HelperFree(h, failure, now);
      if s.helpers[h].job.Some? {
        ghost var j := s.helpers[h].job.value;
        ghost var v := WithHelper(s, h, freed);
        FailedJobHelpers(s, v.helpers, j, failure, outcome);
        FailedJobKeeps(v, j, failure, outcome);
        FailedJobFrame(s, j, failure, outcome);
        FailedJobTimes(s, j, failure, outcome, now);
        t := FailedJob(v, j, failure, outcome);
        TimesKept(s, FailedJob(s, j, failure, outcome), t, now);
      }
      HelperChangedKeeps(t, {}, {}, h, helpers[h]);
      assert helpers == t.helpers[h := helpers[h]];
      assert View() == WithHelper(t, h, helpers[h]);
      TimesKept(s, t, View(), now);
    }

    /** The job a failing helper held: a dispatched attempt is counted and retried, an unsent
        request goes back to the head of its queue. */
    method JobFail(j: JobId, failure: nat, dispatched: bool, ghost s: State, now: Time)
        returns (ghost outcome: RetryOutcome)
      requires failure < FAILURE_COUNT
      requires j in s.jobs && s.jobCount > 0 && Attemptable(s.jobs[j]) && dispatched == s.jobs[j].state.Dispatched?
      requires View() == WithJob(s, j, s.jobs[j].(queryId := 0)).(helpers := helpers)
      modifies this
      ensures dispatched ==> (outcome.Dropped? <==> s.jobs[j].orphaned)
      ensures outcome.Planned? ==> now < outcome.at
      ensures View() == FailedJob(s.(helpers := old(helpers)), j, failure, outcome) && lastNow == old(lastNow)
    {
      outcome := Dropped;
      if dispatched {
        var kind := jobs[j].entry.kind;
        var a := attempts.At(kind);
        Count(kind, a.failure[failure], a.(failure := a.failure[failure := Bumped(a.failure[failure])]));
        outcome := JobRetry(j, now);
      } else {
        QueuePrepend(j);
      }
    }

    // -------------------------------------------------------------- sending

    method EventsUpdate(h: nat) returns (ok: bool)
    {
      ok := *;
    }

    /** Offers the encoded request to the helper's socket. */
    method RequestSend(h: nat, now: Time) returns (status: SendStatus, ghost effect: SendEffect, ghost deadline: Time)
      requires h < |helpers| && helpers[h].job.Some? && helpers[h].job.value in jobs
      modifies this
      ensures lastNow == old(lastNow) && now < deadline
      ensures status.SendOk? ==> !effect.NotSent?
      ensures status.SendTime? ==> effect.NotSent?
      ensures View() == (if effect.NotSent? then old(View())
                         else Handed(old(View()), h, old(helpers)[h].job.value,
                                     if effect.SentWhole? then Dispatched else Sending, now, deadline))
    {
      var j := helpers[h].job.value;
      deadline := now + 1;
      effect := NotSent;
      var due := TimeAfter(now, QUERY_TIMEOUT_SEC * NANOSECONDS_PER_SECOND);
      if due.None? {
        return SendTime, effect, deadline;
      }
      deadline := due.value;
      var sent: SendEffect := *;
      var updated := EventsUpdate(h);
      if sent.SentWhole? {
        jobs := jobs[j := jobs[j].(state := Dispatched, dispatchedAt := now, deadline := due.value)];
        var kind := jobs[j].entry.kind;
        var a := attempts.At(kind);
        Count(kind, a.dispatched, a.(dispatched := Bumped(a.dispatched)));
        helpers := helpers[h := helpers[h].(state := Busy)];
        effect := SentWhole;
        status := if updated then SendOk else SendIo;
      } else if sent.WouldBlock? {
        jobs := jobs[j := jobs[j].(state := Sending)];
        helpers := helpers[h := helpers[h].(state := SendPending)];
        effect := WouldBlock;
        status := if updated then SendOk else SendIo;
      } else {
        status := SendIo;
      }
    }

    /** Tries to give a job, already unlinked from its queue, to an idle helper. */
    method JobAssign(h: nat, j: JobId, now: Time) returns (status: AssignStatus)
      requires ReadyToHand(View(), h, j) && !jobs[j].orphaned
      requires jobs[j].priority.Background? ==> interactive == []
      modifies this
      ensures lastNow == old(lastNow) && AssignOutcome(old(View()), View(), h, j, status, now)
    {
      hide Inv, CanLend, CanFail;
      ghost var s := View();
      var due := TimeAfter(now, QUERY_TIMEOUT_SEC * NANOSECONDS_PER_SECOND);
      if due.None? {
        AssignUnchanged(s, s, h, j, AssignTime, now);
        return AssignTime;
      }
      TweakedKeeps(View(), {j}, j, jobs[j].(deadline := due.value));
      jobs := jobs[j := jobs[j].(deadline := due.value)];
      if nextQueryId == 0 {
        AssignUnchanged(s, View(), h, j, AssignLimit, now);
        return AssignLimit;
      }
      FreshQueryCanLend(View(), h, j);
      var queryId := nextQueryId;
      nextQueryId := if nextQueryId == UINT64_MAX then 0 else nextQueryId + 1;
      var assembled: bool := *;
      if !assembled {
        AssignUnchanged(s, View(), h, j, AssignRetry, now);
        return AssignRetry;
      }
      var encoded: bool := *;
      if !encoded {
        AssignUnchanged(s, View(), h, j, AssignLimit, now);
        return AssignLimit;
      }
      ghost var u := View();
      status := JobHandover(h, j, queryId, now);
      AssignOutcomeFrom(s, u, View(), h, j, status, now);
    }

    method JobHandover(h: nat, j: JobId, queryId: nat, now: Time) returns (status: AssignStatus)
      requires ReadyToHand(View(), h, j) && !jobs[j].orphaned && CanLend(View(), h, j, queryId)
      requires jobs[j].priority.Background? ==> interactive == []
      modifies this
      ensures lastNow == old(lastNow) && AssignOutcome(old(View()), View(), h, j, status, now)
    {
      hide ReadyToHand, CanLend, Handed, AssignOutcome;
      ghost var s := View();
      HandoverPlan(s, h, j);
      decisions := decisions + [Assignment(j, jobs[j].priority, |interactive|)];
      jobs := jobs[j := jobs[j].(queryId := queryId, slot := h)];
      helpers := helpers[h := helpers[h].(job := Some(j))];
      ghost var effect, deadline;
      var sent;
      sent, effect, deadline := RequestSend(h, now);
      if sent.SendTime? {
        HandoverUndo(h, j, queryId, s, now);
        return AssignTime;
      }
      status := if sent.SendOk? then AssignOk else AssignIo;
      HandoverResult(s, h, j, queryId, effect, status, now, deadline);
    }

    method HandoverUndo(h: nat, j: JobId, queryId: nat, ghost s: State, now: Time)
      requires ReadyToHand(s, h, j) && CanLend(s, h, j, queryId)
      requires s.jobs[j].priority.Background? ==> s.interactive == []
      requires View() == HandedTo(Decided(s, j), h, j, queryId)
      modifies this
      ensures lastNow == old(lastNow) && AssignOutcome(s, View(), h, j, AssignTime, now)
    {
      hide Inv, CanLend, AssignOutcome;
      jobs := jobs[j := jobs[j].(queryId := 0)];
      helpers := helpers[h := helpers[h].(job := None, state := Idle)];
      var _ := EventsUpdate(h);
      ghost var u := Decided(s, j);
      assert helpers == u.helpers;
      assert View() == WithJob(u, j, u.jobs[j].(queryId := 0, slot := h));
      HandoverUndoResult(s, h, j, queryId, now);
    }

    // -------------------------------------------------------------- dispatch

    /** One round of the dispatch loop: the head of the queues is offered to one idle helper. Either
        the backlog shrinks or the helper leaves the idle state, which is why the loop ends. */
    method DispatchStep(h: nat, now: Time)
      requires Inv(View(), {}, {}) && !shuttingDown
      requires h < |helpers| && helpers[h].state.Idle? && QueueFirst().Some?
      modifies this
      ensures Inv(View(), {}, {}) && lastNow == old(lastNow) && DispatchFrame(old(View()), View(), now)
      ensures |helpers| == |old(helpers)| && helpers == old(helpers)[h := helpers[h]]
      ensures helpers[h].state !in {ShuttingDown, Stopped} && !shuttingDown
      ensures Backlog(View()) + (if helpers[h].state.Idle? then 1 else 0) <= old(Backlog(View()))
    {
      hide Inv, DispatchFrame, NoNewAttempts, NewRetriesLater;
      var j := QueueFirst().value;
      ghost var s := View();
      HeadReady(s, h, j);
      QueueRemove(j);
      ghost var t := View();
      FrameSameJobs(s, t, now);
      var status := JobAssign(h, j, now);
      ghost var u := View();
      FrameAssign(t, u, h, j, status, now);
      FrameTrans(s, t, u, now);
      DispatchConclude(h, j, status, t, now);
      FrameTrans(s, u, View(), now);
    }

    method DispatchConclude(h: nat, j: JobId, status: AssignStatus, ghost t: State, now: Time)
      requires AssignOutcome(t, View(), h, j, status, now) && !shuttingDown
      requires h < |t.helpers| && t.helpers[h].state.Idle? && j in t.jobs && !t.jobs[j].orphaned
      modifies this
      ensures Inv(View(), {}, {}) && lastNow == old(lastNow) && DispatchFrame(old(View()), View(), now)
      ensures |helpers| == |old(helpers)| && helpers == old(helpers)[h := helpers[h]]
      ensures helpers[h].state !in {ShuttingDown, Stopped} && !shuttingDown
      ensures Backlog(View()) + (if helpers[h].state.Idle? then 1 else 0) <= old(Backlog(View())) + 1
    {
      hide Inv, DispatchFrame, NoNewAttempts, NewRetriesLater, AfterRetry, CanFail;
      ghost var u := View();
      assert helpers == helpers[h := helpers[h]];
      match status {
        case AssignOk =>
          FrameSameJobs(u, u, now);
        case AssignRetry =>
          HasJobs(u, {j}, {j}, j);
          ghost var outcome := JobRetry(j, now);
          AfterRetryKeeps(u, j, outcome);
          AfterRetryFrame(u, j, outcome);
          FrameRetry(u, j, outcome, now);
        case AssignLimit =>
          CompletedKeeps(u, j, LimitReached);
          JobComplete(j, LimitReached);
          FrameCompleted(u, j, LimitReached, now);
        case AssignTime =>
          CompletedKeeps(u, j, TimeOverflow);
          JobComplete(j, TimeOverflow);
          FrameCompleted(u, j, TimeOverflow, now);
        case AssignIo =>
          ghost var fate := HelperFail(h, FAILURE_IO, now);
          FrameFailed(u, View(), now);
      }
    }

    /** Hands queued jobs to idle helpers, interactive ones first, until one or the other runs out. */
    method Dispatch(now: Time)
      requires Inv(View(), {}, {}) && (shuttingDown || ModeOk(View()))
      modifies this
      ensures Inv(View(), {}, {}) && lastNow == old(lastNow) && DispatchFrame(old(View()), View(), now)
      ensures old(ModeOk(View())) ==> ModeOk(View())
      ensures if shuttingDown then View() == old(View()) else WorkConserving(View())
    {
      hide Inv, DispatchFrame;
      FrameSameJobs(View(), View(), now);
      if shuttingDown {
        return;
      }
      var h := 0;
      while h < |helpers| && QueueFirst().Some?
        invariant 0 <= h <= |helpers| && !shuttingDown && ModeOk(View())
        invariant Inv(View(), {}, {}) && lastNow == old(lastNow) && DispatchFrame(old(View()), View(), now)
        invariant forall i: nat :: i < h ==> !helpers[i].state.Idle? || QueueFirst().None?
        decreases |helpers| - h
      {
        ghost var size := |helpers|;
        while helpers[h].state.Idle? && QueueFirst().Some?
          invariant h < |helpers| == size && !shuttingDown && ModeOk(View())
          invariant Inv(View(), {}, {}) && lastNow == old(lastNow) && DispatchFrame(old(View()), View(), now)
          invariant forall i: nat :: i < h ==> !helpers[i].state.Idle?
          decreases Backlog(View()) + (if helpers[h].state.Idle? then 1 else 0)
        {
          ghost var s := View();
          DispatchStep(h, now);
          FrameTrans(old(View()), s, View(), now);
        }
        h := h + 1;
      }
    }

    // -------------------------------------------------------------- helper events

    function Recovered(helper: Helper): (r: Helper)
      ensures r.state == helper.state && r.job == helper.job && r.connected == helper.connected
    {
      if helper.failureCount == 0 then helper
      else helper.(consecutiveSuccesses := 0, failureCount := 0, nextEventAt := 0)
    }

    function Succeeded(helper: Helper): (r: Helper)
      ensures r.state == helper.state && r.job == helper.job && r.connected == helper.connected
    {
      if helper.failureCount == 0 then helper
      else if helper.consecutiveSuccesses + 1 >= RESPAWN_RESET_SUCCESS_COUNT then Recovered(helper)
      else helper.(consecutiveSuccesses := helper.consecutiveSuccesses + 1)
    }

    /** A failure of a helper that is in place. */
    method HelperFailPlaced(h: nat, failure: nat, now: Time) returns (ghost outcome: RetryOutcome)
      requires Inv(View(), {}, {}) && ModeOk(View()) && h < |helpers| && failure < FAILURE_COUNT
      modifies this
      ensures Inv(View(), {}, {}) && ModeOk(View()) && lastNow == old(lastNow) && EventFrame(old(View()), View(), now)
      ensures |helpers| == |old(helpers)| && helpers == old(helpers)[h := helpers[h]]
      ensures helpers[h].state == (if shuttingDown then Stopped else Backoff) && shuttingDown == old(shuttingDown)
      ensures old(helpers)[h].job.None? ==> View() == old(View()).(helpers := helpers)
      ensures old(helpers)[h].job.Some? ==>
                && old(helpers)[h].job.value in old(jobs) && old(jobCount) > 0
                && View() == FailedJob(old(View()), old(helpers)[h].job.value, failure, outcome).(helpers := helpers)
    {
      hide Inv, NoNewAttempts, NewRetriesLater, EventFrame, FailedJob;
      ghost var s := View();
      HelperJob(s, h);
      PlacedCanFailAny(s, h);
      outcome := HelperFail(h, failure, now);
      EventFailed(s, View(), now);
      ModeKept(s, View(), h);
    }

    /** An answer at an impossible time is no answer: its query ends and its helper has failed. */
    method ResultReject(h: nat, j: JobId, failure: nat, now: Time) returns (ghost plan: RetryOutcome)
      requires Inv(View(), {}, {}) && ModeOk(View()) && h < |helpers| && helpers[h].state.Busy? && !shuttingDown
      requires helpers[h].job == Some(j) && j in jobs && jobs[j].state.Dispatched? && failure < FAILURE_COUNT
      modifies this
      ensures Inv(View(), {}, {}) && ModeOk(View()) && lastNow == old(lastNow) && EventFrame(old(View()), View(), now)
      ensures |helpers| == |old(helpers)| && helpers == old(helpers)[h := helpers[h]] && helpers[h].state.Backoff?
      ensures old(jobCount) > 0 && View() == FailedJob(old(View()), j, failure, plan).(helpers := helpers)
    {
      hide Inv, NoNewAttempts, NewRetriesLater, EventFrame, FailedJob;
      ghost var s := View();
      UnnumberedCanFail(s, h, j);
      jobs := jobs[j := jobs[j].(queryId := 0)];
      FailedUnnumbered(s, j, failure);
      plan := HelperFail(h, failure, now);
      UnnumberedTimes(s, View(), j, now);
      ModeKept(s, View(), h);
    }

    /** The helper finished an answer: validate its time stamp, then retry, publish, drop or complete. The answer
        counts exactly if it can be taken and was completed within the attempt's own time and not in the future. */
    method ResultFinish(h: nat, taken: bool, completedAt: int, outcome: nat, now: Time)
        returns (ghost fate: Disposal, ghost plan: RetryOutcome)
      requires Inv(View(), {}, {}) && ModeOk(View()) && h < |helpers| && helpers[h].state.Busy?
               && outcome < OUTCOME_COUNT
      modifies this
      ensures Inv(View(), {}, {}) && ModeOk(View()) && lastNow == old(lastNow) && EventFrame(old(View()), View(), now)
      ensures |helpers| == |old(helpers)| && helpers == old(helpers)[h := helpers[h]]
      ensures helpers[h].state in {Idle, Backoff}
      ensures old(helpers)[h].job.Some? && old(helpers)[h].job.value in old(jobs)
      ensures var j := old(helpers)[h].job.value; var job := old(jobs)[j];
              && (helpers[h].state.Idle? <==>
                 taken && job.dispatchedAt <= completedAt <= job.deadline && completedAt <= now)
              && (helpers[h].state.Idle? ==>
                    && helpers[h] == Succeeded(old(helpers)[h].(job := None, state := Idle))
                       && Disposes(fate, job, outcome)
                    && View() == Disposed(Answered(old(View()), h, j, helpers[h], outcome), j, fate))
              && (helpers[h].state.Backoff? ==>
                    old(jobCount) > 0
                      && View() == FailedJob(old(View()), j,
                                     if taken && completedAt > job.deadline then FAILURE_TIMEOUT else FAILURE_PROTOCOL,
                                     plan).(helpers := helpers))
    {
      hide Inv, NoNewAttempts, NewRetriesLater, EventFrame, FailedJob, Disposed, Succeeded, Disposes;
      ghost var s := View();
      HelperJob(s, h);
      assert !shuttingDown;
      var j := helpers[h].job.value;
      fate, plan := Discarded, Dropped;
      if !taken {
        plan := HelperFailPlaced(h, FAILURE_PROTOCOL, now);
        return;
      }
      if !(jobs[j].dispatchedAt <= completedAt <= jobs[j].deadline && completedAt <= now) {
        var failure := if completedAt > jobs[j].deadline then FAILURE_TIMEOUT else FAILURE_PROTOCOL;
        plan := ResultReject(h, j, failure, now);
        return;
      }
      AnsweredKeeps(s, h, j, Succeeded(helpers[h].(job := None, state := Idle)), outcome);
      jobs := jobs[j := jobs[j].(queryId := 0)];
      helpers := helpers[h := Succeeded(helpers[h].(job := None, state := Idle))];
      CountResponse(jobs[j].entry.kind, outcome, jobs[j].orphaned);
      fate := AnswerDispose(h, j, outcome, s, now);
      ModeKept(s, View(), h);
    }

    method CountResponse(k: QueryKind, outcome: nat, orphaned: bool)
      requires outcome < OUTCOME_COUNT
      modifies this`attempts, this`saturations
      ensures View() == RecordResponse(old(View()), k, outcome, orphaned)
    {
      var a := attempts.At(k);
      Count(k, a.response[outcome], a.(response := a.response[outcome := Bumped(a.response[outcome])]));
      if orphaned {
        var b := attempts.At(k);
        Count(k, b.orphanResponse[outcome],
          b.(orphanResponse := b.orphanResponse[outcome := Bumped(b.orphanResponse[outcome])]));
      }
    }

    /** What becomes of an answered job. */
    method AnswerDispose(h: nat, j: JobId, outcome: nat, ghost s: State, now: Time) returns (ghost fate: Disposal)
      requires h < |s.helpers| && j in s.jobs && s.jobs[j].state.Dispatched? && outcome < OUTCOME_COUNT && h < |helpers|
      requires View() == Answered(s, h, j, helpers[h], outcome) && Inv(View(), {j}, {j})
      modifies this
      ensures Inv(View(), {}, {}) && lastNow == old(lastNow) && EventFrame(s, View(), now)
      ensures helpers == old(helpers) && shuttingDown == old(shuttingDown)
      ensures Disposes(fate, s.jobs[j], outcome) && j in old(jobs) && old(jobCount) > 0
              && View() == Disposed(old(View()), j, fate)
    {
      hide Inv, EventFrame, AfterRetry;
      ghost var t := View();
      HasJobs(t, {j}, {j}, j);
      if outcome == OUTCOME_TEMPORARY {
        ghost var planned := JobRetry(j, now);
        AfterRetryKeeps(t, j, planned);
        AfterRetryFrame(t, j, planned);
        fate := Retried(planned);
      } else {
        var publication := Invalid;
        if outcome == OUTCOME_OK || outcome == OUTCOME_NODATA || outcome == OUTCOME_NOT_FOUND {
          publication := *;
        }
        if jobs[j].orphaned {
          ForgottenOrphan(t, j);
          JobDestroy(j);
          fate := Discarded;
        } else {
          CompletedKeeps(t, j, publication);
          JobComplete(j, publication);
          fate := Concluded(publication);
        }
      }
      EventOneJob(s, View(), j, now);
    }

    method HelperStop(h: nat)
      requires Inv(View(), {}, {}) && ModeOk(View()) && h < |helpers| && shuttingDown
      modifies this
      ensures Inv(View(), {}, {}) && ModeOk(View()) && lastNow == old(lastNow)
      ensures View() == old(View()).(helpers := helpers)
      ensures |helpers| == |old(helpers)| && helpers == old(helpers)[h := helpers[h]] && helpers[h].state.Stopped?
    {
      hide Inv;
      ghost var s := View();
      HelperJob(s, h);
      helpers := helpers[h := helpers[h].(connected := false, state := Stopped, nextEventAt := 0)];
      HelperChangedKeeps(s, {}, {}, h, helpers[h]);
      ModeKept(s, View(), h);
    }

    /** One packet, or the lack of one, read from a connected helper. */
    method Receive(h: nat, received: Received, now: Time) returns (more: bool)
      requires Inv(View(), {}, {}) && ModeOk(View()) && h < |helpers| && helpers[h].connected
      modifies this
      ensures Inv(View(), {}, {}) && ModeOk(View()) && lastNow == old(lastNow) && EventFrame(old(View()), View(), now)
      ensures |helpers| == |old(helpers)| && helpers == old(helpers)[h := helpers[h]]
      ensures helpers[h].state.Busy? ==> helpers[h] == old(helpers)[h] && View() == old(View())
      ensures received.Accepted? && old(helpers)[h].state.Busy? ==> more && View() == old(View())
      ensures old(helpers)[h].state.ShuttingDown? && !received.EmptyRead? && !received.ReadError? ==>
              more && View() == old(View())
      ensures received.Completing? && old(helpers)[h].state.Busy? ==> more && helpers[h].state in {Idle, Backoff}
      ensures received.EmptyRead? || received.ReadError? ==>
              !more && helpers[h].state == (if shuttingDown then Stopped else Backoff)
      ensures !old(helpers)[h].state.ShuttingDown?
              && (received.Oversized? || received.Rejected? || !old(helpers)[h].state.Busy?) ==>
                 !more && helpers[h].state == (if shuttingDown then Stopped else Backoff)
    {
      hide Inv, EventFrame;
      EventSameJobs(View(), View(), now);
      assert helpers == helpers[h := helpers[h]];
      more := false;
      if received.EmptyRead? {
        var ended: bool := *;
        if helpers[h].state.ShuttingDown? && ended {
          ghost var s := View();
          HelperStop(h);
          EventSameJobs(s, View(), now);
        } else {
          var endedNow: bool := *;
          ghost var fate := HelperFailPlaced(h, if endedNow then FAILURE_EXIT else FAILURE_PROTOCOL, now);
        }
      } else if received.ReadError? {
        ghost var fate := HelperFailPlaced(h, FAILURE_IO, now);
      } else if helpers[h].state.ShuttingDown? {
        more := true;
      } else if received.Oversized? || !helpers[h].state.Busy? || received.Rejected? {
        ghost var fate := HelperFailPlaced(h, FAILURE_PROTOCOL, now);
      } else {
        more := true;
        if received.Completing? {
          var outcome: nat :| outcome < OUTCOME_COUNT;
          var taken: bool := *;
          ghost var fate, plan := ResultFinish(h, taken, received.completedAt, outcome, now);
        }
      }
    }

    /** Reads packets until the socket is empty or closed; what arrives is arbitrary. */
    method Drain(h: nat, now: Time)
      requires Inv(View(), {}, {}) && ModeOk(View()) && h < |helpers|
      modifies this
      ensures Inv(View(), {}, {}) && ModeOk(View()) && lastNow == old(lastNow) && EventFrame(old(View()), View(), now)
      ensures |helpers| == |old(helpers)| && helpers == old(helpers)[h := helpers[h]]
    {
      hide Inv, EventFrame, ModeOk;
      EventSameJobs(View(), View(), now);
      assert helpers == helpers[h := helpers[h]];
      var packets: seq<Received> := *;
      var i := 0;
      var more := true;
      while i < |packets| && more && helpers[h].connected
        invariant 0 <= i <= |packets|
        invariant Inv(View(), {}, {}) && ModeOk(View()) && lastNow == old(lastNow)
                  && EventFrame(old(View()), View(), now)
        invariant |helpers| == |old(helpers)| && helpers == old(helpers)[h := helpers[h]]
      {
        ghost var s := View();
        more := Receive(h, packets[i], now);
        EventTrans(old(View()), s, View(), now);
        i := i + 1;
      }
    }

    method Spawn(h: nat, now: Time)
      requires Inv(View(), {}, {}) && !shuttingDown && h < |helpers| && helpers[h].state in {Backoff, Stopped}
      modifies this
      ensures Inv(View(), {}, {}) && lastNow == old(lastNow) && View() == old(View()).(helpers := helpers)
      ensures |helpers| == |old(helpers)| && helpers == old(helpers)[h := helpers[h]]
      ensures helpers[h].state in {Idle, Backoff}
    {
      hide Inv;
      ghost var s := View();
      HelperJob(s, h);
      var started: bool := *;
      if !started {
        RespawnSchedule(h, now);
      } else {
        var stable := TimeAfter(now, RESPAWN_RESET_STABLE_SEC * NANOSECONDS_PER_SECOND);
        var at := if helpers[h].failureCount > 0 && stable.Some? then stable.value else now;
        helpers := helpers[h := helpers[h].(connected := true, nextEventAt := at, state := Idle)];
      }
      HelperChangedKeeps(s, {}, {}, h, helpers[h]);
    }

    // -------------------------------------------------------------- timers

    /** Deadlines and respawn timers of one helper. */
    method TimerHelper(h: nat, now: Time)
      requires Inv(View(), {}, {}) && ModeOk(View()) && h < |helpers|
      modifies this
      ensures Inv(View(), {}, {}) && ModeOk(View()) && lastNow == old(lastNow) && EventFrame(old(View()), View(), now)
      ensures |helpers| == |old(helpers)| && helpers == old(helpers)[h := helpers[h]]
      ensures HelperTimely(View(), h, now)
    {
      hide Inv, EventFrame, Recovered;
      TimerDeadline(h, now);
      ghost var s := View();
      if helpers[h].failureCount > 0 && helpers[h].state in {Idle, SendPending, Busy} && now >= helpers[h].nextEventAt {
        SameDutyKeeps(s, h, Recovered(helpers[h]));
        helpers := helpers[h := Recovered(helpers[h])];
        ModeKept(s, View(), h);
      }
      ghost var t := View();
      if helpers[h].state.Backoff? && now >= helpers[h].nextEventAt {
        Spawn(h, now);
        ModeKept(t, View(), h);
      } else if helpers[h].state.ShuttingDown? && now >= helpers[h].nextEventAt {
        HelperStop(h);
      }
      EventSameJobs(s, View(), now);
      EventTrans(old(View()), s, View(), now);
    }

    /** Answers already received are honoured before an overdue attempt is failed. */
    method TimerDeadline(h: nat, now: Time)
      requires Inv(View(), {}, {}) && ModeOk(View()) && h < |helpers|
      modifies this
      ensures Inv(View(), {}, {}) && ModeOk(View()) && lastNow == old(lastNow) && EventFrame(old(View()), View(), now)
      ensures |helpers| == |old(helpers)| && helpers == old(helpers)[h := helpers[h]]
      ensures HelperTimely(View(), h, now)
    {
      hide Inv, EventFrame;
      HelperJob(View(), h);
      EventSameJobs(View(), View(), now);
      assert helpers == helpers[h := helpers[h]];
      if helpers[h].state.Busy? && now >= jobs[helpers[h].job.value].deadline {
        Drain(h, now);
        ghost var s := View();
        if helpers[h].state.Busy? {
          ghost var fate := HelperFailPlaced(h, FAILURE_TIMEOUT, now);
          EventTrans(old(View()), s, View(), now);
        }
      }
    }

    method TimersProcessHelpers(now: Time)
      requires Inv(View(), {}, {}) && ModeOk(View())
      modifies this
      ensures Inv(View(), {}, {}) && ModeOk(View()) && lastNow == old(lastNow) && EventFrame(old(View()), View(), now)
      ensures AttemptsTimely(View(), now)
    {
      hide Inv, EventFrame, ModeOk, HelperTimely, AttemptsTimely;
      EventSameJobs(View(), View(), now);
      var h := 0;
      while h < |helpers|
        invariant h <= |helpers| == |old(helpers)|
        invariant Inv(View(), {}, {}) && ModeOk(View()) && lastNow == old(lastNow)
                  && EventFrame(old(View()), View(), now)
        invariant forall i: nat :: i < h ==> HelperTimely(View(), i, now)
      {
        ghost var s := View();
        TimerHelper(h, now);
        EventTrans(old(View()), s, View(), now);
        forall i: nat | i < h
          ensures HelperTimely(View(), i, now)
        {
          HelperStaysTimely(s, View(), i, now);
        }
        h := h + 1;
      }
      AllHelpersTimely(View(), now);
    }

    /** Retries that are due wait for a helper again, in whatever order the index yields them. */
    method TimersProcessJobs(now: Time)
      requires Inv(View(), {}, {})
      modifies this
      ensures Inv(View(), {}, {}) && lastNow == old(lastNow)
      ensures jobs.Keys == old(jobs).Keys && index == old(index) && helpers == old(helpers) && markers == old(markers)
              && shuttingDown == old(shuttingDown)
      ensures NoNewAttempts(old(View()), View())
      ensures RetriesTimely(View(), now)
    {
      hide Inv, NoNewAttempts, Requeued;
      NoNewSelf(View());
      var rest := jobs.Keys;
      while rest != {}
        invariant rest <= jobs.Keys == old(jobs).Keys
        invariant Inv(View(), {}, {}) && lastNow == old(lastNow)
        invariant index == old(index) && helpers == old(helpers) && markers == old(markers)
                  && shuttingDown == old(shuttingDown)
        invariant NoNewAttempts(old(View()), View())
        invariant forall j :: j in jobs && j !in rest && jobs[j].state.RetryWait? ==> now < jobs[j].retryAt
        decreases rest
      {
        var j :| j in rest;
        if jobs[j].state.RetryWait? && now >= jobs[j].retryAt {
          RetryDueKeeps(View(), j);
          RetryDueQuiet(old(View()), View(), j);
          QueueAppend(j);
        }
        rest := rest - {j};
      }
    }

    // -------------------------------------------------------------- events

    method TimeUpdate(now: Time) returns (ok: bool)
      modifies this`lastNow
      ensures ok <==> now < TIME_LIMIT && old(lastNow) <= now
      ensures lastNow == if ok then now else old(lastNow)
    {
      ok := now < TIME_LIMIT && lastNow <= now;
      if ok {
        lastNow := now;
      }
    }

    /** The socket of a helper with a pending request became writable. */
    method Resend(h: nat, now: Time)
      requires Inv(View(), {}, {}) && ModeOk(View()) && h < |helpers| && helpers[h].state.SendPending?
      modifies this
      ensures Inv(View(), {}, {}) && ModeOk(View()) && lastNow == old(lastNow) && EventFrame(old(View()), View(), now)
      ensures |helpers| == |old(helpers)| && helpers == old(helpers)[h := helpers[h]]
    {
      hide Inv, EventFrame, Handed, Completed;
      ghost var s := View();
      HelperJob(s, h);
      assert !shuttingDown;
      var j := helpers[h].job.value;
      ghost var effect, deadline;
      var status;
      status, effect, deadline := RequestSend(h, now);
      ghost var t := View();
      if effect.NotSent? {
        EventSameJobs(s, s, now);
      } else {
        ResentKeeps(s, h, if effect.SentWhole? then Dispatched else Sending, now, deadline);
        ResentFrame(s, h, j, if effect.SentWhole? then Dispatched else Sending, now, deadline);
        ModeKept(s, t, h);
      }
      if status.SendTime? {
        GivenUpKeeps(s, h);
        GivenUpFrame(s, h, j, now);
        jobs := jobs[j := jobs[j].(queryId := 0)];
        helpers := helpers[h := helpers[h].(job := None, state := Idle)];
        var _ := EventsUpdate(h);
        JobComplete(j, TimeOverflow);
        assert View() == GivenUp(s, h, j);
        ModeKept(s, View(), h);
      } else if status.SendIo? {
        ghost var fate := HelperFailPlaced(h, FAILURE_IO, now);
        EventTrans(s, t, View(), now);
      }
    }

    /** All readiness reported for one helper. */
    method HelperEvents(h: nat, writable: bool, readable: bool, hangup: bool, now: Time)
      requires Inv(View(), {}, {}) && ModeOk(View()) && h < |helpers|
      modifies this
      ensures Inv(View(), {}, {}) && ModeOk(View()) && lastNow == old(lastNow) && EventFrame(old(View()), View(), now)
      ensures |helpers| == |old(helpers)|
    {
      hide Inv, EventFrame, ModeOk;
      EventSameJobs(View(), View(), now);
      if writable && helpers[h].state.SendPending? {
        Resend(h, now);
      }
      ghost var s := View();
      EventSameJobs(s, s, now);
      if readable && helpers[h].connected {
        Drain(h, now);
        EventTrans(old(View()), s, View(), now);
      }
      if hangup && helpers[h].connected {
        ghost var t := View();
        Hangup(h, now);
        EventTrans(old(View()), t, View(), now);
      }
    }

    method Hangup(h: nat, now: Time)
      requires Inv(View(), {}, {}) && ModeOk(View()) && h < |helpers|
      modifies this
      ensures Inv(View(), {}, {}) && ModeOk(View()) && lastNow == old(lastNow) && EventFrame(old(View()), View(), now)
      ensures |helpers| == |old(helpers)|
      ensures !helpers[h].connected
    {
      hide Inv, EventFrame;
      Drain(h, now);
      ghost var s := View();
      HelperJob(s, h);
      if helpers[h].connected {
        if helpers[h].state.ShuttingDown? {
          HelperStop(h);
          EventSameJobs(s, View(), now);
        } else {
          ghost var fate := HelperFailPlaced(h, FAILURE_EXIT, now);
        }
        EventTrans(old(View()), s, View(), now);
        HelperJob(View(), h);
      }
    }

    /** Drains helper responses, applies every deadline due at `now` and dispatches. Unless the system
        reports an error, afterwards no attempt is overdue, no retry is due and no helper idles while
        a job waits. */
    method EventsProcess(now: Time) returns (status: EventStatus)
      requires Valid()
      modifies this
      ensures Valid() && markers == old(markers) && shuttingDown == old(shuttingDown)
      ensures status.EventTime? <==> !(now < TIME_LIMIT && old(lastNow) <= now)
      ensures status.EventTime? ==> View() == old(View()) && lastNow == old(lastNow)
      ensures !status.EventTime? ==> lastNow == now
      ensures status.EventOk? ==> AttemptsTimely(View(), now) && RetriesTimely(View(), now)
      ensures status.EventOk? && !shuttingDown ==> WorkConserving(View())
    {
      hide Inv, NewAttemptsLater, NewRetriesLater, ModeOk, AttemptsTimely, RetriesTimely, NoNewAttempts;
      var ok := TimeUpdate(now);
      if !ok {
        return EventTime;
      }
      var polled: bool := *;
      if !polled {
        return EventIo;
      }
      HelpersProcess(now);
      var drained: bool := *;
      if !drained {
        return EventIo;
      }
      TimersProcessHelpers(now);
      ghost var s := View();
      TimersProcessJobs(now);
      TimelyKept(s, View(), now);
      ModeQueues(s, View());
      ghost var t := View();
      Dispatch(now);
      DispatchedTimely(t, View(), now);
      var rearmed: bool := *;
      status := if rearmed then EventOk else EventIo;
    }

    method HelpersProcess(now: Time)
      requires Inv(View(), {}, {}) && ModeOk(View())
      modifies this
      ensures Inv(View(), {}, {}) && ModeOk(View()) && lastNow == old(lastNow)
      ensures |helpers| == |old(helpers)| && markers == old(markers) && shuttingDown == old(shuttingDown)
    {
      hide Inv, ModeOk, NewAttemptsLater, NewRetriesLater;
      var h := 0;
      while h < |helpers|
        invariant h <= |helpers| == |old(helpers)|
        invariant Inv(View(), {}, {}) && ModeOk(View()) && lastNow == old(lastNow)
        invariant markers == old(markers) && shuttingDown == old(shuttingDown)
      {
        var writable: bool, readable: bool, hangup: bool := *, *, *;
        HelperEvents(h, writable, readable, hangup, now);
        h := h + 1;
      }
    }

    // -------------------------------------------------------------- requests

    /** Asks for an entry to be resolved on behalf of a holder. The marker records the interest the
        supervisor retains: exactly when the result is Started or Shared (or the fatal ScheduleIo). */
    method Schedule(entry: Entry, view: CacheView, now: Time, ghost m: Marker, priority: Priority)
        returns (status: ScheduleStatus)
      requires Valid() && m == Marker(m.holder, entry.id, priority) && m !in markers
      modifies this
      ensures Valid() && shuttingDown == old(shuttingDown)
      ensures markers == if status in {Started, Shared, ScheduleIo} then old(markers) + {m} else old(markers)
      ensures status.ScheduleBadArgument? <==>
              old(shuttingDown) || (now < TIME_LIMIT && old(lastNow) <= now && view.Unreadable?)
      ensures status.ScheduleTime? <==> !old(shuttingDown) && !(now < TIME_LIMIT && old(lastNow) <= now)
      ensures lastNow == if !old(shuttingDown) && now < TIME_LIMIT && old(lastNow) <= now then now else old(lastNow)
      ensures status.Fresh? <==>
              !old(shuttingDown) && now < TIME_LIMIT && old(lastNow) <= now && !view.Unreadable? && !view.Empty?
      ensures status in {Started, ScheduleIo} ==> entry.id !in old(index) && entry.id in index
      ensures status in {Started, ScheduleIo} ==>
              old(jobCount) < (if priority.Interactive? then jobLimit else jobLimit - interactiveReserve)
      ensures status.Shared? ==>
              index == old(index) && entry.id in index && !old(jobs)[old(index)[entry.id]].state.Complete?
      ensures status.AlreadyComplete? ==> entry.id in old(index) && old(jobs)[old(index)[entry.id]].state.Complete?
      ensures status !in {Started, Shared, ScheduleIo} ==> View() == old(View())
      ensures !shuttingDown && (old(WorkConserving(View())) || status in {Started, ScheduleIo}) ==>
              WorkConserving(View())
    {
      hide Inv, WorkConserving, ModeOk;
      if shuttingDown {
        return ScheduleBadArgument;
      }
      var ok := TimeUpdate(now);
      if !ok {
        return ScheduleTime;
      }
      if view.Unreadable? {
        return ScheduleBadArgument;
      }
      if !view.Empty? {
        return Fresh;
      }
      if entry.id in index {
        status := Join(entry, m, priority);
        return;
      }
      var admission := if priority.Interactive? then jobLimit else jobLimit - interactiveReserve;
      if jobCount >= admission {
        return ScheduleLimit;
      }
      var enough: bool := *;
      if !enough {
        return ScheduleMemory;
      }
      var retained: bool := *;
      if !retained {
        return ScheduleLimit;
      }
      Admit(entry, m, priority);
      Dispatch(now);
      var rearmed: bool := *;
      status := if rearmed then Started else ScheduleIo;
    }

    method Join(entry: Entry, ghost m: Marker, priority: Priority) returns (status: ScheduleStatus)
      requires Valid() && !shuttingDown && m == Marker(m.holder, entry.id, priority) && m !in markers
               && entry.id in index
      modifies this
      ensures Valid() && lastNow == old(lastNow) && index == old(index)
      ensures status in {AlreadyComplete, ScheduleLimit, Shared}
      ensures status.AlreadyComplete? <==> index[entry.id] in old(jobs) && old(jobs)[index[entry.id]].state.Complete?
      ensures index[entry.id] in old(jobs)
      ensures View() == if status.Shared? then Coalesced(old(View()), index[entry.id], m) else old(View())
      ensures markers == if status.Shared? then old(markers) + {m} else old(markers)
      ensures old(WorkConserving(View())) ==> WorkConserving(View())
    {
      hide Inv, WorkConserving, ModeOk;
      ghost var s := View();
      var j := index[entry.id];
      IndexedJob(s, entry.id);
      if jobs[j].state.Complete? {
        return AlreadyComplete;
      }
      var count := if priority.Interactive? then jobs[j].interactive else jobs[j].background;
      if count >= INTEREST_COUNT_LIMIT {
        return ScheduleLimit;
      }
      if priority.Interactive? {
        jobs := jobs[j := jobs[j].(interactive := jobs[j].interactive + 1, orphaned := false)];
      } else {
        jobs := jobs[j := jobs[j].(background := jobs[j].background + 1, orphaned := false)];
      }
      markers := markers + {m};
      assert View() == WithInterest(s, j, Joined(s.jobs[j], priority), s.markers + {m});
      if priority.Interactive? {
        JobPrioritise(j, Interactive);
      }
      CoalescedKeeps(s, j, m);
      CoalescedJob(s, j, m);
      CoalescedMode(s, j, m);
      if WorkConserving(s) {
        CoalescedWork(s, j, m);
      }
      status := Shared;
    }

    method JobInsert(entry: Entry, ghost m: Marker, priority: Priority)
      modifies this
      ensures View() == WithNewJob(old(View()), FreshJob(entry, priority)).(markers := old(markers) + {m})
              && lastNow == old(lastNow)
    {
      jobs := jobs[nextJobId := FreshJob(entry, priority)];
      index := index[entry.id := nextJobId];
      jobCount := jobCount + 1;
      nextJobId := nextJobId + 1;
      markers := markers + {m};
    }

    method Admit(entry: Entry, ghost m: Marker, priority: Priority)
      requires Valid() && !shuttingDown && m == Marker(m.holder, entry.id, priority) && m !in markers
      requires entry.id !in index && jobCount < jobLimit
      modifies this
      ensures Valid() && lastNow == old(lastNow) && !shuttingDown
      ensures markers == old(markers) + {m} && index == old(index)[entry.id := old(nextJobId)]
    {
      hide Inv, ModeOk;
      ghost var s := View();
      var j := nextJobId;
      AdmittedKeeps(s, entry, m);
      JobInsert(entry, m, priority);
      RequeuedKeeps(View(), j, false);
      QueueAppend(j);
      ModeQueues(s, View());
    }

    /** Withdraws one interest. Whoever is counted is never refused before shutdown and loses its own interest only.
        But interests are mere counts: a holder that is not counted any more takes another one's away, if there is any
        on an unfinished lookup. */
    method Release(entry: EntryId, priority: Priority, now: Time, ghost m: Marker)
        returns (status: ReleaseStatus, ghost taken: Option<Marker>)
      requires Valid() && m == Marker(m.holder, entry, priority)
      modifies this
      ensures Valid() && shuttingDown == old(shuttingDown)
      ensures status.ReleaseTime? <==> !old(shuttingDown) && !(now < TIME_LIMIT && old(lastNow) <= now)
      ensures lastNow == if !old(shuttingDown) && now < TIME_LIMIT && old(lastNow) <= now then now else old(lastNow)
      ensures status.ReleaseBadArgument? <==>
                || old(shuttingDown)
                || (&& now < TIME_LIMIT && old(lastNow) <= now
                    && old(Unfinished(View(), entry)) && MarkersFor(old(markers), entry, priority) == {})
      ensures m in old(markers) ==>
                taken == if !old(shuttingDown) && now < TIME_LIMIT && old(lastNow) <= now then Some(m) else None
      ensures m !in old(markers) ==>
                && (taken.Some? ==> taken.value in MarkersFor(old(markers), entry, priority))
                && (taken.Some? <==>
                      && !old(shuttingDown) && now < TIME_LIMIT && old(lastNow) <= now
                      && old(Unfinished(View(), entry)) && MarkersFor(old(markers), entry, priority) != {})
      ensures markers == if taken.Some? then old(markers) - {taken.value} else old(markers)
      ensures status.Satisfied? ==> !old(Unfinished(View(), entry)) && View() == old(View()).(markers := markers)
      ensures status in {ReleaseBadArgument, ReleaseTime} ==> View() == old(View())
      ensures status in {ReleaseOk, ReleaseIo} ==>
              forall e :: e in old(index) && e != entry ==> e in index && index[e] == old(index)[e]
      ensures !shuttingDown && (old(WorkConserving(View())) || status in {ReleaseOk, ReleaseIo}) ==>
              WorkConserving(View())
    {
      hide Inv, WorkConserving, ModeOk, Holds, HeldBy, MarkersFor;
      taken := None;
      if shuttingDown {
        return ReleaseBadArgument, None;
      }
      var ok := TimeUpdate(now);
      if !ok {
        return ReleaseTime, None;
      }
      ghost var s := View();
      UnfinishedCounts(s, m);
      if m in markers {
        MarkerHasJob(s, m);
      }
      if entry !in index || jobs[index[entry]].state.Complete? {
        status := Satisfied;
        if m in markers {
          MarkerDroppedKeeps(s, m);
          markers := markers - {m};
          ModeQueues(s, View());
          WorkSame(s, View());
          taken := Some(m);
        }
        return;
      }
      var j := index[entry];
      if !Holds(jobs[j], priority) {
        return ReleaseBadArgument, None;
      }
      ghost var counted := if m in markers then m else Somebody(s, m);
      taken := Some(counted);
      var updated := Withdraw(entry, j, priority, counted);
      Dispatch(now);
      var rearmed: bool := *;
      status := if updated && rearmed then ReleaseOk else ReleaseIo;
    }

    method Withdraw(entry: EntryId, j: JobId, priority: Priority, ghost m: Marker) returns (updated: bool)
      requires Valid() && !shuttingDown && m == Marker(m.holder, entry, priority) && m in markers
      requires entry in index && index[entry] == j && j in jobs && !jobs[j].state.Complete?
      modifies this
      ensures Valid() && !shuttingDown && lastNow == old(lastNow) && markers == old(markers) - {m}
      ensures index == old(index) || index == old(index) - {entry}
      ensures WithdrawnFrom(old(View()), View(), j, m)
    {
      hide Inv, ModeOk, Unlink, LastReleased, Released;
      ghost var s := View();
      MarkerHasJob(s, m);
      if Withdrawn(jobs[j], priority).Unwanted() && !jobs[j].state.Dispatched? {
        LastReleasedKeeps(s, j, m);
        LastReleasedFrame(s, j, m);
        updated := WithdrawLast(j, m);
      } else {
        ReleasedKeeps(s, j, m);
        ReleasedJob(s, j, m);
        WithdrawOne(j, priority, m);
        updated := true;
        ModeQueues(s, View());
      }
    }

    /** Nobody wants the job any more and no helper works on it: it is dropped. */
    method WithdrawLast(j: JobId, ghost m: Marker) returns (updated: bool)
      requires j in jobs && jobCount > 0 && jobs[j].state in {Queued, Sending, RetryWait}
      requires jobs[j].state.Queued? ==> j in QueueOf(View(), jobs[j].priority)
      requires jobs[j].state.Sending? ==> jobs[j].slot < |helpers|
      modifies this
      ensures View() == LastReleased(old(View()), j, m) && lastNow == old(lastNow)
    {
      hide Unlink;
      updated := true;
      if jobs[j].state.Sending? {
        var slot := jobs[j].slot;
        helpers := helpers[slot := helpers[slot].(job := None, state := Idle)];
        updated := EventsUpdate(slot);
      }
      JobDestroy(j);
      markers := markers - {m};
    }

    /** Others still want the job, or its attempt is left to finish as an orphan. */
    method WithdrawOne(j: JobId, priority: Priority, ghost m: Marker)
      requires j in jobs && m.priority == priority && Holds(jobs[j], priority)
      requires jobs[j].state.Queued? ==> j in QueueOf(View(), jobs[j].priority)
      modifies this
      ensures View() == Released(old(View()), j, m) && lastNow == old(lastNow)
    {
      hide Unlink, Reprioritised;
      var job := Withdrawn(jobs[j], priority);
      jobs := jobs[j := if job.Unwanted() then job.(orphaned := true) else job];
      markers := markers - {m};
      if job.interactive == 0 {
        JobPrioritise(j, Background);
      }
    }

    /** Hands over the oldest completion. Every holder of the entry observes it, which clears the
        holders' markers. */
    method CompletionTake() returns (taken: Option<(Entry, Publication)>)
      requires Valid()
      modifies this
      ensures Valid() && lastNow == old(lastNow)
      ensures taken.None? <==> old(completions) == []
      ensures taken.None? ==> View() == old(View())
      ensures taken.Some? ==>
                var j := old(completions)[0];
                && j in old(jobs) && old(jobs)[j].state.Complete?
                   && taken.value == (old(jobs)[j].entry, old(jobs)[j].publication)
                && old(jobCount) > 0 && View() == TakenAway(old(View()), j)
      ensures old(WorkConserving(View())) ==> WorkConserving(View())
    {
      hide Inv, TakenAway, ModeOk;
      if completions == [] {
        return None;
      }
      var j := completions[0];
      ghost var s := View();
      FirstCompletion(s);
      TakenAwayKeeps(s, j);
      TakenAwayFrame(s, j);
      TakenAwayMode(s, j);
      taken := Some((jobs[j].entry, jobs[j].publication));
      CompletionDetach(j);
      if WorkConserving(s) {
        WorkConservingOf(s, View());
      }
    }

    method CompletionDetach(j: JobId)
      requires j in jobs && jobCount > 0 && j in completions
      modifies this
      ensures View() == TakenAway(old(View()), j) && lastNow == old(lastNow)
    {
      hide Unlink, MarkersElsewhere;
      var kind := jobs[j].entry.kind;
      var a := attempts.At(kind);
      Count(kind, a.taken, a.(taken := Bumped(a.taken)));
      CompletionRemove(j);
      markers := MarkersElsewhere(markers, jobs[j].entry.id);
      index := index - {jobs[j].entry.id};
      jobs := jobs - {j};
      jobCount := jobCount - 1;
    }

    // -------------------------------------------------------------- shutdown

    /** Counts and frees one job at shutdown; its helper keeps its state until the helpers are told. */
    method JobAbandon(j: JobId)
      requires j in jobs && jobCount > 0
      requires jobs[j].state.Queued? ==> j in QueueOf(View(), jobs[j].priority)
      requires jobs[j].state.Complete? ==> j in completions
      requires jobs[j].InFlight() ==>
               jobs[j].slot < |helpers| && helpers[jobs[j].slot].job == Some(j)
                 && helpers[jobs[j].slot].state in {SendPending, Busy}
      modifies this
      ensures lastNow == old(lastNow) && Quietly(View()) == Abandoned(Quietly(old(View())), j)
    {
      hide Unlink, Bumped, Quiet;
      var kind := jobs[j].entry.kind;
      var a := attempts.At(kind);
      if jobs[j].state.Complete? {
        Count(kind, a.completionAbandoned, a.(completionAbandoned := Bumped(a.completionAbandoned)));
      } else if jobs[j].state.Dispatched? {
        Count(kind, a.attemptAbandoned, a.(attemptAbandoned := Bumped(a.attemptAbandoned)));
      }
      if jobs[j].InFlight() {
        var slot := jobs[j].slot;
        QuietDropped(helpers, slot);
        helpers := helpers[slot := helpers[slot].(job := None)];
      }
      JobDestroy(j);
    }

    method JobsDestroyAll()
      requires Inv(Quietly(View()), {}, {}) && shuttingDown
      modifies this
      ensures Inv(Quietly(View()), {}, {}) && jobs == map[] && lastNow == old(lastNow)
      ensures markers == old(markers) && shuttingDown && |helpers| == |old(helpers)|
    {
      hide Inv, Abandoned, HeldBy;
      while jobs != map[]
        invariant Inv(Quietly(View()), {}, {}) && lastNow == old(lastNow)
        invariant markers == old(markers) && shuttingDown && |helpers| == |old(helpers)|
        decreases jobs.Keys
      {
        assert jobs.Keys != {};
        var j :| j in jobs;
        ghost var s := Quietly(View());
        QuietPlace(View(), j);
        AbandonedKeeps(s, j);
        AbandonedFrame(s, j);
        JobAbandon(j);
      }
    }

    /** Begins shutdown: every job is given up and counted, and every helper is told to stop. */
    method Shutdown(now: Time) returns (ok: bool)
      requires Valid()
      modifies this
      ensures Valid() && markers == old(markers)
      ensures !(now < TIME_LIMIT && old(lastNow) <= now) ==> !ok && View() == old(View()) && lastNow == old(lastNow)
      ensures now < TIME_LIMIT && old(lastNow) <= now ==> shuttingDown && jobs == map[] && lastNow == now
      ensures now < TIME_LIMIT && old(lastNow) <= now && old(shuttingDown) ==> ok && View() == old(View())
    {
      hide Inv;
      var valid := TimeUpdate(now);
      if !valid {
        return false;
      }
      if shuttingDown {
        return true;
      }
      ShutdownBegunKeeps(View());
      QuietAlready(View().(shuttingDown := true));
      shuttingDown := true;
      JobsDestroyAll();
      HelpersTerminate(now);
      ok := *;
    }

    method HelpersTerminate(now: Time)
      requires Inv(Quietly(View()), {}, {}) && shuttingDown && jobs == map[] && |helpers| > 0
      modifies this`helpers
      ensures Inv(View(), {}, {}) && ModeOk(View()) && |helpers| > 0
    {
      hide Inv;
      var h := 0;
      while h < |helpers|
        invariant h <= |helpers| == |old(helpers)|
        invariant Inv(Quietly(View()), {}, {})
        invariant forall i: nat :: i < h ==> helpers[i].state in {ShuttingDown, Stopped}
      {
        ghost var s := Quietly(View());
        NoJobsNoDuty(s, h);
        if !helpers[h].connected {
          helpers := helpers[h := helpers[h].(state := Stopped)];
        } else {
          var grace := TimeAfter(now, SHUTDOWN_GRACE_MS * NANOSECONDS_PER_MILLISECOND);
          var end := if grace.Some? then grace.value else now;
          helpers := helpers[h := helpers[h].(state := ShuttingDown, nextEventAt := end)];
        }
        HelperChangedKeeps(s, {}, {}, h, helpers[h]);
        assert Quiet(helpers) == s.helpers[h := helpers[h]];
        h := h + 1;
      }
      assert Quiet(helpers) == helpers;
    }

    // -------------------------------------------------------------- creation

    constructor (helperCount: nat, limit: nat, reserve: nat, now: Time)
      requires 0 < helperCount && reserve <= limit && now < TIME_LIMIT
      ensures Valid() && !shuttingDown && WorkConserving(View())
      ensures |helpers| == helperCount && jobLimit == limit && interactiveReserve == reserve
      ensures jobs == map[] && markers == {} && lastNow == now && saturations == 0
      ensures fresh(this)
    {
      jobLimit := limit;
      interactiveReserve := reserve;
      jobs, index, interactive, background, completions := map[], map[], [], [], [];
      helpers := seq(helperCount, _ => Helper(Stopped, None, false, 0, 0, 0));
      jobCount, nextJobId, nextQueryId := 0, 0, 1;
      attempts, saturations := Attempts(NO_COUNTS, NO_COUNTS, NO_COUNTS), 0;
      shuttingDown, lastNow := false, now;
      markers, decisions := {}, [];
      new;
      InitialInv(helperCount, limit);
      assert View() == Initial(helperCount, limit);
      HelpersStart(now);
    }

    method HelpersStart(now: Time)
      requires Inv(View(), {}, {}) && !shuttingDown && forall h: nat :: h < |helpers| ==> helpers[h].state.Stopped?
      modifies this
      ensures Inv(View(), {}, {}) && ModeOk(View()) && lastNow == old(lastNow) && |helpers| == |old(helpers)|
      ensures View() == old(View()).(helpers := helpers)
    {
      hide Inv;
      var h := 0;
      while h < |helpers|
        invariant h <= |helpers| == |old(helpers)|
        invariant Inv(View(), {}, {}) && !shuttingDown && lastNow == old(lastNow)
        invariant View() == old(View()).(helpers := helpers)
        invariant forall i: nat :: i < h ==> helpers[i].state in {Idle, Backoff}
        invariant forall i: nat :: h <= i < |helpers| ==> helpers[i].state.Stopped?
      {
        Spawn(h, now);
        h := h + 1;
      }
    }
  }

  // ---------------------------------------------------------------- whole runs

  /** What a caller may do next, with arbitrary arguments. */
  datatype Request =
    | ProcessEvents
    | ScheduleEntry(entry: Entry, view: CacheView, holder: nat, priority: Priority)
    | ReleaseEntry(marker: Marker)
    | TakeCompletion
    | BeginShutdown

  /** Any run of the supervisor over holders that remember their own markers, schedule an entry only
      while they hold none on it, and observe every completion that is taken. The holders' own
      records are exactly the supervisor's ledger after every step, so no release is ever refused. */
  method Run(helperCount: nat, limit: nat, reserve: nat, start: Time, requests: seq<(Request, Time)>)
    returns (s: ResolverSupervisor, held: set<Marker>, failed: bool)
    requires 0 < helperCount && reserve <= limit && start < TIME_LIMIT
    ensures s.Valid() && s.markers == held
    ensures !failed && !s.shuttingDown ==> WorkConserving(s.View())
    ensures s.shuttingDown ==> s.jobs == map[]
    ensures s.shuttingDown && s.saturations == 0 ==> forall k: QueryKind :: Closed(s.attempts.At(k))
    ensures fresh(s)
  {
    hide Inv, WorkConserving, ModeOk;
    s := new ResolverSupervisor(helperCount, limit, reserve, start);
    held, failed := {}, false;
    var i := 0;
    while i < |requests| && !failed
      invariant 0 <= i <= |requests| && fresh(s)
      invariant s.Valid() && s.markers == held
      invariant !failed && !s.shuttingDown ==> WorkConserving(s.View())
    {
      var now := requests[i].1;
      match requests[i].0 {
        case ProcessEvents =>
          var status := s.EventsProcess(now);
          failed := status.EventIo?;
        case ScheduleEntry(entry, view, holder, priority) =>
          var m := Marker(holder, entry.id, priority);
          if m !in held {
            var status := s.Schedule(entry, view, now, m, priority);
            failed := status.ScheduleIo?;
            if status in {Started, Shared, ScheduleIo} {
              held := held + {m};
            }
          }
        case ReleaseEntry(m) =>
          if m in held {
            var status, _ := s.Release(m.entry, m.priority, now, m);
            failed := status.ReleaseIo?;
            if status in {ReleaseOk, ReleaseIo, Satisfied} {
              held := held - {m};
            }
          }
        case TakeCompletion =>
          var taken := s.CompletionTake();
          if taken.Some? {
            held := MarkersElsewhere(held, taken.value.0.id);
          }
        case BeginShutdown =>
          var _ := s.Shutdown(now);
      }
      i := i + 1;
    }
    ShutDownEmpty(s.View());
    if s.shuttingDown && s.saturations == 0 {
      forall k: QueryKind
        ensures Closed(s.attempts.At(k))
      {
        BooksClosed(s.View(), k);
      }
    }
  }
}
