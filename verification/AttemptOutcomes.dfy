/**
 * What the commits of the attempt lifecycle leave on the row they write, and
 * what becomes of it at the release that follows: told by the fields, and by
 * runs, not by the functions that compute them.
 */
module AttemptOutcomes {
  import opened Wrappers
  import opened Tasks
  import opened Assignment
  import opened Board
  import opened Fencing
  import opened AttemptRuns
  import opened AttemptSafety
  import opened AttemptProgress

  /** Nothing a fence leaves alone differs: identity, edges, mode, preparation and artifact. */
  predicate SameWork(before: Task, after: Task) {
    && after.id == before.id && after.dependencies == before.dependencies && after.reviewOf == before.reviewOf
    && after.replacing == before.replacing && after.mode == before.mode && after.preparation == before.preparation
    && after.artifact == before.artifact
  }

  /** The attempt is over: its owner owes the stop at the next epoch, for this reason, and is remembered. */
  predicate Stopped(before: Task, after: Task, reason: StopReason, now: int)
    requires before.attempt.Some?
  {
    var owner := before.attempt.value.owner;
    && after.status.Blocked? && after.epoch == before.epoch + 1 && after.attempt.None? && SameWork(before, after)
    && after.priorOwners == Some(before.priorOwners.GetOr({}) + {owner})
    && after.stop == Some(StopMarker(after.epoch, Some(owner), reason, Some(now), None))
  }

  /** A stop confirmed and released, with these block causes, by the three steps of the barrier. */
  function AtRelease(w: World, t: TaskId, causes: set<BlockCause>, ownerGone: bool): World
    requires t in w.rows && w.rows[t].stop.Some?
  {
    var queued := Stopping(t, w.rows[t].epoch, w.rows[t].stop.value.member, false);
    Step(Step(Step(w, BeginStop(t)), ConfirmStop(queued)), Event.Release(queued.(confirmed := true), causes, ownerGone))
  }

  /* ---- close-out ---- */

  /** The close-out still finds the attempt it read before its capture. */
  predicate ClosesOut(w: World, e: Event) {
    e.CloseOut? && e.job in w.jobs && e.job.ClosingOut? && e.job.task in w.rows && HoldsAttempt(w.rows[e.job.task], e.job.attempt)
  }

  /**
   * A close-out that writes: a failed capture leaves an invalidated stop and the
   * rest as it was; a captured one leaves the checkpoint, one more recovery
   * spent, and its member preferred.
   */
  lemma CloseOutLeaves(w: World, e: Event)
    requires Inv(w) && ClosesOut(w, e)
    ensures var t := e.job.task;
      var before, after := w.rows[t], Step(w, e).rows[t];
      && Step(w, e).rows == w.rows[t := after]
      && Stopped(before, after, if e.captured.None? then Invalidated else WorkerCloseout, e.now)
      && (e.captured.None? ==>
            after.checkpoint == before.checkpoint && after.recoveryCount == before.recoveryCount
            && after.assignee == before.assignee && after.planned == before.planned)
      && (e.captured.Some? ==>
            after.checkpoint == e.captured && after.recoveryCount == before.recoveryCount + 1
            && after.assignee == Some(e.job.member) && after.planned == Some(before.planned.GetOr(e.job.member)))
  {
  }

  /** A failed capture is final: on every run without the owner's resume of the row, no release of its stop re-pends it. */
  lemma FailedCloseOutNeverRepends(w: World, e: Event, events: seq<Event>, last: Event)
    requires Inv(w) && ClosesOut(w, e) && e.captured.None? && last.Release? && last.job.Stopping? && last.job.task == e.job.task
    requires forall x <- events :: !EndsStop(x, e.job.task)
    ensures var t, s := e.job.task, Run(Step(w, e), events);
      && t in s.rows && s.rows[t].stop.Some? && s.rows[t].stop.value.reason.Invalidated?
      && !Step(s, last).rows[t].status.Pending?
  {
    CloseOutLeaves(w, e);
    StepKeepsInv(w, e);
    InvalidatedNeverRepends(Step(w, e), events, e.job.task);
    RunKeepsInv(Step(w, e), events);
    ReleaseIsGuarded(Run(Step(w, e), events), last);
  }

  /** Captured work goes on: released without a cause to block it, the row is pending for its member, checkpoint and all. */
  lemma CapturedCloseOutRepends(w: World, e: Event)
    requires Inv(w) && ClosesOut(w, e) && e.captured.Some?
    ensures var t := e.job.task;
      var s := Step(w, e);
      && t in s.rows && s.rows[t].stop.Some? && t in AtRelease(s, t, {}, false).rows
      && var row := AtRelease(s, t, {}, false).rows[t];
         row.status.Pending? && row.stop.None? && row.checkpoint == e.captured && row.assignee == Some(e.job.member)
  {
    CloseOutLeaves(w, e);
    StepKeepsInv(w, e);
    ReleaseLands(Step(w, e), e.job.task, {}, false);
  }

  /* ---- lease expiry ---- */

  predicate Expires(w: World, e: Event) {
    e.Expire? && e.job in w.jobs && e.job.Recovering? && e.job.task in w.rows && HoldsAttempt(w.rows[e.job.task], e.job.attempt)
  }

  /** An expiry that writes spends a recovery exactly when neither a pause nor a park caused it, and keeps the planned owner exactly when it is live. */
  lemma ExpiryLeaves(w: World, e: Event)
    requires Inv(w) && Expires(w, e)
    ensures var t := e.job.task;
      var before, after := w.rows[t], Step(w, e).rows[t];
      && Step(w, e).rows == w.rows[t := after]
      && Stopped(before, after, LeaseExpired, e.now)
      && after.checkpoint == before.checkpoint && after.planned == before.planned
      && after.recoveryCount == before.recoveryCount + (if e.paused || e.job.parked then 0 else 1)
      && after.assignee == (if e.plannedLive then before.planned else None)
  {
  }

  /** An expired lease re-pends unless a cause blocks it, and a spent recovery limit is one. */
  lemma ExpiredLeaseRepends(w: World, e: Event, causes: set<BlockCause>)
    requires Inv(w) && Expires(w, e)
    ensures var t := e.job.task;
      var s := Step(w, e);
      && t in s.rows && s.rows[t].stop.Some? && t in AtRelease(s, t, causes, false).rows
      && (AtRelease(s, t, causes, false).rows[t].status == if causes == {} then Pending else Blocked)
  {
    ExpiryLeaves(w, e);
    StepKeepsInv(w, e);
    ReleaseLands(Step(w, e), e.job.task, causes, false);
  }

  /** Recovery takes up exactly the leases that ran out, and writes nothing before its await. */
  lemma RecoveryBegins(w: World, t: TaskId, parked: bool, now: int)
    requires t in w.rows && HoldsOpenAttempt(w.rows[t])
    ensures var a, s := w.rows[t].attempt.value, Step(w, BeginRecovery(t, parked, now));
      s == w.(jobs := if a.leaseUntil < now then w.jobs + {Recovering(t, a.id, parked)} else w.jobs)
  {
    var e := BeginRecovery(t, parked, now);
    assert FenceOf(w, e).None? && EditOf(w, e).None?;
    assert w.jobs - {} == w.jobs && w.jobs + {} == w.jobs;
  }

  /** A stop is queued while one is owed, unless it failed for good. */
  lemma StopsAreQueued(w: World, t: TaskId)
    requires t in w.rows && StopPending(w.rows[t])
    ensures var marker, s := w.rows[t].stop.value, Step(w, BeginStop(t));
      s == w.(jobs := if marker.failure.Some? && marker.failure.value.deterministic then w.jobs
                      else w.jobs + {Stopping(t, w.rows[t].epoch, marker.member, false)})
  {
    var e := BeginStop(t);
    assert FenceOf(w, e).None? && EditOf(w, e).None? && Begun(w, e) == BegunStop(w, e);
    assert w.jobs - {} == w.jobs && w.jobs + {} == w.jobs;
  }

  /** The owner's resume clears the failure, so the stop is queued again; the marker stays owed. */
  lemma ResumeClearsFailure(w: World, t: TaskId)
    requires t in w.rows && StopPending(w.rows[t])
    ensures var before, s := w.rows[t], Step(w, ResumeStop(t));
      && t in s.rows && s.rows == w.rows[t := s.rows[t]] && s.owed == w.owed && s.rows[t].stop.Some?
      && s.rows[t] == before.(stop := Some(before.stop.value.(failure := None, reason := s.rows[t].stop.value.reason)))
  {
    var r := ResumeStop(t);
    assert FenceOf(w, r).None? && EditOf(w, r) == StopEdit(w, r);
  }

  /* ---- the release ---- */

  /** The recovery limit is spent only by stops that are the worker's: a lease it let expire or a turn it abandoned. */
  predicate Forgiven(reason: StopReason) {
    match reason
    case Handoff => true
    case Resource => true
    case LeaseExpired => false
    case WorkerCloseout => false
    case Invalidated => false
  }

  /** What a released row becomes, with every field: only the marker, the status and a departed worker's preference change. */
  lemma ReleaseLands(w: World, t: TaskId, causes: set<BlockCause>, ownerGone: bool)
    requires Inv(w) && t in w.rows && StopPending(w.rows[t])
    requires w.rows[t].stop.value.failure.None? || !w.rows[t].stop.value.failure.value.deterministic
    ensures var before, s := w.rows[t], AtRelease(w, t, causes, ownerGone);
      && t in s.rows && s.rows == w.rows[t := s.rows[t]]
      && var after, reason := s.rows[t], before.stop.value.reason;
         && after == before.(stop := None, status := after.status, assignee := after.assignee)
         && after.assignee == (if reason.WorkerCloseout? && before.stop.value.member.Some? && ownerGone then None else before.assignee)
         && after.status == (if before.status.Cancelled? then Cancelled
                             else if !reason.Invalidated? && (causes == {} || (causes == {RecoveryExhausted} && Forgiven(reason))) then Pending
                             else Blocked)
  {
    ConfirmedStopIsReleased(w, t, causes, ownerGone);
    var reason := w.rows[t].stop.value.reason;
    OutcomeOfCauses(causes, reason);
    if causes != {} && causes != {RecoveryExhausted} {
      var c :| c in causes && !c.RecoveryExhausted?;
    }
  }

  /* ---- fences, assignments and preparations ---- */

  /** A fence of a row lands on the asked status; of a row that owes nothing, its open attempt's owner owes a stop for the asked reason. */
  lemma FenceLands(w: World, e: Event)
    requires Inv(w) && e.Fence? && e.task in w.rows && (e.status.Blocked? || e.status.Cancelled?)
    ensures var before, after := w.rows[e.task], Step(w, e).rows[e.task];
      && Step(w, e).rows == w.rows[e.task := after]
      && after.status == e.status && after.attempt.None? && after.assignee == e.assignee && after.planned == e.planned && SameWork(before, after)
      && after.checkpoint == before.checkpoint && after.recoveryCount == before.recoveryCount
      && after.priorOwners == (if before.attempt.Some? then Some(before.priorOwners.GetOr({}) + {before.attempt.value.owner}) else before.priorOwners)
      && (StopPending(before) ==>
            after.epoch == before.epoch && after.stop == Some(before.stop.value.(reason := if e.reason.Invalidated? then Invalidated else before.stop.value.reason)))
      && (!StopPending(before) ==>
            && after.epoch == before.epoch + 1
            && after.stop == (if HoldsOpenAttempt(before) then Some(StopMarker(after.epoch, Some(before.attempt.value.owner), e.reason, Some(e.now), None))
                              else before.stop))
  {
  }

  /** An assignment that goes through opens one attempt, runs the row and binds it; a borrower becomes its planned owner. */
  lemma AssignmentLands(w: World, e: Event)
    requires Inv(w) && e.Assign? && e.slots && MayAssign(w, e.job, e.env)
    ensures var t, m := e.job.chosen.id, e.job.member;
      var before, after := w.rows[t], Step(w, e).rows[t];
      && Step(w, e).rows == w.rows[t := after]
      && after == before.(status := Running, epoch := before.epoch + 1, assignee := Some(m), planned := after.planned, attempt := after.attempt)
      && after.attempt == Some(Attempt(w.minted, m, e.leaseUntil, 0, false))
      && after.planned == (if (before.assignee.Some? && before.assignee != Some(m)) || CanBorrowTask(before) then Some(m) else before.planned)
  {
  }

  /** A failed preparation waits for its retry, or is the owner's to repair; the choice it was made for is void either way. */
  lemma PreparationFailureLands(w: World, e: Event)
    requires Inv(w) && e.PreparationFails? && MayAssign(w, e.job, e.env)
    ensures var t := e.job.chosen.id;
      var before, after := w.rows[t], Step(w, e).rows[t];
      && Step(w, e).rows == w.rows[t := after]
      && after == before.(epoch := after.epoch, status := after.status, preparation := after.preparation)
      && !SameChoice(after, e.job.chosen)
      && (after.status.Pending? <==> e.retryAt.Some?) && (after.status.Blocked? <==> e.retryAt.None?)
      && after.preparation.Some? && after.preparation.value.retryAt == e.retryAt
      && after.preparation.value.attempts == 1 + (if before.preparation.Some? then before.preparation.value.attempts else 0)
  {
  }

  /* ---- the idle close-out's beginning, re-pends and restarts ---- */

  /** The holder's turn ended, and nudges are left. */
  predicate Nudgeable(w: World, t: TaskId, bound: nat) {
    t in w.rows && HoldsOpenAttempt(w.rows[t]) && w.rows[t].attempt.value.turnEnded && w.rows[t].attempt.value.nudges < bound
  }

  /** An idle holder is nudged until the bound. */
  lemma NudgeLands(w: World, t: TaskId, bound: nat)
    requires Nudgeable(w, t, bound)
    ensures var a := w.rows[t].attempt.value;
      Step(w, BeginCloseOut(t, bound)).rows == w.rows[t := w.rows[t].(attempt := Some(a.(nudges := a.nudges + 1)))]
  {
    var e := BeginCloseOut(t, bound);
    assert FenceOf(w, e).None? && EditOf(w, e) == AttemptEdit(w, e);
    EditLands(w, e, t, AttemptEdit(w, e).value.row);
  }

  /** At the bound, or before its turn has ended, no row changes. */
  lemma OthersAreNotNudged(w: World, t: TaskId, bound: nat)
    requires !Nudgeable(w, t, bound)
    ensures Step(w, BeginCloseOut(t, bound)).rows == w.rows
  {
    var e := BeginCloseOut(t, bound);
    assert FenceOf(w, e).None? && EditOf(w, e) == AttemptEdit(w, e);
    NothingLands(w, e);
  }

  lemma NothingLands(w: World, e: Event)
    requires FenceOf(w, e).None? && EditOf(w, e).None?
    requires !e.Restart? && !e.Propose? && !e.Assign? && !e.Release?
    ensures Step(w, e).rows == w.rows
  {
  }

  lemma EditLands(w: World, e: Event, t: TaskId, row: Task)
    requires t in w.rows && FenceOf(w, e).None? && EditOf(w, e) == Some(Write(t, row))
    requires !e.Restart? && !e.Propose? && !e.Assign? && !e.Release?
    ensures Step(w, e).rows == w.rows[t := row]
  {
  }

  /** And at the bound its close-out begins, with its attempt read. */
  lemma CloseOutBegins(w: World, t: TaskId, bound: nat)
    requires t in w.rows && HoldsOpenAttempt(w.rows[t])
    ensures var a := w.rows[t].attempt.value;
      Step(w, BeginCloseOut(t, bound)).jobs ==
        if a.turnEnded && a.nudges >= bound then w.jobs + {ClosingOut(t, a.id, a.owner)} else w.jobs
  {
    var e := BeginCloseOut(t, bound);
    assert Step(w, e).jobs == w.jobs - {} + Begun(w, e);
    assert w.jobs - {} == w.jobs && w.jobs + {} == w.jobs;
  }

  /** The owner's reopening of blocked work that is not stopping: pending again, at the next epoch, with no artifact of the old round. */
  lemma ReopenLands(w: World, t: TaskId, assignee: Option<MemberId>, mode: Option<Mode>)
    requires Inv(w) && t in w.rows && w.rows[t].status.Blocked? && !StopPending(w.rows[t])
    ensures var before, s := w.rows[t], Step(w, Reopen(t, assignee, mode));
      && t in s.rows && s.rows == w.rows[t := s.rows[t]]
      && var after := s.rows[t];
         && after.status.Pending? && after.epoch == before.epoch + 1 && after.attempt.None? && !after.artifact
         && after.assignee == assignee && after.mode == mode && after.checkpoint == before.checkpoint && after.recoveryCount == before.recoveryCount
         && Holders(before) <= Holders(after)
  {
    var e := Reopen(t, assignee, mode);
    assert FenceOf(w, e).None? && EditOf(w, e) == TaskEdit(w, e);
    EditLands(w, e, t, EndAttempt(w.rows[t].(status := Pending, assignee := assignee, mode := mode, artifact := false)));
  }

  /**
   * An owner's amendment sets who the work is for. A structural one, which of
   * running work is a fence instead, voids the choices made for it; re-pending
   * is for blocked work that owes no stop.
   */
  lemma AmendLands(w: World, e: Event)
    requires e.Amend? && e.task in w.rows
    ensures var before, s := w.rows[e.task], Step(w, e);
      && e.task in s.rows && s.rows == w.rows[e.task := s.rows[e.task]]
      && var after := s.rows[e.task];
         if e.structural && HoldsOpenAttempt(before) then after == before
         else
           && after == before.(assignee := e.assignee, planned := e.planned, mode := e.mode, epoch := after.epoch, status := after.status)
           && after.epoch == before.epoch + (if e.structural && !StopPending(before) then 1 else 0)
           && after.status == (if e.repend && before.status.Blocked? && before.attempt.None? && !StopPending(before) then Pending else before.status)
  {
    assert FenceOf(w, e).None? && EditOf(w, e) == TaskEdit(w, e);
    if EditOf(w, e).Some? { EditLands(w, e, e.task, EditOf(w, e).value.row); } else { NothingLands(w, e); }
  }

  /** What an accepted replacement retires is cancelled, unless it still runs, awaits its verdict or owes a stop. */
  lemma RetireLands(w: World, t: TaskId)
    requires t in w.rows
    ensures var before := w.rows[t];
      var retires := (before.status.Blocked? || before.status.Pending?) && !StopPending(before);
      Step(w, Retire(t)).rows == if retires then w.rows[t := before.(status := Cancelled)] else w.rows
  {
    var e := Retire(t);
    assert FenceOf(w, e).None? && EditOf(w, e) == TaskEdit(w, e);
    if EditOf(w, e).Some? { EditLands(w, e, t, EditOf(w, e).value.row); } else { NothingLands(w, e); }
  }

  /** A worker's outcome lands only under the attempt that still holds the row; a submission leaves an artifact. */
  lemma OutcomeLands(w: World, t: TaskId, a: AttemptId, status: Status)
    requires t in w.rows && (status.Submitted? || status.Accepted? || status.Blocked?)
    ensures var before := w.rows[t];
      Step(w, Finish(t, a, status)).rows ==
        if HoldsAttempt(before, a) then w.rows[t := before.(status := status, artifact := before.artifact || status == Submitted)] else w.rows
  {
    var e := Finish(t, a, status);
    assert FenceOf(w, e).None? && EditOf(w, e) == TaskEdit(w, e);
    if EditOf(w, e).Some? { EditLands(w, e, t, EditOf(w, e).value.row); } else { NothingLands(w, e); }
  }

  /** A failed start re-routes the task it was for, and ends the attempt if one was open. */
  lemma StartFailureLands(w: World, t: TaskId, assignee: Option<MemberId>, status: Status)
    requires Inv(w) && t in w.rows && (w.rows[t].status.Pending? || w.rows[t].status.Running?) && (status.Pending? || status.Blocked?)
    ensures var before, s := w.rows[t], Step(w, StartFails(t, assignee, status));
      && t in s.rows && s.rows == w.rows[t := s.rows[t]]
      && var after := s.rows[t];
         && after == before.(status := status, assignee := assignee, epoch := after.epoch, attempt := None, priorOwners := after.priorOwners)
         && after.epoch == before.epoch + (if before.attempt.Some? then 1 else 0) && Holders(before) <= Holders(after)
  {
    var e := StartFails(t, assignee, status);
    assert FenceOf(w, e).None? && EditOf(w, e) == TaskEdit(w, e);
    EditLands(w, e, t, EditOf(w, e).value.row);
  }

  /** A verdict settles submitted or accepted work and nothing else. */
  lemma VerdictLands(w: World, t: TaskId, status: Status)
    requires t in w.rows && (status.Submitted? || status.Accepted? || status.Blocked?)
    ensures var before := w.rows[t];
      Step(w, Settle(t, status)).rows ==
        if before.status == Submitted || before.status == Accepted then w.rows[t := before.(status := status)] else w.rows
  {
    var e := Settle(t, status);
    assert FenceOf(w, e).None? && EditOf(w, e) == TaskEdit(w, e);
    if EditOf(w, e).Some? { EditLands(w, e, t, EditOf(w, e).value.row); } else { NothingLands(w, e); }
  }

  /** A failed stop is on record on the marker it was for. */
  lemma StopFailureLands(w: World, job: Job, failure: StopFailure)
    requires job in w.jobs && job.Stopping? && job.task in w.rows && StillOwes(w.rows[job.task], job.epoch, job.handle)
    ensures var before := w.rows[job.task];
      Step(w, StopFails(job, failure)).rows == w.rows[job.task := before.(stop := Some(before.stop.value.(failure := Some(failure))))]
  {
    var e := StopFails(job, failure);
    assert FenceOf(w, e).None? && EditOf(w, e) == StopEdit(w, e);
    EditLands(w, e, job.task, EditOf(w, e).value.row);
  }

  /** The end of a turn is on record on the open attempt. */
  lemma TurnEndLands(w: World, t: TaskId)
    requires t in w.rows && HoldsOpenAttempt(w.rows[t])
    ensures var before := w.rows[t];
      Step(w, TurnEnds(t)).rows == w.rows[t := before.(attempt := Some(before.attempt.value.(turnEnded := true)))]
  {
    var e := TurnEnds(t);
    assert FenceOf(w, e).None? && EditOf(w, e) == AttemptEdit(w, e);
    EditLands(w, e, t, EditOf(w, e).value.row);
  }

  /** A renewal moves the lease of the attempt it names, while that holds the row. */
  lemma RenewalLands(w: World, t: TaskId, a: AttemptId, lease: int)
    requires t in w.rows
    ensures var before := w.rows[t];
      Step(w, Renew(t, a, lease)).rows ==
        if HoldsAttempt(before, a) then w.rows[t := before.(attempt := Some(before.attempt.value.(leaseUntil := lease)))] else w.rows
  {
    var e := Renew(t, a, lease);
    assert FenceOf(w, e).None? && EditOf(w, e) == AttemptEdit(w, e);
    if EditOf(w, e).Some? { EditLands(w, e, t, EditOf(w, e).value.row); } else { NothingLands(w, e); }
  }

  /** A capture during recovery leaves its checkpoint, while the attempt it was for holds the row. */
  lemma CheckpointLands(w: World, job: Job, commit: nat)
    requires job in w.jobs && job.Recovering? && job.task in w.rows
    ensures var t, before := job.task, w.rows[job.task];
      Step(w, Checkpoint(job, commit)).rows ==
        if HoldsAttempt(before, job.attempt) then w.rows[t := before.(checkpoint := Some(commit))] else w.rows
  {
    var e := Checkpoint(job, commit);
    assert FenceOf(w, e).None? && EditOf(w, e) == AttemptEdit(w, e);
    if EditOf(w, e).Some? { EditLands(w, e, job.task, EditOf(w, e).value.row); } else { NothingLands(w, e); }
  }

  /** A cold host: running work without a stop to wait for is pending at the next epoch, all else is as it was, and nothing is suspended. */
  lemma RestartLands(w: World, t: TaskId)
    requires Inv(w) && t in w.rows
    ensures var before, s := w.rows[t], Step(w, Restart);
      && s.jobs == {} && s.owed == w.owed && s.rows.Keys == w.rows.Keys
      && (before.status.Running? ==>
            s.rows[t].status.Pending? && s.rows[t].epoch == before.epoch + 1 && s.rows[t].attempt.None? && Holders(before) <= Holders(s.rows[t]))
      && (!before.status.Running? ==> s.rows[t] == before)
  {
  }
}
