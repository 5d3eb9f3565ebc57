/**
 * What every run of the attempt lifecycle guarantees: the stop barrier, the
 * fencing of stale writes, the accounting of attempts and stops, and reviewer
 * independence.
 */
module AttemptSafety {
  import opened Wrappers
  import opened Tasks
  import opened Assignment
  import opened Board
  import opened Fencing
  import opened AttemptRuns

  lemma {:induction false} RunKeepsInv(w: World, events: seq<Event>)
    requires Inv(w)
    ensures Inv(Run(w, events))
    decreases |events|
  {
    if events != [] {
      RunKeepsInv(w, events[..|events| - 1]);
      StepKeepsInv(Run(w, events[..|events| - 1]), events[|events| - 1]);
    }
  }

  /** A new mission satisfies the invariant. */
  lemma InitiallyInv()
    ensures Inv(World(map[], {}, 0, {}, {}, {}))
  {
  }

  /* ---- the stop barrier ---- */

  /** `m` acquires row `t`: it holds an open attempt there that it did not hold before. */
  ghost predicate Acquires(w: World, next: World, t: TaskId, m: MemberId) {
    && t in next.rows && OpenOwner(next.rows[t]) == Some(m)
    && (t in w.rows ==> OpenOwner(w.rows[t]) != Some(m) || Ids(w.rows[t]) != Ids(next.rows[t]))
  }

  /** Only an assignment opens an attempt. */
  lemma QuietAcquiresNothing(w: World, t: TaskId, row: Task, u: TaskId, m: MemberId)
    requires Inv(w) && t in w.rows && Quiet(w.rows[t], row, w.minted)
    ensures !Acquires(w, Commit(w, t, row), u, m)
  {
  }

  lemma AppliedAcquiresNothing(w: World, fence: Option<Write>, edit: Option<Write>, u: TaskId, m: MemberId)
    requires Inv(w) && QuietFence(w, fence) && QuietEdit(w, edit)
    ensures !Acquires(w, Apply(w, fence, edit), u, m)
  {
    if fence.Some? {
      QuietAcquiresNothing(w, fence.value.task, fence.value.row, u, m);
    } else if edit.Some? {
      QuietAcquiresNothing(w, edit.value.task, edit.value.row, u, m);
    }
  }

  lemma TransitionAcquiresNothing(w: World, e: Event, t: TaskId, m: MemberId)
    requires Inv(w) && !e.Restart? && !e.Propose? && !e.Assign? && !e.Release?
    ensures !Acquires(w, Step(w, e), t, m)
  {
    FenceIsQuiet(w, e);
    EditIsQuiet(w, e);
    AppliedAcquiresNothing(w, FenceOf(w, e), EditOf(w, e), t, m);
  }

  lemma AcquiredByAssignment(w: World, e: Event, t: TaskId, m: MemberId)
    requires Inv(w)
    ensures Acquires(w, Step(w, e), t, m) ==>
      && e.Assign? && MayAssign(w, e.job, e.env) && e.job.chosen.id == t && e.job.member == m
      && Ids(Step(w, e).rows[t]) == {w.minted}
  {
    if !e.Restart? && !e.Propose? && !e.Assign? && !e.Release? {
      TransitionAcquiresNothing(w, e, t, m);
    }
  }

  /**
   * The barrier, over every run: no row's open attempt shares its member with
   * another row's, a member owing an unconfirmed stop holds none, and whoever
   * acquires one next owes no stop, holds none, and gets a fresh attempt.
   */
  lemma StopBarrier(w: World, events: seq<Event>, e: Event, t: TaskId, m: MemberId)
    requires Inv(w)
    ensures var s := Run(w, events);
      && (forall u, v | u in s.rows && v in s.rows && u != v && OpenOwner(s.rows[u]).Some? :: OpenOwner(s.rows[u]) != OpenOwner(s.rows[v]))
      && (forall o <- s.owed :: !HasOpenAttempt(s.rows, o.member))
      && (Acquires(s, Step(s, e), t, m) ==>
            && !PendingStopOwner(s.rows, m)
            && (forall o <- s.owed :: o.member != m)
            && !HasOpenAttempt(s.rows, m)
            && (forall a <- s.ended + (if t in s.rows then Ids(s.rows[t]) else {}) :: a !in Ids(Step(s, e).rows[t])))
  {
    RunKeepsInv(w, events);
    var s := Run(w, events);
    if Acquires(s, Step(s, e), t, m) {
      AcquiredByAssignment(s, e, t, m);
      forall o | o in s.owed ensures o.member != m {
        if o.member == m { assert OwesStop(s.rows[o.task], m); }
      }
    }
  }

  /** The confirmed stop of exactly this obligation. */
  function Confirmed(o: Obligation): Job {
    Stopping(o.task, o.epoch, Some(o.member), true)
  }

  predicate Confirms(e: Event, o: Obligation) {
    e.ConfirmStop? && e.job == Stopping(o.task, o.epoch, Some(o.member), false)
  }

  /** Only a release discharges anything. */
  lemma OwedIsKept(w: World, e: Event)
    requires !e.Release?
    ensures w.owed <= Step(w, e).owed
  {
    if e.Assign? {
    } else if e.Propose? {
    }
  }

  /** An obligation ends only in the release of its own confirmed stop, on a row that still owed it. */
  lemma ObligationEnds(w: World, e: Event, o: Obligation)
    requires Inv(w) && o in w.owed && o !in Step(w, e).owed
    ensures e.Release? && e.job == Confirmed(o) && Confirmed(o) in w.jobs
    ensures Owes(w.rows[o.task], o)
    ensures o.task in Step(w, e).rows && Step(w, e).rows[o.task].stop.None?
  {
    if !e.Release? {
      OwedIsKept(w, e);
    }
  }

  lemma ConfirmedByConfirmation(w: World, e: Event, o: Obligation)
    requires Confirmed(o) in Step(w, e).jobs
    ensures Confirmed(o) in w.jobs || Confirms(e, o)
  {
  }

  /**
   * No work before a confirmed stop: on every run in which the adapter does not
   * confirm this obligation's stop, its member never holds an open attempt.
   */
  lemma {:induction false} NoWorkBeforeConfirmedStop(w: World, events: seq<Event>, o: Obligation)
    requires Inv(w) && o in w.owed && Confirmed(o) !in w.jobs
    requires forall e <- events :: !Confirms(e, o)
    ensures var s := Run(w, events); o in s.owed && Confirmed(o) !in s.jobs && !HasOpenAttempt(s.rows, o.member)
    decreases |events|
  {
    RunKeepsInv(w, events);
    if events != [] {
      var before, e := events[..|events| - 1], events[|events| - 1];
      NoWorkBeforeConfirmedStop(w, before, o);
      RunKeepsInv(w, before);
      if o !in Step(Run(w, before), e).owed { ObligationEnds(Run(w, before), e, o); }
      if Confirmed(o) in Step(Run(w, before), e).jobs { ConfirmedByConfirmation(Run(w, before), e, o); }
    }
  }

  /**
   * The fence of an open attempt leaves exactly one obligation: its owner's, at
   * the row's new epoch, whose stop is not yet even queued. No other commit leaves any.
   */
  lemma FenceLeavesOneStop(w: World, e: Event)
    requires Inv(w)
    ensures var began := Step(w, e).owed - w.owed;
      if FenceOf(w, e).Some? && OpenOwner(w.rows[FenceOf(w, e).value.task]).Some? then
        var t := FenceOf(w, e).value.task;
        var o := Obligation(t, w.rows[t].epoch + 1, OpenOwner(w.rows[t]).value);
        && began == {o} && Owes(Step(w, e).rows[t], o)
        && Ids(w.rows[t]) <= Step(w, e).ended - w.ended
        && (forall handle, confirmed :: Stopping(t, o.epoch, handle, confirmed) !in Step(w, e).jobs)
      else began == {}
  {
    FenceIsQuiet(w, e);
    if FenceOf(w, e).Some? && OpenOwner(w.rows[FenceOf(w, e).value.task]).Some? {
      FenceBegins(w, e);
      assert StepRow(w, e) == CommitFence(w, FenceOf(w, e).value.task, FenceOf(w, e).value.row);
    } else {
      OtherwiseNothingBegins(w, e);
    }
  }

  lemma OtherwiseNothingBegins(w: World, e: Event)
    requires QuietFence(w, FenceOf(w, e))
    requires !(FenceOf(w, e).Some? && OpenOwner(w.rows[FenceOf(w, e).value.task]).Some?)
    ensures Step(w, e).owed <= w.owed
  {
    if !e.Restart? && !e.Propose? && !e.Assign? && !e.Release? {
      assert Step(w, e).owed == Apply(w, FenceOf(w, e), EditOf(w, e)).owed;
    }
  }

  lemma FencedOpensStop(task: Task, kept: Task, status: Status, reason: StopReason, now: int)
    requires HoldsOpenAttempt(task) && !StopPending(task) && SameAttempt(task, kept)
    ensures var f := Fenced(kept, status, reason, now);
      f.epoch == task.epoch + 1 && f.attempt.None? && f.stop == Some(StopMarker(f.epoch, OpenOwner(task), reason, Some(now), None))
  {
  }

  lemma FenceBegins(w: World, e: Event)
    requires Inv(w) && FenceOf(w, e).Some? && OpenOwner(w.rows[FenceOf(w, e).value.task]).Some?
    ensures var t := FenceOf(w, e).value.task;
      var row := FenceOf(w, e).value.row;
      var o := Obligation(t, w.rows[t].epoch + 1, OpenOwner(w.rows[t]).value);
      && t in w.rows && row.epoch == o.epoch && row.attempt.None? && Owes(row, o) && o !in w.owed
      && JobsAfter(w, e) <= w.jobs
  {
    var t := FenceOf(w, e).value.task;
    var row := w.rows[t];
    if e.Fence? {
      FencedOpensStop(row, row.(assignee := e.assignee, planned := e.planned), e.status, e.reason, e.now);
    } else if e.Expire? {
      FencedOpensStop(row, ExpiryKeeps(row, e.paused || e.job.parked, e.plannedLive), Blocked, LeaseExpired, e.now);
    } else if e.CloseOut? {
      match e.captured
      case None => FencedOpensStop(row, row, Blocked, Invalidated, e.now);
      case Some(commit) => FencedOpensStop(row, CloseOutKeeps(row, e.job.member, commit), Blocked, WorkerCloseout, e.now);
    }
  }

  /**
   * The barrier's release writes a row only while that row's marker still has
   * the epoch and member that were stopped; it then takes the marker off, and
   * an invalidated stop never re-pends.
   */
  lemma ReleaseIsGuarded(w: World, e: Event)
    requires Inv(w) && e.Release?
    ensures if MayRelease(w, e.job) then
        var t, before := e.job.task, w.rows[e.job.task];
        var after := Step(w, e).rows[t];
        && before.stop.value.epoch == e.job.epoch && before.stop.value.member == e.job.handle && e.job.confirmed
        && Step(w, e).rows == w.rows[t := after]
        && after.stop.None? && after.epoch == before.epoch && after.attempt == before.attempt && after.priorOwners == before.priorOwners
        && (after.status.Pending? <==>
              && !before.status.Cancelled? && !before.stop.value.reason.Invalidated?
              && (forall c <- e.causes :: c.RecoveryExhausted? && RecoveryLimitExempt(before.stop.value.reason)))
        && (!after.status.Pending? ==> after.status == if before.status.Cancelled? then Cancelled else Blocked)
      else Step(w, e).rows == w.rows
  {
    if MayRelease(w, e.job) {
      OutcomeOfCauses(e.causes, w.rows[e.job.task].stop.value.reason);
    }
  }

  /** A confirmed stop re-pends unless it was an invalidation or a cause it is not exempt from holds. */
  lemma OutcomeOfCauses(causes: set<BlockCause>, reason: StopReason)
    ensures StopBlocks(causes, reason) <==>
      reason.Invalidated? || exists c <- causes :: !(c.RecoveryExhausted? && RecoveryLimitExempt(reason))
  {
    if causes - {RecoveryExhausted} != {} {
      var c :| c in causes - {RecoveryExhausted};
      assert c in causes;
    }
    if !StopBlocks(causes, reason) {
      forall c | c in causes ensures c.RecoveryExhausted? {
        assert c !in causes - {RecoveryExhausted};
      }
    }
  }

  /* ---- fencing of stale writes ---- */

  /** The attempt a later write of an awaiting transition, or of a worker call, names. */
  function NamedAttempt(e: Event): Option<AttemptId> {
    if (e.Expire? || e.Checkpoint?) && e.job.Recovering? then Some(e.job.attempt)
    else if e.CloseOut? && e.job.ClosingOut? then Some(e.job.attempt)
    else if e.Renew? || e.Finish? then Some(e.attempt)
    else None
  }

  /** The row such an event writes holds the attempt the event names. */
  lemma NamedWritesAreFenced(w: World, e: Event)
    requires RowsOk(w) && NamedAttempt(e).Some?
    ensures Step(w, e).rows == w.rows || OnSomeRow(w.rows, NamedAttempt(e).value)
  {
    if FenceOf(w, e).Some? {
      NamedFence(w, e);
    } else if EditOf(w, e).Some? {
      NamedEdit(w, e);
    }
  }

  lemma NamedFence(w: World, e: Event)
    requires RowsOk(w) && NamedAttempt(e).Some? && FenceOf(w, e).Some?
    ensures OnSomeRow(w.rows, NamedAttempt(e).value)
  {
    assert HoldsAttempt(w.rows[FenceOf(w, e).value.task], NamedAttempt(e).value);
  }

  lemma NamedEdit(w: World, e: Event)
    requires RowsOk(w) && NamedAttempt(e).Some? && EditOf(w, e).Some?
    ensures OnSomeRow(w.rows, NamedAttempt(e).value)
  {
    assert HoldsAttempt(w.rows[EditOf(w, e).value.task], NamedAttempt(e).value);
  }

  /** What ends leaves a row in that very commit. */
  lemma EndedGrows(w: World, e: Event)
    ensures w.ended <= Step(w, e).ended && w.minted <= Step(w, e).minted
    ensures forall a <- Step(w, e).ended - w.ended :: OnSomeRow(w.rows, a)
  {
  }

  lemma {:induction false} EndedStaysEnded(w: World, events: seq<Event>)
    ensures w.ended <= Run(w, events).ended
    decreases |events|
  {
    if events != [] {
      EndedStaysEnded(w, events[..|events| - 1]);
      EndedGrows(Run(w, events[..|events| - 1]), events[|events| - 1]);
    }
  }

  /**
   * Whatever commits during the awaits: once an attempt has ended it is on no
   * row ever again, and no expiry, close-out, checkpoint, renewal or worker
   * outcome that names it writes anything.
   */
  lemma EndedAttemptNeverReturns(w: World, events: seq<Event>, e: Event, a: AttemptId)
    requires Inv(w) && a in w.ended
    ensures var s := Run(w, events);
      && (forall t <- s.rows.Keys :: a !in Ids(s.rows[t]))
      && (NamedAttempt(e) == Some(a) ==> Step(s, e).rows == s.rows)
  {
    RunKeepsInv(w, events);
    EndedStaysEnded(w, events);
    var s := Run(w, events);
    if NamedAttempt(e) == Some(a) {
      NamedWritesAreFenced(s, e);
    }
  }

  /** Every attempt ends exactly once: it is on a row up to one commit, and off every row after it. */
  lemma AttemptsEndOnce(w: World, events: seq<Event>, e: Event, a: AttemptId)
    requires Inv(w)
    ensures var s, next := Run(w, events), Step(Run(w, events), e);
      (a in next.ended && a !in s.ended <==> OnSomeRow(s.rows, a) && !OnSomeRow(next.rows, a))
  {
    RunKeepsInv(w, events);
    StepKeepsInv(Run(w, events), e);
    EndedGrows(Run(w, events), e);
    EndsBetween(Run(w, events), Step(Run(w, events), e), a);
  }

  lemma EndsBetween(s: World, next: World, a: AttemptId)
    requires Inv(s) && Inv(next) && s.minted <= next.minted
    requires a in next.ended && a !in s.ended ==> OnSomeRow(s.rows, a)
    ensures a in next.ended && a !in s.ended <==> OnSomeRow(s.rows, a) && !OnSomeRow(next.rows, a)
  {
    if OnSomeRow(s.rows, a) {
      var t :| t in s.rows && a in Ids(s.rows[t]);
      assert a < s.minted;
    }
  }

  predicate EpochsBelow(rows: map<TaskId, Task>, later: map<TaskId, Task>) {
    forall t <- rows.Keys :: t in later && rows[t].epoch <= later[t].epoch
  }

  lemma WritesKeepEpochs(w: World, fence: Option<Write>, edit: Option<Write>)
    requires QuietFence(w, fence) && QuietEdit(w, edit)
    ensures EpochsBelow(w.rows, Apply(w, fence, edit).rows)
  {
  }

  lemma EpochsGrow(w: World, e: Event)
    requires Inv(w)
    ensures EpochsBelow(w.rows, Step(w, e).rows)
  {
    if !e.Restart? && !e.Propose? && !e.Assign? && !e.Release? {
      FenceIsQuiet(w, e);
      EditIsQuiet(w, e);
      WritesKeepEpochs(w, FenceOf(w, e), EditOf(w, e));
    }
  }

  /** Epochs never decrease, and no row disappears. */
  lemma {:induction false} EpochsNeverFall(w: World, events: seq<Event>)
    requires Inv(w)
    ensures EpochsBelow(w.rows, Run(w, events).rows)
    decreases |events|
  {
    if events != [] {
      var before := events[..|events| - 1];
      EpochsNeverFall(w, before);
      RunKeepsInv(w, before);
      EpochsGrow(Run(w, before), events[|events| - 1]);
    }
  }

  /* ---- the stop a fence leaves ---- */

  /** What may happen to an owed stop's marker while it stays owed. */
  predicate MarkerMoves(t: TaskId, before: StopMarker, after: StopMarker, e: Event) {
    && after.epoch == before.epoch && after.at == before.at
    && (after.member == before.member || (before.member.None? && e.ResolveStop? && e.task == t))
    && (after.reason == before.reason
        || (after.reason.Invalidated? && FenceEvent(e))
        || (before.reason.Invalidated? && after.reason.Handoff? && e == ResumeStop(t)))
  }

  predicate FenceEvent(e: Event) {
    (e.Fence? && e.reason.Invalidated?) || (e.CloseOut? && e.captured.None?)
  }

  /** A write of a row that owes a stop: the epoch stays, and the marker only moves as it may. */
  ghost predicate KeepsMarker(w: World, x: Option<Write>, e: Event) {
    x.Some? && x.value.task in w.rows && StopPending(w.rows[x.value.task]) ==>
      && StopPending(x.value.row) && x.value.row.epoch == w.rows[x.value.task].epoch
      && MarkerMoves(x.value.task, w.rows[x.value.task].stop.value, x.value.row.stop.value, e)
  }

  lemma FencedKeepsMarker(task: Task, kept: Task, status: Status, reason: StopReason, now: int)
    requires StopPending(task) && SameAttempt(task, kept)
    ensures var f := Fenced(kept, status, reason, now);
      && f.epoch == task.epoch && f.stop.Some?
      && f.stop.value == task.stop.value.(reason := if reason.Invalidated? then Invalidated else task.stop.value.reason)
  {
  }

  /** Recovery and close-out write only a row that holds an attempt, which owes no stop. */
  lemma FenceKeepsMarker(w: World, e: Event)
    requires RowsOk(w)
    ensures KeepsMarker(w, FenceOf(w, e), e)
  {
    if e.Fence? && FenceOf(w, e).Some? && StopPending(w.rows[e.task]) {
      FencedKeepsMarker(w.rows[e.task], w.rows[e.task].(assignee := e.assignee, planned := e.planned), e.status, e.reason, e.now);
    }
  }

  lemma EditKeepsMarker(w: World, e: Event)
    requires RowsOk(w)
    ensures KeepsMarker(w, EditOf(w, e), e)
  {
    if e.PreparationFails? {
      if MayAssign(w, e.job, e.env) { AssignableIsPending(w, e.job, e.env); }
    } else if e.ResolveStop? || e.ResumeStop? || e.StopFails? {
      StopEditKeepsMarker(w, e);
    } else if e.Renew? || e.TurnEnds? || e.BeginCloseOut? || e.Checkpoint? {
      assert EditOf(w, e).Some? ==> EditOf(w, e) == AttemptEdit(w, e);
    } else {
      TaskEditKeepsMarker(w, e);
    }
  }

  lemma StopEditKeepsMarker(w: World, e: Event)
    requires RowsOk(w)
    ensures KeepsMarker(w, StopEdit(w, e), e)
  {
  }

  lemma TaskEditKeepsMarker(w: World, e: Event)
    requires RowsOk(w)
    ensures KeepsMarker(w, TaskEdit(w, e), e)
  {
  }

  lemma TransitionKeepsOwed(w: World, e: Event, t: TaskId)
    requires Inv(w) && t in w.rows && StopPending(w.rows[t]) && !e.Restart? && !e.Propose? && !e.Assign? && !e.Release?
    ensures t in Step(w, e).rows
    ensures var before, after := w.rows[t], Step(w, e).rows[t];
      StopPending(after) && after.epoch == before.epoch && MarkerMoves(t, before.stop.value, after.stop.value, e)
  {
    FenceKeepsMarker(w, e);
    EditKeepsMarker(w, e);
    AppliedKeepsMarker(w, FenceOf(w, e), EditOf(w, e), e, t);
    assert Step(w, e).rows == Apply(w, FenceOf(w, e), EditOf(w, e)).rows;
  }

  /**
   * A stop stays owed, at its epoch and for its owner, until its own release.
   * Fences move its reason only to `Invalidated`; the one step that moves it
   * away from `Invalidated` is the owner's resume of the row.
   */
  lemma OwedStopIsKept(w: World, e: Event, t: TaskId)
    requires Inv(w) && t in w.rows && StopPending(w.rows[t])
    ensures t in Step(w, e).rows
    ensures var before, after := w.rows[t], Step(w, e).rows[t];
      || (&& StopPending(after) && after.epoch == before.epoch && MarkerMoves(t, before.stop.value, after.stop.value, e))
      || (&& e.Release? && e.job == Stopping(t, before.epoch, before.stop.value.member, true) && e.job in w.jobs && after.stop.None?)
  {
    if e.Assign? {
      AssignmentKeepsOwed(w, e, t);
    } else if !e.Restart? && !e.Propose? && !e.Release? {
      TransitionKeepsOwed(w, e, t);
    }
  }

  /** A row that owes a stop is not assignable. */
  lemma AssignmentKeepsOwed(w: World, e: Event, t: TaskId)
    requires Inv(w) && t in w.rows && StopPending(w.rows[t]) && e.Assign?
    ensures t in Step(w, e).rows && Step(w, e).rows[t] == w.rows[t]
  {
    if e.slots && MayAssign(w, e.job, e.env) {
      AssignableIsPending(w, e.job, e.env);
    }
  }

  lemma AppliedKeepsMarker(w: World, fence: Option<Write>, edit: Option<Write>, e: Event, t: TaskId)
    requires t in w.rows && StopPending(w.rows[t]) && KeepsMarker(w, fence, e) && KeepsMarker(w, edit, e)
    ensures var after := Apply(w, fence, edit).rows[t];
      StopPending(after) && after.epoch == w.rows[t].epoch && MarkerMoves(t, w.rows[t].stop.value, after.stop.value, e)
  {
  }

  /** The row owes a stop at this epoch that leaves its work for the owner. */
  predicate OwesInvalidated(row: Task, epoch: nat) {
    StopPending(row) && row.epoch == epoch && row.stop.value.reason.Invalidated?
  }

  /** The owner's resume of the task's stop, or its release. */
  predicate EndsStop(e: Event, t: TaskId) {
    e == ResumeStop(t) || (e.Release? && e.job.Stopping? && e.job.task == t)
  }

  lemma InvalidatedIsKept(w: World, e: Event, t: TaskId, epoch: nat)
    requires Inv(w) && t in w.rows && OwesInvalidated(w.rows[t], epoch)
    requires !EndsStop(e, t)
    ensures t in Step(w, e).rows && OwesInvalidated(Step(w, e).rows[t], epoch)
  {
    OwedStopIsKept(w, e, t);
  }

  lemma InvalidatedReleaseBlocks(row: Task, causes: set<BlockCause>, ownerGone: bool)
    requires row.stop.Some? && row.stop.value.reason.Invalidated?
    ensures !Released(row, causes, ownerGone).status.Pending?
  {
  }

  /**
   * Whatever else commits, an invalidated stop the owner does not resume stays
   * invalidated until its release, and that release leaves the task blocked or
   * cancelled.
   */
  lemma {:induction false} InvalidatedNeverRepends(w: World, events: seq<Event>, t: TaskId)
    requires Inv(w) && t in w.rows && OwesInvalidated(w.rows[t], w.rows[t].epoch)
    requires forall e <- events :: !EndsStop(e, t)
    ensures t in Run(w, events).rows && OwesInvalidated(Run(w, events).rows[t], w.rows[t].epoch)
    ensures forall causes, ownerGone :: !Released(Run(w, events).rows[t], causes, ownerGone).status.Pending?
    decreases |events|
  {
    if events != [] {
      var before, last := events[..|events| - 1], events[|events| - 1];
      assert last in events && forall e :: e in before ==> e in events;
      RunKeepsInv(w, before);
      InvalidatedNeverRepends(w, before, t);
      InvalidatedIsKept(Run(w, before), last, t, w.rows[t].epoch);
    }
    forall causes, ownerGone ensures !Released(Run(w, events).rows[t], causes, ownerGone).status.Pending? {
      InvalidatedReleaseBlocks(Run(w, events).rows[t], causes, ownerGone);
    }
  }

  /**
   * An owner's resume lifts an invalidation exactly when the row is blocked
   * without a submitted artifact: the stop stays owed, but its release re-pends.
   */
  lemma ResumeLiftsInvalidation(w: World, t: TaskId)
    requires Inv(w) && t in w.rows && StopPending(w.rows[t]) && w.rows[t].stop.value.reason.Invalidated?
    ensures t in Step(w, ResumeStop(t)).rows
    ensures var row := Step(w, ResumeStop(t)).rows[t];
      && StopPending(row) && row.epoch == w.rows[t].epoch
      && ((exists causes :: Released(row, causes, false).status.Pending?) <==> w.rows[t].status.Blocked? && !w.rows[t].artifact)
  {
    var row := Step(w, ResumeStop(t)).rows[t];
    if w.rows[t].status.Blocked? && !w.rows[t].artifact {
      assert Released(row, {}, false).status.Pending?;
    }
  }
}
