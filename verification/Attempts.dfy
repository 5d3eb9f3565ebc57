/**
 * The attempt lifecycle's methods over the durable rows. Each awaits the
 * adapter where the engine does; `others` is whatever commits during that
 * await. Whatever it is, the method's own commits are steps of one run, so
 * everything proved of every run holds of it.
 */
module Attempts {
  import opened Wrappers
  import opened Tasks
  import opened Assignment
  import opened Board
  import opened Fencing
  import opened TaskRows
  import opened AttemptRuns
  import opened AttemptSafety
  import opened AttemptOutcomes

  lemma {:induction false} RunsCompose(w: World, first: seq<Event>, rest: seq<Event>)
    ensures Run(Run(w, first), rest) == Run(w, first + rest)
    decreases |rest|
  {
    if rest == [] {
      assert first + rest == first;
    } else {
      RunsCompose(w, first, rest[..|rest| - 1]);
      assert (first + rest)[..|first + rest| - 1] == first + rest[..|rest| - 1];
    }
  }

  lemma RunExtends(w: World, events: seq<Event>, e: Event)
    ensures Run(w, events + [e]) == Step(Run(w, events), e)
  {
    assert (events + [e])[..|events|] == events;
  }

  /**
   * One task's turn in the recovery sweep: the lease a live operation renews it
   * to, the capture, what else commits while the capture is awaited, and what
   * the mission, the members and the clock answer.
   */
  datatype Turn = Turn(
    task: TaskId, parked: bool, renewed: Option<int>, captured: Option<nat>, others: seq<Event>,
    paused: bool, plannedLive: bool, now: int)

  /** The recovery still finds the attempt it began for. */
  predicate StillHeld(w: World, job: Job)
    requires job.Recovering?
  {
    job in w.jobs && job.task in w.rows && HoldsAttempt(w.rows[job.task], job.attempt)
  }

  /**
   * What is left after the capture, of what everybody else made of the rows
   * meanwhile: the attempt they left standing is over, its capture kept, its
   * credit and its assignee as the expiry has them, and its stop queued;
   * otherwise no row differs.
   */
  ghost predicate LeaseRecovered(seen: World, job: Job, turn: Turn, after: World)
    requires job.Recovering?
  {
    if !StillHeld(seen, job) then after.rows == seen.rows
    else
      var before := seen.rows[job.task];
      && job.task in after.rows && after.rows == seen.rows[job.task := after.rows[job.task]] && job.attempt in after.ended
      && var row := after.rows[job.task];
         && AttemptOutcomes.Stopped(before, row, LeaseExpired, turn.now)
         && row.checkpoint == (if turn.captured.Some? then turn.captured else before.checkpoint)
         && row.recoveryCount == before.recoveryCount + (if turn.paused || job.parked then 0 else 1)
         && row.planned == before.planned && row.assignee == (if turn.plannedLive then before.planned else None)
         && AttemptRuns.Stopping(job.task, row.epoch, Some(before.attempt.value.owner), false) in after.jobs
  }

  /** The rows with the lease moved to what a live operation renews it to. */
  function RenewedBy(w: World, turn: Turn, attempt: AttemptId): World {
    if turn.renewed.Some? then Step(w, Renew(turn.task, attempt, turn.renewed.value)) else w
  }

  /** One turn of the sweep: an owed stop is queued, a renewed or running lease is all there is, and one that ran out is recovered. */
  ghost predicate TurnDone(w: World, turn: Turn, after: World) {
    var t := turn.task;
    if t !in w.rows || (!StopPending(w.rows[t]) && !HoldsOpenAttempt(w.rows[t])) then after == w
    else if StopPending(w.rows[t]) then after == Step(w, BeginStop(t))
    else LeaseJudged(RenewedBy(w, turn, w.rows[t].attempt.value.id), w.rows[t].attempt.value, turn, after)
  }

  ghost predicate LeaseJudged(renewed: World, a: Attempt, turn: Turn, after: World) {
    if turn.renewed.GetOr(a.leaseUntil) >= turn.now then after == renewed
    else
      var job := Recovering(turn.task, a.id, turn.parked);
      LeaseRecovered(Run(Step(renewed, BeginRecovery(turn.task, turn.parked, turn.now)), turn.others), job, turn, after)
  }

  /** The worlds before the first turn and after each of the first `n`. */
  ghost predicate Staged(stages: seq<World>, turns: seq<Turn>, n: nat) {
    |stages| == n + 1 && n <= |turns| && forall i, j | 0 <= i < j <= n && j == i + 1 :: TurnDone(stages[i], turns[i], stages[j])
  }

  lemma StageAdded(stages: seq<World>, turns: seq<Turn>, after: World)
    requires |stages| > 0 && Staged(stages, turns, |stages| - 1) && |stages| <= |turns|
    requires TurnDone(stages[|stages| - 1], turns[|stages| - 1], after)
    ensures Staged(stages + [after], turns, |stages|)
  {
  }

  /** A renewal leaves the attempt on its row, with the lease it was renewed to. */
  lemma RenewalKeepsAttempt(w: World, turn: Turn)
    requires Inv(w) && turn.task in w.rows && HoldsOpenAttempt(w.rows[turn.task])
    ensures var a := w.rows[turn.task].attempt.value;
      var renewed := RenewedBy(w, turn, a.id);
      && Inv(renewed) && turn.task in renewed.rows && renewed.rows[turn.task].attempt.Some?
      && renewed.rows[turn.task].attempt.value.leaseUntil == turn.renewed.GetOr(a.leaseUntil)
  {
    if turn.renewed.Some? {
      var a := w.rows[turn.task].attempt.value;
      RenewalLands(w, turn.task, a.id, turn.renewed.value);
      StepKeepsInv(w, Renew(turn.task, a.id, turn.renewed.value));
    }
  }

  /** The recovery's own steps, after everybody else's. */
  function CheckpointedBy(seen: World, job: Job, turn: Turn): World {
    if turn.captured.Some? then Step(seen, Checkpoint(job, turn.captured.value)) else seen
  }

  lemma CheckpointKeepsHeld(seen: World, job: Job, turn: Turn)
    requires Inv(seen) && job.Recovering?
    ensures var w := CheckpointedBy(seen, job, turn);
      && Inv(w) && (StillHeld(w, job) <==> StillHeld(seen, job)) && w.jobs == seen.jobs
      && (!StillHeld(seen, job) ==> w.rows == seen.rows)
      && (StillHeld(seen, job) ==>
            w.rows == seen.rows[job.task := seen.rows[job.task].(
              checkpoint := if turn.captured.Some? then turn.captured else seen.rows[job.task].checkpoint)])
  {
    if turn.captured.Some? {
      var e := Checkpoint(job, turn.captured.value);
      StepKeepsInv(seen, e);
      assert FenceOf(seen, e).None? && EditOf(seen, e) == AttemptEdit(seen, e);
      assert Step(seen, e).jobs == seen.jobs - {} + {};
      if StillHeld(seen, job) {
        EditLands(seen, e, job.task, EditOf(seen, e).value.row);
      } else {
        NothingLands(seen, e);
      }
    }
  }

  lemma LeaseEnds(seen: World, w: World, job: Job, turn: Turn)
    requires Inv(seen) && job.Recovering? && w == CheckpointedBy(seen, job, turn)
    ensures var expired := Step(w, Event.Expire(job, turn.paused, turn.plannedLive, turn.now));
      LeaseRecovered(seen, job, turn, if StillHeld(w, job) then Step(expired, BeginStop(job.task)) else expired)
  {
    var e := Event.Expire(job, turn.paused, turn.plannedLive, turn.now);
    CheckpointKeepsHeld(seen, job, turn);
    if StillHeld(w, job) {
      HeldLeaseEnds(seen, w, job, turn);
    } else {
      assert FenceOf(w, e).None? && EditOf(w, e).None?;
      NothingLands(w, e);
    }
  }

  lemma HeldLeaseEnds(seen: World, w: World, job: Job, turn: Turn)
    requires Inv(w) && job.Recovering? && StillHeld(seen, job) && StillHeld(w, job)
    requires w.rows == seen.rows[job.task := seen.rows[job.task].(
      checkpoint := if turn.captured.Some? then turn.captured else seen.rows[job.task].checkpoint)]
    ensures var expired := Step(w, Event.Expire(job, turn.paused, turn.plannedLive, turn.now));
      LeaseRecovered(seen, job, turn, Step(expired, BeginStop(job.task)))
  {
    var e := Event.Expire(job, turn.paused, turn.plannedLive, turn.now);
    var expired := Step(w, e);
    ExpiryLeaves(w, e);
    StepKeepsInv(w, e);
    AttemptLeft(w, e, job);
    StopsAreQueued(expired, job.task);
  }

  lemma AttemptLeft(w: World, e: Event, job: Job)
    requires Inv(w) && job.Recovering? && StillHeld(w, job) && e.Expire? && e.job == job
    ensures job.attempt in Step(w, e).ended
  {
    assert FenceOf(w, e).Some?;
  }

  class Attempts {
    var rows: map<TaskId, Task>
    var jobs: set<Job>
    var minted: AttemptId
    // The history the safety claims are about; nothing below reads it.
    var ended: set<AttemptId>
    var owed: set<Obligation>
    var owners: set<(TaskId, MemberId)>

    function View(): World
      reads this
    {
      World(rows, jobs, minted, ended, owed, owners)
    }

    /** The store keeps every row under its own identity. */
    predicate Keyed()
      reads this
    {
      forall t <- rows.Keys :: rows[t].id == t
    }

    constructor ()
      ensures View() == World(map[], {}, 0, {}, {}, {}) && Inv(View())
    {
      rows, jobs, minted, ended, owed, owners := map[], {}, 0, {}, {}, {};
    }

    /** Write a changed copy back, with the history it leaves. */
    method Put(row: Row, before: Task)
      requires row.id in rows && rows[row.id] == before
      modifies this`rows, this`ended, this`owners
      ensures View() == Commit(old(View()), row.id, row.Record())
    {
      ended := ended + (Ids(before) - Ids(row.Record()));
      owners := owners + (if row.attempt.Some? then {(row.id, row.attempt.value.owner)} else {});
      rows := rows[row.id := row.Record()];
    }

    method PutFenced(row: Row, before: Task)
      requires row.id in rows && rows[row.id] == before
      modifies this`rows, this`ended, this`owners, this`owed
      ensures View() == CommitFence(old(View()), row.id, row.Record())
    {
      var owner := OpenOwner(before);
      Put(row, before);
      owed := owed + (if owner.Some? then {Obligation(row.id, row.epoch, owner.value)} else {});
    }

    /**
     * The second half of an expiry, after the capture. It reads the row anew and
     * leaves it alone if it no longer holds the attempt of the first half. A
     * restarted host has forgotten the job.
     */
    method ExpireLease(job: Job, paused: bool, plannedLive: bool, now: int) returns (expired: bool)
      requires Keyed() && job.Recovering?
      modifies this
      ensures View() == Step(old(View()), Expire(job, paused, plannedLive, now))
      ensures expired <==> job in old(jobs) && job.task in old(rows) && HoldsAttempt(old(rows)[job.task], job.attempt)
    {
      ghost var w, e := View(), Event.Expire(job, paused, plannedLive, now);
      var known := job in jobs;
      jobs := jobs - {job};
      if !known || job.task !in rows || !HoldsAttempt(rows[job.task], job.attempt) {
        return false;
      }
      var row := new Row(rows[job.task]);
      row.Expire(paused || job.parked, plannedLive, now);
      assert FenceOf(w, e) == Some(Write(job.task, row.Record()));
      PutFenced(row, rows[job.task]);
      return true;
    }

    method FinishCloseOut(job: Job, captured: Option<nat>, now: int) returns (closed: bool)
      requires Keyed() && job in jobs && job.ClosingOut?
      modifies this
      ensures View() == Step(old(View()), CloseOut(job, captured, now))
      ensures closed <==> job.task in old(rows) && HoldsAttempt(old(rows)[job.task], job.attempt)
    {
      ghost var w, e := View(), Event.CloseOut(job, captured, now);
      jobs := jobs - {job};
      if job.task !in rows || !HoldsAttempt(rows[job.task], job.attempt) {
        return false;
      }
      var row := new Row(rows[job.task]);
      row.CloseOut(job.member, captured, now);
      assert FenceOf(w, e) == Some(Write(job.task, row.Record()));
      PutFenced(row, rows[job.task]);
      return true;
    }

    /** The release: on a confirmed stop, while the row still owes exactly this one. */
    method ReleaseBarrier(job: Job, causes: set<BlockCause>, ownerGone: bool) returns (released: bool)
      requires Keyed() && job in jobs && job.Stopping? && job.confirmed
      modifies this
      ensures View() == Step(old(View()), Event.Release(job, causes, ownerGone))
      ensures released <==> job.task in old(rows) && StillOwes(old(rows)[job.task], job.epoch, job.handle)
    {
      ghost var w, e := View(), Event.Release(job, causes, ownerGone);
      jobs := jobs - {job};
      if job.task !in rows || !StillOwes(rows[job.task], job.epoch, job.handle) {
        return false;
      }
      var row := new Row(rows[job.task]);
      row.Release(causes, ownerGone);
      Put(row, rows[job.task]);
      owed := owed - Discharged(job);
      assert View() == StepRow(w, e).(jobs := JobsAfter(w, e));
      return true;
    }

    /** The dispatch commit: the choice made before the preparation is re-asserted against the current rows. */
    method Dispatch(job: Job, env: Env, slots: bool, leaseUntil: int) returns (dispatched: bool)
      requires Keyed() && job in jobs && job.Preparing?
      modifies this
      ensures View() == Step(old(View()), Event.Assign(job, env, slots, leaseUntil))
      ensures dispatched <==> slots && MayAssign(old(View()), job, env)
    {
      ghost var w, e := View(), Event.Assign(job, env, slots, leaseUntil);
      var board := Board(rows, env.members, env.effective, env.startable, env.clock);
      var t := job.chosen.id;
      var allowed := && slots && t in rows && job.member in env.members && env.members[job.member].id == job.member
        && SameChoice(rows[t], job.chosen) && board.Ready(rows[t], env.members[job.member])
        && !PendingStopOwner(rows, job.member) && !HasOpenAttempt(rows, job.member);
      jobs := jobs - {job};
      if !allowed {
        return false;
      }
      var row := new Row(rows[t]);
      row.Assign(job.member, minted, leaseUntil);
      Put(row, rows[t]);
      minted := minted + 1;
      return true;
    }

    /** One uninterrupted stretch of code other than the methods above. */
    method Commits(e: Event)
      modifies this
      ensures View() == Step(old(View()), e)
    {
      var next := Step(View(), e);
      rows, jobs, minted, ended, owed, owners := next.rows, next.jobs, next.minted, next.ended, next.owed, next.owners;
    }

    /** Whatever commits while a transition awaits the adapter. */
    method Await(others: seq<Event>)
      modifies this
      ensures View() == Run(old(View()), others)
    {
      for i := 0 to |others|
        invariant View() == Run(old(View()), others[..i])
      {
        assert others[..i + 1][..i] == others[..i];
        Commits(others[i]);
      }
      assert others[..|others|] == others;
    }

    /**
     * An expired lease: capture the workspace, then end the attempt on the rows
     * as they stand by then. If the attempt ended during the capture, whatever
     * ended it wins and this writes nothing.
     */
    method RecoverLease(job: Job, turn: Turn) returns (ghost history: seq<Event>)
      requires Inv(View()) && job.Recovering?
      modifies this
      ensures View() == Run(old(View()), history)
      ensures var seen := Run(old(View()), turn.others); job.attempt in seen.ended ==> rows == seen.rows
      ensures LeaseRecovered(Run(old(View()), turn.others), job, turn, View())
    {
      Await(turn.others);
      RunKeepsInv(old(View()), turn.others);
      ghost var seen := View();
      history := turn.others;
      if turn.captured.Some? {
        NamedWritesAreFenced(View(), Checkpoint(job, turn.captured.value));
        RunExtends(old(View()), history, Checkpoint(job, turn.captured.value));
        history := history + [Checkpoint(job, turn.captured.value)];
        Commits(Checkpoint(job, turn.captured.value));
        assert job.attempt in seen.ended ==> rows == seen.rows;
      }
      ghost var captured := View();
      CheckpointKeepsHeld(seen, job, turn);
      LeaseEnds(seen, captured, job, turn);
      NamedWritesAreFenced(captured, Event.Expire(job, turn.paused, turn.plannedLive, turn.now));
      RunExtends(old(View()), history, Event.Expire(job, turn.paused, turn.plannedLive, turn.now));
      history := history + [Event.Expire(job, turn.paused, turn.plannedLive, turn.now)];
      var expired := ExpireLease(job, turn.paused, turn.plannedLive, turn.now);
      if expired {
        RunExtends(old(View()), history, BeginStop(job.task));
        history := history + [BeginStop(job.task)];
        Commits(BeginStop(job.task));
      }
    }

    /** One task of the sweep: a stop it owes is resumed, a live operation renews it, an expired lease is recovered. */
    method RecoverTask(turn: Turn) returns (ghost history: seq<Event>)
      requires Inv(View())
      modifies this
      ensures View() == Run(old(View()), history) && TurnDone(old(View()), turn, View())
    {
      history := [];
      var t := turn.task;
      if t in rows && StopPending(rows[t]) {
        RunExtends(old(View()), history, BeginStop(t));
        history := history + [BeginStop(t)];
        Commits(BeginStop(t));
        return;
      }
      if t !in rows || !HoldsOpenAttempt(rows[t]) {
        return;
      }
      var attempt := rows[t].attempt.value.id;
      RenewalKeepsAttempt(View(), turn);
      if turn.renewed.Some? {
        RunExtends(old(View()), history, Renew(t, attempt, turn.renewed.value));
        history := history + [Renew(t, attempt, turn.renewed.value)];
        Commits(Renew(t, attempt, turn.renewed.value));
      }
      ghost var renewed := View();
      if rows[t].attempt.value.leaseUntil >= turn.now {
        return;
      }
      RunExtends(old(View()), history, BeginRecovery(t, turn.parked, turn.now));
      history := history + [BeginRecovery(t, turn.parked, turn.now)];
      Commits(BeginRecovery(t, turn.parked, turn.now));
      StepKeepsInv(renewed, BeginRecovery(t, turn.parked, turn.now));
      ghost var rest := RecoverLease(Recovering(t, attempt, turn.parked), turn);
      RunsCompose(old(View()), history, rest);
      history := history + rest;
    }

    /** The pass's lease-expiry sweep is one run, whatever commits while it awaits. */
    method RecoverExpired(turns: seq<Turn>) returns (ghost history: seq<Event>, ghost stages: seq<World>)
      requires Inv(View())
      modifies this
      ensures View() == Run(old(View()), history) && Inv(View())
      ensures Staged(stages, turns, |turns|) && stages[0] == old(View()) && stages[|turns|] == View()
    {
      history, stages := [], [View()];
      for i := 0 to |turns|
        invariant View() == Run(old(View()), history) && Inv(View())
        invariant Staged(stages, turns, i) && stages[0] == old(View()) && stages[i] == View()
      {
        ghost var rest := RecoverTask(turns[i]);
        StageAdded(stages, turns, View());
        stages := stages + [View()];
        RunsCompose(old(View()), history, rest);
        history := history + rest;
        RunKeepsInv(old(View()), history);
      }
    }
  }
}
