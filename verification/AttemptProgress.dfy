/** The barrier opens: what a run can always do next, so that its safety is not the safety of standing still. */
module AttemptProgress {
  import opened Wrappers
  import opened Tasks
  import opened Assignment
  import opened Board
  import opened Fencing
  import opened AttemptRuns
  import opened AttemptSafety

  /** Ready work is taken: undisturbed, a preparation and its assignment give a free member the attempt. */
  lemma ReadyWorkIsTaken(w: World, t: TaskId, m: MemberId, env: Env, leaseUntil: int)
    requires Inv(w) && t in w.rows && w.rows[t].id == t && MayPrepare(w, t, m, env) && !HasOpenAttempt(w.rows, m)
    ensures var s := Step(w, Prepare(t, m, env));
      Acquires(s, Step(s, Assign(Preparing(w.rows[t], m), env, true, leaseUntil)), t, m)
  {
    var s, job := Step(w, Prepare(t, m, env)), Preparing(w.rows[t], m);
    assert s.rows == w.rows && job in s.jobs;
    assert MayAssign(s, job, env);
  }

  /** An owed stop without a deterministic failure is released once it is queued and confirmed, and its obligation with it. */
  lemma ConfirmedStopIsReleased(w: World, t: TaskId, causes: set<BlockCause>, ownerGone: bool)
    requires Inv(w) && t in w.rows && StopPending(w.rows[t])
    requires w.rows[t].stop.value.failure.None? || !w.rows[t].stop.value.failure.value.deterministic
    ensures var marker := w.rows[t].stop.value;
      var queued, confirmed := Stopping(t, w.rows[t].epoch, marker.member, false), Stopping(t, w.rows[t].epoch, marker.member, true);
      var s := Step(Step(Step(w, BeginStop(t)), ConfirmStop(queued)), Event.Release(confirmed, causes, ownerGone));
      && s.rows == w.rows[t := Released(w.rows[t], causes, ownerGone)]
      && s.owed == w.owed - Discharged(confirmed)
  {
    var queued := Stopping(t, w.rows[t].epoch, w.rows[t].stop.value.member, false);
    var confirmed := queued.(confirmed := true);
    QueuedThenConfirmed(w, t);
    var s := Step(Step(w, BeginStop(t)), ConfirmStop(queued));
    assert MayRelease(s, confirmed);
  }

  lemma QueuedThenConfirmed(w: World, t: TaskId)
    requires t in w.rows && StopPending(w.rows[t])
    requires w.rows[t].stop.value.failure.None? || !w.rows[t].stop.value.failure.value.deterministic
    ensures var queued := Stopping(t, w.rows[t].epoch, w.rows[t].stop.value.member, false);
      var s := Step(Step(w, BeginStop(t)), ConfirmStop(queued));
      s.rows == w.rows && s.owed == w.owed && queued.(confirmed := true) in s.jobs
  {
    var queued := Stopping(t, w.rows[t].epoch, w.rows[t].stop.value.member, false);
    var s := Step(w, BeginStop(t));
    assert s.rows == w.rows && s.owed == w.owed && queued in s.jobs;
  }

  /** The smallest run with work in it: a proposal, a preparation and an assignment. */
  lemma FirstAttempt(m: MemberId, leaseUntil: int) returns (w: World, e: Event, t: TaskId)
    ensures Inv(w) && Acquires(w, Step(w, e), t, m)
  {
    t := 0;
    var row := Task(t, Pending, 0, None, None, Some({}), None, None, None, [], None, [], None, 0, None, false);
    var empty := World(map[], {}, 0, {}, {}, {});
    var env := Env(map[m := Member(m, Active)], map[], {m}, 0);
    var proposed := Step(empty, Propose(row));
    InitiallyInv();
    StepKeepsInv(empty, Propose(row));
    NewRowIsReady(proposed, row, m, env);
    ReadyWorkIsTaken(proposed, t, m, env, leaseUntil);
    StepKeepsInv(proposed, Prepare(t, m, env));
    w, e := Step(proposed, Prepare(t, m, env)), Assign(Preparing(row, m), env, true, leaseUntil);
  }

  lemma NewRowIsReady(w: World, row: Task, m: MemberId, env: Env)
    requires w.rows == map[row.id := row] && m in env.members && env.members[m] == Member(m, Active)
    requires row.status.Pending? && row.attempt.None? && row.stop.None? && row.assignee.None? && row.preparation.None?
    requires row.dependencies == [] && row.reviewOf.None?
    ensures MayPrepare(w, row.id, m, env) && !HasOpenAttempt(w.rows, m)
  {
    var b := BoardOf(w, env);
    assert !PendingStopOwner(w.rows, m) && !StrandsReview(w.rows, row.id, m);
    assert TaskEdges(row) == [];
    assert !b.Dangling(row) && b.Capable(row, m);
    assert b.Ready(row, env.members[m]);
  }
}
