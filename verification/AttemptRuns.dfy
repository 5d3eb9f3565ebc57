/**
 * Every interleaving of the attempt lifecycle.
 *
 * Synchronous code runs uninterrupted, so one event is one such stretch. A
 * transition that awaits the adapter is two events: the first reads the row and
 * leaves a job behind, the second commits. Anything may commit in between.
 * `ended`, `owed` and `owners` are the history the safety claims are about;
 * no transition reads them.
 */
module AttemptRuns {
  import opened Wrappers
  import opened Tasks
  import opened Assignment
  import opened Board
  import opened Fencing

  /** A transition suspended at an await, with what it read before it. */
  datatype Job =
    | Preparing(chosen: Task, member: MemberId)
    | Recovering(task: TaskId, attempt: AttemptId, parked: bool)
    | ClosingOut(task: TaskId, attempt: AttemptId, member: MemberId)
    | Stopping(task: TaskId, epoch: nat, handle: Option<MemberId>, confirmed: bool)

  /** `member`'s handle was fenced off `task` at `epoch` and its stop is not confirmed yet. */
  datatype Obligation = Obligation(task: TaskId, epoch: nat, member: MemberId)

  datatype World = World(
    rows: map<TaskId, Task>,
    jobs: set<Job>,
    minted: AttemptId,
    ended: set<AttemptId>,
    owed: set<Obligation>,
    owners: set<(TaskId, MemberId)>)

  /** What a decision reads besides the rows. */
  datatype Env = Env(members: map<MemberId, Member>, effective: map<TaskId, Task>, startable: set<MemberId>, clock: int)

  function BoardOf(w: World, env: Env): Board {
    Board(w.rows, env.members, env.effective, env.startable, env.clock)
  }

  datatype Event =
    | Propose(row: Task)
    | Prepare(task: TaskId, member: MemberId, env: Env)
    | Assign(job: Job, env: Env, slots: bool, leaseUntil: int)
    | PreparationFails(job: Job, env: Env, retryAt: Option<int>)
    | Fence(task: TaskId, status: Status, reason: StopReason, assignee: Option<MemberId>, planned: Option<MemberId>, now: int)
    | Finish(task: TaskId, attempt: AttemptId, status: Status)
    | Settle(task: TaskId, status: Status)
    | Retire(task: TaskId)
    | Reopen(task: TaskId, assignee: Option<MemberId>, mode: Option<Mode>)
    | Amend(task: TaskId, assignee: Option<MemberId>, planned: Option<MemberId>, mode: Option<Mode>, structural: bool, repend: bool)
    | StartFails(task: TaskId, assignee: Option<MemberId>, status: Status)
    | Restart
    | Renew(task: TaskId, attempt: AttemptId, leaseUntil: int)
    | TurnEnds(task: TaskId)
    | BeginRecovery(task: TaskId, parked: bool, now: int)
    | Checkpoint(job: Job, commit: nat)
    | Expire(job: Job, paused: bool, plannedLive: bool, now: int)
    | BeginCloseOut(task: TaskId, bound: nat)
    | CloseOut(job: Job, captured: Option<nat>, now: int)
    | ResolveStop(task: TaskId, member: MemberId)
    | ResumeStop(task: TaskId)
    | BeginStop(task: TaskId)
    | ConfirmStop(job: Job)
    | StopFails(job: Job, failure: StopFailure)
    | Release(job: Job, causes: set<BlockCause>, ownerGone: bool)

  /* ---- commits, with the history they leave ---- */

  function Ids(task: Task): set<AttemptId> {
    if task.attempt.Some? then {task.attempt.value.id} else {}
  }

  function Holder(task: Task): set<MemberId> {
    if task.attempt.Some? then {task.attempt.value.owner} else {}
  }

  /** Write one row. An attempt that left it has ended; its holder has owned the task. */
  function Commit(w: World, t: TaskId, row: Task): World
    requires t in w.rows
  {
    w.(rows := w.rows[t := row],
       ended := w.ended + (Ids(w.rows[t]) - Ids(row)),
       owners := w.owners + (if row.attempt.Some? then {(t, row.attempt.value.owner)} else {}))
  }

  /** Write a fenced row: the owner of the open attempt it ended owes a stop. */
  function CommitFence(w: World, t: TaskId, row: Task): World
    requires t in w.rows
  {
    var owner := OpenOwner(w.rows[t]);
    Commit(w, t, row).(owed := w.owed + (if owner.Some? then {Obligation(t, row.epoch, owner.value)} else {}))
  }

  /** Nothing that decides who is to run the task differs between the two reads of its row. */
  predicate SameChoice(current: Task, chosen: Task) {
    current.epoch == chosen.epoch && current.assignee == chosen.assignee
    && current.planned == chosen.planned && current.mode == chosen.mode
  }

  /** The row still owes exactly the stop this job was queued for. */
  predicate StillOwes(task: Task, epoch: nat, member: Option<MemberId>) {
    task.epoch == epoch && task.stop.Some? && task.stop.value.epoch == epoch && task.stop.value.member == member
  }

  predicate MayPrepare(w: World, t: TaskId, m: MemberId, env: Env)
    requires t in w.rows
  {
    && m in env.members && env.members[m].id == m
    && BoardOf(w, env).Ready(w.rows[t], env.members[m]) && !PendingStopOwner(w.rows, m)
  }

  predicate MayAssign(w: World, job: Job, env: Env) {
    && job in w.jobs && job.Preparing?
    && job.chosen.id in w.rows && job.member in env.members && env.members[job.member].id == job.member
    && var current := w.rows[job.chosen.id];
       SameChoice(current, job.chosen) && BoardOf(w, env).Ready(current, env.members[job.member])
       && !PendingStopOwner(w.rows, job.member) && !HasOpenAttempt(w.rows, job.member)
  }

  function RestartRow(row: Task): Task {
    if row.status.Running? && !StopPending(row) then EndAttempt(row.(status := Pending)) else row
  }

  /** A cold host owns no suspended transition, and no process of the old one survives. */
  function RestartWorld(w: World): World {
    var rows := map t | t in w.rows :: RestartRow(w.rows[t]);
    w.(rows := rows, jobs := {},
       ended := w.ended + (set t | t in w.rows && w.rows[t].attempt.Some? && rows[t].attempt.None? :: w.rows[t].attempt.value.id))
  }

  /** The row a transition writes. */
  datatype Write = Write(task: TaskId, row: Task)

  /** The fences. Expiry and close-out re-validate the attempt they read before their await. */
  function FenceOf(w: World, e: Event): Option<Write> {
    match e
    case Fence(t, status, reason, assignee, planned, now) =>
      if t in w.rows && (status.Blocked? || status.Cancelled?) then
        Some(Write(t, Fenced(w.rows[t].(assignee := assignee, planned := planned), status, reason, now)))
      else None
    case Expire(job, paused, plannedLive, now) =>
      if job in w.jobs && job.Recovering? && job.task in w.rows && HoldsAttempt(w.rows[job.task], job.attempt) then
        Some(Write(job.task, Expired(w.rows[job.task], paused || job.parked, plannedLive, now)))
      else None
    case CloseOut(job, captured, now) =>
      if job in w.jobs && job.ClosingOut? && job.task in w.rows && HoldsAttempt(w.rows[job.task], job.attempt) then
        Some(Write(job.task, ClosedOut(w.rows[job.task], job.member, captured, now)))
      else None
    case _ => None
  }

  /** The transitions that edit one row without fencing it, ending in nothing when moot or refused. */
  function EditOf(w: World, e: Event): Option<Write> {
    match e
    case Renew(_, _, _) => AttemptEdit(w, e)
    case TurnEnds(_) => AttemptEdit(w, e)
    case BeginCloseOut(_, _) => AttemptEdit(w, e)
    case Checkpoint(_, _) => AttemptEdit(w, e)
    case ResolveStop(_, _) => StopEdit(w, e)
    case ResumeStop(_) => StopEdit(w, e)
    case StopFails(_, _) => StopEdit(w, e)
    case PreparationFails(job, env, retryAt) =>
      if MayAssign(w, job, env) then Some(Write(job.chosen.id, PreparationRetry(w.rows[job.chosen.id], retryAt))) else None
    case _ => TaskEdit(w, e)
  }

  /** A submission or verdict, the retirement of what an accepted row replaced, and the owner's and host's re-pends. */
  function TaskEdit(w: World, e: Event): Option<Write> {
    match e
    case Finish(t, a, status) =>
      if t in w.rows && HoldsAttempt(w.rows[t], a) && (status.Submitted? || status.Accepted? || status.Blocked?) then
        Some(Write(t, w.rows[t].(status := status, artifact := w.rows[t].artifact || status.Submitted?)))
      else None
    case Settle(t, status) =>
      if t in w.rows && (w.rows[t].status.Submitted? || w.rows[t].status.Accepted?)
         && (status.Submitted? || status.Accepted? || status.Blocked?) then
        Some(Write(t, w.rows[t].(status := status)))
      else None
    case Retire(t) =>
      if t in w.rows && (w.rows[t].status.Blocked? || w.rows[t].status.Pending?) && !StopPending(w.rows[t]) then
        Some(Write(t, w.rows[t].(status := Cancelled)))
      else None
    case Reopen(t, assignee, mode) =>
      if t in w.rows && w.rows[t].status.Blocked? && !StopPending(w.rows[t]) then
        Some(Write(t, EndAttempt(w.rows[t].(status := Pending, assignee := assignee, mode := mode, artifact := false))))
      else None
    case Amend(t, assignee, planned, mode, structural, repend) =>
      if t in w.rows && !(structural && HoldsOpenAttempt(w.rows[t])) then
        var row := w.rows[t].(assignee := assignee, planned := planned, mode := mode);
        var bumped := if structural && !StopPending(row) then row.(epoch := row.epoch + 1) else row;
        var repended := repend && row.status.Blocked? && row.attempt.None? && !StopPending(row);
        Some(Write(t, if repended then bumped.(status := Pending) else bumped))
      else None
    case StartFails(t, assignee, status) =>
      if t in w.rows && (w.rows[t].status.Pending? || w.rows[t].status.Running?) && (status.Pending? || status.Blocked?) then
        var row := w.rows[t].(status := status, assignee := assignee);
        Some(Write(t, if row.attempt.Some? then EndAttempt(row) else row))
      else None
    case _ => None
  }

  /** Liveness bookkeeping on the attempt a row holds. */
  function AttemptEdit(w: World, e: Event): Option<Write> {
    match e
    case Renew(t, a, lease) =>
      if t in w.rows && HoldsAttempt(w.rows[t], a) then
        Some(Write(t, w.rows[t].(attempt := Some(w.rows[t].attempt.value.(leaseUntil := lease)))))
      else None
    case TurnEnds(t) =>
      if t in w.rows && HoldsOpenAttempt(w.rows[t]) then
        Some(Write(t, w.rows[t].(attempt := Some(w.rows[t].attempt.value.(turnEnded := true)))))
      else None
    case BeginCloseOut(t, bound) =>
      if t in w.rows && HoldsOpenAttempt(w.rows[t]) && w.rows[t].attempt.value.turnEnded && w.rows[t].attempt.value.nudges < bound then
        var a := w.rows[t].attempt.value;
        Some(Write(t, w.rows[t].(attempt := Some(a.(nudges := a.nudges + 1)))))
      else None
    case Checkpoint(job, commit) =>
      if job in w.jobs && job.Recovering? && job.task in w.rows && HoldsAttempt(w.rows[job.task], job.attempt) then
        Some(Write(job.task, w.rows[job.task].(checkpoint := Some(commit))))
      else None
    case _ => None
  }

  /** Edits of the stop a row owes. */
  function StopEdit(w: World, e: Event): Option<Write> {
    match e
    case ResolveStop(t, m) =>
      if t in w.rows && StopPending(w.rows[t]) && w.rows[t].stop.value.member.None? then
        Some(Write(t, w.rows[t].(stop := Some(w.rows[t].stop.value.(member := Some(m))))))
      else None
    case ResumeStop(t) =>
      if t in w.rows && StopPending(w.rows[t]) then
        var marker := w.rows[t].stop.value.(failure := None);
        var lifted := marker.reason.Invalidated? && w.rows[t].status.Blocked? && !w.rows[t].artifact;
        Some(Write(t, w.rows[t].(stop := Some(if lifted then marker.(reason := Handoff) else marker))))
      else None
    case StopFails(job, failure) =>
      if job in w.jobs && job.Stopping? && job.task in w.rows && StillOwes(w.rows[job.task], job.epoch, job.handle) then
        var row := w.rows[job.task];
        Some(Write(job.task, row.(stop := Some(row.stop.value.(failure := Some(failure))))))
      else None
    case _ => None
  }

  /** The barrier's release, on a confirmed stop, while the row still owes exactly that stop. */
  predicate MayRelease(w: World, job: Job) {
    job in w.jobs && job.Stopping? && job.confirmed && job.task in w.rows && StillOwes(w.rows[job.task], job.epoch, job.handle)
  }

  /** The transitions an event leaves suspended at its await. */
  function Begun(w: World, e: Event): set<Job> {
    match e
    case Prepare(t, m, env) =>
      if t in w.rows && MayPrepare(w, t, m, env) then {Preparing(w.rows[t], m)} else {}
    case BeginRecovery(t, parked, now) =>
      if t in w.rows && HoldsOpenAttempt(w.rows[t]) && w.rows[t].attempt.value.leaseUntil < now then
        {Recovering(t, w.rows[t].attempt.value.id, parked)}
      else {}
    case BeginCloseOut(t, bound) =>
      if t in w.rows && HoldsOpenAttempt(w.rows[t]) && w.rows[t].attempt.value.turnEnded && w.rows[t].attempt.value.nudges >= bound then
        {ClosingOut(t, w.rows[t].attempt.value.id, w.rows[t].attempt.value.owner)}
      else {}
    case _ => BegunStop(w, e)
  }

  /** A stop is queued for the stop a row owes now, and confirmed only once it was queued. */
  function BegunStop(w: World, e: Event): set<Job> {
    match e
    case BeginStop(t) =>
      if t in w.rows && StopPending(w.rows[t])
         && !(w.rows[t].stop.value.failure.Some? && w.rows[t].stop.value.failure.value.deterministic) then
        {Stopping(t, w.rows[t].epoch, w.rows[t].stop.value.member, false)}
      else {}
    case ConfirmStop(job) =>
      if job in w.jobs && job.Stopping? && !job.confirmed then {job.(confirmed := true)} else {}
    case _ => {}
  }

  /** The suspended transition an event resumes. */
  function Resumed(e: Event): set<Job> {
    match e
    case Assign(job, _, _, _) => {job}
    case PreparationFails(job, _, _) => {job}
    case Expire(job, _, _, _) => {job}
    case CloseOut(job, _, _) => {job}
    case ConfirmStop(job) => {job}
    case StopFails(job, _) => {job}
    case Release(job, _, _) => {job}
    case _ => {}
  }

  function JobsAfter(w: World, e: Event): set<Job> {
    w.jobs - Resumed(e) + Begun(w, e)
  }

  /** One uninterrupted stretch of code. A refused or moot one changes no row. */
  function Step(w: World, e: Event): World {
    if e.Restart? then RestartWorld(w)
    else if e.Propose? then
      var row := e.row;
      var admitted := row.id !in w.rows && row.status.Pending? && row.attempt.None? && row.stop.None? && row.priorOwners == Some({});
      if admitted then w.(rows := w.rows[row.id := row]) else w
    else StepRow(w, e).(jobs := JobsAfter(w, e))
  }

  /** The row an event commits, with its history. */
  function StepRow(w: World, e: Event): World
    requires !e.Restart? && !e.Propose?
  {
    if e.Assign? then
      if e.slots && MayAssign(w, e.job, e.env) then
        var t := e.job.chosen.id;
        Commit(w, t, Assigned(w.rows[t], e.job.member, w.minted, e.leaseUntil)).(minted := w.minted + 1)
      else w
    else if e.Release? then
      if MayRelease(w, e.job) then
        Commit(w, e.job.task, Released(w.rows[e.job.task], e.causes, e.ownerGone)).(owed := w.owed - Discharged(e.job))
      else w
    else Apply(w, FenceOf(w, e), EditOf(w, e))
  }

  /** The obligation a stop job's release discharges; a legacy stop of every handle names none. */
  function Discharged(job: Job): set<Obligation>
    requires job.Stopping?
  {
    if job.handle.Some? then {Obligation(job.task, job.epoch, job.handle.value)} else {}
  }

  function Apply(w: World, fence: Option<Write>, edit: Option<Write>): World {
    if fence.Some? && fence.value.task in w.rows then CommitFence(w, fence.value.task, fence.value.row)
    else if edit.Some? && edit.value.task in w.rows then Commit(w, edit.value.task, edit.value.row)
    else w
  }

  function Run(w: World, events: seq<Event>): World
    decreases |events|
  {
    if events == [] then w else Step(Run(w, events[..|events| - 1]), events[|events| - 1])
  }

  /* ---- the invariant ---- */

  predicate RowOk(row: Task, minted: AttemptId) {
    && (row.status.Pending? ==> row.attempt.None?)
    && (row.stop.Some? ==> row.stop.value.epoch <= row.epoch)
    && (StopPending(row) ==> row.attempt.None? && (row.status.Blocked? || row.status.Cancelled?))
    && (row.attempt.Some? ==> row.attempt.value.id < minted)
  }

  predicate Owes(row: Task, o: Obligation) {
    StillOwes(row, o.epoch, Some(o.member))
  }

  /** The members the row itself remembers as owners. */
  function Holders(row: Task): set<MemberId> {
    row.priorOwners.GetOr({}) + Holder(row)
  }

  ghost predicate OnSomeRow(rows: map<TaskId, Task>, a: AttemptId) {
    exists t <- rows.Keys :: a in Ids(rows[t])
  }

  ghost predicate RowsOk(w: World) {
    forall t <- w.rows.Keys :: w.rows[t].id == t && RowOk(w.rows[t], w.minted)
  }

  /** No attempt is on two rows. */
  ghost predicate Unshared(rows: map<TaskId, Task>) {
    forall t, u | t in rows && u in rows && t != u :: Ids(rows[t]) !! Ids(rows[u])
  }

  /** No member holds two open attempts. */
  ghost predicate Exclusive(rows: map<TaskId, Task>) {
    forall t, u | t in rows && u in rows && t != u && OpenOwner(rows[t]).Some? :: OpenOwner(rows[t]) != OpenOwner(rows[u])
  }

  /** Every attempt ever minted is on exactly one row or has ended, never both. */
  ghost predicate Conserved(w: World) {
    && (forall t <- w.rows.Keys :: Ids(w.rows[t]) !! w.ended)
    && (forall a: AttemptId | a < w.minted :: a in w.ended || OnSomeRow(w.rows, a))
    && (forall a <- w.ended :: a < w.minted)
  }

  /** Every unconfirmed stop is on its row, and its member holds no open attempt. */
  ghost predicate Barred(w: World) {
    forall o <- w.owed :: o.task in w.rows && Owes(w.rows[o.task], o) && !HasOpenAttempt(w.rows, o.member)
  }

  ghost predicate Remembered(w: World) {
    forall p <- w.owners :: p.0 in w.rows && p.1 in Holders(w.rows[p.0])
  }

  ghost predicate JobsOk(w: World) {
    forall j <- w.jobs | j.Stopping? :: j.task in w.rows && j.epoch <= w.rows[j.task].epoch
  }

  ghost predicate Inv(w: World) {
    RowsOk(w) && Unshared(w.rows) && Exclusive(w.rows) && Conserved(w) && Barred(w) && Remembered(w) && JobsOk(w)
  }

  /** A write that opens nothing: it may keep or end the row's attempt, and forgets no author. */
  ghost predicate Quiet(before: Task, after: Task, minted: AttemptId) {
    && after.id == before.id && after.epoch >= before.epoch && RowOk(after, minted)
    && Ids(after) <= Ids(before) && Holder(after) <= Holder(before)
    && Holders(before) <= Holders(after)
    && (HoldsOpenAttempt(after) ==> HoldsOpenAttempt(before))
  }

  /** Obligations after a write of row `t`: only the stop of an open attempt it ended is new. */
  ghost predicate OwedFollows(w: World, t: TaskId, row: Task, owed: set<Obligation>)
    requires t in w.rows
  {
    forall o <- owed ::
      if o.task == t then Owes(row, o) && (o in w.owed || OpenOwner(w.rows[t]) == Some(o.member)) else o in w.owed
  }

  lemma QuietConserves(w: World, t: TaskId, row: Task)
    requires Inv(w) && t in w.rows && Quiet(w.rows[t], row, w.minted)
    ensures Conserved(Commit(w, t, row))
  {
    var next := Commit(w, t, row);
    forall a: AttemptId | a < w.minted ensures a in next.ended || OnSomeRow(next.rows, a) {
      if a !in next.ended {
        var u :| u in w.rows && a in Ids(w.rows[u]);
        assert a in Ids(next.rows[u]);
      }
    }
  }

  lemma QuietBars(w: World, t: TaskId, row: Task, owed: set<Obligation>)
    requires Inv(w) && t in w.rows && Quiet(w.rows[t], row, w.minted) && OwedFollows(w, t, row, owed)
    ensures Barred(Commit(w, t, row).(owed := owed))
  {
    var next := Commit(w, t, row);
    forall o | o in owed
      ensures o.task in next.rows && Owes(next.rows[o.task], o) && !HasOpenAttempt(next.rows, o.member)
    {
      forall u | u in next.rows ensures OpenOwner(next.rows[u]) != Some(o.member) {
        assert OpenOwner(next.rows[u]) == Some(o.member) ==> OpenOwner(w.rows[u]) == Some(o.member);
        if o !in w.owed {
          assert o.task == t && StopPending(row);
        }
      }
    }
  }

  lemma QuietSeparates(w: World, t: TaskId, row: Task)
    requires Inv(w) && t in w.rows && Quiet(w.rows[t], row, w.minted)
    ensures Unshared(w.rows[t := row]) && Exclusive(w.rows[t := row])
  {
    var rows := w.rows[t := row];
    forall u, v | u in rows && v in rows && u != v ensures Ids(rows[u]) !! Ids(rows[v]) {
      assert Ids(rows[u]) <= Ids(w.rows[u]) && Ids(rows[v]) <= Ids(w.rows[v]);
    }
    forall u, v | u in rows && v in rows && u != v && OpenOwner(rows[u]).Some? ensures OpenOwner(rows[u]) != OpenOwner(rows[v]) {
      assert OpenOwner(rows[u]) == OpenOwner(w.rows[u]);
      assert OpenOwner(rows[v]).Some? ==> OpenOwner(rows[v]) == OpenOwner(w.rows[v]);
    }
  }

  lemma QuietRemembers(w: World, t: TaskId, row: Task)
    requires Inv(w) && t in w.rows && Quiet(w.rows[t], row, w.minted)
    ensures Remembered(Commit(w, t, row)) && RowsOk(Commit(w, t, row)) && JobsOk(Commit(w, t, row))
  {
    var next := Commit(w, t, row);
    forall p | p in next.owners ensures p.0 in next.rows && p.1 in Holders(next.rows[p.0]) {
      if p in w.owners && p.0 == t { assert p.1 in Holders(w.rows[t]); }
    }
  }

  lemma QuietCommit(w: World, t: TaskId, row: Task, owed: set<Obligation>)
    requires Inv(w) && t in w.rows && Quiet(w.rows[t], row, w.minted) && OwedFollows(w, t, row, owed)
    ensures Inv(Commit(w, t, row).(owed := owed))
  {
    QuietConserves(w, t, row);
    QuietBars(w, t, row, owed);
    QuietSeparates(w, t, row);
    QuietRemembers(w, t, row);
  }

  /** An assignment mints the one attempt it opens, for a member that is free. */
  lemma AssignConserves(w: World, t: TaskId, row: Task)
    requires Inv(w) && t in w.rows && w.rows[t].attempt.None? && row.attempt.Some? && row.attempt.value.id == w.minted
    ensures Conserved(Commit(w, t, row).(minted := w.minted + 1))
    ensures Unshared(w.rows[t := row])
  {
    var next := Commit(w, t, row).(minted := w.minted + 1);
    forall a: AttemptId | a < next.minted ensures a in next.ended || OnSomeRow(next.rows, a) {
      if a == w.minted {
        assert a in Ids(next.rows[t]);
      } else if a !in next.ended {
        var u :| u in w.rows && a in Ids(w.rows[u]);
        assert a in Ids(next.rows[u]);
      }
    }
  }

  lemma AssignBars(w: World, t: TaskId, row: Task, m: MemberId)
    requires Inv(w) && t in w.rows && w.rows[t].status.Pending? && OpenOwner(row) == Some(m)
    requires !PendingStopOwner(w.rows, m) && !HasOpenAttempt(w.rows, m)
    ensures Barred(Commit(w, t, row)) && Exclusive(w.rows[t := row])
  {
    var rows := w.rows[t := row];
    forall o | o in w.owed ensures o.task in rows && Owes(rows[o.task], o) && !HasOpenAttempt(rows, o.member) {
      assert !OwesStop(w.rows[o.task], m);
      assert forall u <- rows.Keys :: u != t ==> OpenOwner(w.rows[u]) != Some(o.member);
    }
  }

  lemma AssignRemembers(w: World, t: TaskId, m: MemberId, lease: int)
    requires Inv(w) && t in w.rows && w.rows[t].status.Pending?
    ensures var row := Assigned(w.rows[t], m, w.minted, lease);
      var next := Commit(w, t, row).(minted := w.minted + 1);
      RowsOk(next) && Remembered(next) && JobsOk(next)
  {
    var row := Assigned(w.rows[t], m, w.minted, lease);
    assert Holders(w.rows[t]) <= Holders(row);
  }

  lemma AssignCommits(w: World, t: TaskId, m: MemberId, lease: int)
    requires Inv(w) && t in w.rows && w.rows[t].status.Pending?
    requires !PendingStopOwner(w.rows, m) && !HasOpenAttempt(w.rows, m)
    ensures Inv(Commit(w, t, Assigned(w.rows[t], m, w.minted, lease)).(minted := w.minted + 1))
  {
    var row := Assigned(w.rows[t], m, w.minted, lease);
    AssignConserves(w, t, row);
    AssignBars(w, t, row, m);
    AssignRemembers(w, t, m, lease);
  }

  lemma RestartConserves(w: World)
    requires Inv(w)
    ensures Conserved(RestartWorld(w))
  {
    var next := RestartWorld(w);
    forall a: AttemptId | a < next.minted ensures a in next.ended || OnSomeRow(next.rows, a) {
      if a !in next.ended {
        var u :| u in w.rows && a in Ids(w.rows[u]);
        assert a in Ids(next.rows[u]);
      }
    }
  }

  lemma RestartSeparates(w: World)
    requires Inv(w)
    ensures Unshared(RestartWorld(w).rows) && Exclusive(RestartWorld(w).rows)
  {
    var rows := RestartWorld(w).rows;
    forall t | t in rows ensures Ids(rows[t]) <= Ids(w.rows[t]) && (OpenOwner(rows[t]).Some? ==> rows[t] == w.rows[t]) {}
  }

  lemma RestartRemembers(w: World)
    requires Inv(w)
    ensures RowsOk(RestartWorld(w)) && Remembered(RestartWorld(w))
  {
    var next := RestartWorld(w);
    forall p | p in next.owners ensures p.0 in next.rows && p.1 in Holders(next.rows[p.0]) {
      assert Holders(w.rows[p.0]) <= Holders(next.rows[p.0]);
    }
  }

  lemma RestartBars(w: World)
    requires Inv(w)
    ensures Barred(RestartWorld(w))
  {
    var next := RestartWorld(w);
    forall o | o in next.owed ensures o.task in next.rows && Owes(next.rows[o.task], o) && !HasOpenAttempt(next.rows, o.member) {
      forall u | u in next.rows ensures OpenOwner(next.rows[u]) != Some(o.member) {
        assert OpenOwner(w.rows[u]) != Some(o.member);
      }
    }
  }

  lemma RestartKeepsInv(w: World)
    requires Inv(w)
    ensures Inv(RestartWorld(w))
  {
    RestartConserves(w);
    RestartSeparates(w);
    RestartRemembers(w);
    RestartBars(w);
  }

  /** A proposed row holds nothing: no attempt, no stop and no author. */
  lemma ProposeConserves(w: World, row: Task)
    requires Inv(w) && row.id !in w.rows && row.attempt.None?
    ensures Conserved(w.(rows := w.rows[row.id := row]))
  {
    var rows := w.rows[row.id := row];
    forall a: AttemptId | a < w.minted ensures a in w.ended || OnSomeRow(rows, a) {
      if a !in w.ended {
        var u :| u in w.rows && a in Ids(w.rows[u]);
        assert a in Ids(rows[u]);
      }
    }
  }

  lemma ProposeBars(w: World, row: Task)
    requires Inv(w) && row.id !in w.rows && row.attempt.None?
    ensures Barred(w.(rows := w.rows[row.id := row]))
    ensures Exclusive(w.rows[row.id := row]) && Unshared(w.rows[row.id := row])
  {
    var rows := w.rows[row.id := row];
    forall o | o in w.owed ensures o.task in rows && Owes(rows[o.task], o) && !HasOpenAttempt(rows, o.member) {
      assert forall u <- w.rows.Keys :: OpenOwner(w.rows[u]) != Some(o.member);
    }
  }

  lemma ProposeKeepsInv(w: World, row: Task)
    requires Inv(w)
    ensures Inv(Step(w, Propose(row)))
  {
    if row.id !in w.rows && row.status.Pending? && row.attempt.None? && row.stop.None? && row.priorOwners == Some({}) {
      ProposeConserves(w, row);
      ProposeBars(w, row);
    }
  }

  /** A quiet write that keeps a stop already owed by a named member. */
  ghost predicate QuietEdit(w: World, x: Option<Write>) {
    x.Some? ==> (
      var t, row := x.value.task, x.value.row;
      && t in w.rows && Quiet(w.rows[t], row, w.minted)
      && (StopPending(w.rows[t]) && w.rows[t].stop.value.member.Some? ==> StillOwes(row, w.rows[t].epoch, w.rows[t].stop.value.member)))
  }

  /** The same of a fence, which also leaves the stop of the open attempt it ended. */
  ghost predicate QuietFence(w: World, x: Option<Write>) {
    QuietEdit(w, x)
    && (x.Some? && OpenOwner(w.rows[x.value.task]).Some? ==> StillOwes(x.value.row, x.value.row.epoch, OpenOwner(w.rows[x.value.task])))
  }

  lemma AssignableIsPending(w: World, job: Job, env: Env)
    requires MayAssign(w, job, env)
    ensures w.rows[job.chosen.id].status.Pending?
  {
  }

  lemma OutcomeIsQuiet(w: World, e: Event)
    requires RowsOk(w) && (e.Finish? || e.Settle? || e.Retire?)
    ensures QuietEdit(w, TaskEdit(w, e))
  {
  }

  lemma RependIsQuiet(w: World, e: Event)
    requires RowsOk(w) && (e.Reopen? || e.StartFails?)
    ensures QuietEdit(w, TaskEdit(w, e))
  {
  }

  lemma AmendIsQuiet(w: World, e: Event)
    requires RowsOk(w) && e.Amend?
    ensures QuietEdit(w, TaskEdit(w, e))
  {
  }

  lemma TaskEditIsQuiet(w: World, e: Event)
    requires RowsOk(w)
    ensures QuietEdit(w, TaskEdit(w, e))
  {
    if e.Finish? || e.Settle? || e.Retire? {
      OutcomeIsQuiet(w, e);
    } else if e.Reopen? || e.StartFails? {
      RependIsQuiet(w, e);
    } else if e.Amend? {
      AmendIsQuiet(w, e);
    }
  }

  lemma AttemptEditIsQuiet(w: World, e: Event)
    requires RowsOk(w)
    ensures QuietEdit(w, AttemptEdit(w, e))
  {
  }

  lemma StopEditIsQuiet(w: World, e: Event)
    requires RowsOk(w)
    ensures QuietEdit(w, StopEdit(w, e))
  {
  }

  lemma EditIsQuiet(w: World, e: Event)
    requires RowsOk(w)
    ensures QuietEdit(w, EditOf(w, e))
  {
    if e.PreparationFails? {
      if MayAssign(w, e.job, e.env) { AssignableIsPending(w, e.job, e.env); }
    } else {
      TaskEditIsQuiet(w, e);
      AttemptEditIsQuiet(w, e);
      StopEditIsQuiet(w, e);
    }
  }

  /** Only a fence's own fields change besides the caller's: assignment, checkpoint and recovery credit. */
  ghost predicate SameAttempt(a: Task, b: Task) {
    a.id == b.id && a.status == b.status && a.epoch == b.epoch && a.attempt == b.attempt && a.stop == b.stop && a.priorOwners == b.priorOwners
  }

  ghost predicate FenceLeaves(before: Task, after: Task, minted: AttemptId) {
    && Quiet(before, after, minted)
    && (StopPending(before) ==> StillOwes(after, before.epoch, before.stop.value.member))
    && (OpenOwner(before).Some? ==> StillOwes(after, after.epoch, OpenOwner(before)))
  }

  lemma FencedIsQuiet(before: Task, kept: Task, status: Status, reason: StopReason, now: int, minted: AttemptId)
    requires RowOk(before, minted) && SameAttempt(before, kept) && (status.Blocked? || status.Cancelled?)
    ensures FenceLeaves(before, Fenced(kept, status, reason, now), minted)
  {
  }

  lemma ExpiryIsQuiet(row: Task, induced: bool, plannedLive: bool, now: int, minted: AttemptId)
    requires RowOk(row, minted)
    ensures FenceLeaves(row, Expired(row, induced, plannedLive, now), minted)
  {
    FencedIsQuiet(row, ExpiryKeeps(row, induced, plannedLive), Blocked, LeaseExpired, now, minted);
  }

  lemma CloseOutIsQuiet(row: Task, member: MemberId, captured: Option<nat>, now: int, minted: AttemptId)
    requires RowOk(row, minted)
    ensures FenceLeaves(row, ClosedOut(row, member, captured, now), minted)
  {
    match captured
    case None => FencedIsQuiet(row, row, Blocked, Invalidated, now, minted);
    case Some(commit) => FencedIsQuiet(row, CloseOutKeeps(row, member, commit), Blocked, WorkerCloseout, now, minted);
  }

  lemma FenceIsQuiet(w: World, e: Event)
    requires RowsOk(w)
    ensures QuietFence(w, FenceOf(w, e))
  {
    if FenceOf(w, e).Some? {
      match e
      case Fence(t, status, reason, assignee, planned, now) =>
        FencedIsQuiet(w.rows[t], w.rows[t].(assignee := assignee, planned := planned), status, reason, now, w.minted);
      case Expire(job, paused, plannedLive, now) =>
        ExpiryIsQuiet(w.rows[job.task], paused || job.parked, plannedLive, now, w.minted);
      case CloseOut(job, captured, now) =>
        CloseOutIsQuiet(w.rows[job.task], job.member, captured, now, w.minted);
    }
  }

  /** A stop job is queued at the row's own epoch, and a write never lowers an epoch. */
  lemma JobsStayBehind(w: World, e: Event, next: World)
    requires Inv(w) && Inv(next)
    requires forall t <- w.rows.Keys :: t in next.rows && w.rows[t].epoch <= next.rows[t].epoch
    ensures Inv(next.(jobs := JobsAfter(w, e)))
  {
    BegunIsBehind(w, e);
  }

  lemma BegunIsBehind(w: World, e: Event)
    requires JobsOk(w)
    ensures forall j <- Begun(w, e) | j.Stopping? :: j in BegunStop(w, e) && j.task in w.rows && j.epoch <= w.rows[j.task].epoch
  {
  }

  lemma QuietWrite(w: World, t: TaskId, row: Task, owed: set<Obligation>, e: Event)
    requires Inv(w) && t in w.rows && Quiet(w.rows[t], row, w.minted) && OwedFollows(w, t, row, owed)
    ensures Inv(Commit(w, t, row).(owed := owed, jobs := JobsAfter(w, e)))
  {
    QuietCommit(w, t, row, owed);
    JobsStayBehind(w, e, Commit(w, t, row).(owed := owed));
  }

  lemma PlainWrite(w: World, fence: Option<Write>, edit: Option<Write>, e: Event)
    requires Inv(w)
    requires QuietFence(w, fence) && QuietEdit(w, edit)
    ensures Inv(Apply(w, fence, edit).(jobs := JobsAfter(w, e)))
  {
    if fence.Some? {
      assert OwedFollows(w, fence.value.task, fence.value.row, CommitFence(w, fence.value.task, fence.value.row).owed);
      QuietWrite(w, fence.value.task, fence.value.row, CommitFence(w, fence.value.task, fence.value.row).owed, e);
    } else if edit.Some? {
      QuietWrite(w, edit.value.task, edit.value.row, w.owed, e);
    } else {
      JobsStayBehind(w, e, w);
    }
  }

  lemma AssignWrite(w: World, e: Event)
    requires Inv(w) && e.Assign?
    ensures Inv(Step(w, e))
  {
    if e.slots && MayAssign(w, e.job, e.env) {
      AssignableIsPending(w, e.job, e.env);
      AssignCommits(w, e.job.chosen.id, e.job.member, e.leaseUntil);
      JobsStayBehind(w, e, StepRow(w, e));
    } else {
      JobsStayBehind(w, e, w);
    }
  }

  lemma ReleaseWrite(w: World, e: Event)
    requires Inv(w) && e.Release?
    ensures Inv(Step(w, e))
  {
    if MayRelease(w, e.job) {
      QuietWrite(w, e.job.task, Released(w.rows[e.job.task], e.causes, e.ownerGone), Step(w, e).owed, e);
    } else {
      JobsStayBehind(w, e, w);
    }
  }

  /** Every stretch of code keeps the invariant. */
  lemma StepKeepsInv(w: World, e: Event)
    requires Inv(w)
    ensures Inv(Step(w, e))
  {
    if e.Restart? {
      RestartKeepsInv(w);
    } else if e.Propose? {
      ProposeKeepsInv(w, e.row);
    } else if e.Assign? {
      AssignWrite(w, e);
    } else if e.Release? {
      ReleaseWrite(w, e);
    } else {
      FenceIsQuiet(w, e);
      EditIsQuiet(w, e);
      PlainWrite(w, FenceOf(w, e), EditOf(w, e), e);
    }
  }
}
