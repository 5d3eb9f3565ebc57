/**
 * The durable store's rules over values: compare-and-swap task rows, the
 * bounded change log and what a transaction leaves behind.
 *
 * Every accepted write gets a version number. `history`, `base` and `dead`
 * record which version each write was derived from and which versions a
 * rollback erased; no rule reads them.
 */
module StoreModel {
  import opened Wrappers

  type TaskId = nat
  type Scope = nat
  type Handle = nat

  const CHANGE_HISTORY := 1024

  datatype Row = Row(mission: Scope, revision: Option<nat>, body: nat, version: nat)

  /** A detached record a caller holds: what it read, and from which version. */
  datatype Copy = Copy(task: TaskId, mission: Scope, revision: Option<nat>, body: nat, base: Option<nat>)

  datatype Note = Other(mission: Scope, kind: nat) | Refusal(mission: Scope, task: TaskId, expected: nat, current: nat)

  datatype Change = Change(revision: nat, scopes: set<Scope>)

  datatype Stamp = Stamp(version: nat, revision: nat, base: Option<nat>)

  datatype Db = Db(
    tasks: map<TaskId, Row>, events: seq<Note>, revision: nat, changes: seq<Change>, history: map<TaskId, seq<Stamp>>)

  datatype Op =
    | Read(into: Handle, task: TaskId)
    | Create(into: Handle, task: TaskId, mission: Scope, revision: Option<nat>, body: nat)
    | Edit(handle: Handle, body: nat)
    | Put(handle: Handle, catches: bool)
    | Append(mission: Scope, kind: nat)
    | Throw

  /** An open transaction: its rows so far, the scopes it changed and the refusals it owes. */
  datatype Work = Work(
    db: Db, scopes: set<Scope>, pending: seq<Note>, copies: map<Handle, Copy>, minted: nat, aborted: bool)

  datatype State = State(db: Db, copies: map<Handle, Copy>, minted: nat, dead: set<nat>, log: seq<Change>)

  function RevisionOf(row: Row): nat {
    row.revision.GetOr(0)
  }

  /** Another writer has moved the row past the revision this copy presents. */
  predicate Stale(db: Db, c: Copy) {
    c.task in db.tasks && c.revision.GetOr(0) != RevisionOf(db.tasks[c.task])
  }

  function Refused(db: Db, c: Copy): Note
    requires c.task in db.tasks
  {
    Refusal(c.mission, c.task, c.revision.GetOr(0), RevisionOf(db.tasks[c.task]))
  }

  function NextRevision(db: Db, t: TaskId): nat {
    if t in db.tasks then RevisionOf(db.tasks[t]) + 1 else 1
  }

  function HistoryOf(db: Db, t: TaskId): seq<Stamp> {
    if t in db.history then db.history[t] else []
  }

  /** An accepted write: the next revision, as version `version`. */
  function Accepted(db: Db, c: Copy, version: nat): Db {
    var next := NextRevision(db, c.task);
    db.(tasks := db.tasks[c.task := Row(c.mission, Some(next), c.body, version)],
        history := db.history[c.task := HistoryOf(db, c.task) + [Stamp(version, next, c.base)]])
  }

  /** The caller's object is stamped with the revision it wrote. */
  function Stamped(db: Db, c: Copy, version: nat): Copy {
    c.(revision := Some(NextRevision(db, c.task)), base := Some(version))
  }

  function ReadCopy(db: Db, t: TaskId): Copy
    requires t in db.tasks
  {
    var row := db.tasks[t];
    Copy(t, row.mission, row.revision, row.body, Some(row.version))
  }

  /** One statement of a transaction's body. Nothing runs after an uncaught refusal or a throw. */
  function Do(x: Work, op: Op): Work {
    if x.aborted then x
    else match op
      case Read(into, t) => if t in x.db.tasks then x.(copies := x.copies[into := ReadCopy(x.db, t)]) else x
      case Create(into, t, mission, revision, body) => x.(copies := x.copies[into := Copy(t, mission, revision, body, None)])
      case Edit(h, body) => if h in x.copies then x.(copies := x.copies[h := x.copies[h].(body := body)]) else x
      case Put(h, catches) => if h in x.copies then PutCopy(x, h, catches) else x
      case Append(mission, kind) =>
        x.(db := x.db.(events := x.db.events + [Other(mission, kind)]), scopes := x.scopes + {mission})
      case Throw => x.(aborted := true)
  }

  function PutCopy(x: Work, h: Handle, catches: bool): Work
    requires h in x.copies
  {
    var c := x.copies[h];
    if Stale(x.db, c) then x.(pending := x.pending + [Refused(x.db, c)], aborted := !catches)
    else x.(db := Accepted(x.db, c, x.minted), scopes := x.scopes + {c.mission},
            copies := x.copies[h := Stamped(x.db, c, x.minted)], minted := x.minted + 1)
  }

  function Body(x: Work, ops: seq<Op>): Work
    decreases |ops|
  {
    if ops == [] then x else Do(Body(x, ops[..|ops| - 1]), ops[|ops| - 1])
  }

  function Opened(s: State): Work {
    Work(s.db, {}, [], s.copies, s.minted, false)
  }

  /** The changes after `after`, in order. */
  function Newer(changes: seq<Change>, after: int): seq<Change> {
    if changes == [] then [] else
      Newer(changes[..|changes| - 1], after) + (if changes[|changes| - 1].revision > after then [changes[|changes| - 1]] else [])
  }

  function Missions(notes: seq<Note>): set<Scope> {
    if notes == [] then {} else Missions(notes[..|notes| - 1]) + {notes[|notes| - 1].mission}
  }

  /** What a commit adds to the log: nothing when nothing changed. */
  function Sealing(revision: nat, scopes: set<Scope>): seq<Change> {
    if scopes == {} then [] else [Change(revision + 1, scopes)]
  }

  /** The database a commit leaves: the owed refusals recorded, the revision advanced, the log pruned. */
  function Sealed(db: Db, scopes: set<Scope>, pending: seq<Note>): Db {
    var all := scopes + Missions(pending);
    var noted := db.(events := db.events + pending);
    if all == {} then noted
    else noted.(revision := db.revision + 1,
                changes := Newer(db.changes + [Change(db.revision + 1, all)], db.revision + 1 - CHANGE_HISTORY))
  }

  function Versions(from: nat, to: nat): set<nat> {
    if to <= from then {} else Versions(from, to - 1) + {to - 1}
  }

  /** `commits` says whether COMMIT is accepted, `records` whether the refusals' own transaction is. */
  function AfterTransaction(s: State, ops: seq<Op>, commits: bool, records: bool): State {
    AfterBody(s, Body(Opened(s), ops), commits, records)
  }

  function AfterBody(s: State, x: Work, commits: bool, records: bool): State {
    if !x.aborted && commits then
      State(Sealed(x.db, x.scopes, x.pending), x.copies, x.minted, s.dead,
            s.log + Sealing(x.db.revision, x.scopes + Missions(x.pending)))
    else
      var erased := s.dead + Versions(s.minted, x.minted);
      if records then
        State(Sealed(s.db, {}, x.pending), x.copies, x.minted, erased, s.log + Sealing(s.db.revision, Missions(x.pending)))
      else State(s.db, x.copies, x.minted, erased, s.log)
  }

  /** A statement outside any transaction commits by itself and advances no cursor; its refusal is committed now. */
  function Outside(s: State, op: Op, records: bool): State {
    var x := Do(Opened(s), op);
    if x.pending != [] && records then
      State(Sealed(s.db, {}, x.pending), s.copies, s.minted, s.dead, s.log + Sealing(s.db.revision, Missions(x.pending)))
    else State(x.db, x.copies, x.minted, s.dead, s.log)
  }

  datatype Event =
    | Transaction(ops: seq<Op>, commits: bool, records: bool)
    | Alone(op: Op, records: bool)

  function Step(s: State, e: Event): State {
    match e
    case Transaction(ops, commits, records) => AfterTransaction(s, ops, commits, records)
    case Alone(op, records) => Outside(s, op, records)
  }

  function Run(s: State, events: seq<Event>): State
    decreases |events|
  {
    if events == [] then s else Step(Run(s, events[..|events| - 1]), events[|events| - 1])
  }

  /** The commits since `after`, or nothing when the log does not reach back to it, or it is no revision yet. */
  function ChangesSince(db: Db, after: int): Option<seq<Change>> {
    if after < 0 || after > db.revision then None
    else if after == db.revision then Some([])
    else
      var first := if db.changes == [] then db.revision + 1 else db.changes[0].revision;
      if after < first - 1 then None else Some(Newer(db.changes, after))
  }

  /* ---- the invariant ---- */

  /** A version of the task's history, at the revision it wrote. */
  predicate InHistory(db: Db, t: TaskId, version: nat, revision: nat) {
    exists s <- HistoryOf(db, t) :: s.version == version && s.revision == revision
  }

  /** Each write of a task stands one revision above the write before it, and derives from it. */
  ghost predicate Consecutive(history: seq<Stamp>) {
    forall i, j | 0 <= i < j < |history| && j == i + 1 :: history[j].revision == history[i].revision + 1
  }

  ghost predicate RowOk(db: Db, t: TaskId, minted: nat, dead: set<nat>) {
    var h := HistoryOf(db, t);
    && Consecutive(h)
    && (t in db.tasks ==> h != [] && h[|h| - 1].version == db.tasks[t].version && h[|h| - 1].revision == RevisionOf(db.tasks[t]))
    && (t !in db.tasks ==> h == [])
    && (forall s <- h :: s.version < minted && s.version !in dead)
  }

  /** A copy that is not from an erased write holds the revision of the version it was read from. */
  ghost predicate CopyOk(db: Db, c: Copy, minted: nat, dead: set<nat>) {
    c.base.Some? ==> c.base.value < minted && (c.base.value in dead || InHistory(db, c.task, c.base.value, c.revision.GetOr(0)))
  }

  ghost predicate VersionsOk(db: Db, copies: map<Handle, Copy>, minted: nat, dead: set<nat>) {
    && (forall t: TaskId :: RowOk(db, t, minted, dead))
    && (forall h <- copies.Keys :: CopyOk(db, copies[h], minted, dead))
    && (forall v <- dead :: v < minted)
  }

  /** Revisions one apart, ending at `end`. */
  ghost predicate Contiguous(changes: seq<Change>, end: int) {
    forall i | 0 <= i < |changes| :: changes[i].revision == end - |changes| + 1 + i
  }

  /** The log's revisions are the last ones, and the database keeps its newest entries. */
  ghost predicate LogHolds(revision: nat, changes: seq<Change>, log: seq<Change>) {
    |log| <= revision && Contiguous(log, revision) && changes == log[|log| - Retained(log)..]
  }

  ghost predicate LogOk(db: Db, log: seq<Change>) {
    LogHolds(db.revision, db.changes, log)
  }

  function Retained(log: seq<Change>): nat {
    if |log| < CHANGE_HISTORY then |log| else CHANGE_HISTORY
  }

  ghost predicate Inv(s: State) {
    VersionsOk(s.db, s.copies, s.minted, s.dead) && LogOk(s.db, s.log)
  }
}
