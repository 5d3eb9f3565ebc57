/** What a transaction leaves behind: every row it wrote and every note it appended is in the change log, under its mission. */
module StoreCommits {
  import opened Wrappers
  import opened StoreModel
  import opened StoreSafety

  /** Row `t` is not what it was. */
  predicate Rewritten(before: Db, after: Db, t: TaskId) {
    t in after.tasks && (t !in before.tasks || before.tasks[t].version != after.tasks[t].version)
  }

  /** Some row of mission `m` was written between the two databases. */
  ghost predicate WroteFor(before: Db, after: Db, m: Scope) {
    exists t <- after.tasks.Keys :: Rewritten(before, after, t) && after.tasks[t].mission == m
  }

  /** The `k`-th statement of the body wrote a row of mission `m`. */
  ghost predicate WritesFor(x: Work, ops: seq<Op>, k: nat, m: Scope)
    requires k < |ops|
  {
    WroteFor(Body(x, ops[..k]).db, Body(x, ops[..k + 1]).db, m)
  }

  /** Some statement of the body wrote a row of mission `m`. */
  ghost predicate BodyWrites(x: Work, ops: seq<Op>, m: Scope) {
    exists k :: 0 <= k < |ops| && WritesFor(x, ops, k, m)
  }

  /** A note of mission `m` was appended since. */
  predicate NotedFor(before: Db, after: Db, m: Scope) {
    exists k | |before.events| <= k < |after.events| :: after.events[k].mission == m
  }

  predicate SomethingNew(before: Db, after: Db) {
    |after.events| > |before.events| || exists t <- after.tasks.Keys :: Rewritten(before, after, t)
  }

  /** The mission of every row that differs is in the scopes. */
  ghost predicate RowsCovered(before: Db, after: Db, scopes: set<Scope>) {
    forall t | Rewritten(before, after, t) :: after.tasks[t].mission in scopes
  }

  /* ---- single statements ---- */

  /** An accepted write puts the caller's body and mission in its row, one revision up, and no other row changes. */
  lemma PutLands(s: State, x: Work, h: Handle, catches: bool)
    requires WorkOk(s, x) && !x.aborted && h in x.copies && !Stale(x.db, x.copies[h])
    ensures var c, y := x.copies[h], Do(x, Put(h, catches));
      && c.task in y.db.tasks && y.db.tasks == x.db.tasks[c.task := y.db.tasks[c.task]] && Rewritten(x.db, y.db, c.task)
      && y.db.tasks[c.task].mission == c.mission && y.db.tasks[c.task].body == c.body
      && y.db.tasks[c.task].revision == Some(1 + if c.task in x.db.tasks then x.db.tasks[c.task].revision.GetOr(0) else 0)
      && h in y.copies && y.copies[h].revision == y.db.tasks[c.task].revision
      && y.db.events == x.db.events && !y.aborted
  {
    var c := x.copies[h];
    assert RowOk(x.db, c.task, x.minted, s.dead);
    var hist := HistoryOf(x.db, c.task);
    if c.task in x.db.tasks { assert hist[|hist| - 1] in hist; }
  }

  /** A write is accepted exactly when its row is not there yet or still stands at the revision the caller's object presents. */
  lemma PutIsAcceptedIff(s: State, x: Work, h: Handle, catches: bool)
    requires WorkOk(s, x) && !x.aborted && h in x.copies
    ensures var c, y := x.copies[h], Do(x, Put(h, catches));
      Rewritten(x.db, y.db, c.task) <==>
        (c.task in x.db.tasks ==> x.db.tasks[c.task].revision.GetOr(0) == c.revision.GetOr(0))
  {
    if !Stale(x.db, x.copies[h]) { PutLands(s, x, h, catches); }
  }

  /** A stale write owes one refusal, with both revisions, and aborts the body unless its caller catches it. */
  lemma StalePutAborts(x: Work, h: Handle, catches: bool)
    requires !x.aborted && h in x.copies && Stale(x.db, x.copies[h])
    ensures var c, y := x.copies[h], Do(x, Put(h, catches));
      && y.db == x.db && y.scopes == x.scopes && y.copies == x.copies && (y.aborted <==> !catches)
      && |y.pending| == |x.pending| + 1 && x.pending <= y.pending
      && var owed := y.pending[|x.pending|];
         && owed.Refusal? && owed.mission == c.mission && owed.task == c.task && c.task in x.db.tasks
         && owed.expected == c.revision.GetOr(0) && owed.current == x.db.tasks[c.task].revision.GetOr(0)
  {
  }

  /** A new object presents the revision it was given, an edited one the revision it had. */
  lemma ObjectsLand(x: Work, into: Handle, t: TaskId, mission: Scope, revision: Option<nat>, body: nat, h: Handle)
    requires !x.aborted && h in x.copies
    ensures var y := Do(x, Create(into, t, mission, revision, body));
      y == x.(copies := y.copies) && y.copies == x.copies[into := Copy(t, mission, revision, body, None)]
    ensures var y := Do(x, Edit(h, body));
      y == x.(copies := y.copies) && y.copies == x.copies[h := Copy(x.copies[h].task, x.copies[h].mission, x.copies[h].revision, body, x.copies[h].base)]
  {
  }

  /** A caller reads the row as it is, and gets an object it may write back. */
  lemma ReadLands(x: Work, into: Handle, t: TaskId)
    requires !x.aborted && t in x.db.tasks
    ensures var y := Do(x, Read(into, t));
      && y.db == x.db && into in y.copies && y.copies[into].task == t && !Stale(y.db, y.copies[into])
      && y.copies[into].body == x.db.tasks[t].body && y.copies[into].mission == x.db.tasks[t].mission
  {
  }

  lemma AppendLands(x: Work, mission: Scope, kind: nat)
    requires !x.aborted
    ensures var y := Do(x, Append(mission, kind));
      y.db.tasks == x.db.tasks && y.db.events == x.db.events + [Other(mission, kind)] && NotedFor(x.db, y.db, mission)
  {
    assert Do(x, Append(mission, kind)).db.events[|x.db.events|].mission == mission;
  }

  /* ---- the scopes of a body ---- */

  /** The scopes are the missions of what was written and noted. */
  ghost predicate Scoped(x: Work, ops: seq<Op>, y: Work) {
    forall m :: m in y.scopes <==> NotedFor(x.db, y.db, m) || BodyWrites(x, ops, m)
  }

  lemma WritesForOn(x: Work, ops: seq<Op>, op: Op, k: nat, m: Scope)
    requires k < |ops|
    ensures WritesFor(x, ops + [op], k, m) <==> WritesFor(x, ops, k, m)
  {
    assert (ops + [op])[..k] == ops[..k] && (ops + [op])[..k + 1] == ops[..k + 1];
  }

  /** What one statement adds to the scopes, the notes and the rows. */
  lemma StatementScopes(s: State, x: Work, op: Op)
    requires WorkOk(s, x)
    ensures var y := Do(x, op);
      && x.db.events <= y.db.events && x.db.tasks.Keys <= y.db.tasks.Keys
      && forall m :: m in y.scopes <==> m in x.scopes || WroteFor(x.db, y.db, m) || NotedFor(x.db, y.db, m)
  {
    var y := Do(x, op);
    if !x.aborted && op.Put? && op.handle in x.copies && !Stale(x.db, x.copies[op.handle]) {
      PutLands(s, x, op.handle, op.catches);
    } else if !x.aborted && op.Append? {
      AppendLands(x, op.mission, op.kind);
    }
  }

  lemma NotesAdd(a: Db, b: Db, c: Db, m: Scope)
    requires a.events <= b.events <= c.events
    ensures NotedFor(a, c, m) <==> NotedFor(a, b, m) || NotedFor(b, c, m)
  {
  }

  lemma {:induction false} BodyScopes(s: State, x: Work, ops: seq<Op>)
    requires WorkOk(s, x) && x.scopes == {}
    ensures x.db.events <= Body(x, ops).db.events && Scoped(x, ops, Body(x, ops))
    decreases |ops|
  {
    if ops != [] {
      var before, op := ops[..|ops| - 1], ops[|ops| - 1];
      BodyScopes(s, x, before);
      BodyKeepsWork(s, x, before);
      StatementScopes(s, Body(x, before), op);
      assert before + [op] == ops;
      forall m ensures m in Do(Body(x, before), op).scopes <==> NotedFor(x.db, Body(x, ops).db, m) || BodyWrites(x, ops, m) {
        assert m in Body(x, before).scopes <==> NotedFor(x.db, Body(x, before).db, m) || BodyWrites(x, before, m);
        OneMoreStatement(x, before, op, m);
      }
    }
  }

  lemma OneMoreStatement(x: Work, before: seq<Op>, op: Op, m: Scope)
    requires var y := Body(x, before); x.db.events <= y.db.events <= Do(y, op).db.events
    ensures var y, ops := Body(x, before), before + [op];
      && (NotedFor(x.db, Body(x, ops).db, m) <==> NotedFor(x.db, y.db, m) || NotedFor(y.db, Do(y, op).db, m))
      && (BodyWrites(x, ops, m) <==>
            BodyWrites(x, before, m) || WroteFor(y.db, Do(y, op).db, m))
  {
    NotesAdd(x.db, Body(x, before).db, Do(Body(x, before), op).db, m);
    BodyGrows(x, before, op);
    LastWrites(x, before, op, m);
    WritesSplit(x, before, op, m);
  }

  lemma BodyGrows(x: Work, before: seq<Op>, op: Op)
    ensures Body(x, before + [op]) == Do(Body(x, before), op)
  {
    assert (before + [op])[..|before|] == before;
  }

  lemma LastWrites(x: Work, before: seq<Op>, op: Op, m: Scope)
    ensures WritesFor(x, before + [op], |before|, m) <==> WroteFor(Body(x, before).db, Do(Body(x, before), op).db, m)
  {
    var ops := before + [op];
    assert ops[..|before|] == before && ops[..|before| + 1] == ops;
    BodyGrows(x, before, op);
  }

  lemma WritesSplit(x: Work, before: seq<Op>, op: Op, m: Scope)
    ensures BodyWrites(x, before + [op], m) <==> BodyWrites(x, before, m) || WritesFor(x, before + [op], |before|, m)
  {
    var ops := before + [op];
    if BodyWrites(x, ops, m) {
      var k :| 0 <= k < |ops| && WritesFor(x, ops, k, m);
      if k < |before| { WritesForOn(x, before, op, k, m); }
    }
    if BodyWrites(x, before, m) {
      var k :| 0 <= k < |before| && WritesFor(x, before, k, m);
      WritesForOn(x, before, op, k, m);
    }
  }

  /** A row the statement leaves alone keeps its mission. */
  lemma RewrittenNow(s: State, x: Work, op: Op, start: Db, t: TaskId)
    requires WorkOk(s, x) && Rewritten(start, Do(x, op).db, t)
    requires Rewritten(start, x.db, t) ==> x.db.tasks[t].mission in x.scopes
    ensures Do(x, op).db.tasks[t].mission in Do(x, op).scopes
  {
  }

  /** A row that differs after the body has a mission in its scopes. */
  lemma {:induction false} RewrittenIsScoped(s: State, ops: seq<Op>)
    requires Inv(s)
    ensures RowsCovered(s.db, Body(Opened(s), ops).db, Body(Opened(s), ops).scopes)
    decreases |ops|
  {
    if ops != [] {
      var before, op := ops[..|ops| - 1], ops[|ops| - 1];
      RewrittenIsScoped(s, before);
      BodyKeepsWork(s, Opened(s), before);
      var x := Body(Opened(s), before);
      forall t | Rewritten(s.db, Do(x, op).db, t) ensures Do(x, op).db.tasks[t].mission in Do(x, op).scopes {
        RewrittenNow(s, x, op, s.db, t);
      }
    }
  }

  /** Whatever a statement wrote is still new at the end: versions are never reused. */
  lemma {:induction false} WrittenStaysNew(s: State, ops: seq<Op>, k: nat, m: Scope)
    requires Inv(s) && k < |ops| && WritesFor(Opened(s), ops, k, m)
    ensures exists t :: Rewritten(s.db, Body(Opened(s), ops).db, t)
    decreases |ops|
  {
    var before, op := ops[..|ops| - 1], ops[|ops| - 1];
    BodyKeepsWork(s, Opened(s), before);
    BodyKeepsWork(s, Opened(s), ops);
    var x, y := Body(Opened(s), before), Body(Opened(s), ops);
    if k < |before| {
      WritesForOn(Opened(s), before, op, k, m);
      assert before + [op] == ops;
      WrittenStaysNew(s, before, k, m);
      var t :| Rewritten(s.db, x.db, t);
      StaysNew(s, x, op, t);
      assert Rewritten(s.db, y.db, t);
    } else {
      assert ops[..k] == before && ops[..k + 1] == ops;
      var t :| t in y.db.tasks && Rewritten(x.db, y.db, t);
      WrittenIsNew(s, x, op, t);
      assert Rewritten(s.db, y.db, t);
    }
  }

  lemma WrittenIsNew(s: State, x: Work, op: Op, t: TaskId)
    requires Inv(s) && WorkOk(s, x) && Rewritten(x.db, Do(x, op).db, t)
    ensures Rewritten(s.db, Do(x, op).db, t)
  {
    assert RowOk(s.db, t, s.minted, s.dead);
    var hist := HistoryOf(s.db, t);
    if t in s.db.tasks { assert hist[|hist| - 1] in hist; }
  }

  lemma StaysNew(s: State, x: Work, op: Op, t: TaskId)
    requires Inv(s) && WorkOk(s, x) && Rewritten(s.db, x.db, t)
    ensures Rewritten(s.db, Do(x, op).db, t)
  {
    if Rewritten(x.db, Do(x, op).db, t) { WrittenIsNew(s, x, op, t); }
  }

  /* ---- the commit ---- */

  /** The last change of the log is this commit's. */
  ghost predicate Logged(s: State, next: State, scopes: set<Scope>) {
    next.db.revision == s.db.revision + 1 && next.log == s.log + [Change(s.db.revision + 1, scopes)]
  }

  ghost predicate WritesAndNotes(s: State, ops: seq<Op>, after: Db, scopes: set<Scope>) {
    forall m :: m in scopes <==> NotedFor(s.db, after, m) || BodyWrites(Opened(s), ops, m)
  }

  ghost predicate OnlyNotes(before: Db, after: Db, scopes: set<Scope>) {
    forall m :: m in scopes <==> NotedFor(before, after, m)
  }

  /** The commit's one change has the scopes of what the body wrote and what it left noted, and nothing else. */
  ghost predicate LogsExactly(s: State, ops: seq<Op>, next: State, scopes: set<Scope>) {
    Logged(s, next, scopes) && WritesAndNotes(s, ops, next.db, scopes) && RowsCovered(s.db, next.db, scopes)
  }

  lemma {:induction false} MissionsAreTheNotes(notes: seq<Note>, m: Scope)
    ensures m in Missions(notes) <==> exists k :: 0 <= k < |notes| && notes[k].mission == m
  {
    if notes != [] {
      MissionsAreTheNotes(notes[..|notes| - 1], m);
    }
  }

  lemma SealedNotes(before: Db, db: Db, pending: seq<Note>, m: Scope)
    requires before.events <= db.events
    ensures var after := db.(events := db.events + pending); NotedFor(before, after, m) <==> NotedFor(before, db, m) || m in Missions(pending)
  {
    var after := db.(events := db.events + pending);
    MissionsAreTheNotes(pending, m);
    if k :| 0 <= k < |pending| && pending[k].mission == m {
      assert after.events[|db.events| + k].mission == m;
    }
    if NotedFor(before, after, m) {
      var k :| |before.events| <= k < |after.events| && after.events[k].mission == m;
      if k >= |db.events| { assert pending[k - |db.events|].mission == m; }
    }
    if NotedFor(before, db, m) {
      var k :| |before.events| <= k < |db.events| && db.events[k].mission == m;
      assert after.events[k].mission == m;
    }
  }

  /**
   * A committed transaction advances the revision, by one, exactly when it
   * wrote a row or appended a note. The change it logs then has in its scopes
   * the mission of every statement's write and of every note, refusals
   * included, and nothing else; the mission of each row that differs is one.
   */
  lemma CommitIsLogged(s: State, ops: seq<Op>, records: bool)
    requires Inv(s) && !Body(Opened(s), ops).aborted
    ensures var next := AfterTransaction(s, ops, true, records);
      && (!SomethingNew(s.db, next.db) ==> next.db.revision == s.db.revision && next.log == s.log)
      && (SomethingNew(s.db, next.db) ==> exists scopes :: LogsExactly(s, ops, next, scopes))
  {
    var x, next := Body(Opened(s), ops), AfterTransaction(s, ops, true, records);
    BodyKeepsRevision(Opened(s), ops);
    CommitScopes(s, ops);
    SealedIsLogged(s, x, records);
    LogsWhatIsNew(s, ops, next, x.scopes + Missions(x.pending));
  }

  lemma LogsWhatIsNew(s: State, ops: seq<Op>, next: State, scopes: set<Scope>)
    requires Inv(s) && WritesAndNotes(s, ops, next.db, scopes) && RowsCovered(s.db, next.db, scopes)
    requires next.db.tasks == Body(Opened(s), ops).db.tasks && (scopes != {} ==> Logged(s, next, scopes))
    ensures scopes == {} ==> !SomethingNew(s.db, next.db)
    ensures scopes != {} ==> SomethingNew(s.db, next.db) && LogsExactly(s, ops, next, scopes)
  {
    if scopes == {} {
      NothingScopedIsNothingNew(s, next, scopes);
    } else {
      SomethingScopedIsSomethingNew(s, ops, next.db, scopes);
    }
  }

  /** The scopes of a commit cover its statements, its notes and the rows that differ. */
  lemma CommitScopes(s: State, ops: seq<Op>)
    requires Inv(s)
    ensures var x := Body(Opened(s), ops);
      var scopes := x.scopes + Missions(x.pending);
      forall after: Db | after.tasks == x.db.tasks && after.events == x.db.events + x.pending ::
        WritesAndNotes(s, ops, after, scopes) && RowsCovered(s.db, after, scopes)
  {
    var x := Body(Opened(s), ops);
    var scopes := x.scopes + Missions(x.pending);
    BodyScopes(s, Opened(s), ops);
    RewrittenIsScoped(s, ops);
    forall after: Db | after.tasks == x.db.tasks && after.events == x.db.events + x.pending
      ensures WritesAndNotes(s, ops, after, scopes) && RowsCovered(s.db, after, scopes)
    {
      forall m ensures m in scopes <==> NotedFor(s.db, after, m) || BodyWrites(Opened(s), ops, m) {
        SealedNotes(s.db, x.db, x.pending, m);
        assert NotedFor(s.db, after, m) <==> NotedFor(s.db, x.db.(events := x.db.events + x.pending), m);
      }
      forall t | Rewritten(s.db, after, t) ensures after.tasks[t].mission in scopes {
        assert Rewritten(s.db, x.db, t);
      }
    }
  }

  /** What the commit leaves: the rows and notes of the body, and one change unless there are no scopes. */
  lemma SealedIsLogged(s: State, x: Work, records: bool)
    requires !x.aborted && x.db.revision == s.db.revision
    ensures var next, scopes := AfterBody(s, x, true, records), x.scopes + Missions(x.pending);
      && next.db.tasks == x.db.tasks && next.db.events == x.db.events + x.pending
      && (scopes == {} ==> next.db.revision == s.db.revision && next.log == s.log)
      && (scopes != {} ==> Logged(s, next, scopes))
  {
    assert s.log + [] == s.log;
  }

  lemma SomethingScopedIsSomethingNew(s: State, ops: seq<Op>, after: Db, scopes: set<Scope>)
    requires Inv(s) && WritesAndNotes(s, ops, after, scopes) && scopes != {} && after.tasks == Body(Opened(s), ops).db.tasks
    ensures SomethingNew(s.db, after)
  {
    var m :| m in scopes;
    if !NotedFor(s.db, after, m) {
      var k :| 0 <= k < |ops| && WritesFor(Opened(s), ops, k, m);
      WrittenStaysNew(s, ops, k, m);
      var t :| Rewritten(s.db, Body(Opened(s), ops).db, t);
      assert Rewritten(s.db, after, t);
    }
  }

  lemma NothingScopedIsNothingNew(s: State, next: State, scopes: set<Scope>)
    requires scopes == {} && (forall m :: NotedFor(s.db, next.db, m) ==> m in scopes)
    requires RowsCovered(s.db, next.db, scopes)
    ensures !SomethingNew(s.db, next.db)
  {
    if |next.db.events| > |s.db.events| {
      assert NotedFor(s.db, next.db, next.db.events[|s.db.events|].mission);
    }
  }

  /** A rolled-back transaction is in the log only by the refusals recorded after it, under their missions. */
  lemma RollbackIsLogged(s: State, ops: seq<Op>, commits: bool, records: bool)
    requires Inv(s) && (!commits || Body(Opened(s), ops).aborted)
    ensures var next := AfterTransaction(s, ops, commits, records);
      && (forall t :: !Rewritten(s.db, next.db, t))
      && (|next.db.events| == |s.db.events| ==> next.db.revision == s.db.revision && next.log == s.log)
      && (|next.db.events| > |s.db.events| ==>
            exists scopes :: Logged(s, next, scopes) && OnlyNotes(s.db, next.db, scopes))
  {
    var x, next := Body(Opened(s), ops), AfterTransaction(s, ops, commits, records);
    assert s.log + [] == s.log && {} + Missions(x.pending) == Missions(x.pending);
    forall m ensures records ==> (m in Missions(x.pending) <==> NotedFor(s.db, next.db, m)) {
      SealedNotes(s.db, s.db, x.pending, m);
    }
    if records && x.pending != [] {
      MissionsAreTheNotes(x.pending, x.pending[0].mission);
      assert Logged(s, next, Missions(x.pending));
    }
  }

  /** What the transaction left that mission `m` may see: a row of it, or a note. */
  ghost predicate Shows(before: Db, after: Db, m: Scope) {
    NotedFor(before, after, m) || WroteFor(before, after, m)
  }

  /** Every row written and every note left by a transaction is in the one change it logs. */
  lemma ShownIsLogged(s: State, ops: seq<Op>, commits: bool, records: bool, m: Scope)
    requires Inv(s) && Shows(s.db, AfterTransaction(s, ops, commits, records).db, m)
    ensures var next := AfterTransaction(s, ops, commits, records);
      next.db.revision == s.db.revision + 1 && |next.log| == |s.log| + 1 && next.log[|s.log|].revision == next.db.revision
      && m in next.log[|s.log|].scopes
  {
    var next := AfterTransaction(s, ops, commits, records);
    if commits && !Body(Opened(s), ops).aborted {
      CommitIsLogged(s, ops, records);
      assert SomethingNew(s.db, next.db);
      var scopes :| LogsExactly(s, ops, next, scopes);
    } else {
      RollbackIsLogged(s, ops, commits, records);
      var scopes :| Logged(s, next, scopes) && OnlyNotes(s.db, next.db, scopes);
    }
  }
}
