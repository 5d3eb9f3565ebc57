/** What every run of the store guarantees: the write chain, the refusal records and the change cursor. */
module StoreSafety {
  import opened Wrappers
  import opened StoreModel

  /* ---- the versions of each task ---- */

  lemma HistoryGrows(db: Db, c: Copy, version: nat, t: TaskId, v: nat, revision: nat)
    requires InHistory(db, t, v, revision)
    ensures InHistory(Accepted(db, c, version), t, v, revision)
  {
    var s :| s in HistoryOf(db, t) && s.version == v && s.revision == revision;
    assert s in HistoryOf(Accepted(db, c, version), t);
  }

  lemma AcceptedRowIsOk(db: Db, c: Copy, minted: nat, dead: set<nat>, t: TaskId)
    requires RowOk(db, t, minted, dead) && RowOk(db, c.task, minted, dead) && forall v <- dead :: v < minted
    ensures RowOk(Accepted(db, c, minted), t, minted + 1, dead)
  {
    var h := HistoryOf(Accepted(db, c, minted), t);
    assert t != c.task ==> h == HistoryOf(db, t);
  }

  lemma AcceptKeepsVersions(db: Db, copies: map<Handle, Copy>, h: Handle, minted: nat, dead: set<nat>)
    requires VersionsOk(db, copies, minted, dead) && h in copies
    ensures VersionsOk(Accepted(db, copies[h], minted), copies[h := Stamped(db, copies[h], minted)], minted + 1, dead)
  {
    var c := copies[h];
    var next, later, more := Accepted(db, c, minted), copies[h := Stamped(db, c, minted)], minted + 1;
    forall t: TaskId ensures RowOk(next, t, more, dead) {
      assert RowOk(db, t, minted, dead) && RowOk(db, c.task, minted, dead);
      AcceptedRowIsOk(db, c, minted, dead, t);
    }
    forall k | k in later ensures CopyOk(next, later[k], more, dead) {
      if k == h {
        var stamp := Stamp(minted, NextRevision(db, c.task), c.base);
        assert stamp in HistoryOf(next, c.task);
      } else if copies[k].base.Some? && copies[k].base.value !in dead {
        assert CopyOk(db, copies[k], minted, dead);
        HistoryGrows(db, c, minted, copies[k].task, copies[k].base.value, copies[k].revision.GetOr(0));
      }
    }
  }

  /** A copy just read holds its row's revision at its row's version. */
  lemma ReadIsOk(db: Db, t: TaskId, minted: nat, dead: set<nat>)
    requires t in db.tasks && RowOk(db, t, minted, dead)
    ensures CopyOk(db, ReadCopy(db, t), minted, dead)
  {
    var h := HistoryOf(db, t);
    assert h[|h| - 1] in h;
  }

  /** Everything in the task's history was there at the transaction's start, or was written by it. */
  ghost predicate WrittenSince(start: Db, db: Db, from: nat) {
    forall t: TaskId, s: Stamp :: s in HistoryOf(db, t) ==> s in HistoryOf(start, t) || s.version >= from
  }

  ghost predicate WorkOk(s: State, x: Work) {
    && VersionsOk(x.db, x.copies, x.minted, s.dead) && s.minted <= x.minted
    && WrittenSince(s.db, x.db, s.minted)
    && x.db.revision == s.db.revision && x.db.changes == s.db.changes
  }

  lemma PutKeepsWork(s: State, x: Work, h: Handle, catches: bool)
    requires WorkOk(s, x) && h in x.copies
    ensures WorkOk(s, PutCopy(x, h, catches))
  {
    AcceptKeepsVersions(x.db, x.copies, h, x.minted, s.dead);
  }

  lemma ReadKeepsWork(s: State, x: Work, into: Handle, t: TaskId)
    requires WorkOk(s, x) && t in x.db.tasks
    ensures WorkOk(s, x.(copies := x.copies[into := ReadCopy(x.db, t)]))
  {
    assert RowOk(x.db, t, x.minted, s.dead);
    ReadIsOk(x.db, t, x.minted, s.dead);
  }

  lemma DoKeepsWork(s: State, x: Work, op: Op)
    requires WorkOk(s, x)
    ensures WorkOk(s, Do(x, op))
  {
    if !x.aborted {
      if op.Put? && op.handle in x.copies {
        PutKeepsWork(s, x, op.handle, op.catches);
      } else if op.Read? && op.task in x.db.tasks {
        ReadKeepsWork(s, x, op.into, op.task);
      } else if op.Append? {
        AppendKeepsVersions(x.db, op.mission, op.kind, x.copies, x.minted, s.dead);
      } else if op.Edit? && op.handle in x.copies {
        assert CopyOk(x.db, x.copies[op.handle], x.minted, s.dead);
      }
    }
  }

  lemma AppendKeepsVersions(db: Db, mission: Scope, kind: nat, copies: map<Handle, Copy>, minted: nat, dead: set<nat>)
    requires VersionsOk(db, copies, minted, dead)
    ensures VersionsOk(db.(events := db.events + [Other(mission, kind)]), copies, minted, dead)
  {
    SameRowsKeepVersions(db, db.(events := db.events + [Other(mission, kind)]), copies, minted, dead);
  }

  /** The invariant on versions reads only the rows and their history. */
  lemma SameRowsKeepVersions(db: Db, other: Db, copies: map<Handle, Copy>, minted: nat, dead: set<nat>)
    requires VersionsOk(db, copies, minted, dead) && other.tasks == db.tasks && other.history == db.history
    ensures VersionsOk(other, copies, minted, dead)
  {
    forall t: TaskId ensures RowOk(other, t, minted, dead) {
      assert RowOk(db, t, minted, dead);
    }
    forall h | h in copies ensures CopyOk(other, copies[h], minted, dead) {
      SameHistory(db, other, copies[h], minted, dead);
    }
  }

  lemma SameHistory(db: Db, other: Db, c: Copy, minted: nat, dead: set<nat>)
    requires CopyOk(db, c, minted, dead) && other.history == db.history
    ensures CopyOk(other, c, minted, dead)
  {
    if c.base.Some? && c.base.value !in dead {
      var s :| s in HistoryOf(db, c.task) && s.version == c.base.value && s.revision == c.revision.GetOr(0);
      assert s in HistoryOf(other, c.task);
    }
  }

  lemma {:induction false} BodyKeepsWork(s: State, x: Work, ops: seq<Op>)
    requires WorkOk(s, x)
    ensures WorkOk(s, Body(x, ops))
    decreases |ops|
  {
    if ops != [] {
      BodyKeepsWork(s, x, ops[..|ops| - 1]);
      DoKeepsWork(s, Body(x, ops[..|ops| - 1]), ops[|ops| - 1]);
    }
  }

  lemma {:induction false} VersionsAreTheRange(from: nat, to: nat)
    ensures forall v :: v in Versions(from, to) <==> from <= v < to
  {
    if to > from {
      VersionsAreTheRange(from, to - 1);
    }
  }

  /** A rollback erases the versions the transaction wrote; a copy stamped by them is from an erased write. */
  lemma RollbackKeepsVersions(s: State, x: Work)
    requires Inv(s) && WorkOk(s, x)
    ensures VersionsOk(s.db, x.copies, x.minted, s.dead + Versions(s.minted, x.minted))
  {
    var dead := s.dead + Versions(s.minted, x.minted);
    VersionsAreTheRange(s.minted, x.minted);
    forall t: TaskId ensures RowOk(s.db, t, x.minted, dead) {
      assert RowOk(s.db, t, s.minted, s.dead);
    }
    forall h | h in x.copies ensures CopyOk(s.db, x.copies[h], x.minted, dead) {
      var c := x.copies[h];
      assert CopyOk(x.db, c, x.minted, s.dead);
      if c.base.Some? && c.base.value !in s.dead {
        var stamp :| stamp in HistoryOf(x.db, c.task) && stamp.version == c.base.value && stamp.revision == c.revision.GetOr(0);
        assert stamp in HistoryOf(s.db, c.task) || stamp.version >= s.minted;
      }
    }
  }

  /* ---- the change log ---- */

  /** How many of `count` contiguous revisions ending at `end` come after `after`. */
  function CountAfter(count: nat, end: int, after: int): (n: nat)
    ensures n <= count
  {
    if after >= end then 0 else if end - after > count then count else end - after
  }

  lemma ContiguousPrefix(changes: seq<Change>, end: int)
    requires Contiguous(changes, end) && changes != []
    ensures Contiguous(changes[..|changes| - 1], end - 1) && changes[|changes| - 1].revision == end
  {
  }

  /** Of contiguous revisions, those after `after` are the last ones. */
  lemma {:induction false} NewerIsSuffix(changes: seq<Change>, end: int, after: int)
    requires Contiguous(changes, end)
    ensures Newer(changes, after) == changes[|changes| - CountAfter(|changes|, end, after)..]
  {
    if changes != [] {
      var before, last := changes[..|changes| - 1], changes[|changes| - 1];
      ContiguousPrefix(changes, end);
      NewerIsSuffix(before, end - 1, after);
      if after < end {
        SuffixSnoc(changes, |before| - CountAfter(|before|, end - 1, after));
      } else {
        assert before[|before|..] + [] == changes[|changes|..];
      }
    }
  }

  lemma SuffixSnoc(changes: seq<Change>, from: nat)
    requires changes != [] && from < |changes|
    ensures changes[..|changes| - 1][from..] + [changes[|changes| - 1]] == changes[from..]
  {
  }

  /** Pruning after one more change keeps the newest entries of the longer log. */
  lemma PruneKeepsNewest(log: seq<Change>, end: nat, last: Change)
    requires Contiguous(log, end) && last.revision == end + 1
    ensures var after := log + [last];
      Newer(log[|log| - Retained(log)..] + [last], end + 1 - CHANGE_HISTORY) == after[|after| - Retained(after)..]
  {
    var kept, after := log[|log| - Retained(log)..], log + [last];
    assert Contiguous(kept, end);
    assert Contiguous(kept + [last], end + 1);
    NewerIsSuffix(kept + [last], end + 1, end + 1 - CHANGE_HISTORY);
    assert kept + [last] == after[|log| - Retained(log)..];
  }

  lemma ChangeKeepsLog(revision: nat, changes: seq<Change>, log: seq<Change>, last: Change)
    requires LogHolds(revision, changes, log) && last.revision == revision + 1
    ensures LogHolds(revision + 1, Newer(changes + [last], revision + 1 - CHANGE_HISTORY), log + [last])
  {
    PruneKeepsNewest(log, revision, last);
    var kept := log[|log| - Retained(log)..];
    assert changes + [last] == kept + [last];
  }

  lemma SealKeepsLog(db: Db, log: seq<Change>, scopes: set<Scope>, pending: seq<Note>)
    requires LogOk(db, log)
    ensures LogOk(Sealed(db, scopes, pending), log + Sealing(db.revision, scopes + Missions(pending)))
  {
    var all := scopes + Missions(pending);
    if all == {} {
      assert log + Sealing(db.revision, all) == log;
    } else {
      ChangeKeepsLog(db.revision, db.changes, log, Change(db.revision + 1, all));
    }
  }

  /** The refusals' own transaction: the rows are untouched and the log stays whole. */
  lemma RecordKeepsInv(s: State, db: Db, pending: seq<Note>)
    requires Inv(s) && db == s.db
    ensures Inv(s.(db := Sealed(db, {}, pending), log := s.log + Sealing(db.revision, Missions(pending))))
  {
    assert {} + Missions(pending) == Missions(pending);
    SealKeepsLog(db, s.log, {}, pending);
    SameRowsKeepVersions(db, Sealed(db, {}, pending), s.copies, s.minted, s.dead);
  }

  lemma TransactionKeepsInv(s: State, ops: seq<Op>, commits: bool, records: bool)
    requires Inv(s)
    ensures Inv(AfterTransaction(s, ops, commits, records))
  {
    var x := Body(Opened(s), ops);
    BodyKeepsWork(s, Opened(s), ops);
    if !x.aborted && commits {
      SealKeepsLog(x.db, s.log, x.scopes, x.pending);
      SameRowsKeepVersions(x.db, Sealed(x.db, x.scopes, x.pending), x.copies, x.minted, s.dead);
    } else {
      RollbackKeepsVersions(s, x);
      var rolled := State(s.db, x.copies, x.minted, s.dead + Versions(s.minted, x.minted), s.log);
      assert Inv(rolled);
      RecordKeepsInv(rolled, s.db, x.pending);
    }
  }

  lemma OutsideKeepsInv(s: State, op: Op, records: bool)
    requires Inv(s)
    ensures Inv(Outside(s, op, records))
  {
    DoKeepsWork(s, Opened(s), op);
    RecordKeepsInv(s, s.db, Do(Opened(s), op).pending);
  }

  lemma {:induction false} RunKeepsInv(s: State, events: seq<Event>)
    requires Inv(s)
    ensures Inv(Run(s, events))
    decreases |events|
  {
    if events != [] {
      var before, e := events[..|events| - 1], events[|events| - 1];
      RunKeepsInv(s, before);
      match e
      case Transaction(ops, commits, records) => TransactionKeepsInv(Run(s, before), ops, commits, records);
      case Alone(op, records) => OutsideKeepsInv(Run(s, before), op, records);
    }
  }

  /* ---- no lost update ---- */

  lemma {:induction false} ConsecutiveRevisions(h: seq<Stamp>, i: nat, j: nat)
    requires Consecutive(h) && i <= j < |h|
    ensures h[j].revision == h[i].revision + (j - i)
  {
    if i < j {
      ConsecutiveRevisions(h, i, j - 1);
      assert h[j].revision == h[j - 1].revision + 1;
    }
  }

  /** The revision a copy presents is the row's exactly when the row is the version it was read from, unless that was erased. */
  lemma MatchingRevisionIsTheRow(db: Db, c: Copy, minted: nat, dead: set<nat>)
    requires RowOk(db, c.task, minted, dead) && CopyOk(db, c, minted, dead) && c.task in db.tasks && !Stale(db, c)
    ensures c.base == Some(db.tasks[c.task].version) <==> c.base.Some? && c.base.value !in dead
  {
    var h := HistoryOf(db, c.task);
    assert h[|h| - 1] in h;
    if c.base.Some? && c.base.value !in dead {
      var stamp :| stamp in h && stamp.version == c.base.value && stamp.revision == c.revision.GetOr(0);
      var i :| 0 <= i < |h| && h[i] == stamp;
      ConsecutiveRevisions(h, i, |h| - 1);
    }
  }

  /**
   * No lost update, in every reachable transaction: an accepted write of an
   * existing row stands one revision above the row it replaces, and derives
   * from exactly that row unless the caller's object was never read from the
   * store or was stamped by a transaction that rolled back.
   */
  lemma NoLostUpdate(s0: State, events: seq<Event>, ops: seq<Op>, h: Handle)
    requires Inv(s0)
    ensures var s := Run(s0, events);
      var x := Body(Opened(s), ops);
      h in x.copies && x.copies[h].task in x.db.tasks && !Stale(x.db, x.copies[h]) ==>
        var c := x.copies[h];
        var before, after := HistoryOf(x.db, c.task), HistoryOf(PutCopy(x, h, false).db, c.task);
        && before != [] && |after| == |before| + 1 && after[..|before|] == before
        && after[|before|].revision == before[|before| - 1].revision + 1
        && (after[|before|].base == Some(before[|before| - 1].version) <==> c.base.Some? && c.base.value !in s.dead)
  {
    RunKeepsInv(s0, events);
    var s := Run(s0, events);
    var x := Body(Opened(s), ops);
    BodyKeepsWork(s, Opened(s), ops);
    if h in x.copies && x.copies[h].task in x.db.tasks && !Stale(x.db, x.copies[h]) {
      assert RowOk(x.db, x.copies[h].task, x.minted, s.dead);
      MatchingRevisionIsTheRow(x.db, x.copies[h], x.minted, s.dead);
    }
  }

  /** A store without a row, an event or a caller. */
  function Empty(): State {
    State(Db(map[], [], 0, [], map[]), map[], 0, {}, [])
  }

  /** A row is created with body 10, and two callers read it. */
  function TwoReaders(): seq<Event> {
    [Alone(Create(0, 7, 1, None, 10), true), Alone(Put(0, false), true), Alone(Read(1, 7), true), Alone(Read(2, 7), true)]
  }

  /** The first caller's write rolls back; the second writes body 20; the first writes its object again. */
  function LostUpdate(): seq<Event> {
    [Transaction([Put(1, false)], false, true), Alone(Edit(2, 20), true), Transaction([Put(2, false)], true, true)]
  }

  /**
   * The exception is real, on a run from the empty store. A caller keeps the
   * object of a rolled-back write, another writer commits the same revision
   * number, and the caller's write of that object is accepted over it.
   */
  lemma RolledBackCopyLosesAnUpdate()
    ensures var s := Run(Empty(), TwoReaders() + LostUpdate());
      && 7 in s.db.tasks && s.db.tasks[7].body == 20 && AcceptsUnderived(s, 1)
      && 7 in Step(s, Alone(Put(1, false), true)).db.tasks && Step(s, Alone(Put(1, false), true)).db.tasks[7].body == 10
  {
    var s0 := Run(Empty(), TwoReaders());
    ReadersRead();
    var first, edit, second := LostUpdate()[0], LostUpdate()[1], LostUpdate()[2];
    RunGrows(Empty(), TwoReaders(), first);
    RunGrows(Empty(), TwoReaders() + [first], edit);
    RunGrows(Empty(), TwoReaders() + [first] + [edit], second);
    assert TwoReaders() + [first] + [edit] + [second] == TwoReaders() + LostUpdate();
    FirstPut(s0);
    var s1 := Step(s0, first);
    var s2 := Step(s1, edit);
    assert s2.copies == s1.copies[2 := Copy(7, 1, Some(1), 20, Some(0))] && s2.db == s1.db && s2.minted == s1.minted;
    SecondPut(s2);
  }

  lemma RunGrows(s: State, events: seq<Event>, e: Event)
    ensures Run(s, events + [e]) == Step(Run(s, events), e)
  {
    assert (events + [e])[..|events|] == events;
  }

  lemma ReadersRead()
    ensures var s := Run(Empty(), TwoReaders());
      && s.copies == map[0 := Copy(7, 1, Some(1), 10, Some(0)), 1 := Copy(7, 1, Some(1), 10, Some(0)), 2 := Copy(7, 1, Some(1), 10, Some(0))]
      && s.minted == 1 && s.db.tasks == map[7 := Row(1, Some(1), 10, 0)]
  {
    var t := TwoReaders();
    assert t == [] + [t[0]] + [t[1]] + [t[2]] + [t[3]];
    RunGrows(Empty(), [], t[0]);
    RunGrows(Empty(), [] + [t[0]], t[1]);
    RunGrows(Empty(), [] + [t[0]] + [t[1]], t[2]);
    RunGrows(Empty(), [] + [t[0]] + [t[1]] + [t[2]], t[3]);
  }

  lemma FirstPut(s0: State)
    requires 1 in s0.copies && s0.copies[1] == Copy(7, 1, Some(1), 10, Some(0))
    requires s0.minted == 1 && s0.db.tasks == map[7 := Row(1, Some(1), 10, 0)]
    ensures var s1 := AfterTransaction(s0, [Put(1, false)], false, true);
      && s1.copies == s0.copies[1 := Copy(7, 1, Some(2), 10, Some(1))]
      && s1.minted == 2 && s1.db.tasks == s0.db.tasks
  {
    SinglePut(s0, 1, false);
  }

  /** The store would accept this copy over a row it was not derived from. */
  predicate AcceptsUnderived(s: State, h: Handle) {
    h in s.copies && s.copies[h].task in s.db.tasks && !Stale(s.db, s.copies[h])
    && s.copies[h].base != Some(s.db.tasks[s.copies[h].task].version)
  }

  lemma SecondPut(s1: State)
    requires 1 in s1.copies && s1.copies[1] == Copy(7, 1, Some(2), 10, Some(1))
    requires 2 in s1.copies && s1.copies[2] == Copy(7, 1, Some(1), 20, Some(0))
    requires s1.minted == 2 && s1.db.tasks == map[7 := Row(1, Some(1), 10, 0)]
    ensures var s2 := AfterTransaction(s1, [Put(2, false)], true, true);
      && 7 in s2.db.tasks && s2.db.tasks[7].body == 20 && AcceptsUnderived(s2, 1)
      && 7 in Outside(s2, Put(1, false), true).db.tasks && Outside(s2, Put(1, false), true).db.tasks[7].body == 10
  {
    SinglePut(s1, 2, true);
  }

  /** A transaction of one accepted write. */
  lemma SinglePut(s: State, h: Handle, commits: bool)
    requires h in s.copies && !Stale(s.db, s.copies[h])
    ensures var next := AfterTransaction(s, [Put(h, false)], commits, true);
      && next.copies == s.copies[h := Stamped(s.db, s.copies[h], s.minted)]
      && next.minted == s.minted + 1
      && next.db.tasks == if commits then Accepted(s.db, s.copies[h], s.minted).tasks else s.db.tasks
  {
    assert [Put(h, false)][..0] == [];
    assert Body(Opened(s), [Put(h, false)]) == Do(Body(Opened(s), []), Put(h, false));
  }

  /* ---- refusal records ---- */

  /** The refusals of the stale writes a body attempts, in order. */
  function Refusals(x: Work, ops: seq<Op>): seq<Note>
    decreases |ops|
  {
    if ops == [] then [] else
      var y, op := Body(x, ops[..|ops| - 1]), ops[|ops| - 1];
      Refusals(x, ops[..|ops| - 1]) +
      (if !y.aborted && op.Put? && op.handle in y.copies && Stale(y.db, y.copies[op.handle]) then [Refused(y.db, y.copies[op.handle])] else [])
  }

  /** A refused write changes no row, no event and no scope. */
  lemma RefusedWriteChangesNothing(x: Work, h: Handle, catches: bool)
    requires h in x.copies && Stale(x.db, x.copies[h])
    ensures var y := PutCopy(x, h, catches);
      y.db == x.db && y.scopes == x.scopes && y.copies == x.copies && y.pending == x.pending + [Refused(x.db, x.copies[h])]
  {
  }

  lemma DoRecordsNoRefusal(x: Work, op: Op, n: Note)
    requires n.Refusal?
    ensures multiset(Do(x, op).db.events)[n] == multiset(x.db.events)[n]
  {
  }

  lemma {:induction false} BodyRecordsNoRefusal(x: Work, ops: seq<Op>, n: Note)
    requires n.Refusal?
    ensures multiset(Body(x, ops).db.events)[n] == multiset(x.db.events)[n]
    decreases |ops|
  {
    if ops != [] {
      BodyRecordsNoRefusal(x, ops[..|ops| - 1], n);
      DoRecordsNoRefusal(Body(x, ops[..|ops| - 1]), ops[|ops| - 1], n);
    }
  }

  lemma {:induction false} BodyOwesItsRefusals(x: Work, ops: seq<Op>)
    ensures Body(x, ops).pending == x.pending + Refusals(x, ops)
    decreases |ops|
  {
    if ops != [] {
      BodyOwesItsRefusals(x, ops[..|ops| - 1]);
    }
  }

  /**
   * Each refused write leaves exactly one record, whether its transaction
   * commits or rolls back, as long as the record's own transaction commits;
   * nothing else writes one.
   */
  lemma RefusalsAreRecordedOnce(s: State, ops: seq<Op>, commits: bool, records: bool, n: Note)
    requires n.Refusal?
    ensures var committed := commits && !Body(Opened(s), ops).aborted;
      multiset(AfterTransaction(s, ops, commits, records).db.events)[n] ==
        multiset(s.db.events)[n] + (if committed || records then multiset(Refusals(Opened(s), ops))[n] else 0)
  {
    BodyOwesItsRefusals(Opened(s), ops);
    BodyRecordsNoRefusal(Opened(s), ops, n);
    EventsAfterBody(s, Body(Opened(s), ops), commits, records, n);
  }

  lemma EventsAfterBody(s: State, x: Work, commits: bool, records: bool, n: Note)
    ensures var committed := commits && !x.aborted;
      multiset(AfterBody(s, x, commits, records).db.events)[n] ==
        multiset((if committed then x.db else s.db).events)[n] + (if committed || records then multiset(x.pending)[n] else 0)
  {
    var events := if commits && !x.aborted then x.db.events else s.db.events;
    assert multiset(events + x.pending) == multiset(events) + multiset(x.pending);
  }

  /** A rolled-back transaction leaves every row as it was. */
  lemma RollbackKeepsRows(s: State, ops: seq<Op>, commits: bool, records: bool)
    requires !commits || Body(Opened(s), ops).aborted
    ensures AfterTransaction(s, ops, commits, records).db.tasks == s.db.tasks
  {
  }

  /* ---- the cursor ---- */

  /** A replay is exactly the commits after the cursor, each once, in order; there is none only for a cursor no kept change reaches. */
  ghost predicate Replays(db: Db, log: seq<Change>, after: int) {
    match ChangesSince(db, after)
    case Some(changes) =>
      && 0 <= after <= db.revision && db.revision - after <= |log|
      && changes == log[|log| - (db.revision - after)..]
      && forall i | 0 <= i < |changes| :: changes[i].revision == after + 1 + i
    case None => after < 0 || after > db.revision || after < db.revision - Retained(log)
  }

  lemma SuffixOfSuffix(log: seq<Change>, kept: nat, n: nat)
    requires n <= kept <= |log|
    ensures log[|log| - kept..][kept - n..] == log[|log| - n..]
  {
  }

  lemma SuffixRevisions(log: seq<Change>, end: nat, n: nat)
    requires Contiguous(log, end) && n <= |log|
    ensures Contiguous(log[|log| - n..], end)
  {
  }

  lemma LogReplays(db: Db, log: seq<Change>, after: int)
    requires LogOk(db, log)
    ensures Replays(db, log, after)
  {
    var kept := Retained(log);
    SuffixRevisions(log, db.revision, kept);
    if db.revision - kept <= after < db.revision {
      var n := db.revision - after;
      NewerIsSuffix(db.changes, db.revision, after);
      SuffixOfSuffix(log, kept, n);
      SuffixRevisions(log, db.revision, n);
      assert ChangesSince(db, after) == Some(log[|log| - n..]);
    }
  }

  lemma CursorIsComplete(s0: State, events: seq<Event>, after: int)
    requires Inv(s0)
    ensures Replays(Run(s0, events).db, Run(s0, events).log, after)
  {
    RunKeepsInv(s0, events);
    LogReplays(Run(s0, events).db, Run(s0, events).log, after);
  }

  /** Every event commits at most one change, at the next revision. */
  lemma LogGrowsWithRevision(s: State, e: Event)
    ensures var next := Step(s, e);
      && |s.log| <= |next.log| <= |s.log| + 1 && next.log[..|s.log|] == s.log
      && next.db.revision == s.db.revision + (|next.log| - |s.log|)
      && (|next.log| > |s.log| ==> next.log[|s.log|].revision == next.db.revision)
  {
    match e
    case Transaction(ops, commits, records) => BodyKeepsRevision(Opened(s), ops);
    case Alone(op, records) =>
  }

  lemma {:induction false} BodyKeepsRevision(x: Work, ops: seq<Op>)
    ensures Body(x, ops).db.revision == x.db.revision && Body(x, ops).db.changes == x.db.changes
    decreases |ops|
  {
    if ops != [] {
      BodyKeepsRevision(x, ops[..|ops| - 1]);
    }
  }

  /** A row written outside a transaction is in no replay: the cursor does not advance for it. */
  lemma OutsideWriteIsUnseen(s: State, h: Handle, records: bool)
    requires Inv(s) && h in s.copies && !Stale(s.db, s.copies[h])
    ensures var next := Outside(s, Put(h, false), records);
      && next.db.tasks != s.db.tasks
      && next.db.revision == s.db.revision && ChangesSince(next.db, s.db.revision) == Some([])
  {
    var c := s.copies[h];
    assert RowOk(s.db, c.task, s.minted, s.dead);
    var hist := HistoryOf(s.db, c.task);
    if c.task in s.db.tasks {
      assert hist[|hist| - 1] in hist;
    }
    assert Outside(s, Put(h, false), records).db.tasks[c.task].version == s.minted;
  }
}
