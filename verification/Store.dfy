/** The store's own methods over a mutable database, proved to be the rules of `StoreModel`. */
module Store {
  import opened Wrappers
  import opened StoreModel
  import opened StoreSafety

  class Store {
    var tasks: map<TaskId, Row>
    var events: seq<Note>
    var revision: nat
    var changes: seq<Change>
    var scopes: set<Scope>
    var pending: seq<Note>
    var copies: map<Handle, Copy>
    // The history the claims are about; nothing below reads it.
    var history: map<TaskId, seq<Stamp>>
    var minted: nat
    var dead: set<nat>
    var log: seq<Change>

    function Database(): Db
      reads this
    {
      Db(tasks, events, revision, changes, history)
    }

    function View(): State
      reads this
    {
      State(Database(), copies, minted, dead, log)
    }

    /** The open transaction, while its body runs. */
    function Working(aborted: bool): Work
      reads this
    {
      Work(Database(), scopes, pending, copies, minted, aborted)
    }

    constructor ()
      ensures View() == State(Db(map[], [], 0, [], map[]), map[], 0, {}, []) && pending == []
    {
      tasks, events, revision, changes, history := map[], [], 0, [], map[];
      scopes, pending, copies, minted, dead, log := {}, [], map[], 0, {}, [];
    }

    /** Compare-and-swap of one row. A stale write is refused and its record owed; an accepted one stamps the caller's object. */
    method PutTask(h: Handle) returns (accepted: bool)
      requires h in copies
      modifies this`tasks, this`history, this`scopes, this`copies, this`minted, this`pending
      ensures accepted <==> !Stale(old(Database()), old(copies)[h])
      ensures Working(!accepted) == PutCopy(old(Working(false)), h, false)
    {
      var value := copies[h];
      var expected := value.revision.GetOr(0);
      var current := if value.task in tasks then RevisionOf(tasks[value.task]) else 0;
      if value.task in tasks && expected != current {
        pending := pending + [Refusal(value.mission, value.task, expected, current)];
        return false;
      }
      history := history[value.task := HistoryOf(Database(), value.task) + [Stamp(minted, current + 1, value.base)]];
      tasks := tasks[value.task := Row(value.mission, Some(current + 1), value.body, minted)];
      copies := copies[h := value.(revision := Some(current + 1), base := Some(minted))];
      scopes, minted := scopes + {value.mission}, minted + 1;
      return true;
    }

    method Statement(op: Op) returns (aborted: bool)
      modifies this`tasks, this`history, this`scopes, this`copies, this`minted, this`pending, this`events
      ensures Working(aborted) == Do(old(Working(false)), op)
    {
      aborted := false;
      match op
      case Read(into, t) =>
        if t in tasks {
          copies := copies[into := Copy(t, tasks[t].mission, tasks[t].revision, tasks[t].body, Some(tasks[t].version))];
        }
      case Create(into, t, mission, rev, body) =>
        copies := copies[into := Copy(t, mission, rev, body, None)];
      case Edit(h, body) =>
        if h in copies {
          copies := copies[h := copies[h].(body := body)];
        }
      case Put(h, catches) =>
        if h in copies {
          var accepted := PutTask(h);
          aborted := !accepted && !catches;
        }
      case Append(mission, kind) =>
        events, scopes := events + [Other(mission, kind)], scopes + {mission};
      case Throw =>
        aborted := true;
    }

    /** The body runs once, up to its first uncaught refusal or throw. */
    method Operation(ops: seq<Op>) returns (aborted: bool)
      modifies this`tasks, this`history, this`scopes, this`copies, this`minted, this`pending, this`events
      ensures Working(aborted) == Body(old(Working(false)), ops)
    {
      aborted := false;
      for i := 0 to |ops|
        invariant Working(aborted) == Body(old(Working(false)), ops[..i])
      {
        assert ops[..i + 1][..i] == ops[..i];
        if !aborted {
          aborted := Statement(ops[i]);
        }
      }
      assert ops[..|ops|] == ops;
    }

    /** Record the owed refusals, advance the revision if anything changed, and prune the log. */
    method Seal()
      modifies this`events, this`scopes, this`revision, this`changes, this`log
      ensures Database() == Sealed(old(Database()), old(scopes), old(pending))
      ensures log == old(log) + Sealing(old(revision), old(scopes) + Missions(old(pending)))
    {
      for i := 0 to |pending|
        invariant pending == old(pending)
        invariant events == old(events) + pending[..i] && scopes == old(scopes) + Missions(pending[..i])
        invariant revision == old(revision) && changes == old(changes) && log == old(log)
      {
        assert pending[..i + 1][..i] == pending[..i];
        events, scopes := events + [pending[i]], scopes + {pending[i].mission};
      }
      assert pending[..|pending|] == pending;
      if scopes != {} {
        log := log + [Change(revision + 1, scopes)];
        revision := revision + 1;
        changes := changes + [Change(revision, scopes)];
        changes := Newer(changes, revision - CHANGE_HISTORY);
      }
    }

    /** Undo the body; what it wrote is erased, the callers' objects are not. */
    method Rollback(saved: Db, savedMinted: nat)
      modifies this`tasks, this`events, this`revision, this`changes, this`history, this`dead, this`scopes
      ensures Database() == saved && scopes == {} && dead == old(dead) + Versions(savedMinted, minted)
    {
      tasks, events, revision, changes, history := saved.tasks, saved.events, saved.revision, saved.changes, saved.history;
      dead, scopes := dead + Versions(savedMinted, minted), {};
    }

    /**
     * A synchronous group of changes, committed together with the refusals it
     * owes; or rolled back, its refusals then recorded on their own.
     */
    method Transaction(ops: seq<Op>, commits: bool, records: bool) returns (committed: bool)
      requires pending == []
      modifies this
      ensures View() == AfterTransaction(old(View()), ops, commits, records) && pending == []
      ensures committed <==> commits && !Body(Opened(old(View())), ops).aborted
    {
      ghost var s := View();
      var saved, savedMinted := Database(), minted;
      scopes := {};
      assert Working(false) == Opened(s);
      var aborted := Operation(ops);
      ghost var x := Working(aborted);
      committed := !aborted && commits;
      if committed {
        Seal();
      } else {
        Rollback(saved, savedMinted);
        if records {
          assert {} + Missions(pending) == Missions(pending);
          Seal();
        }
      }
      pending := [];
      assert View() == AfterBody(s, x, commits, records);
    }

    /** The kept changes after a cursor, read from the log row by row. */
    method ReadChanges(after: int) returns (r: Option<seq<Change>>)
      ensures r == ChangesSince(Database(), after)
    {
      if after < 0 || after > revision {
        return None;
      }
      if after == revision {
        return Some([]);
      }
      var first := if changes == [] then revision + 1 else changes[0].revision;
      if after < first - 1 {
        return None;
      }
      var newer := [];
      for i := 0 to |changes|
        invariant newer == Newer(changes[..i], after)
      {
        assert changes[..i + 1][..i] == changes[..i];
        if changes[i].revision > after {
          newer := newer + [changes[i]];
        }
      }
      assert changes[..|changes|] == changes;
      return Some(newer);
    }
  }
}
