/** Waiting for a visible state change: the waiter subscribes first, then inspects at every commit. */
module Watch {
  import opened Wrappers
  import opened StoreModel
  import opened StoreSafety
  import opened StoreCommits
  import Store

  /** What the waiter lives through; `visible` is what it may see when that commit is published. */
  datatype Happening =
    | Transacts(ops: seq<Op>, commits: bool, records: bool, visible: set<Scope>)
    | Wakes
    | TimesOut
    | Aborts

  function Happened(s: State, h: Happening): State {
    if h.Transacts? then AfterTransaction(s, h.ops, h.commits, h.records) else s
  }

  function After(s: State, happenings: seq<Happening>): State
    decreases |happenings|
  {
    if happenings == [] then s else Happened(After(s, happenings[..|happenings| - 1]), happenings[|happenings| - 1])
  }

  predicate Visible(changes: seq<Change>, visible: set<Scope>) {
    exists c <- changes :: !(c.scopes !! visible)
  }

  /** The committed change of revision `r` shares no scope with `visible`. */
  ghost predicate Hidden(log: seq<Change>, r: nat, visible: set<Scope>) {
    forall c <- log :: c.revision == r ==> c.scopes !! visible
  }

  ghost predicate AllHidden(log: seq<Change>, from: int, to: nat, visible: set<Scope>) {
    forall r: nat | from < r <= to :: Hidden(log, r, visible)
  }

  /** What the waiter could see when the change of revision `r` was published, or at its own start for older ones. */
  function SawWith(s: State, initial: set<Scope>, happenings: seq<Happening>, r: nat): set<Scope>
    decreases |happenings|
  {
    if happenings == [] then initial
    else
      var before, h := happenings[..|happenings| - 1], happenings[|happenings| - 1];
      if h.Transacts? && r > After(s, before).db.revision then h.visible else SawWith(s, initial, before, r)
  }

  /** Every committed change past `after` was hidden from the waiter when it was published. */
  ghost predicate Missed(s: State, after: int, initial: set<Scope>, happenings: seq<Happening>) {
    forall r: nat | after < r <= After(s, happenings).db.revision ::
      Hidden(After(s, happenings).log, r, SawWith(s, initial, happenings, r))
  }

  class Waiter {
    var finished: bool
    var cursor: int

    constructor (after: int)
      ensures !finished && cursor == after
    {
      finished, cursor := false, after;
    }

    /** The listener: finish on a visible change or an unreplayable cursor, otherwise move the cursor up. */
    method Inspect(store: Store.Store, visible: set<Scope>)
      requires !finished
      modifies this
      ensures finished <==> (var c := ChangesSince(store.Database(), old(cursor)); c.None? || Visible(c.value, visible))
      ensures !finished ==> cursor == store.revision
    {
      var changes := store.ReadChanges(cursor);
      if changes.None? || Visible(changes.value, visible) {
        finished := true;
        return;
      }
      cursor := store.revision;
    }
  }

  /** Contiguous revisions are different, so a change is hidden exactly when its own scopes are. */
  lemma HiddenAt(log: seq<Change>, end: int, i: nat, visible: set<Scope>)
    requires Contiguous(log, end) && i < |log| && log[i].revision <= end
    ensures Hidden(log, log[i].revision, visible) <==> log[i].scopes !! visible
  {
    assert log[i] in log;
    if log[i].scopes !! visible {
      forall c | c in log && c.revision == log[i].revision ensures c.scopes !! visible {
        var j :| 0 <= j < |log| && log[j] == c;
      }
    }
  }

  lemma SuffixIsHidden(log: seq<Change>, end: nat, n: nat, visible: set<Scope>)
    requires Contiguous(log, end) && n <= |log| && |log| <= end
    ensures !Visible(log[|log| - n..], visible) <==> AllHidden(log, end - n, end, visible)
  {
    var changes := log[|log| - n..];
    if Visible(changes, visible) {
      var c :| c in changes && !(c.scopes !! visible);
      var i :| 0 <= i < |changes| && changes[i] == c;
      HiddenAt(log, end, |log| - n + i, visible);
    } else {
      forall r: nat | end - n < r <= end ensures Hidden(log, r, visible) {
        var i := r - (end - |log| + 1);
        assert log[i] == changes[i - (|log| - n)] && changes[i - (|log| - n)] in changes;
        HiddenAt(log, end, i, visible);
      }
    }
  }

  /** An inspection finds nothing visible exactly when every change past the cursor is hidden. */
  lemma InspectionIsExact(s: State, cursor: int, visible: set<Scope>)
    requires Inv(s) && ChangesSince(s.db, cursor).Some?
    ensures cursor <= s.db.revision
    ensures !Visible(ChangesSince(s.db, cursor).value, visible) <==> AllHidden(s.log, cursor, s.db.revision, visible)
  {
    LogReplays(s.db, s.log, cursor);
    SuffixIsHidden(s.log, s.db.revision, s.db.revision - cursor, visible);
  }

  /** The newest change is always kept. */
  lemma NewestIsReplayable(s: State)
    requires Inv(s) && s.log != []
    ensures s.db.revision > 0 && ChangesSince(s.db, s.db.revision - 1).Some?
  {
    LogReplays(s.db, s.log, s.db.revision - 1);
  }

  lemma {:induction false} AfterKeepsInv(s: State, happenings: seq<Happening>)
    requires Inv(s)
    ensures Inv(After(s, happenings))
    decreases |happenings|
  {
    if happenings != [] {
      var before, h := happenings[..|happenings| - 1], happenings[|happenings| - 1];
      AfterKeepsInv(s, before);
      if h.Transacts? { TransactionKeepsInv(After(s, before), h.ops, h.commits, h.records); }
    }
  }

  /** A change is hidden as long as it was: later commits only add later revisions. */
  lemma HiddenStays(w: State, h: Happening, r: nat, visible: set<Scope>)
    requires r <= w.db.revision
    ensures Hidden(Happened(w, h).log, r, visible) <==> Hidden(w.log, r, visible)
  {
    if h.Transacts? {
      var next := Happened(w, h);
      LogGrowsWithRevision(w, Transaction(h.ops, h.commits, h.records));
      assert next.log == w.log + next.log[|w.log|..];
      assert forall c :: c in w.log ==> c in next.log;
      assert forall c :: c in next.log && c.revision == r ==> c in w.log;
    }
  }

  lemma MissedAtStart(s: State, after: int, initial: set<Scope>)
    ensures Missed(s, after, initial, []) <==> AllHidden(s.log, after, s.db.revision, initial)
  {
    assert After(s, []) == s;
    forall r: nat ensures SawWith(s, initial, [], r) == initial {}
    if Missed(s, after, initial, []) {
      forall r: nat | after < r <= s.db.revision ensures Hidden(s.log, r, initial) {
        assert Hidden(After(s, []).log, r, SawWith(s, initial, [], r));
      }
    }
  }

  /** One more happening: the old changes are as hidden as they were, a new one is judged by what it may be seen with. */
  lemma MissedGrows(s: State, after: int, initial: set<Scope>, happenings: seq<Happening>, h: Happening)
    requires after <= After(s, happenings).db.revision <= Happened(After(s, happenings), h).db.revision
    ensures var w, next := After(s, happenings), Happened(After(s, happenings), h);
      Missed(s, after, initial, happenings + [h]) <==>
        Missed(s, after, initial, happenings) && (h.Transacts? ==> AllHidden(next.log, w.db.revision, next.db.revision, h.visible))
  {
    var w, longer := After(s, happenings), happenings + [h];
    var next := Happened(w, h);
    assert longer[..|happenings|] == happenings && longer[|happenings|] == h;
    assert After(s, longer) == next;
    forall r: nat | r <= w.db.revision
      ensures Hidden(next.log, r, SawWith(s, initial, longer, r)) <==> Hidden(w.log, r, SawWith(s, initial, happenings, r))
    {
      HiddenStays(w, h, r, SawWith(s, initial, happenings, r));
    }
    if Missed(s, after, initial, longer) {
      forall r: nat | after < r <= w.db.revision ensures Hidden(w.log, r, SawWith(s, initial, happenings, r)) {
        assert Hidden(next.log, r, SawWith(s, initial, longer, r));
      }
      forall r: nat | h.Transacts? && w.db.revision < r <= next.db.revision ensures Hidden(next.log, r, h.visible) {
        assert Hidden(next.log, r, SawWith(s, initial, longer, r));
      }
    }
  }

  /** The transaction left a row or a note of a mission the waiter may see. */
  ghost predicate ShowsVisible(w: State, h: Happening) {
    h.Transacts? && exists m <- h.visible :: Shows(w.db, Happened(w, h).db, m)
  }

  /** What a transaction shows is a visible change when it is published. */
  lemma ShownIsSeen(w: State, h: Happening)
    requires Inv(w) && ShowsVisible(w, h)
    ensures var next := Happened(w, h); !AllHidden(next.log, w.db.revision, next.db.revision, h.visible)
  {
    var next := Happened(w, h);
    var m :| m in h.visible && Shows(w.db, next.db, m);
    ShownIsLogged(w, h.ops, h.commits, h.records, m);
    assert next.log[|w.log|] in next.log && m in next.log[|w.log|].scopes * h.visible;
    assert !Hidden(next.log, next.db.revision, h.visible);
  }

  /** Nothing of the waiter's missions was written or noted while it slept. */
  ghost predicate NothingShown(s: State, happenings: seq<Happening>) {
    forall j | 0 <= j < |happenings| :: !ShowsVisible(After(s, happenings[..j]), happenings[j])
  }

  lemma {:induction false} MissedShowsNothing(s: State, after: int, initial: set<Scope>, happenings: seq<Happening>)
    requires Inv(s) && after <= s.db.revision && Missed(s, after, initial, happenings)
    ensures after <= After(s, happenings).db.revision && NothingShown(s, happenings)
    decreases |happenings|
  {
    RevisionGrows(s, happenings);
    if happenings != [] {
      var before, h := happenings[..|happenings| - 1], happenings[|happenings| - 1];
      assert before + [h] == happenings;
      RevisionGrows(s, before);
      AfterKeepsInv(s, before);
      OneMore(s, after, initial, before, h);
      MissedShowsNothing(s, after, initial, before);
      if ShowsVisible(After(s, before), h) { ShownIsSeen(After(s, before), h); }
      forall j | 0 <= j < |happenings| ensures !ShowsVisible(After(s, happenings[..j]), happenings[j]) {
        if j < |before| { assert before[..j] == happenings[..j] && before[j] == happenings[j]; }
      }
    }
  }

  /** Revisions and the log only grow. */
  lemma {:induction false} RevisionGrows(s: State, happenings: seq<Happening>)
    ensures s.db.revision <= After(s, happenings).db.revision && s.log <= After(s, happenings).log
    decreases |happenings|
  {
    if happenings != [] {
      var before, h := happenings[..|happenings| - 1], happenings[|happenings| - 1];
      RevisionGrows(s, before);
      if h.Transacts? { LogGrowsWithRevision(After(s, before), Transaction(h.ops, h.commits, h.records)); }
    }
  }

  /** What a transaction left before the waiter started is in what its first look replays from an older cursor. */
  lemma EarlierIsSeen(w: State, h: Happening, past: seq<Happening>, after: int, initial: set<Scope>, m: Scope)
    requires Inv(w) && h.Transacts? && after <= w.db.revision && m in initial && Shows(w.db, Happened(w, h).db, m)
    ensures var s := After(Happened(w, h), past); !AllHidden(s.log, after, s.db.revision, initial)
  {
    var next, s := Happened(w, h), After(Happened(w, h), past);
    ShownIsLogged(w, h.ops, h.commits, h.records, m);
    RevisionGrows(next, past);
    assert s.log[|w.log|] == next.log[|w.log|] && s.log[|w.log|] in s.log && m in s.log[|w.log|].scopes * initial;
    assert !Hidden(s.log, next.db.revision, initial);
  }

  /** No waking call: only commits happen. */
  predicate OnlyCommits(happenings: seq<Happening>) {
    forall h <- happenings :: h.Transacts?
  }

  /**
   * A waiter that is still waiting has slept past no committed change that was
   * visible to it when it was published, and no transaction has left a row or
   * a note of a mission it could see. A wake, a timeout or an abort finishes
   * it; without one it has finished only for a visible change or an
   * unreplayable cursor.
   */
  method WaitForStateChange(store: Store.Store, after: int, initial: set<Scope>, happenings: seq<Happening>)
    returns (finished: bool)
    requires Inv(store.View()) && store.pending == []
    modifies store
    ensures store.View() == After(old(store.View()), happenings)
    ensures !finished ==> Missed(old(store.View()), after, initial, happenings) && NothingShown(old(store.View()), happenings)
    ensures finished && OnlyCommits(happenings) ==>
      ChangesSince(old(store.Database()), after).None? || !Missed(old(store.View()), after, initial, happenings)
    ensures !OnlyCommits(happenings) ==> finished
  {
    ghost var s := store.View();
    var waiter := new Waiter(after);
    Start(store, waiter, initial);
    for i := 0 to |happenings|
      invariant store.View() == After(s, happenings[..i]) && Inv(store.View()) && store.pending == []
      invariant fresh(waiter) && Judged(s, waiter, store.revision, after, initial, happenings[..i])
    {
      assert happenings[..i + 1] == happenings[..i] + [happenings[i]];
      Live(s, store, waiter, after, initial, happenings[..i], happenings[i]);
    }
    assert happenings[..|happenings|] == happenings;
    finished := waiter.finished;
    if !finished { MissedShowsNothing(s, after, initial, happenings); }
  }

  /** The waiter waits exactly as long as nothing it could see was committed, unless something else ended its wait. */
  ghost predicate Judged(s: State, waiter: Waiter, revision: nat, after: int, initial: set<Scope>, happenings: seq<Happening>)
    reads waiter
  {
    && (!waiter.finished ==> waiter.cursor == revision && Missed(s, after, initial, happenings))
    && (ChangesSince(s.db, after).Some? ==> after <= revision)
    && (ChangesSince(s.db, after).None? || !OnlyCommits(happenings) ==> waiter.finished)
    && (waiter.finished && OnlyCommits(happenings) ==> ChangesSince(s.db, after).None? || !Missed(s, after, initial, happenings))
  }

  method Start(store: Store.Store, waiter: Waiter, initial: set<Scope>)
    requires Inv(store.View()) && !waiter.finished
    modifies waiter
    ensures Judged(store.View(), waiter, store.revision, old(waiter.cursor), initial, [])
  {
    ghost var s := store.View();
    MissedAtStart(s, waiter.cursor, initial);
    if ChangesSince(s.db, waiter.cursor).Some? { InspectionIsExact(s, waiter.cursor, initial); }
    waiter.Inspect(store, initial);
  }

  /** One more happening and the revision it leaves, once the cursor was replayable. */
  lemma OneMore(s: State, after: int, initial: set<Scope>, past: seq<Happening>, h: Happening)
    requires after <= After(s, past).db.revision
    ensures var w, next := After(s, past), After(s, past + [h]);
      && w.db.revision <= next.db.revision && next == Happened(w, h)
      && (Missed(s, after, initial, past + [h]) <==>
            Missed(s, after, initial, past) && (h.Transacts? ==> AllHidden(next.log, w.db.revision, next.db.revision, h.visible)))
  {
    assert (past + [h])[..|past|] == past;
    if h.Transacts? { LogGrowsWithRevision(After(s, past), Transaction(h.ops, h.commits, h.records)); }
    MissedGrows(s, after, initial, past, h);
  }

  /** A commit is published to a waiter that is still waiting; it inspects it when the revision moved. */
  method Commit(store: Store.Store, waiter: Waiter, h: Happening)
    requires Inv(store.View()) && store.pending == [] && h.Transacts?
    requires !waiter.finished ==> waiter.cursor == store.revision
    modifies store, waiter
    ensures store.View() == Happened(old(store.View()), h) && Inv(store.View()) && store.pending == []
    ensures old(waiter.finished) ==> waiter.finished
    ensures !waiter.finished ==> waiter.cursor == store.revision
    ensures !old(waiter.finished) ==>
      (waiter.finished <==> !AllHidden(store.View().log, old(store.revision), store.revision, h.visible))
  {
    ghost var w := store.View();
    TransactionKeepsInv(w, h.ops, h.commits, h.records);
    LogGrowsWithRevision(w, Transaction(h.ops, h.commits, h.records));
    var before := store.revision;
    var committed := store.Transaction(h.ops, h.commits, h.records);
    if store.revision != before && !waiter.finished {
      NewestIsReplayable(store.View());
      InspectionIsExact(store.View(), before, h.visible);
      waiter.Inspect(store, h.visible);
    }
  }

  method Live(ghost s: State, store: Store.Store, waiter: Waiter, after: int, initial: set<Scope>, ghost past: seq<Happening>, h: Happening)
    requires store.View() == After(s, past) && Inv(store.View()) && store.pending == []
    requires Judged(s, waiter, store.revision, after, initial, past)
    modifies store, waiter
    ensures store.View() == After(s, past + [h]) && Inv(store.View()) && store.pending == []
    ensures Judged(s, waiter, store.revision, after, initial, past + [h])
  {
    assert (past + [h])[..|past|] == past;
    if ChangesSince(s.db, after).Some? { OneMore(s, after, initial, past, h); }
    if h.Transacts? {
      Commit(store, waiter, h);
    } else {
      waiter.finished := true;
    }
  }
}
