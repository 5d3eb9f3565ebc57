/**
 * Reviewer independence over whole runs: a row never forgets who held it, so
 * no run of assignments, borrows, fences, reworks and re-pends gives a member
 * a review of work it ever owned.
 */
module ReviewRuns {
  import opened Wrappers
  import opened Tasks
  import opened Assignment
  import opened Board
  import opened Fencing
  import opened AttemptRuns
  import opened AttemptSafety

  lemma OwnersGrow(w: World, e: Event)
    ensures w.owners <= Step(w, e).owners
  {
  }

  lemma {:induction false} OwnersStay(w: World, events: seq<Event>)
    ensures w.owners <= Run(w, events).owners
    decreases |events|
  {
    if events != [] {
      OwnersStay(w, events[..|events| - 1]);
      OwnersGrow(Run(w, events[..|events| - 1]), events[|events| - 1]);
    }
  }

  /** Every acquisition is remembered from the commit that made it. */
  lemma AcquisitionsAreOwned(w: World, e: Event, t: TaskId, m: MemberId)
    requires Inv(w) && Acquires(w, Step(w, e), t, m)
    ensures (t, m) in Step(w, e).owners
  {
    AcquiredByAssignment(w, e, t, m);
  }

  /** Whoever once acquired a task is one of its authors in every later state. */
  lemma OwnersAreAuthors(w: World, e: Event, t: TaskId, m: MemberId, events: seq<Event>)
    requires Inv(w) && Acquires(w, Step(w, e), t, m)
    ensures var s := Run(Step(w, e), events); t in s.rows && m in AuthorIdsOf(s.rows[t])
  {
    AcquisitionsAreOwned(w, e, t, m);
    StepKeepsInv(w, e);
    RunKeepsInv(Step(w, e), events);
    OwnersStay(Step(w, e), events);
    assert (t, m) in Run(Step(w, e), events).owners;
  }

  /**
   * No self-review: a member that acquired `source` at one step acquires, at
   * any later step, no task that reviews `source`.
   */
  lemma NoSelfReview(w: World, first: Event, source: TaskId, m: MemberId, events: seq<Event>, last: Event, review: TaskId)
    requires Inv(w) && Acquires(w, Step(w, first), source, m)
    ensures var s := Run(Step(w, first), events);
      Acquires(s, Step(s, last), review, m) ==> review in s.rows && s.rows[review].reviewOf != Some(source)
  {
    OwnersAreAuthors(w, first, source, m, events);
    StepKeepsInv(w, first);
    RunKeepsInv(Step(w, first), events);
    AcquiredByAssignment(Run(Step(w, first), events), last, review, m);
  }

  /**
   * Nor is a reviewer stranded: a member that borrows a task, or picks up an
   * unassigned one, is not bound to a live review of it.
   */
  lemma NoReviewIsStranded(w: World, events: seq<Event>, e: Event, t: TaskId, m: MemberId)
    requires Inv(w)
    ensures var s := Run(w, events);
      Acquires(s, Step(s, e), t, m) ==>
        && t in s.rows
        && (s.rows[t].assignee != Some(m) ==>
              && (s.rows[t].assignee.None? || CanBorrowTask(s.rows[t]))
              && forall v <- s.rows.Keys :: !BoundReview(s.rows[v], t, m))
  {
    RunKeepsInv(w, events);
    AcquiredByAssignment(Run(w, events), e, t, m);
  }

  /** A borrowed task was untouched: nobody held it in any earlier state of the run. */
  lemma BorrowedWorkIsUntouched(w: World, first: Event, t: TaskId, holder: MemberId, events: seq<Event>)
    requires Inv(w) && Acquires(w, Step(w, first), t, holder)
    ensures var s := Run(Step(w, first), events); t in s.rows && !CanBorrowTask(s.rows[t])
  {
    AcquisitionsAreOwned(w, first, t, holder);
    StepKeepsInv(w, first);
    RunKeepsInv(Step(w, first), events);
    OwnersStay(Step(w, first), events);
    assert (t, holder) in Run(Step(w, first), events).owners;
  }
}
