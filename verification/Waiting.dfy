/** The stall classifiers: what the owner repairs, what waits legitimately, and what every wait comes down to. */
module Waiting {
  import opened Wrappers
  import opened Tasks
  import opened Assignment
  import opened Board
  import opened Coverage
  import opened Digraph
  import TaskGraph

  /**
   * One judged board. `covered` is its replacement coverage, `awaiting` the
   * submissions a review may yet be admitted for. A wedged pass asks every
   * member, others only those that hold no attempt or are parked.
   */
  datatype View = View(
    board: Board, covered: set<TaskId>, awaiting: set<TaskId>, stopBound: int, tick: int,
    refusal: Option<string>, ownerStarted: bool, wedged: bool)
  {
    ghost predicate Consistent() {
      && (forall t <- board.tasks.Keys :: board.tasks[t].id == t)
      && (forall t :: t in covered <==> Covered(board.tasks, t))
      && (forall m <- board.members.Keys :: board.members[m].id == m)
    }

    predicate StopInBound(marker: StopMarker) {
      marker.at.Some? && board.clock - marker.at.value <= stopBound
    }

    predicate Unfinished(t: TaskId) {
      t in board.tasks && !Terminal(board.tasks[t].status)
    }

    /** Blocked work the owner repairs: uncovered, no verdict record, and not stopping inside its bound. */
    predicate Root(t: TaskId) {
      t in board.tasks && t !in covered
      && var task := board.tasks[t];
         task.status.Blocked? && task.reviewOf.None? && (!StopPending(task) || !StopInBound(task.stop.value))
    }

    predicate Live(m: MemberId) {
      m in board.members && !board.members[m].phase.Stopped?
    }

    /** The review is open, and somebody who still runs is allowed to take it. */
    predicate LiveReview(review: Task, source: Task) {
      && review.reviewOf == Some(source.id)
      && (review.status.Pending? || review.status.Running? || QuiescencePending(review))
      && exists m <- board.members.Keys :: Live(m) && CanOwnReview(Some(source), m) && AssignmentAllows(board.tasks, review, m)
    }

    predicate Reviewable(source: Task) {
      exists r <- board.tasks.Keys :: LiveReview(board.tasks[r], source)
    }

    predicate UnfinishedDependency(task: Task, d: TaskId) {
      d in task.dependencies && d in board.effective && !Terminal(board.effective[d].status)
    }

    predicate HasUnfinishedDependency(task: Task) {
      exists d <- task.dependencies :: UnfinishedDependency(task, d)
    }

    predicate DependenciesMet(task: Task) {
      forall d <- task.dependencies :: d in board.effective && board.effective[d].status.Accepted?
    }

    /** A pending stop that fences `task`: its own, its member's, or one whose owner is unknown. */
    predicate FencesStart(c: Task, task: Task) {
      var m := if task.assignee.Some? then task.assignee else task.planned;
      StopPending(c) && (c.id == task.id || c.stop.value.member.None? || (m.Some? && c.stop.value.member == m))
    }

    /** Ready work waits on its host back-off, on the stops that fence it, or on its member's current lease. */
    predicate ReadyWaits(task: Task) {
      if task.preparation.Some? && task.preparation.value.retryAt.None? then false
      else if task.preparation.Some? && board.clock <= task.preparation.value.retryAt.value + tick then true
      else if exists c <- board.tasks.Keys :: FencesStart(board.tasks[c], task) then
        forall c <- board.tasks.Keys :: FencesStart(board.tasks[c], task) ==> StopInBound(board.tasks[c].stop.value)
      else
        var m := if task.assignee.Some? then task.assignee else task.planned;
        m.Some? && exists c <- board.tasks.Keys :: OpenOwner(board.tasks[c]) == m && board.tasks[c].attempt.value.leaseUntil >= board.clock
    }

    predicate PendingWaits(task: Task) {
      var source := board.ReviewSource(task);
      if board.Dangling(task) then false
      else if source.Some? then !Terminal(source.value.status) && Reviewable(source.value)
      else HasUnfinishedDependency(task) || (DependenciesMet(task) && ReadyWaits(task))
    }

    predicate BlockedWaits(task: Task) {
      if task.reviewOf.Some? && (task.reviewOf.value in covered || Root(task.reviewOf.value)) then true
      else if StopPending(task) then StopInBound(task.stop.value)
      else HasUnfinishedDependency(task)
    }

    /** The rule by which an unfinished task is taken to be waiting for a good reason. */
    predicate Waits(t: TaskId) {
      Unfinished(t) &&
      var task := board.tasks[t];
      if t in covered then true
      else match task.status
        case Running => task.attempt.Some?
        case Submitted => Reviewable(task) || t in awaiting
        case Blocked => BlockedWaits(task)
        case Pending => PendingWaits(task)
        case _ => false
    }

    /** Idle or waiting: a member's status follows from its phase and from whether it holds an attempt. */
    predicate Runnable(m: MemberId) {
      Live(m) && (board.members[m].phase.Parked? || !HasOpenAttempt(board.tasks, m))
    }

    predicate Dispatchable(t: TaskId) {
      t in board.tasks && board.tasks[t].status.Pending?
      && exists m <- board.members.Keys :: (wedged || Runnable(m)) && board.Eligible(board.tasks[t], board.members[m])
    }

    /** Nothing runs or is stopping, and no live member is ready for pending work. */
    predicate ReviewPathStalled() {
      && (forall t <- board.tasks.Keys :: !board.tasks[t].status.Running? && !QuiescencePending(board.tasks[t]))
      && (forall t <- board.tasks.Keys | board.tasks[t].status.Pending? ::
            forall m <- board.members.Keys :: Live(m) ==> !board.Ready(board.tasks[t], board.members[m]))
    }

    /** Work runs, is stopping, or is pending and ready for somebody live. */
    predicate Progresses(t: TaskId) {
      t in board.tasks &&
      var task := board.tasks[t];
      task.status.Running? || QuiescencePending(task)
      || (task.status.Pending? && exists m <- board.members.Keys :: Live(m) && board.Ready(task, board.members[m]))
    }

    /** A stall is no task's progress; so no task is dispatchable then, and what holds an attempt is no longer running. */
    lemma StallIsNoProgress(t: TaskId)
      ensures ReviewPathStalled() <==> forall u <- board.tasks.Keys :: !Progresses(u)
      ensures ReviewPathStalled() ==> !Dispatchable(t) && (t in board.tasks ==> !board.tasks[t].status.Running?)
    {
      if Dispatchable(t) {
        var m :| m in board.members && (wedged || Runnable(m)) && board.Eligible(board.tasks[t], board.members[m]);
        assert Live(m) && board.Ready(board.tasks[t], board.members[m]);
        assert Progresses(t);
      }
    }

    predicate AwaitsReviewAdmission(t: TaskId) {
      t in board.tasks && board.tasks[t].status.Submitted? && !Reviewable(board.tasks[t]) && t in awaiting
    }

    predicate Stalled() {
      board.tasks != map[] && ReviewPathStalled() && forall t <- board.tasks.Keys :: !AwaitsReviewAdmission(t)
    }

    /** The owner is told of a stall exactly when there is work, none progresses, and no submission without a live review awaits its admission. */
    lemma StalledIff()
      ensures Stalled() <==>
        && |board.tasks| > 0 && (forall t <- board.tasks.Keys :: !Progresses(t))
        && forall t <- board.tasks.Keys | board.tasks[t].status.Submitted? && t in awaiting ::
             exists r <- board.tasks.Keys :: LiveReview(board.tasks[r], board.tasks[t])
    {
      StallIsNoProgress(0);
    }

    /* ---- what a wait comes down to ---- */

    predicate MayReview(review: Task, source: Task, m: MemberId) {
      Live(m) && CanOwnReview(Some(source), m) && AssignmentAllows(board.tasks, review, m)
    }

    /** Somebody allowed to take the review is kept from it by no stop, or only by stops inside their bound. */
    predicate Attended(review: Task, source: Task) {
      exists m <- board.members.Keys ::
        MayReview(review, source, m) && forall c <- board.tasks.Keys :: OwesStop(board.tasks[c], m) ==> StopInBound(board.tasks[c].stop.value)
    }

    /** A wait that ends by itself: a lease, a bounded stop, a back-off, an owed admission, or a review somebody gets to. */
    predicate Anchored(t: TaskId) {
      Unfinished(t) &&
      var task := board.tasks[t];
      match task.status
        case Running => task.attempt.Some?
        case Submitted => t in awaiting
        case Blocked => StopPending(task) && StopInBound(task.stop.value)
        case Pending =>
          var source := board.ReviewSource(task);
          !board.Dangling(task) && DependenciesMet(task)
          && if source.Some? then source.value.status.Submitted? && Attended(task, source.value) && LiveReview(task, source.value)
             else ReadyWaits(task)
        case _ => false
    }

    /** A submitted task waits on each of its live reviews. */
    predicate AwaitsReview(t: TaskId, u: TaskId) {
      t in board.tasks && u in board.tasks && board.tasks[t].status.Submitted? && LiveReview(board.tasks[u], board.tasks[t])
    }

    /** A review that cannot begin yet waits on its source, or on what its source waits on. */
    predicate FollowsSource(t: TaskId, u: TaskId) {
      t in board.tasks && u in board.tasks && board.tasks[t].status.Pending? && board.tasks[t].reviewOf == Some(u)
      && !(board.tasks[u].status.Submitted? && LiveReview(board.tasks[t], board.tasks[u]))
    }

    /** What a blocked review recorded is its source's to repair. */
    ghost predicate FollowsRepair(t: TaskId, u: TaskId) {
      t in board.tasks && board.tasks[t].status.Blocked? && board.tasks[t].reviewOf.Some?
      && var source := board.tasks[t].reviewOf.value;
         Carries(board.tasks, u, source) || (u == source && Root(u))
    }

    /** `t` waits on the unfinished task `u`. */
    ghost predicate WaitEdge(t: TaskId, u: TaskId) {
      Unfinished(t) && Unfinished(u)
      && (Carries(board.tasks, u, t) || FollowsRepair(t, u) || FollowsSource(t, u) || AwaitsReview(t, u) || NeedsAccepted(t, u))
    }

    /** A dependency of `t` is carried by the unfinished task `u`. */
    predicate NeedsAccepted(t: TaskId, u: TaskId) {
      t in board.tasks && exists d <- board.tasks[t].dependencies :: UnfinishedDependency(board.tasks[t], d) && board.effective[d].id == u
    }

    /** Each unfinished effective dependency is an unfinished row of the board. */
    predicate EndpointsAreRows() {
      forall d <- board.effective.Keys :: !Terminal(board.effective[d].status) ==> Unfinished(board.effective[d].id)
    }

    /**
     * A live review of a submitted source that nothing unfinished carries, and
     * whose own prerequisites are neither all accepted nor still being worked on.
     */
    predicate Stranded(t: TaskId) {
      Unfinished(t) && t !in covered &&
      var task, source := board.tasks[t], board.ReviewSource(board.tasks[t]);
      && task.status.Pending? && !board.Dangling(task) && source.Some? && source.value.status.Submitted? && LiveReview(task, source.value)
      && !DependenciesMet(task) && !HasUnfinishedDependency(task)
    }

    /**
     * A live review that could begin, which nothing unfinished carries, while
     * everybody allowed to take it owes a stop past its bound.
     */
    predicate Unattended(t: TaskId) {
      Unfinished(t) && t !in covered &&
      var task, source := board.tasks[t], board.ReviewSource(board.tasks[t]);
      && task.status.Pending? && !board.Dangling(task) && source.Some? && source.value.status.Submitted? && LiveReview(task, source.value)
      && DependenciesMet(task) && !Attended(task, source.value)
    }

    /** A review whose source is unfinished and has a live review, this one or another. */
    ghost predicate ReviewsLive(t: TaskId) {
      t in board.tasks && board.tasks[t].status.Pending? && !board.Dangling(board.tasks[t])
      && exists r <- board.tasks.Keys :: ReviewedBy(t, r)
    }

    predicate ReviewedBy(t: TaskId, r: TaskId) {
      t in board.tasks && r in board.tasks && board.tasks[t].reviewOf.Some? && Unfinished(board.tasks[t].reviewOf.value)
      && LiveReview(board.tasks[r], board.tasks[board.tasks[t].reviewOf.value])
    }

    /** Work of its own, pending with its edges known or blocked and stopped, that follows an unfinished dependency. */
    ghost predicate FollowsDependency(t: TaskId) {
      t in board.tasks && (exists u :: NeedsAccepted(t, u)) &&
      var task := board.tasks[t];
      || (task.status.Pending? && task.reviewOf.None? && !board.Dangling(task))
      || (task.status.Blocked? && !StopPending(task))
    }

    /**
     * Which work that no unfinished task carries is taken to be waiting: exactly
     * what ends by itself, awaits a live review, has its repair or an unfinished
     * dependency to follow, or reviews an unfinished source with a live review.
     */
    lemma WaitsExactly(t: TaskId)
      requires Consistent() && EndpointsAreRows() && Unfinished(t) && t !in covered
      ensures Waits(t) <==>
        || Anchored(t) || (exists u :: AwaitsReview(t, u)) || (exists u :: Unfinished(u) && FollowsRepair(t, u))
        || FollowsDependency(t) || ReviewsLive(t)
    {
      var task := board.tasks[t];
      if HasUnfinishedDependency(task) {
        var d :| d in task.dependencies && UnfinishedDependency(task, d);
        assert NeedsAccepted(t, board.effective[d].id);
      }
      match task.status
      case Submitted => SubmittedExactly(t);
      case Blocked => BlockedExactly(t);
      case Pending => PendingExactly(t);
      case _ =>
    }

    lemma SubmittedExactly(t: TaskId)
      requires Consistent() && Unfinished(t) && t !in covered && board.tasks[t].status.Submitted?
      ensures Waits(t) <==> Anchored(t) || exists u :: AwaitsReview(t, u)
    {
      if Reviewable(board.tasks[t]) {
        var r :| r in board.tasks && LiveReview(board.tasks[r], board.tasks[t]);
        assert AwaitsReview(t, r);
      }
    }

    lemma BlockedExactly(t: TaskId)
      requires Consistent() && EndpointsAreRows() && Unfinished(t) && t !in covered && board.tasks[t].status.Blocked?
      ensures Waits(t) <==> Anchored(t) || (exists u :: Unfinished(u) && FollowsRepair(t, u)) || FollowsDependency(t)
    {
      var task := board.tasks[t];
      if task.reviewOf.Some? && task.reviewOf.value in covered {
        var c :| c in board.tasks && !Terminal(board.tasks[c].status) && Carries(board.tasks, c, task.reviewOf.value);
        assert Unfinished(c) && FollowsRepair(t, c);
      }
      if task.reviewOf.Some? && Root(task.reviewOf.value) {
        assert Unfinished(task.reviewOf.value) && FollowsRepair(t, task.reviewOf.value);
      }
      if HasUnfinishedDependency(task) {
        var d :| d in task.dependencies && UnfinishedDependency(task, d);
        assert NeedsAccepted(t, board.effective[d].id);
      }
    }

    lemma PendingExactly(t: TaskId)
      requires Consistent() && Unfinished(t) && t !in covered && board.tasks[t].status.Pending?
      ensures Waits(t) <==> Anchored(t) || FollowsDependency(t) || ReviewsLive(t)
    {
      var task := board.tasks[t];
      if task.reviewOf.Some? && task.reviewOf.value !in board.tasks {
        assert task.reviewOf.value in TaskEdges(task);
      }
      if HasUnfinishedDependency(task) {
        var d :| d in task.dependencies && UnfinishedDependency(task, d);
        assert NeedsAccepted(t, board.effective[d].id);
      }
      var source := board.ReviewSource(task);
      if source.Some? && Reviewable(source.value) && !Terminal(source.value.status) {
        var r :| r in board.tasks && LiveReview(board.tasks[r], source.value);
        assert ReviewedBy(t, r);
      }
    }

    /** Every wait ends by itself or follows another unfinished task, except exactly a stranded or an unattended review's. */
    lemma WaitsAreAnchoredOrFollow(t: TaskId)
      requires Consistent() && EndpointsAreRows() && Waits(t)
      ensures (Anchored(t) || exists u :: WaitEdge(t, u)) <==> !Stranded(t) && !Unattended(t)
    {
      var task := board.tasks[t];
      if t in covered {
        var c :| c in board.tasks && !Terminal(board.tasks[c].status) && Carries(board.tasks, c, t);
        assert WaitEdge(t, c);
      } else if Stranded(t) || Unattended(t) {
        StuckReviewFollowsNothing(t);
      } else if task.status.Submitted? {
        SubmittedAwaits(t);
      } else if task.status.Blocked? {
        BlockedFollows(t);
      } else if task.status.Pending? {
        PendingFollows(t);
      }
    }

    lemma StuckReviewFollowsNothing(t: TaskId)
      requires Consistent() && (Stranded(t) || Unattended(t))
      ensures !Anchored(t) && !exists u :: WaitEdge(t, u)
    {
      assert !Covered(board.tasks, t);
    }

    /**
     * What an attended review that could begin is waiting for, if anything: its
     * back-off, stops inside their bound, or the attempt its member holds.
     * Otherwise it is dispatchable now.
     */
    lemma AttendedReviewBegins(t: TaskId)
      requires Consistent() && Unfinished(t) && board.tasks[t].status.Pending? && board.ReviewSource(board.tasks[t]).Some? && Anchored(t)
      ensures var task, source := board.tasks[t], board.ReviewSource(board.tasks[t]).value;
        || Dispatchable(t)
        || (task.preparation.Some? && task.preparation.value.retryAt.Some? && board.clock < task.preparation.value.retryAt.value)
        || exists m <- board.members.Keys :: MayReview(task, source, m) && (BehindStops(m) || HasOpenAttempt(board.tasks, m))
    {
      var task, source := board.tasks[t], board.ReviewSource(board.tasks[t]).value;
      var m :| m in board.members && MayReview(task, source, m)
        && forall c <- board.tasks.Keys :: OwesStop(board.tasks[c], m) ==> StopInBound(board.tasks[c].stop.value);
      if !BehindStops(m) && !HasOpenAttempt(board.tasks, m)
         && !(task.preparation.Some? && task.preparation.value.retryAt.Some? && board.clock < task.preparation.value.retryAt.value) {
        assert !PendingStopOwner(board.tasks, m) && Runnable(m);
        FreeMemberDispatches(t, m);
      }
    }

    /** The member owes stops, every one of them inside its bound. */
    predicate BehindStops(m: MemberId) {
      PendingStopOwner(board.tasks, m) && forall c <- board.tasks.Keys :: OwesStop(board.tasks[c], m) ==> StopInBound(board.tasks[c].stop.value)
    }

    /** A free member takes a review that could begin, unless the one it is reserved for does. */
    lemma FreeMemberDispatches(t: TaskId, m: MemberId)
      requires Consistent() && t in board.tasks && board.ReviewSource(board.tasks[t]).Some? && Anchored(t) && board.tasks[t].status.Pending?
      requires MayReview(board.tasks[t], board.ReviewSource(board.tasks[t]).value, m) && !PendingStopOwner(board.tasks, m) && Runnable(m)
      requires var p := board.tasks[t].preparation; p.Some? && p.value.retryAt.Some? ==> p.value.retryAt.value <= board.clock
      ensures Dispatchable(t)
    {
      var task, member := board.tasks[t], board.members[m];
      assert member.id == m && board.TakesWork(member) && board.Capable(task, m);
      if task.assignee.Some? && task.assignee != Some(m) && board.PreferenceReserves(task, task.assignee.value) {
        var p := task.assignee.value;
        assert Runnable(p) && board.Eligible(task, board.members[p]);
      } else {
        assert board.Ready(task, member);
        assert board.Eligible(task, member);
      }
    }

    /** Whoever may take an unattended review is fenced, so dispatch never starts it while the stops are owed. */
    lemma UnattendedIsNotDispatchable(t: TaskId)
      requires Consistent() && Unattended(t)
      ensures !Dispatchable(t)
    {
      var task, source := board.tasks[t], board.ReviewSource(board.tasks[t]).value;
      forall m | m in board.members ensures !board.Eligible(task, board.members[m]) {
        var member := board.members[m];
        if board.Eligible(task, member) {
          assert member.id == m && board.TakesWork(member) && board.Ready(task, member) && board.Capable(task, m);
          assert MayReview(task, source, m) && !PendingStopOwner(board.tasks, m);
        }
      }
    }

    lemma SubmittedAwaits(t: TaskId)
      requires Consistent() && Waits(t) && board.tasks[t].status.Submitted? && t !in covered
      ensures Anchored(t) || exists u :: WaitEdge(t, u)
    {
      if t !in awaiting {
        var r :| r in board.tasks && LiveReview(board.tasks[r], board.tasks[t]);
        assert WaitEdge(t, r);
      }
    }

    lemma BlockedFollows(t: TaskId)
      requires Consistent() && EndpointsAreRows() && Waits(t) && board.tasks[t].status.Blocked? && t !in covered
      ensures Anchored(t) || exists u :: WaitEdge(t, u)
    {
      var task := board.tasks[t];
      if task.reviewOf.Some? && task.reviewOf.value in covered {
        var c :| c in board.tasks && !Terminal(board.tasks[c].status) && Carries(board.tasks, c, task.reviewOf.value);
        assert WaitEdge(t, c);
      } else if task.reviewOf.Some? && Root(task.reviewOf.value) {
        assert WaitEdge(t, task.reviewOf.value);
      } else if !Anchored(t) {
        var d :| d in task.dependencies && UnfinishedDependency(task, d);
        assert WaitEdge(t, board.effective[d].id);
      }
    }

    lemma PendingFollows(t: TaskId)
      requires Consistent() && EndpointsAreRows() && Waits(t) && board.tasks[t].status.Pending? && t !in covered && !Stranded(t) && !Unattended(t)
      ensures Anchored(t) || exists u :: WaitEdge(t, u)
    {
      var task, source := board.tasks[t], board.ReviewSource(board.tasks[t]);
      if source.Some? && !(source.value.status.Submitted? && LiveReview(task, source.value)) {
        assert WaitEdge(t, task.reviewOf.value);
      } else if !Anchored(t) {
        var d :| d in task.dependencies && UnfinishedDependency(task, d);
        assert WaitEdge(t, board.effective[d].id);
      }
    }

    /** Unfinished tasks, each waiting on the next. */
    ghost predicate WaitChain(chain: seq<TaskId>) {
      && chain != [] && Unfinished(chain[0])
      && forall i, j | 0 <= i < j < |chain| && j == i + 1 :: WaitEdge(chain[i], chain[j])
    }

    lemma ChainIsUnfinished(chain: seq<TaskId>, k: nat)
      requires WaitChain(chain) && k < |chain|
      ensures Unfinished(chain[k])
    {
      if k > 0 {
        assert WaitEdge(chain[k - 1], chain[k]);
      }
    }

    lemma ChainGrows(path: seq<TaskId>, u: TaskId)
      requires WaitChain(path) && WaitEdge(path[|path| - 1], u)
      ensures WaitChain(path + [u])
    {
    }

    /** The chain comes back to a task it has been at. */
    predicate Turns(chain: seq<TaskId>) {
      exists i :: 0 <= i < |chain| - 1 && chain[i] == chain[|chain| - 1]
    }

    /** A task nothing needs to wait behind: named to the owner, dispatchable, or anchored. */
    predicate Settled(named: set<TaskId>, t: TaskId) {
      Root(t) || Dispatchable(t) || t in named || Anchored(t)
    }

    /** A review that waits, legitimately by the rule, on nothing that moves. */
    predicate Stuck(t: TaskId) {
      Stranded(t) || Unattended(t)
    }

    predicate Explained(named: set<TaskId>, t: TaskId) {
      Root(t) || Dispatchable(t) || t in named || Waits(t)
    }

    /** Follow a chain of different tasks to its end. */
    lemma {:induction false} Follow(named: set<TaskId>, path: seq<TaskId>) returns (chain: seq<TaskId>)
      requires Consistent() && EndpointsAreRows() && forall u | Unfinished(u) :: Explained(named, u)
      requires WaitChain(path) && (forall t <- path :: Unfinished(t)) && forall i, j | 0 <= i < j < |path| :: path[i] != path[j]
      ensures WaitChain(chain) && chain[0] == path[0]
      ensures Settled(named, chain[|chain| - 1]) || Stuck(chain[|chain| - 1]) || Turns(chain)
      decreases |board.tasks.Keys| - |path|
    {
      var last := path[|path| - 1];
      assert last in path;
      chain := path;
      if !Settled(named, last) && !Stuck(last) {
        WaitsAreAnchoredOrFollow(last);
        var u :| WaitEdge(last, u);
        var longer := path + [u];
        ChainGrows(path, u);
        if u in path {
          chain := longer;
          var i :| 0 <= i < |path| && path[i] == u;
          assert longer[i] == longer[|longer| - 1];
        } else {
          DistinctFit(longer, board.tasks.Keys);
          chain := Follow(named, longer);
        }
      }
    }

    /**
     * When every unfinished task is a root, dispatchable, named or waiting,
     * every wait comes down, through unfinished tasks, to one of the first
     * three, to something that ends by itself, to a stranded or unattended
     * review, or back to a task it has been at.
     */
    lemma EveryWaitEnds(named: set<TaskId>, t: TaskId) returns (chain: seq<TaskId>)
      requires Consistent() && EndpointsAreRows() && Unfinished(t)
      requires forall u | Unfinished(u) :: Explained(named, u)
      ensures WaitChain(chain) && chain[0] == t
      ensures Settled(named, chain[|chain| - 1]) || Stuck(chain[|chain| - 1]) || Turns(chain)
    {
      chain := Follow(named, [t]);
    }

    /** Admission keeps every wait acyclic but that of a submitted task on its reviews. */
    ghost predicate AdmittedDescend(rank: map<TaskId, nat>) {
      (forall t <- board.tasks.Keys :: t in rank) && forall t, u | WaitEdge(t, u) && !AwaitsReview(t, u) :: rank[u] < rank[t]
    }

    /** The rows whose edges admission checks. */
    predicate InGraph(task: Task) {
      task.status.Pending? || task.status.Running? || task.status.Submitted? || QuiescencePending(task)
    }

    /** A row as admission sees it: dependencies lead to the rows that now carry them, and a review to its very source. */
    function AdmissionNode(t: TaskId): TaskGraph.Node
      requires t in board.tasks
    {
      var task := board.tasks[t];
      if InGraph(task) then TaskGraph.Node(t, Redirected(task.dependencies), task.reviewOf) else TaskGraph.Node(t, [], None)
    }

    function Redirected(ids: seq<TaskId>): (r: seq<TaskId>)
      ensures |r| == |ids| && forall k | 0 <= k < |ids| && ids[k] in board.effective :: r[k] == board.effective[ids[k]].id
    {
      seq(|ids|, k requires 0 <= k < |ids| => if ids[k] in board.effective then board.effective[ids[k]].id else ids[k])
    }

    /** These nodes are the board's rows. */
    ghost predicate GraphOf(nodes: seq<TaskGraph.Node>) {
      && (forall t <- board.tasks.Keys :: AdmissionNode(t) in nodes)
      && (forall n <- nodes :: n.id in board.tasks && n == AdmissionNode(n.id))
    }

    /** A wait on a repair, or of a blocked row that is not stopping: admission's graph has no edge for it. */
    ghost predicate OffGraph(t: TaskId, u: TaskId) {
      Unfinished(t) && Unfinished(u) && (Carries(board.tasks, u, t) || FollowsRepair(t, u) || (NeedsAccepted(t, u) && !InGraph(board.tasks[t])))
    }

    /**
     * A board whose graph passed admission: its ranking descends along every
     * wait on a dependency or a review source, and along the rest if it does
     * along repairs.
     */
    lemma AdmissionDescends(nodes: seq<TaskGraph.Node>, rank: map<TaskId, nat>)
      requires Consistent() && GraphOf(nodes) && TaskGraph.GoodEdges(nodes, board.tasks.Keys)
      requires Ranks(TaskGraph.Links(TaskGraph.ById(nodes)), rank)
      ensures forall t, u | WaitEdge(t, u) && !AwaitsReview(t, u) && !OffGraph(t, u) :: t in rank && u in rank && rank[u] < rank[t]
      ensures (forall t, u | OffGraph(t, u) :: t in rank && u in rank && rank[u] < rank[t]) ==> AdmittedDescend(rank)
    {
      var g := TaskGraph.ById(nodes);
      TaskGraph.ByIdIndexes(nodes);
      forall t | t in board.tasks ensures t in rank && t in g && g[t] == AdmissionNode(t) && TaskGraph.GoodNode(g[t], board.tasks.Keys) {
        assert AdmissionNode(t) in nodes;
      }
      forall t, u | WaitEdge(t, u) && !AwaitsReview(t, u) && !OffGraph(t, u) ensures t in rank && u in rank && rank[u] < rank[t] {
        WaitIsLink(t, u);
        assert Edge(TaskGraph.Links(g), t, u);
      }
    }

    lemma WaitIsLink(t: TaskId, u: TaskId)
      requires Consistent() && WaitEdge(t, u) && !AwaitsReview(t, u) && !OffGraph(t, u)
      ensures u in AdmissionNode(t).Edges()
    {
      var task := board.tasks[t];
      if FollowsSource(t, u) {
        assert AdmissionNode(t).Edges()[|task.dependencies|] == u;
      } else {
        var d :| d in task.dependencies && UnfinishedDependency(task, d) && board.effective[d].id == u;
        var k :| 0 <= k < |task.dependencies| && task.dependencies[k] == d;
        assert AdmissionNode(t).Edges()[k] == u;
      }
    }

    /** A submitted task's live review waits, in the end, on that task. */
    ghost predicate Knotted(path: seq<TaskId>) {
      WaitChain(path) && AwaitsReview(path[|path| - 1], path[0])
    }

    /** Where a wait comes back, it passes a submitted task that waits on its review. */
    lemma TurnPassesReview(rank: map<TaskId, nat>, chain: seq<TaskId>, i: nat) returns (k: nat)
      requires AdmittedDescend(rank) && WaitChain(chain) && i < |chain| - 1 && chain[i] == chain[|chain| - 1]
      ensures i <= k < |chain| - 1 && AwaitsReview(chain[k], chain[k + 1])
    {
      k := i;
      ChainIsUnfinished(chain, i);
      while k < |chain| - 1 && !AwaitsReview(chain[k], chain[k + 1])
        invariant i <= k < |chain| && Unfinished(chain[k])
        invariant if k == i then true else rank[chain[k]] < rank[chain[i]]
      {
        assert WaitEdge(chain[k], chain[k + 1]) && chain[k] in rank;
        k := k + 1;
      }
    }

    /** On an admitted board some wait comes back to where it was if and only if a review waits on its own submitted source. */
    lemma WaitsTurnIff(rank: map<TaskId, nat>)
      requires AdmittedDescend(rank)
      ensures (exists chain :: WaitChain(chain) && Turns(chain)) <==> (exists path :: Knotted(path))
    {
      if chain :| WaitChain(chain) && Turns(chain) {
        var i :| 0 <= i < |chain| - 1 && chain[i] == chain[|chain| - 1];
        var k := TurnPassesReview(rank, chain, i);
        TurnIsKnotted(chain, i, k);
      }
      if path :| Knotted(path) {
        var chain := path + [path[0]];
        ChainGrows(path, path[0]);
        assert chain[0] == chain[|chain| - 1];
      }
    }

    /** The turn, followed from the review round to its source. */
    lemma TurnIsKnotted(chain: seq<TaskId>, i: nat, k: nat)
      requires WaitChain(chain) && i <= k < |chain| - 1 && chain[i] == chain[|chain| - 1] && AwaitsReview(chain[k], chain[k + 1])
      ensures exists path :: Knotted(path)
    {
      var last := |chain| - 1;
      var path := chain[k + 1..last] + chain[i..k + 1];
      ChainIsUnfinished(chain, k + 1);
      forall a, b | 0 <= a < b < |path| && b == a + 1 ensures WaitEdge(path[a], path[b]) {
        var at := if a < last - k - 1 then k + 1 + a else i + a - (last - k - 1);
        assert path[a] == chain[at] && path[b] == chain[at + 1];
      }
      assert Knotted(path);
    }
  }

  /** A row with nothing but these. */
  function Bare(id: TaskId, status: Status, owner: Option<MemberId>, dependencies: seq<TaskId>, reviewOf: Option<TaskId>): Task {
    var attempt := if status.Running? && owner.Some? then Some(Attempt(id, owner.value, 10, 0, false)) else None;
    Task(id, status, 0, attempt, None, Some(if owner.Some? then {owner.value} else {}), None, None, None, dependencies, reviewOf, [], None, 0, None,
         status.Submitted?)
  }

  /** A submission 0, a review 2 of it that depends on `other`, which is task 1, and other work 3 that runs. */
  function ReviewedView(other: Task): View {
    var tasks := map[0 := Bare(0, Submitted, Some(0), [], None), 1 := other,
                     2 := Bare(2, Pending, None, [1], Some(0)), 3 := Bare(3, Running, Some(0), [], None)];
    View(Board(tasks, map[0 := Member(0, Active), 1 := Member(1, Active)], tasks, {0, 1}, 0), {}, {}, 0, 0, None, true, false)
  }

  /** The review depends on work that needs its source accepted. */
  function KnottedView(): View {
    ReviewedView(Bare(1, Pending, None, [0], None))
  }

  /** The review depends on work that was cancelled. */
  function CancelledView(): View {
    ReviewedView(Bare(1, Cancelled, None, [], None))
  }

  /** A review whose own dependency was cancelled still waits legitimately, and its source on it. */
  lemma StrandedReviewWaits(v: View)
    requires v == CancelledView()
    ensures v.Consistent() && v.EndpointsAreRows() && v.Stranded(2) && v.Waits(2) && v.Waits(0) && !v.Anchored(0)
  {
    CancelledBoard(v);
    CancelledStrands(v);
    assert v.LiveReview(v.board.tasks[2], v.board.tasks[0]);
  }

  lemma CancelledBoard(v: View)
    requires v == CancelledView()
    ensures v.Consistent() && v.EndpointsAreRows()
  {
    NothingIsCarried(v.board.tasks);
  }

  lemma CancelledStrands(v: View)
    requires v == CancelledView()
    ensures v.Stranded(2)
  {
    var review := v.board.tasks[2];
    assert v.Live(1) && v.LiveReview(review, v.board.tasks[0]);
    assert review.dependencies[0] == 1 && !v.board.effective[1].status.Accepted?;
    assert !v.DependenciesMet(review) && !v.HasUnfinishedDependency(review) && !v.board.Dangling(review);
  }

  /** Cancelled at epoch 5, and owed a stop by member 1 since time 0. */
  function StillStopping(): Task {
    Bare(1, Cancelled, None, [], None).(epoch := 5, stop := Some(StopMarker(5, Some(1), Handoff, Some(0), None)))
  }

  /** A submission 0, a review 2 of it, the cancelled task 1 whose stop is overdue, and other work 3 that runs. */
  function UnstoppedView(): View {
    var tasks := map[0 := Bare(0, Submitted, Some(0), [], None), 1 := StillStopping(),
                     2 := Bare(2, Pending, None, [], Some(0)), 3 := Bare(3, Running, Some(0), [], None)];
    View(Board(tasks, map[0 := Member(0, Active), 1 := Member(1, Active)], tasks, {0, 1}, 100), {}, {}, 0, 0, None, true, false)
  }

  /**
   * The handle of a cancelled task never acknowledges its stop. Its member is
   * the only one that may take the review, which waits legitimately, and so
   * does its source. No row is a root: nobody is told while other work runs.
   */
  lemma UnattendedReviewWaits(v: View)
    requires v == UnstoppedView()
    ensures v.Consistent() && v.EndpointsAreRows() && !v.ReviewPathStalled() && forall t <- v.board.tasks.Keys :: !v.Root(t)
    ensures v.Waits(0) && !v.Anchored(0) && v.Waits(2) && v.Unattended(2) && !v.Dispatchable(2)
  {
    UnstoppedBoard(v);
    UnstoppedFences(v);
    v.UnattendedIsNotDispatchable(2);
    assert v.LiveReview(v.board.tasks[2], v.board.tasks[0]);
  }

  lemma UnstoppedBoard(v: View)
    requires v == UnstoppedView()
    ensures v.Consistent() && v.EndpointsAreRows() && !v.ReviewPathStalled() && forall t <- v.board.tasks.Keys :: !v.Root(t)
  {
    NothingIsCarried(v.board.tasks);
    assert v.board.tasks[3].status.Running?;
  }

  lemma UnstoppedFences(v: View)
    requires v == UnstoppedView()
    ensures v.Unattended(2)
  {
    var review, source := v.board.tasks[2], v.board.tasks[0];
    assert v.MayReview(review, source, 1) && v.LiveReview(review, source);
    forall m | m in v.board.members && v.MayReview(review, source, m) ensures m == 1 {
      assert m == 0 ==> m in AuthorIdsOf(source);
    }
    assert OwesStop(v.board.tasks[1], 1) && !v.StopInBound(v.board.tasks[1].stop.value);
  }

  /** It waits, and none of the things a wait may come down to is at hand. */
  predicate Silent(v: View, t: TaskId) {
    v.Unfinished(t) && v.Waits(t) && !v.Root(t) && !v.Dispatchable(t) && !v.Anchored(t) && !v.Stuck(t)
  }

  /**
   * Admission allows a review to depend on work that needs its source accepted.
   * Each of the three waits on the next, none of them is a root, dispatchable
   * or anchored, and each counts as waiting legitimately: while other work
   * runs, nobody is told.
   */
  lemma KnottedReviewIsSilent()
    ensures var v := KnottedView();
      && v.Consistent() && v.EndpointsAreRows() && !v.ReviewPathStalled() && v.AdmittedDescend(map[0 := 0, 1 := 1, 2 := 2, 3 := 0])
      && v.WaitEdge(0, 2) && v.WaitEdge(2, 1) && v.WaitEdge(1, 0) && Silent(v, 0) && Silent(v, 1) && Silent(v, 2)
  {
    var v := KnottedView();
    KnottedBoard(v);
    KnottedIsAdmitted(v);
    KnottedWaits(v);
    KnottedIsNotReady(v, 1, 0);
    KnottedIsNotReady(v, 2, 1);
  }

  lemma KnottedBoard(v: View)
    requires v == KnottedView()
    ensures v.Consistent() && v.EndpointsAreRows() && !v.ReviewPathStalled()
  {
    NothingIsCarried(v.board.tasks);
    assert v.board.tasks[3].status.Running?;
  }

  lemma KnottedWaits(v: View)
    requires v == KnottedView()
    ensures v.WaitEdge(0, 2) && v.WaitEdge(2, 1) && v.WaitEdge(1, 0)
    ensures Silent(v, 0) && v.Waits(1) && v.Waits(2)
  {
    assert v.Live(1) && v.LiveReview(v.board.tasks[2], v.board.tasks[0]);
    assert v.board.tasks[2].dependencies[0] == 1 && v.board.tasks[1].dependencies[0] == 0;
    assert v.UnfinishedDependency(v.board.tasks[2], 1) && v.UnfinishedDependency(v.board.tasks[1], 0);
    assert v.AwaitsReview(0, 2);
  }

  /** A pending task of the board is not ready while its dependency is unfinished. */
  lemma KnottedIsNotReady(v: View, t: TaskId, d: TaskId)
    requires v == KnottedView() && (t, d) in {(1, 0), (2, 1)} && v.Waits(t)
    ensures Silent(v, t)
  {
    assert v.board.tasks[t].dependencies[0] == d;
    assert v.UnfinishedDependency(v.board.tasks[t], d) && !v.board.effective[d].status.Accepted?;
    forall m | m in v.board.members ensures !v.board.Eligible(v.board.tasks[t], v.board.members[m]) {
      assert !v.board.Capable(v.board.tasks[t], v.board.members[m].id);
    }
  }

  lemma KnottedIsAdmitted(v: View)
    requires v == KnottedView()
    ensures v.AdmittedDescend(map[0 := 0, 1 := 1, 2 := 2, 3 := 0])
  {
    NothingIsCarried(v.board.tasks);
    var rank := map[0 := 0, 1 := 1, 2 := 2, 3 := 0];
    forall t, u | v.WaitEdge(t, u) && !v.AwaitsReview(t, u) ensures rank[u] < rank[t] {
    }
  }

  lemma NothingIsCarried(tasks: map<TaskId, Task>)
    requires forall t <- tasks.Keys :: tasks[t].replacing == []
    ensures forall c, t :: !Carries(tasks, c, t)
  {
    forall path: seq<TaskId> | Walk(Replaced(tasks), path) ensures path[0] == path[|path| - 1] {
      NoFirstEdge(tasks, path);
    }
  }

  lemma NoFirstEdge(tasks: map<TaskId, Task>, path: seq<TaskId>)
    requires Walk(Replaced(tasks), path) && forall t <- tasks.Keys :: tasks[t].replacing == []
    ensures |path| == 1
  {
    assert |path| > 1 ==> Edge(Replaced(tasks), path[0], path[1]);
  }

  /**
   * The rule waits on one thing that ends nowhere. An ambiguous lineage stands
   * for a cancelled row by a blocked copy, and a task depending on it waits
   * although nothing unfinished carries it.
   */
  lemma AmbiguousLineageWaitsOnNothing(v: View, t: TaskId, d: TaskId)
    requires v.Consistent() && t in v.board.tasks && v.board.tasks[t].status.Pending? && t !in v.covered
    requires v.board.tasks[t].dependencies == [d] && v.board.tasks[t].reviewOf.None? && d in v.board.tasks && d in v.board.effective
    requires v.board.effective[d].status.Blocked? && v.board.effective[d].id in v.board.tasks
    ensures v.Waits(t) && !v.Anchored(t)
    ensures (exists u :: v.WaitEdge(t, u)) <==> v.Unfinished(v.board.effective[d].id)
  {
    var task := v.board.tasks[t];
    assert task.dependencies[0] == d;
    assert d in task.dependencies;
    assert v.UnfinishedDependency(task, d);
    if v.Unfinished(v.board.effective[d].id) {
      assert v.WaitEdge(t, v.board.effective[d].id);
    }
    forall u | v.WaitEdge(t, u) ensures u == v.board.effective[d].id {
      assert !Covered(v.board.tasks, t);
    }
  }

  /** Interpret a board: its replacement coverage is computed, so every classifier reads the same one. */
  method Interpret(
    board: Board, order: seq<TaskId>, awaiting: set<TaskId>, stopBound: int, tick: int,
    refusal: Option<string>, ownerStarted: bool, wedged: bool)
    returns (v: View)
    requires forall t :: t in order <==> t in board.tasks
    requires (forall t <- board.tasks.Keys :: board.tasks[t].id == t) && (forall m <- board.members.Keys :: board.members[m].id == m)
    ensures v.Consistent() && v.board == board
  {
    var covered := ReplacementCoverage(board.tasks, order);
    v := View(board, covered, awaiting, stopBound, tick, refusal, ownerStarted, wedged);
  }
}
