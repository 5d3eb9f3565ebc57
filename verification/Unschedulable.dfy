/**
 * The work no dispatch can ever start under the current plan, and the work
 * that waits behind a task: two fixpoint loops over the board's rows.
 */
module Unschedulable {
  import opened Wrappers
  import opened Tasks
  import opened Assignment
  import opened Board
  import opened Digraph

  /** Blocked, and not merely waiting for a stop to be acknowledged. */
  predicate DeadBlocked(task: Task) {
    task.status.Blocked? && !QuiescencePending(task)
  }

  /** Some live member may be handed `task` without authoring `source`. */
  predicate SomeoneMayTake(b: Board, task: Task, source: Option<Task>) {
    exists m <- b.members.Keys ::
      !b.members[m].phase.Stopped? && AssignmentAllows(b.tasks, task, m) && CanOwnReview(source, m)
  }

  /** A pending task nothing can start while the tasks of `dead` never finish. */
  predicate Stuck(b: Board, task: Task, dead: set<TaskId>) {
    && task.status.Pending?
    && (|| b.Dangling(task)
        || (exists d <- task.dependencies :: d in b.effective && (b.effective[d].status.Cancelled? || b.effective[d].id in dead))
        || (var source := b.ReviewSource(task);
            source.Some? && (Terminal(source.value.status) || source.value.id in dead || !SomeoneMayTake(b, task, source)))
        || !SomeoneMayTake(b, task, None))
  }

  /** Nothing outside `dead` is dead-blocked, or stuck behind it. */
  predicate Closed(b: Board, dead: set<TaskId>) {
    forall t <- b.tasks.Keys :: DeadBlocked(b.tasks[t]) || Stuck(b, b.tasks[t], dead) ==> t in dead
  }

  ghost predicate LeastClosed(b: Board, dead: set<TaskId>) {
    && dead <= b.tasks.Keys && Closed(b, dead)
    && forall s: set<TaskId> :: Closed(b, s) ==> dead <= s
  }

  /** `order` lists exactly the board's rows. */
  predicate Lists(order: seq<TaskId>, b: Board) {
    (forall t <- order :: t in b.tasks) && (forall t <- b.tasks.Keys :: t in order)
  }

  function Kept(order: seq<TaskId>, dead: set<TaskId>): seq<TaskId> {
    if order == [] then [] else
      Kept(order[..|order| - 1], dead) + (if order[|order| - 1] in dead then [order[|order| - 1]] else [])
  }

  lemma {:induction false} KeptIsFilter(order: seq<TaskId>, dead: set<TaskId>)
    ensures forall t :: t in Kept(order, dead) <==> t in order && t in dead
  {
    if order != [] {
      KeptIsFilter(order[..|order| - 1], dead);
      assert order == order[..|order| - 1] + [order[|order| - 1]];
    }
  }

  /** The kept tasks stand in the order they were listed in, as often as they were. */
  lemma {:induction false} KeptInOrder(order: seq<TaskId>, dead: set<TaskId>)
    ensures forall t <- dead :: multiset(Kept(order, dead))[t] == multiset(order)[t]
    ensures forall i, j | 0 <= i < j < |Kept(order, dead)| :: ListedBefore(order, Kept(order, dead)[i], Kept(order, dead)[j])
  {
    if order != [] {
      var before, last := order[..|order| - 1], order[|order| - 1];
      KeptInOrder(before, dead);
      KeptIsFilter(before, dead);
      assert order == before + [last];
      var kept := Kept(before, dead);
      forall i, j | 0 <= i < j < |Kept(order, dead)| ensures ListedBefore(order, Kept(order, dead)[i], Kept(order, dead)[j]) {
        if j < |kept| {
          assert ListedBefore(before, kept[i], kept[j]);
          var k, l :| 0 <= k < l < |before| && before[k] == kept[i] && before[l] == kept[j];
          assert order[k] == kept[i] && order[l] == kept[j];
        } else {
          assert kept[i] in before;
          var k :| 0 <= k < |before| && before[k] == kept[i];
          assert order[k] == kept[i] && order[|before|] == last;
        }
      }
    }
  }

  predicate ListedBefore(order: seq<TaskId>, a: TaskId, b: TaskId) {
    exists k, l :: 0 <= k < l < |order| && order[k] == a && order[l] == b
  }

  lemma StuckIsMonotone(b: Board, task: Task, small: set<TaskId>, large: set<TaskId>)
    requires small <= large && Stuck(b, task, small)
    ensures Stuck(b, task, large)
  {
  }

  function Listed(work: seq<TaskId>): set<TaskId> {
    set t | t in work
  }

  /** The loop computes the least closed set, whatever the order of the rows, and lists it in that order. */
  method Unschedulable(b: Board, order: seq<TaskId>) returns (work: seq<TaskId>)
    requires Lists(order, b)
    ensures LeastClosed(b, Listed(work)) && work == Kept(order, Listed(work))
  {
    var dead := set t | t in order && DeadBlocked(b.tasks[t]);
    var changed := true;
    while changed
      invariant dead <= b.tasks.Keys
      invariant forall t <- b.tasks.Keys :: DeadBlocked(b.tasks[t]) ==> t in dead
      invariant forall s: set<TaskId> :: Closed(b, s) ==> dead <= s
      invariant !changed ==> Closed(b, dead)
      decreases |b.tasks.Keys| - |dead|, if changed then 1 else 0
    {
      changed := false;
      ghost var before := dead;
      for i := 0 to |order|
        invariant before <= dead <= b.tasks.Keys
        invariant changed <==> dead != before
        invariant forall s: set<TaskId> :: Closed(b, s) ==> dead <= s
        invariant !changed ==> forall j | 0 <= j < i :: Stuck(b, b.tasks[order[j]], dead) ==> order[j] in dead
      {
        var t := order[i];
        if t !in dead && Stuck(b, b.tasks[t], dead) {
          forall s: set<TaskId> | Closed(b, s) ensures t in s {
            StuckIsMonotone(b, b.tasks[t], dead, s);
          }
          dead := dead + {t};
          changed := true;
        }
      }
      Grows(before, dead, b.tasks.Keys);
    }
    work := Kept(order, dead);
    KeptIsFilter(order, dead);
    assert Listed(work) == dead;
  }

  lemma Grows(small: set<TaskId>, large: set<TaskId>, all: set<TaskId>)
    requires small <= large <= all
    ensures |small| <= |large| <= |all| && (small != large ==> |small| < |large|)
  {
    assert large == small + (large - small);
    assert all == large + (all - large);
    if small != large {
      var t :| t in large - small;
      assert |large - small| > 0;
    }
  }

  lemma LeastIsUnique(b: Board, one: set<TaskId>, other: set<TaskId>)
    requires LeastClosed(b, one) && LeastClosed(b, other)
    ensures one == other
  {
  }

  /** Every member of the least set has its reason inside the set. */
  lemma LeastIsSupported(b: Board, dead: set<TaskId>, t: TaskId)
    requires LeastClosed(b, dead) && t in dead
    ensures DeadBlocked(b.tasks[t]) || Stuck(b, b.tasks[t], dead)
  {
    if !DeadBlocked(b.tasks[t]) && !Stuck(b, b.tasks[t], dead) {
      forall u | u in b.tasks.Keys && Stuck(b, b.tasks[u], dead - {t}) ensures u in dead - {t} {
        StuckIsMonotone(b, b.tasks[u], dead - {t}, dead);
      }
      assert Closed(b, dead - {t});
      assert false;
    }
  }

  /** The effective row of a met dependency is that accepted row of the board. */
  predicate Resolves(b: Board) {
    && (forall t <- b.tasks.Keys :: b.tasks[t].id == t)
    && (forall m <- b.members.Keys :: b.members[m].id == m)
    && (forall d <- b.effective.Keys :: b.effective[d].status.Accepted? ==>
          b.effective[d].id in b.tasks && b.tasks[b.effective[d].id].status.Accepted?)
  }

  /** No unschedulable task is ready for a live member: nothing dispatch could still start is called dead. */
  lemma UnschedulableIsNeverReady(b: Board, dead: set<TaskId>, t: TaskId, m: MemberId)
    requires LeastClosed(b, dead) && Resolves(b) && t in dead
    requires m in b.members && !b.members[m].phase.Stopped?
    ensures !b.Ready(b.tasks[t], b.members[m])
  {
    LeastIsSupported(b, dead, t);
    var task := b.tasks[t];
    if b.Ready(task, b.members[m]) {
      assert AssignmentAllows(b.tasks, task, m) && CanOwnReview(None, m) && CanOwnReview(b.ReviewSource(task), m);
      forall d | d in task.dependencies && d in b.effective ensures b.effective[d].status.Accepted? && b.effective[d].id !in dead {
        if b.effective[d].id in dead { LeastIsSupported(b, dead, b.effective[d].id); }
      }
      var source := b.ReviewSource(task);
      if source.Some? && source.value.id in dead { LeastIsSupported(b, dead, source.value.id); }
    }
  }

  /**
   * And nothing else is called dead: pending work outside the least set whose
   * prerequisites are accepted, or its source submitted, is for some live member
   * to start, once its back-off is over and no preference reserves it.
   */
  lemma SchedulableIsStartable(b: Board, dead: set<TaskId>, t: TaskId)
    requires LeastClosed(b, dead) && t in b.tasks && t !in dead && b.tasks[t].status.Pending?
    requires forall d <- b.tasks[t].dependencies :: d in b.effective ==> b.effective[d].status.Accepted?
    requires b.ReviewSource(b.tasks[t]).Some? ==> b.ReviewSource(b.tasks[t]).value.status.Submitted?
    ensures exists m <- b.members.Keys ::
      !b.members[m].phase.Stopped? && AssignmentAllows(b.tasks, b.tasks[t], m) && b.Capable(b.tasks[t], m)
  {
    var task, source := b.tasks[t], b.ReviewSource(b.tasks[t]);
    assert !Stuck(b, task, dead) && SomeoneMayTake(b, task, source);
    var m :| m in b.members && !b.members[m].phase.Stopped? && AssignmentAllows(b.tasks, task, m) && CanOwnReview(source, m);
    assert b.Capable(task, m);
  }

  /**
   * Pending work is called dead exactly for one of its prerequisites, its source
   * or its people: an id that is no row, a dependency cancelled or dead, a source
   * that is done or dead, or no live member allowed to take it, off its source.
   */
  lemma PendingIsDeadIff(b: Board, dead: set<TaskId>, t: TaskId)
    requires LeastClosed(b, dead) && t in b.tasks && b.tasks[t].status.Pending?
    ensures var task := b.tasks[t];
      t in dead <==>
        || (exists e <- task.dependencies :: e !in b.tasks) || (task.reviewOf.Some? && task.reviewOf.value !in b.tasks)
        || (exists d <- task.dependencies :: d in b.effective && (b.effective[d].status == Cancelled || b.effective[d].id in dead))
        || (task.reviewOf.Some? && task.reviewOf.value in b.tasks &&
            var source := b.tasks[task.reviewOf.value];
            source.status == Accepted || source.status == Cancelled || source.id in dead)
        || (forall m <- b.members.Keys :: b.members[m].phase.Stopped? || !MayStart(b, task, m))
  {
    var task := b.tasks[t];
    DanglingIff(b, task);
    NobodyIff(b, task);
    if t in dead { LeastIsSupported(b, dead, t); }
  }

  /** The member may take the task and, if it is a review, had no hand in its source. */
  predicate MayStart(b: Board, task: Task, m: MemberId) {
    AssignmentAllows(b.tasks, task, m)
    && (task.reviewOf.Some? && task.reviewOf.value in b.tasks ==> m !in AuthorIdsOf(b.tasks[task.reviewOf.value]))
  }

  lemma DanglingIff(b: Board, task: Task)
    ensures b.Dangling(task) <==>
      (exists e <- task.dependencies :: e !in b.tasks) || (task.reviewOf.Some? && task.reviewOf.value !in b.tasks)
  {
    if task.reviewOf.Some? { assert task.reviewOf.value in TaskEdges(task); }
    forall e | e in task.dependencies ensures e in TaskEdges(task) {}
  }

  lemma NobodyIff(b: Board, task: Task)
    ensures var source := b.ReviewSource(task);
      (source.Some? && !SomeoneMayTake(b, task, source)) || !SomeoneMayTake(b, task, None)
      <==> forall m <- b.members.Keys :: b.members[m].phase.Stopped? || !MayStart(b, task, m)
  {
  }

  /** Blocked work is called dead unless it is only stopping. */
  lemma BlockedIsDead(b: Board, dead: set<TaskId>, t: TaskId)
    requires LeastClosed(b, dead) && t in b.tasks && !b.tasks[t].status.Pending?
    ensures t in dead <==> b.tasks[t].status.Blocked? && (b.tasks[t].stop.None? || b.tasks[t].stop.value.epoch != b.tasks[t].epoch)
  {
    if t in dead { LeastIsSupported(b, dead, t); }
  }

  /* ---- what waits behind a task ---- */

  /** `task` depends on, replaces or reviews `id`. */
  predicate WaitsOn(task: Task, id: TaskId) {
    id in task.dependencies || id in task.replacing || task.reviewOf == Some(id)
  }

  lemma WaitsOnIff(task: Task, id: TaskId)
    ensures WaitsOn(task, id) <==> id in TaskEdges(task) + task.replacing
  {
  }

  predicate Unfinished(b: Board, root: TaskId, t: TaskId) {
    t in b.tasks && t != root && !Terminal(b.tasks[t].status)
  }

  /** A path of unfinished tasks from its first to `root`, each waiting on the next. */
  predicate WaitPath(b: Board, root: TaskId, path: seq<TaskId>) {
    && path != []
    && (forall i | 0 <= i < |path| :: Unfinished(b, root, path[i]))
    && (forall i | 0 <= i < |path| - 1 :: WaitsOn(b.tasks[path[i]], path[i + 1]))
    && WaitsOn(b.tasks[path[|path| - 1]], root)
  }

  ghost predicate WaitsBehind(b: Board, root: TaskId, t: TaskId) {
    exists path: seq<TaskId> :: WaitPath(b, root, path) && path[0] == t
  }

  predicate WaitsOnAny(task: Task, root: TaskId, found: seq<TaskId>) {
    WaitsOn(task, root) || exists f <- found :: WaitsOn(task, f)
  }

  lemma PathExtends(b: Board, root: TaskId, found: seq<TaskId>, t: TaskId)
    requires forall f <- found :: WaitsBehind(b, root, f)
    requires Unfinished(b, root, t) && WaitsOnAny(b.tasks[t], root, found)
    ensures WaitsBehind(b, root, t)
  {
    if WaitsOn(b.tasks[t], root) {
      assert WaitPath(b, root, [t]) && [t][0] == t;
    } else {
      var f :| f in found && WaitsOn(b.tasks[t], f);
      var path :| WaitPath(b, root, path) && path[0] == f;
      assert WaitPath(b, root, [t] + path) && ([t] + path)[0] == t;
    }
  }

  lemma {:induction false} PathIsFound(b: Board, root: TaskId, found: seq<TaskId>, path: seq<TaskId>)
    requires forall t <- b.tasks.Keys :: Unfinished(b, root, t) && WaitsOnAny(b.tasks[t], root, found) ==> t in found
    requires WaitPath(b, root, path)
    ensures path[0] in found
    decreases |path|
  {
    if |path| > 1 {
      assert forall i | 0 <= i < |path| - 1 :: path[1..][i] == path[i + 1];
      PathIsFound(b, root, found, path[1..]);
    }
  }

  /** The tasks found are exactly the reverse closure of `root` through unfinished work, each once. */
  method DependentsOf(b: Board, order: seq<TaskId>, root: TaskId) returns (found: seq<TaskId>)
    requires Lists(order, b)
    ensures forall t :: t in found <==> WaitsBehind(b, root, t)
    ensures forall i, j | 0 <= i < j < |found| :: found[i] != found[j]
  {
    found := [];
    var grew := true;
    while grew
      invariant forall f <- found :: f in b.tasks && WaitsBehind(b, root, f)
      invariant forall i, j | 0 <= i < j < |found| :: found[i] != found[j]
      invariant !grew ==> forall t <- b.tasks.Keys :: Unfinished(b, root, t) && WaitsOnAny(b.tasks[t], root, found) ==> t in found
      decreases |b.tasks.Keys| - |found|, if grew then 1 else 0
    {
      grew := false;
      ghost var before := found;
      for i := 0 to |order|
        invariant forall f <- found :: f in b.tasks && WaitsBehind(b, root, f)
        invariant forall i, j | 0 <= i < j < |found| :: found[i] != found[j]
        invariant |before| <= |found| && (grew <==> found != before) && (grew ==> |before| < |found|)
        invariant !grew ==> forall j | 0 <= j < i :: Unfinished(b, root, order[j]) && WaitsOnAny(b.tasks[order[j]], root, found) ==> order[j] in found
      {
        var t := order[i];
        if t != root && !Terminal(b.tasks[t].status) && t !in found && WaitsOnAny(b.tasks[t], root, found) {
          PathExtends(b, root, found, t);
          found := found + [t];
          grew := true;
        }
      }
      DistinctFit(found, b.tasks.Keys);
    }
    forall t | WaitsBehind(b, root, t) ensures t in found {
      var path :| WaitPath(b, root, path) && path[0] == t;
      PathIsFound(b, root, found, path);
    }
  }
}
