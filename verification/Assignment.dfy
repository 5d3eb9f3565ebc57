/** Who may own a task: authorship, borrowing and the two sides of review independence. */
module Assignment {
  import opened Wrappers
  import opened Tasks

  /** Everyone who holds the task, is to hold it, or ever held it. */
  function AuthorIdsOf(task: Task): set<MemberId> {
    task.priorOwners.GetOr({})
    + (if task.attempt.Some? then {task.attempt.value.owner} else {})
    + (if task.assignee.Some? then {task.assignee.value} else {})
  }

  /** Independence: whoever had a hand in the source stays off its review. */
  predicate CanOwnReview(source: Option<Task>, member: MemberId) {
    source.None? || member !in AuthorIdsOf(source.value)
  }

  /** A preference binds until somebody has started; nothing started is ever taken over. */
  predicate CanBorrowTask(task: Task) {
    var untouched := if task.priorOwners.None? then task.epoch == 0 else task.priorOwners.value == {};
    task.mode == Some(Preferred) && task.status.Pending? && untouched && task.checkpoint.None?
    && task.attempt.None? && task.stop.None?
  }

  /** `review` is live, bound to `member`, and reviews `source`. */
  predicate BoundReview(review: Task, source: TaskId, member: MemberId) {
    review.reviewOf == Some(source) && review.assignee == Some(member) && !CanBorrowTask(review)
    && (review.status.Pending? || review.status.Running? || review.status.Submitted?)
  }

  /** Making `member` the author of `source` would leave its bound reviewer unable to own the review. */
  predicate StrandsReview(tasks: map<TaskId, Task>, source: TaskId, member: MemberId) {
    exists t <- tasks.Keys :: BoundReview(tasks[t], source, member)
  }

  predicate AssignmentAllows(tasks: map<TaskId, Task>, task: Task, member: MemberId) {
    task.assignee == Some(member)
    || ((task.assignee.None? || CanBorrowTask(task)) && !StrandsReview(tasks, task.id, member))
  }
}
