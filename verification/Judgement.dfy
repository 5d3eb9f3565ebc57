/** Judging a board: every notice due is put on the ledger, and nothing unfinished is left silent. */
module Judgement {
  import opened Wrappers
  import opened Tasks
  import opened Board
  import opened Unschedulable
  import NL = NoticeLedger
  import opened Notices
  import opened Waiting

  const RUNTIME := 0
  const DECISION := 0

  function SubjectOf(v: View, t: TaskId): NL.Subject
    requires t in v.board.tasks
  {
    NL.Subject(t, v.board.tasks[t].epoch)
  }

  function SubjectsOf(v: View, tasks: set<TaskId>): set<NL.Subject> {
    set t | t in tasks && t in v.board.tasks :: SubjectOf(v, t)
  }

  function Told(key: NL.Key): NL.Identity {
    NL.Fact(DECISION, key, RUNTIME)
  }

  function NonTerminal(v: View): set<TaskId> {
    set t | t in v.board.tasks && v.Unfinished(t)
  }

  function Finished(v: View): set<TaskId> {
    set t | t in v.board.tasks && Terminal(v.board.tasks[t].status)
  }

  /** What a stall's notice lists: what can never start, or failing that all that is not done. */
  function StuckWork(v: View, unschedulable: set<TaskId>): set<TaskId> {
    if unschedulable != {} then unschedulable else NonTerminal(v)
  }

  /** The unfinished tasks no namer and no wait accounts for. */
  function Unrecognised(v: View): set<TaskId> {
    set t | t in v.board.tasks && v.Unfinished(t) && !v.Root(t) && !v.Dispatchable(t) && !v.Waits(t)
  }

  /** The ledger holds what the board owes. */
  ghost predicate Witnessed(v: View, ledger: seq<NL.Row>, unschedulable: set<TaskId>) {
    && (forall t <- v.board.tasks.Keys | v.Root(t) :: NL.HasNotice(ledger, Told(NL.StallRoot(SubjectOf(v, t)))))
    && (v.refusal.Some? && v.Stalled() ==>
          NL.HasNotice(ledger, Told(NL.BoardStall(SubjectsOf(v, StuckWork(v, unschedulable)), v.refusal.value))))
    && (v.refusal.None? && !v.ownerStarted ==> NL.HasNotice(ledger, Told(NL.CoverageComplete(SubjectsOf(v, Finished(v))))))
    && (!v.ReviewPathStalled() && Unrecognised(v) != {} ==>
          NL.HasNotice(ledger, Told(NL.Fallthrough(SubjectsOf(v, Unrecognised(v))))))
  }

  lemma HasNoticeStays(before: seq<NL.Row>, after: seq<NL.Row>, i: NL.Identity)
    requires NL.LedgerKeeps(before, after) && NL.HasNotice(before, i)
    ensures NL.HasNotice(after, i)
  {
    var row :| row in before && NL.Carries(row, i);
    var r :| 0 <= r < |before| && before[r] == row;
    assert NL.Keeps(before[r], after[r]) && after[r] in after;
  }

  /** What the caller supplies besides the board: wording, the roots a decision already covers, and the review blockers on record. */
  datatype Answers = Answers(wording: map<NL.Key, string>, decided: set<TaskId>, blockers: seq<(TaskId, string)>)
  {
    function Text(key: NL.Key): string {
      if key in wording then wording[key] else ""
    }

    function Telling(key: NL.Key, covered: bool): NL.Telling {
      NL.Telling(Told(key), "", Text(key), None, [], covered)
    }
  }

  /** What the judgement told: each an owed fact in the words given for it, and no wake when a decision covers it. */
  ghost predicate Worded(v: View, unschedulable: set<TaskId>, a: Answers, now: int, before: seq<NL.Event>, after: seq<NL.Event>) {
    before <= after && forall i | |before| <= i < |after| :: WordedFact(v, unschedulable, a, now, after[i])
  }

  ghost predicate WordedFact(v: View, unschedulable: set<TaskId>, a: Answers, now: int, e: NL.Event) {
    e.Notify? && e.now == now && exists key :: Owed(v, unschedulable, a, key) && TellsKey(v, a, key, e.n)
  }

  predicate TellsKey(v: View, a: Answers, key: NL.Key, n: NL.Telling) {
    && n.identity == Told(key) && n.facts.None? && n.extras == []
    && n.content == (if key in a.wording then a.wording[key] else "")
    && (n.covered <==> key.StallRoot? && key.root.task in a.decided)
  }

  lemma WordedMore(
    v: View, unschedulable: set<TaskId>, a: Answers, now: int, first: seq<NL.Event>, before: seq<NL.Event>, key: NL.Key, n: NL.Telling)
    requires Worded(v, unschedulable, a, now, first, before) && Owed(v, unschedulable, a, key) && TellsKey(v, a, key, n)
    ensures Worded(v, unschedulable, a, now, first, before + [NL.Notify(n, now)])
  {
    var e := NL.Notify(n, now);
    assert WordedFact(v, unschedulable, a, now, e);
  }

  lemma WordedOn(
    v: View, unschedulable: set<TaskId>, a: Answers, now: int, first: seq<NL.Event>, before: seq<NL.Event>, after: seq<NL.Event>)
    requires Worded(v, unschedulable, a, now, first, before) && Worded(v, unschedulable, a, now, before, after)
    ensures Worded(v, unschedulable, a, now, first, after)
  {
  }

  /** Record one notice: held or written, the ledger holds it afterwards and everything it held before. */
  method Record(notices: Notices, n: NL.Telling, now: int)
    requires NL.Inv(notices.cfg, notices.View()) && NL.TellsFacts(NL.Notify(n, now))
    modifies notices
    ensures NL.Inv(notices.cfg, notices.View())
    ensures NL.HasNotice(notices.ledger, n.identity) && NL.LedgerKeeps(old(notices.ledger), notices.ledger)
    ensures notices.View() == NL.Step(notices.cfg, old(notices.View()), NL.Notify(n, now))
    ensures notices.past == old(notices.past) + [NL.Notify(n, now)]
  {
    ghost var s := notices.View();
    NL.StepKeepsInv(notices.cfg, s, NL.Notify(n, now));
    NL.StepKeepsRows(notices.cfg, s, NL.Notify(n, now));
    var recorded := notices.Notify(n, now);
    ToldIsHeld(notices.cfg, s, n, now);
  }

  lemma ToldIsHeld(cfg: NL.Config, s: NL.State, n: NL.Telling, now: int)
    requires n.identity.Fact?
    ensures NL.HasNotice(NL.Step(cfg, s, NL.Notify(n, now)).ledger, n.identity)
  {
    var after := NL.Step(cfg, s, NL.Notify(n, now)).ledger;
    if !NL.HasNotice(s.ledger, n.identity) {
      var r := NL.Receiver(cfg, s, n, now);
      NL.EnqueueCarries(cfg, s, n, now, 0, n.identity);
      NL.EnqueueCarries(cfg, s, n, now, r, n.identity);
      assert after[r] in after;
    }
  }

  /** A ledger that keeps another and holds each key of `keys`. */
  ghost predicate Holds(ledger: seq<NL.Row>, keys: set<NL.Key>) {
    forall k <- keys :: NL.HasNotice(ledger, Told(k))
  }

  lemma HoldsStays(before: seq<NL.Row>, after: seq<NL.Row>, keys: set<NL.Key>)
    requires NL.LedgerKeeps(before, after) && Holds(before, keys)
    ensures Holds(after, keys)
  {
    forall k | k in keys ensures NL.HasNotice(after, Told(k)) {
      HasNoticeStays(before, after, Told(k));
    }
  }

  /** The facts the ledger gained are among the keys told. */
  ghost predicate OnlyAdds(before: seq<NL.Row>, after: seq<NL.Row>, keys: set<NL.Key>) {
    forall i: NL.Identity | i.Fact? && NL.HasNotice(after, i) :: NL.HasNotice(before, i) || ToldAmong(keys, i)
  }

  predicate ToldAmong(keys: set<NL.Key>, i: NL.Identity) {
    exists k <- keys :: i == Told(k)
  }

  lemma AddsMore(first: seq<NL.Row>, before: seq<NL.Row>, after: seq<NL.Row>, keys: set<NL.Key>, more: set<NL.Key>)
    requires OnlyAdds(first, before, keys) && OnlyAdds(before, after, more) && keys <= more
    ensures OnlyAdds(first, after, more)
  {
  }

  /** A notify adds no fact but its own. */
  lemma NotifyAdds(cfg: NL.Config, s: NL.State, n: NL.Telling, now: int, key: NL.Key)
    requires n.identity == Told(key) && n.extras == []
    ensures OnlyAdds(s.ledger, NL.Step(cfg, s, NL.Notify(n, now)).ledger, {key})
  {
    var after := NL.Step(cfg, s, NL.Notify(n, now)).ledger;
    forall i: NL.Identity | i.Fact? && NL.HasNotice(after, i) ensures NL.HasNotice(s.ledger, i) || ToldAmong({key}, i) {
      var row :| row in after && NL.Carries(row, i);
      var r :| 0 <= r < |after| && after[r] == row;
      if after != s.ledger { NL.EnqueueCarries(cfg, s, n, now, r, i); }
      if r < |s.ledger| && NL.Carries(s.ledger[r], i) { assert s.ledger[r] in s.ledger; }
    }
  }

  method Tell(notices: Notices, key: NL.Key, covered: bool, a: Answers, now: int, ghost keys: set<NL.Key>) returns (ghost more: set<NL.Key>)
    requires NL.Inv(notices.cfg, notices.View()) && Holds(notices.ledger, keys) && !key.Raised? && !key.Batch?
    modifies notices
    ensures NL.Inv(notices.cfg, notices.View()) && more == keys + {key} && Holds(notices.ledger, more)
    ensures NL.LedgerKeeps(old(notices.ledger), notices.ledger) && NL.HasNotice(notices.ledger, Told(key))
    ensures forall first | OnlyAdds(first, old(notices.ledger), keys) :: OnlyAdds(first, notices.ledger, more)
    ensures covered ==> notices.window == old(notices.window)
    ensures notices.past == old(notices.past) + [NL.Notify(a.Telling(key, covered), now)]
  {
    ghost var before := notices.ledger;
    NotifyAdds(notices.cfg, notices.View(), a.Telling(key, covered), now, key);
    Record(notices, a.Telling(key, covered), now);
    forall first | OnlyAdds(first, before, keys) ensures OnlyAdds(first, notices.ledger, keys + {key}) {
      forall i: NL.Identity | i.Fact? && NL.HasNotice(notices.ledger, i) ensures NL.HasNotice(first, i) || ToldAmong(keys + {key}, i) {
        if ToldAmong({key}, i) { assert key in keys + {key}; }
      }
    }
    HoldsStays(before, notices.ledger, keys);
    more := keys + {key};
  }

  function RootKeys(v: View, order: seq<TaskId>): set<NL.Key>
    requires forall t <- order :: t in v.board.tasks
  {
    if order == [] then {} else
      var before, t := order[..|order| - 1], order[|order| - 1];
      assert t in order;
      RootKeys(v, before) + (if v.Root(t) then {NL.StallRoot(SubjectOf(v, t))} else {})
  }

  lemma {:induction false} KeyedAreRoots(v: View, order: seq<TaskId>, k: NL.Key)
    requires (forall t <- order :: t in v.board.tasks) && k in RootKeys(v, order)
    ensures exists t <- v.board.tasks.Keys :: v.Root(t) && k == NL.StallRoot(SubjectOf(v, t))
  {
    var t := order[|order| - 1];
    assert t in order;
    if !(v.Root(t) && k == NL.StallRoot(SubjectOf(v, t))) {
      KeyedAreRoots(v, order[..|order| - 1], k);
    }
  }

  lemma {:induction false} RootsAreKeyed(v: View, order: seq<TaskId>, t: TaskId)
    requires (forall t <- order :: t in v.board.tasks) && t in order && v.Root(t)
    ensures NL.StallRoot(SubjectOf(v, t)) in RootKeys(v, order)
  {
    if t != order[|order| - 1] {
      RootsAreKeyed(v, order[..|order| - 1], t);
    }
  }

  method TellRoots(v: View, order: seq<TaskId>, notices: Notices, a: Answers, now: int, ghost least: set<TaskId>) returns (ghost keys: set<NL.Key>)
    requires NL.Inv(notices.cfg, notices.View()) && forall t <- order :: t in v.board.tasks
    modifies notices
    ensures NL.Inv(notices.cfg, notices.View()) && keys == RootKeys(v, order) && Holds(notices.ledger, keys)
    ensures NL.LedgerKeeps(old(notices.ledger), notices.ledger) && OnlyAdds(old(notices.ledger), notices.ledger, keys)
    ensures (forall t <- order | v.Root(t) :: t in a.decided) ==> notices.window == old(notices.window)
    ensures Worded(v, least, a, now, old(notices.past), notices.past)
  {
    keys := {};
    NL.KeepsItself(notices.ledger);
    for i := 0 to |order|
      invariant NL.Inv(notices.cfg, notices.View()) && keys == RootKeys(v, order[..i]) && Holds(notices.ledger, keys)
      invariant NL.LedgerKeeps(old(notices.ledger), notices.ledger) && OnlyAdds(old(notices.ledger), notices.ledger, keys)
      invariant (forall t <- order | v.Root(t) :: t in a.decided) ==> notices.window == old(notices.window)
      invariant Worded(v, least, a, now, old(notices.past), notices.past)
    {
      assert order[..i + 1][..i] == order[..i];
      ghost var soFar := notices.ledger;
      NL.KeepsItself(soFar);
      if v.Root(order[i]) {
        var key, covered := NL.StallRoot(SubjectOf(v, order[i])), order[i] in a.decided;
        WordedMore(v, least, a, now, old(notices.past), notices.past, key, a.Telling(key, covered));
        keys := Tell(notices, key, covered, a, now, keys);
      }
      NL.KeepsIsTransitive(old(notices.ledger), soFar, notices.ledger);
    }
    assert order[..|order|] == order;
  }

  /* ---- the dispatch question ---- */

  function Question(v: View, t: TaskId): NL.Key
    requires t in v.board.tasks
  {
    NL.DispatchQuestion(SubjectOf(v, t))
  }

  /** A member could start work now; a wedged pass, which starts none, asks all the same. */
  predicate MayAsk(v: View) {
    v.wedged || exists m <- v.board.members.Keys :: CouldStart(v, m)
  }

  predicate CouldStart(v: View, m: MemberId) {
    v.Live(m) && (v.board.members[m].phase.Parked? || (!HasOpenAttempt(v.board.tasks, m) && m in v.board.startable))
  }

  /** The question may be asked exactly of a wedged pass, or while a member that has not stopped is parked, or idle and answered for. */
  lemma MayAskIff(v: View)
    ensures MayAsk(v) <==>
      v.wedged || exists m <- v.board.members.Keys ::
        && !v.board.members[m].phase.Stopped?
        && (v.board.members[m].phase.Parked?
            || (m in v.board.startable && forall t <- v.board.tasks.Keys :: OpenOwner(v.board.tasks[t]) != Some(m)))
  {
  }

  /** Dispatch could start this task, did not, and the owner was not asked about it at this epoch. */
  predicate Unasked(v: View, ledger: seq<NL.Row>, t: TaskId) {
    t in v.board.tasks && v.Dispatchable(t) && v.board.tasks[t].attempt.None? && !NL.HasNotice(ledger, Told(Question(v, t)))
  }

  /** The tasks still to be asked about, in board order. */
  function ToAsk(v: View, order: seq<TaskId>, ledger: seq<NL.Row>): seq<TaskId> {
    if order == [] then [] else
      ToAsk(v, order[..|order| - 1], ledger) + if Unasked(v, ledger, order[|order| - 1]) then [order[|order| - 1]] else []
  }

  lemma {:induction false} AskedFromOrder(v: View, order: seq<TaskId>, ledger: seq<NL.Row>, t: TaskId)
    ensures t in ToAsk(v, order, ledger) <==> t in order && Unasked(v, ledger, t)
  {
    if order != [] {
      AskedFromOrder(v, order[..|order| - 1], ledger, t);
    }
  }

  /** A ledger that only grew leaves no more to ask, and less once one of them is on it. */
  lemma {:induction false} LessToAsk(v: View, order: seq<TaskId>, before: seq<NL.Row>, after: seq<NL.Row>)
    requires NL.LedgerKeeps(before, after)
    ensures |ToAsk(v, order, after)| <= |ToAsk(v, order, before)|
    ensures (exists t <- order :: Unasked(v, before, t) && !Unasked(v, after, t)) ==> |ToAsk(v, order, after)| < |ToAsk(v, order, before)|
  {
    if order != [] {
      var last := order[|order| - 1];
      LessToAsk(v, order[..|order| - 1], before, after);
      if last in v.board.tasks && NL.HasNotice(before, Told(Question(v, last))) {
        HasNoticeStays(before, after, Told(Question(v, last)));
      }
      assert forall t :: t in order ==> t == last || t in order[..|order| - 1];
    }
  }

  /** The task is ready for a member that could be asked, holds no attempt, and the ledger has no question of it at its epoch. */
  predicate NotAskedYet(v: View, ledger: seq<NL.Row>, t: TaskId) {
    t in v.board.tasks && v.Dispatchable(t) && v.board.tasks[t].attempt.None?
    && !NL.HasNotice(ledger, NL.Fact(DECISION, NL.DispatchQuestion(NL.Subject(t, v.board.tasks[t].epoch)), RUNTIME))
  }

  predicate IsFirst(v: View, order: seq<TaskId>, ledger: seq<NL.Row>, i: nat)
    requires i < |order|
  {
    NotAskedYet(v, ledger, order[i]) && forall j | 0 <= j < i :: !NotAskedYet(v, ledger, order[j])
  }

  /** One question a judgement: about the first dispatchable task nobody was asked about yet. */
  method FirstToAsk(v: View, order: seq<TaskId>, notices: Notices) returns (question: Option<TaskId>)
    requires Lists(order, v.board)
    ensures question == var asks := ToAsk(v, order, notices.ledger); if asks == [] then None else Some(asks[0])
    ensures question.None? ==> forall t <- order :: !NotAskedYet(v, notices.ledger, t)
    ensures question.Some? ==> exists i :: 0 <= i < |order| && IsFirst(v, order, notices.ledger, i) && question == Some(order[i])
  {
    for i := 0 to |order|
      invariant ToAsk(v, order[..i], notices.ledger) == []
      invariant forall j | 0 <= j < i :: !NotAskedYet(v, notices.ledger, order[j])
    {
      assert order[..i + 1][..i] == order[..i];
      var t := order[i];
      assert t in v.board.tasks;
      if v.Dispatchable(t) && v.board.tasks[t].attempt.None? {
        var held := notices.LedgerHolds(Told(Question(v, t)));
        if !held {
          FirstStaysFirst(v, order, i + 1, notices.ledger);
          assert IsFirst(v, order, notices.ledger, i);
          return Some(t);
        }
      }
    }
    assert order[..|order|] == order;
    return None;
  }

  lemma {:induction false} FirstStaysFirst(v: View, order: seq<TaskId>, k: nat, ledger: seq<NL.Row>)
    requires k <= |order| && ToAsk(v, order[..k], ledger) != []
    ensures ToAsk(v, order, ledger) != [] && ToAsk(v, order, ledger)[0] == ToAsk(v, order[..k], ledger)[0]
    decreases |order|
  {
    if k == |order| {
      assert order[..k] == order;
    } else {
      assert order[..|order| - 1][..k] == order[..k];
      FirstStaysFirst(v, order[..|order| - 1], k, ledger);
    }
  }

  /** What this judgement may tell the owner, and no other fact. */
  ghost predicate Owed(v: View, unschedulable: set<TaskId>, a: Answers, k: NL.Key) {
    match k
    case StallRoot(subject) => exists t <- v.board.tasks.Keys :: v.Root(t) && subject == SubjectOf(v, t)
    case ReviewBlocked(subject, reason) =>
      v.wedged && exists b <- a.blockers :: b.0 in v.board.tasks && subject == SubjectOf(v, b.0) && reason == b.1
    case DispatchQuestion(subject) =>
      MayAsk(v) && exists t <- v.board.tasks.Keys :: v.Dispatchable(t) && v.board.tasks[t].attempt.None? && subject == SubjectOf(v, t)
    case CoverageComplete(subjects) => v.refusal.None? && !v.ownerStarted && subjects == SubjectsOf(v, Finished(v))
    case BoardStall(subjects, refusal) =>
      v.refusal == Some(refusal) && v.Stalled() && subjects == SubjectsOf(v, StuckWork(v, unschedulable))
    case Fallthrough(subjects) => !v.ReviewPathStalled() && Unrecognised(v) != {} && subjects == SubjectsOf(v, Unrecognised(v))
    case _ => false
  }

  /** A review decision on record, at its task's present epoch. */
  function BlockerKey(v: View, b: (TaskId, string)): NL.Key
    requires b.0 in v.board.tasks
  {
    NL.ReviewBlocked(SubjectOf(v, b.0), b.1)
  }

  function BlockerKeys(v: View, a: Answers): set<NL.Key> {
    set b | b in a.blockers && b.0 in v.board.tasks :: BlockerKey(v, b)
  }

  ghost predicate AllOwed(v: View, unschedulable: set<TaskId>, a: Answers, keys: set<NL.Key>) {
    forall k <- keys :: Owed(v, unschedulable, a, k)
  }

  predicate KeysUpTo(v: View, a: Answers, n: nat, keys: set<NL.Key>) {
    forall j | 0 <= j < n && j < |a.blockers| && a.blockers[j].0 in v.board.tasks :: BlockerKey(v, a.blockers[j]) in keys
  }

  lemma BlockerIsOwed(v: View, a: Answers, least: set<TaskId>, b: (TaskId, string))
    requires v.wedged && b in a.blockers && b.0 in v.board.tasks
    ensures Owed(v, least, a, BlockerKey(v, b))
  {
  }

  /** The review decisions on record. */
  method TellBlockers(v: View, notices: Notices, a: Answers, now: int, ghost keys: set<NL.Key>, ghost least: set<TaskId>)
    returns (ghost more: set<NL.Key>)
    requires NL.Inv(notices.cfg, notices.View()) && Holds(notices.ledger, keys) && AllOwed(v, least, a, keys) && v.wedged
    modifies notices
    ensures NL.Inv(notices.cfg, notices.View()) && keys <= more && Holds(notices.ledger, more) && AllOwed(v, least, a, more)
    ensures forall first | OnlyAdds(first, old(notices.ledger), keys) :: OnlyAdds(first, notices.ledger, more)
    ensures BlockerKeys(v, a) <= more && NL.LedgerKeeps(old(notices.ledger), notices.ledger)
    ensures Worded(v, least, a, now, old(notices.past), notices.past)
  {
    ghost var before := notices.ledger;
    NL.KeepsItself(before);
    more := keys;
    for i := 0 to |a.blockers|
      invariant NL.Inv(notices.cfg, notices.View()) && keys <= more && Holds(notices.ledger, more)
      invariant NL.LedgerKeeps(before, notices.ledger) && AllOwed(v, least, a, more)
      invariant forall first | OnlyAdds(first, before, keys) :: OnlyAdds(first, notices.ledger, more)
      invariant KeysUpTo(v, a, i, more) && Worded(v, least, a, now, old(notices.past), notices.past)
    {
      var b := a.blockers[i];
      if b.0 in v.board.tasks {
        BlockerIsOwed(v, a, least, b);
        ghost var soFar := notices.ledger;
        WordedMore(v, least, a, now, old(notices.past), notices.past, BlockerKey(v, b), a.Telling(BlockerKey(v, b), false));
        more := Tell(notices, BlockerKey(v, b), false, a, now, more);
        NL.KeepsIsTransitive(before, soFar, notices.ledger);
      }
    }
    AllKeyed(v, a, more);
  }

  lemma AllKeyed(v: View, a: Answers, keys: set<NL.Key>)
    requires KeysUpTo(v, a, |a.blockers|, keys)
    ensures BlockerKeys(v, a) <= keys
  {
  }

  /** The dispatch question, while a member could start work. */
  method TellQuestion(v: View, order: seq<TaskId>, notices: Notices, a: Answers, now: int, ghost keys: set<NL.Key>, ghost least: set<TaskId>)
    returns (ghost more: set<NL.Key>)
    requires NL.Inv(notices.cfg, notices.View()) && Holds(notices.ledger, keys) && Lists(order, v.board) && AllOwed(v, least, a, keys)
    modifies notices
    ensures NL.Inv(notices.cfg, notices.View()) && keys <= more && Holds(notices.ledger, more) && AllOwed(v, least, a, more)
    ensures forall first | OnlyAdds(first, old(notices.ledger), keys) :: OnlyAdds(first, notices.ledger, more)
    ensures NL.LedgerKeeps(old(notices.ledger), notices.ledger) && (MayAsk(v) ==> Asks(v, order, old(notices.ledger), notices.ledger))
    ensures Worded(v, least, a, now, old(notices.past), notices.past)
  {
    ghost var before := notices.ledger;
    NL.KeepsItself(before);
    more := keys;
    if MayAsk(v) {
      var question := FirstToAsk(v, order, notices);
      if question.Some? {
        AskedFromOrder(v, order, before, question.value);
        WordedMore(v, least, a, now, notices.past, notices.past, Question(v, question.value), a.Telling(Question(v, question.value), false));
        more := Tell(notices, Question(v, question.value), false, a, now, more);
      }
      OneAsked(v, order, before, notices.ledger);
    }
  }

  /** Of what was to be asked nothing is left, or less than before. */
  predicate Asks(v: View, order: seq<TaskId>, before: seq<NL.Row>, after: seq<NL.Row>) {
    ToAsk(v, order, after) == [] || |ToAsk(v, order, after)| < |ToAsk(v, order, before)|
  }

  lemma OneAsked(v: View, order: seq<TaskId>, before: seq<NL.Row>, after: seq<NL.Row>)
    requires NL.LedgerKeeps(before, after)
    requires ToAsk(v, order, before) == [] ==> after == before
    requires ToAsk(v, order, before) != [] ==>
      var t := ToAsk(v, order, before)[0]; t in v.board.tasks ==> NL.HasNotice(after, Told(Question(v, t)))
    ensures Asks(v, order, before, after)
  {
    if ToAsk(v, order, before) != [] {
      var t := ToAsk(v, order, before)[0];
      assert t in ToAsk(v, order, before);
      AskedFromOrder(v, order, before, t);
      LessToAsk(v, order, before, after);
    }
  }

  /** The board's own fact: coverage while completion is allowed, the stall while it is refused and the board is stalled. */
  method TellBoardFact(v: View, unschedulable: set<TaskId>, notices: Notices, a: Answers, now: int, ghost keys: set<NL.Key>)
    returns (ghost more: set<NL.Key>)
    requires NL.Inv(notices.cfg, notices.View()) && Holds(notices.ledger, keys) && AllOwed(v, unschedulable, a, keys)
    modifies notices
    ensures NL.Inv(notices.cfg, notices.View()) && keys <= more && Holds(notices.ledger, more) && AllOwed(v, unschedulable, a, more)
    ensures forall first | OnlyAdds(first, old(notices.ledger), keys) :: OnlyAdds(first, notices.ledger, more)
    ensures v.refusal.None? && !v.ownerStarted ==> NL.CoverageComplete(SubjectsOf(v, Finished(v))) in more
    ensures Worded(v, unschedulable, a, now, old(notices.past), notices.past)
    ensures v.refusal.Some? && v.Stalled() ==> NL.BoardStall(SubjectsOf(v, StuckWork(v, unschedulable)), v.refusal.value) in more
    ensures NL.LedgerKeeps(old(notices.ledger), notices.ledger)
  {
    more := keys;
    NL.KeepsItself(notices.ledger);
    match v.refusal
    case None =>
      if !v.ownerStarted {
        var key := NL.CoverageComplete(SubjectsOf(v, Finished(v)));
        WordedMore(v, unschedulable, a, now, notices.past, notices.past, key, a.Telling(key, false));
        more := Tell(notices, key, false, a, now, more);
      }
    case Some(refusal) =>
      if v.Stalled() {
        var key := NL.BoardStall(SubjectsOf(v, StuckWork(v, unschedulable)), refusal);
        WordedMore(v, unschedulable, a, now, notices.past, notices.past, key, a.Telling(key, false));
        more := Tell(notices, key, false, a, now, more);
      }
  }

  /** The fallthrough names what nothing accounts for, while the board makes progress. */
  method TellUnrecognised(v: View, notices: Notices, a: Answers, now: int, ghost keys: set<NL.Key>, ghost least: set<TaskId>)
    returns (ghost more: set<NL.Key>)
    requires NL.Inv(notices.cfg, notices.View()) && Holds(notices.ledger, keys) && AllOwed(v, least, a, keys)
    modifies notices
    ensures NL.Inv(notices.cfg, notices.View()) && keys <= more && Holds(notices.ledger, more) && AllOwed(v, least, a, more)
    ensures forall first | OnlyAdds(first, old(notices.ledger), keys) :: OnlyAdds(first, notices.ledger, more)
    ensures !v.ReviewPathStalled() && Unrecognised(v) != {} ==> NL.Fallthrough(SubjectsOf(v, Unrecognised(v))) in more
    ensures Worded(v, least, a, now, old(notices.past), notices.past)
    ensures NL.LedgerKeeps(old(notices.ledger), notices.ledger)
  {
    more := keys;
    NL.KeepsItself(notices.ledger);
    if !v.ReviewPathStalled() && Unrecognised(v) != {} {
      var key := NL.Fallthrough(SubjectsOf(v, Unrecognised(v)));
      WordedMore(v, least, a, now, notices.past, notices.past, key, a.Telling(key, false));
      more := Tell(notices, key, false, a, now, more);
    }
  }

  lemma RootKeysAreOwed(v: View, order: seq<TaskId>, unschedulable: set<TaskId>, a: Answers)
    requires Lists(order, v.board)
    ensures AllOwed(v, unschedulable, a, RootKeys(v, order))
    ensures forall t <- v.board.tasks.Keys | v.Root(t) :: NL.StallRoot(SubjectOf(v, t)) in RootKeys(v, order)
  {
    forall t | t in v.board.tasks && v.Root(t) ensures NL.StallRoot(SubjectOf(v, t)) in RootKeys(v, order) {
      RootsAreKeyed(v, order, t);
    }
    forall k | k in RootKeys(v, order) ensures Owed(v, unschedulable, a, k) {
      KeyedAreRoots(v, order, k);
    }
  }

  /** Every fact the ledger gained is owed. */
  ghost predicate TellsOnlyOwed(v: View, unschedulable: set<TaskId>, a: Answers, before: seq<NL.Row>, after: seq<NL.Row>) {
    forall i: NL.Identity | i.Fact? && NL.HasNotice(after, i) && !NL.HasNotice(before, i) :: IsOwed(v, unschedulable, a, i)
  }

  ghost predicate IsOwed(v: View, unschedulable: set<TaskId>, a: Answers, i: NL.Identity) {
    exists k :: i == Told(k) && Owed(v, unschedulable, a, k)
  }

  lemma AddsOwed(v: View, unschedulable: set<TaskId>, a: Answers, before: seq<NL.Row>, after: seq<NL.Row>, keys: set<NL.Key>)
    requires OnlyAdds(before, after, keys) && AllOwed(v, unschedulable, a, keys)
    ensures TellsOnlyOwed(v, unschedulable, a, before, after)
  {
  }

  /** Ledgers that grew before and after the question leave it asked. */
  lemma AsksOver(v: View, order: seq<TaskId>, first: seq<NL.Row>, before: seq<NL.Row>, after: seq<NL.Row>, last: seq<NL.Row>)
    requires NL.LedgerKeeps(first, before) && Asks(v, order, before, after) && NL.LedgerKeeps(after, last)
    ensures Asks(v, order, first, last)
  {
    LessToAsk(v, order, first, before);
    LessToAsk(v, order, after, last);
  }

  /**
   * Judge an active board and record each notice it owes, and one more of the
   * dispatch questions while a member could start work, and nothing it does
   * not owe. `order` is the board's row order; the empty board is still to be
   * planned.
   */
  method EnsureWitness(v: View, active: bool, order: seq<TaskId>, notices: Notices, a: Answers, now: int)
    returns (ghost least: set<TaskId>)
    requires NL.Inv(notices.cfg, notices.View()) && Lists(order, v.board)
    modifies notices
    ensures NL.Inv(notices.cfg, notices.View()) && LeastClosed(v.board, least)
    ensures active && v.board.tasks != map[] ==> Witnessed(v, notices.ledger, least)
    ensures active && v.board.tasks != map[] && v.wedged ==> Holds(notices.ledger, BlockerKeys(v, a))
    ensures active && MayAsk(v) ==> Asks(v, order, old(notices.ledger), notices.ledger)
    ensures TellsOnlyOwed(v, least, a, old(notices.ledger), notices.ledger)
    ensures Worded(v, least, a, now, old(notices.past), notices.past)
    ensures !active || v.board.tasks == map[] ==> notices.View() == old(notices.View())
  {
    var stuck := Unschedulable.Unschedulable(v.board, order);
    var unschedulable := Listed(stuck);
    least := unschedulable;
    if active && order != [] {
      JudgeActive(v, order, unschedulable, notices, a, now);
    }
  }

  method JudgeActive(v: View, order: seq<TaskId>, unschedulable: set<TaskId>, notices: Notices, a: Answers, now: int)
    requires NL.Inv(notices.cfg, notices.View()) && Lists(order, v.board)
    modifies notices
    ensures NL.Inv(notices.cfg, notices.View()) && Witnessed(v, notices.ledger, unschedulable)
    ensures MayAsk(v) ==> Asks(v, order, old(notices.ledger), notices.ledger)
    ensures v.wedged ==> Holds(notices.ledger, BlockerKeys(v, a))
    ensures TellsOnlyOwed(v, unschedulable, a, old(notices.ledger), notices.ledger)
    ensures Worded(v, unschedulable, a, now, old(notices.past), notices.past)
  {
    ghost var first := notices.ledger;
    ghost var p0 := notices.past;
    ghost var keys := TellRoots(v, order, notices, a, now, unschedulable);
    RootKeysAreOwed(v, order, unschedulable, a);
    ghost var p1 := notices.past;
    ghost var roots, rooted := keys, notices.ledger;
    NL.KeepsItself(rooted);
    if v.wedged { keys := TellBlockers(v, notices, a, now, keys, unschedulable); }
    ghost var settled, p2 := notices.ledger, notices.past;
    WordedOn(v, unschedulable, a, now, p0, p1, p2);
    keys := TellQuestion(v, order, notices, a, now, keys, unschedulable);
    ghost var asked, p3 := notices.ledger, notices.past;
    WordedOn(v, unschedulable, a, now, p0, p2, p3);
    keys := TellBoardFact(v, unschedulable, notices, a, now, keys);
    ghost var told, fact, p4 := keys, notices.ledger, notices.past;
    WordedOn(v, unschedulable, a, now, p0, p3, p4);
    keys := TellUnrecognised(v, notices, a, now, keys, unschedulable);
    NL.KeepsIsTransitive(asked, fact, notices.ledger);
    WordedOn(v, unschedulable, a, now, p0, p4, notices.past);
    NL.KeepsIsTransitive(first, rooted, settled);
    if MayAsk(v) { AsksOver(v, order, first, settled, asked, notices.ledger); }
    AddsOwed(v, unschedulable, a, first, notices.ledger, keys);
    HeldIsWitnessed(v, notices.ledger, unschedulable, keys, roots, told);
  }

  lemma HeldIsWitnessed(
    v: View, ledger: seq<NL.Row>, unschedulable: set<TaskId>, keys: set<NL.Key>, roots: set<NL.Key>, told: set<NL.Key>)
    requires Holds(ledger, keys) && roots <= told <= keys
    requires forall t <- v.board.tasks.Keys | v.Root(t) :: NL.StallRoot(SubjectOf(v, t)) in roots
    requires v.refusal.Some? && v.Stalled() ==> NL.BoardStall(SubjectsOf(v, StuckWork(v, unschedulable)), v.refusal.value) in told
    requires v.refusal.None? && !v.ownerStarted ==> NL.CoverageComplete(SubjectsOf(v, Finished(v))) in told
    requires !v.ReviewPathStalled() && Unrecognised(v) != {} ==> NL.Fallthrough(SubjectsOf(v, Unrecognised(v))) in keys
    ensures Witnessed(v, ledger, unschedulable)
  {
  }

  /* ---- nothing is silent ---- */

  /** A root whose notice the ledger holds. */
  ghost predicate ToldRoot(v: View, ledger: seq<NL.Row>, t: TaskId) {
    v.Root(t) && NL.HasNotice(ledger, Told(NL.StallRoot(SubjectOf(v, t))))
  }

  /** Named by the fallthrough notice the ledger holds. */
  ghost predicate NamedByFallthrough(v: View, ledger: seq<NL.Row>, t: TaskId) {
    t in v.board.tasks && t in Unrecognised(v)
    && SubjectOf(v, t) in SubjectsOf(v, Unrecognised(v))
    && NL.HasNotice(ledger, Told(NL.Fallthrough(SubjectsOf(v, Unrecognised(v)))))
  }

  /** With live work on the board, every unfinished task is a told root, dispatchable, waiting, or named. */
  lemma NoSilentTask(v: View, ledger: seq<NL.Row>, unschedulable: set<TaskId>, t: TaskId)
    requires Witnessed(v, ledger, unschedulable) && !v.ReviewPathStalled() && v.Unfinished(t)
    ensures ToldRoot(v, ledger, t) || v.Dispatchable(t) || v.Waits(t) || NamedByFallthrough(v, ledger, t)
  {
    if !v.Root(t) && !v.Dispatchable(t) && !v.Waits(t) {
      assert t in Unrecognised(v);
    }
  }

  /** The fallthrough names no task that is told as a root, dispatchable or waiting. */
  lemma HealthyIsNotNamed(v: View, t: TaskId)
    requires v.Root(t) || v.Dispatchable(t) || v.Waits(t) || !v.Unfinished(t)
    ensures forall s <- SubjectsOf(v, Unrecognised(v)) :: s.task != t
  {
  }

  /** Whose names are on a notice, at their present epochs: the least unschedulable set or all that is open; what is done; what nothing accounts for. */
  lemma NoticeSubjects(v: View, unschedulable: set<TaskId>, subject: NL.Subject)
    ensures subject in SubjectsOf(v, StuckWork(v, unschedulable)) <==>
      && subject.task in v.board.tasks && subject.epoch == v.board.tasks[subject.task].epoch
      && (subject.task in unschedulable
          || (unschedulable == {} && !v.board.tasks[subject.task].status.Accepted? && !v.board.tasks[subject.task].status.Cancelled?))
    ensures subject in SubjectsOf(v, Finished(v)) <==>
      && subject.task in v.board.tasks && subject.epoch == v.board.tasks[subject.task].epoch
      && (v.board.tasks[subject.task].status.Accepted? || v.board.tasks[subject.task].status.Cancelled?)
    ensures subject in SubjectsOf(v, Unrecognised(v)) <==>
      && subject.task in v.board.tasks && subject.epoch == v.board.tasks[subject.task].epoch
      && v.Unfinished(subject.task) && !v.Root(subject.task) && !v.Dispatchable(subject.task) && !v.Waits(subject.task)
  {
  }

  /** Without live work, the stall is told with the work it names, a submission awaits the review admission, or completion is allowed. */
  lemma NoSilentStall(v: View, ledger: seq<NL.Row>, unschedulable: set<TaskId>)
    requires Witnessed(v, ledger, unschedulable) && v.ReviewPathStalled() && v.board.tasks != map[]
    ensures || v.refusal.None?
            || (exists t <- v.board.tasks.Keys :: v.AwaitsReviewAdmission(t))
            || NL.HasNotice(ledger, Told(NL.BoardStall(SubjectsOf(v, StuckWork(v, unschedulable)), v.refusal.value)))
  {
  }

  /**
   * The whole guarantee for one unfinished task of a board with live work: its
   * waits lead, through unfinished tasks, to a told root, a dispatchable task,
   * a task the fallthrough names, a wait that ends by itself, a stranded or
   * unattended review, or back to a task they have been at.
   */
  lemma NothingIsSilent(v: View, ledger: seq<NL.Row>, unschedulable: set<TaskId>, t: TaskId) returns (chain: seq<TaskId>)
    requires Witnessed(v, ledger, unschedulable) && !v.ReviewPathStalled() && v.Unfinished(t)
    requires v.Consistent() && v.EndpointsAreRows()
    ensures v.WaitChain(chain) && chain[0] == t
    ensures var last := chain[|chain| - 1];
      || ToldRoot(v, ledger, last) || v.Dispatchable(last) || v.Anchored(last) || NamedByFallthrough(v, ledger, last)
      || v.Stranded(last) || v.Unattended(last) || v.Turns(chain)
  {
    chain := v.EveryWaitEnds(Unrecognised(v), t);
    v.ChainIsUnfinished(chain, |chain| - 1);
    NoSilentTask(v, ledger, unschedulable, chain[|chain| - 1]);
  }
}
