/**
 * The owner-notice ledger of one mission over values: rows, the wake-budget
 * window and its summary, and what every run of tellings, handoffs and
 * restarts keeps.
 */
module NoticeLedger {
  import opened Wrappers

  /** A task at its epoch. */
  datatype Subject = Subject(task: nat, epoch: nat)

  /** One allocation's crossing of a warning threshold. `review` names scope, dimension and limit. */
  datatype Crossing = Crossing(review: string, threshold: real)

  /**
   * What a fact is deduplicated by: the families judged off the board name their
   * subjects, an escalation its own fresh id, a budget warning its crossing or,
   * for several at once, all of them, and any other its own key.
   */
  datatype Key =
    | Named(key: string)
    | Raised(escalation: nat)
    | Crossed(crossing: Crossing)
    | Batch(crossings: seq<Crossing>)
    | StallRoot(root: Subject)
    | ReviewBlocked(source: Subject, reason: string)
    | DispatchQuestion(subject: Subject)
    | BoardStall(subjects: set<Subject>, refusal: string)
    | CoverageComplete(subjects: set<Subject>)
    | Fallthrough(subjects: set<Subject>)

  /** A fact's class, key and sender; a summary's own transport key names its window instead. */
  datatype Identity = Fact(class_: nat, key: Key, from: nat) | WakeBudget(startedAt: int)

  datatype Content = Plain(text: string) | Rendered(header: string, facts: seq<string>)

  /** One constituent of a summary: whose fact it is and where its text stands in the row's list. */
  datatype Range = Range(identity: Identity, start: nat, count: nat)

  datatype Row = Row(
    own: Identity, content: Content, facts: Option<seq<string>>, identities: seq<Identity>, ranges: seq<Range>,
    handedOff: bool, delivered: bool)

  datatype Window = Window(startedAt: int, count: nat, summary: Option<nat>)

  /** `warnAt` are the shares of an allocation it is warned at. */
  datatype Config = Config(wakeBudget: nat, windowMs: nat, limit: nat, warnAt: seq<real>)

  /** A row's id is its position: rows are never removed. `raised` counts the escalation ids given out. */
  datatype State = State(ledger: seq<Row>, window: Option<Window>, raised: nat)

  /** What a telling hands over. `extras` are the identities of the facts it batches; a covered one is recorded without waking anybody. */
  datatype Telling = Telling(
    identity: Identity, trigger: string, content: string, facts: Option<seq<string>>, extras: seq<Identity>, covered: bool)

  predicate Carries(row: Row, i: Identity) {
    row.own == i || i in row.identities
  }

  predicate HasNotice(ledger: seq<Row>, i: Identity) {
    exists row <- ledger :: Carries(row, i)
  }

  /** The window a telling at `now` counts in. */
  function WindowAt(cfg: Config, window: Option<Window>, now: int): Option<Window> {
    if cfg.wakeBudget == 0 then None
    else if window.Some? && now - window.value.startedAt <= cfg.windowMs then window
    else Some(Window(now, 0, None))
  }

  function Added(n: Telling): seq<string> {
    match n.facts
    case Some(facts) => facts
    case None => ["[" + n.trigger + "] " + n.content]
  }

  const SUMMARY_HEADER := "Wake budget reached"

  function SummaryRow(startedAt: int, n: Telling): Row {
    Row(WakeBudget(startedAt), Rendered(SUMMARY_HEADER, Added(n)), Some(Added(n)), [n.identity] + n.extras,
        [Range(n.identity, 0, |Added(n)|)], false, false)
  }

  function Appended(row: Row, n: Telling): Row {
    var before := row.facts.GetOr([]);
    row.(facts := Some(before + Added(n)), identities := row.identities + [n.identity] + n.extras,
         ranges := row.ranges + [Range(n.identity, |before|, |Added(n)|)],
         content := Rendered(SUMMARY_HEADER, before + Added(n)))
  }

  /** A row of its own; text past the limit keeps its full form among the row's facts. */
  function OwnRow(cfg: Config, n: Telling): Row {
    if |n.content| > cfg.limit then
      var facts := n.facts.GetOr([n.content]);
      Row(n.identity, Rendered("", facts), Some(facts), n.extras + [n.identity], [], false, false)
    else Row(n.identity, Plain(n.content), n.facts, n.extras, [], false, false)
  }

  /** The window's summary while it can still take a fact. */
  function OpenSummary(ledger: seq<Row>, window: Window): Option<nat> {
    match window.summary
    case Some(id) => if id < |ledger| && !ledger[id].delivered then Some(id) else None
    case None => None
  }

  function Summarized(s: State, window: Window, n: Telling): State {
    match OpenSummary(s.ledger, window)
    case Some(id) => s.(ledger := s.ledger[id := Appended(s.ledger[id], n)], window := Some(window))
    case None => s.(ledger := s.ledger + [SummaryRow(window.startedAt, n)], window := Some(window.(summary := Some(|s.ledger|))))
  }

  /** Record one fact, with no question whether the ledger has it. */
  function Enqueued(cfg: Config, s: State, n: Telling, now: int): State {
    if n.covered then s.(ledger := s.ledger + [OwnRow(cfg, n)])
    else match WindowAt(cfg, s.window, now)
      case None => s.(ledger := s.ledger + [OwnRow(cfg, n)])
      case Some(w) =>
        if w.count >= cfg.wakeBudget then Summarized(s, w, n)
        else s.(ledger := s.ledger + [OwnRow(cfg, n)], window := Some(w.(count := w.count + 1)))
  }

  /** Record a telling unless the ledger already holds its fact. */
  function Notified(cfg: Config, s: State, n: Telling, now: int): State {
    if HasNotice(s.ledger, n.identity) then s else Enqueued(cfg, s, n, now)
  }

  /* ---- the tellings that are not a caller's own ---- */

  const RUNTIME := 0
  const BUDGET := 3
  const ESCALATION := 7

  function CrossingFact(c: Crossing): Identity {
    Fact(BUDGET, Crossed(c), RUNTIME)
  }

  /** One allocation as the budget pass sees it: what is used or about to be, of how much. */
  datatype Allocation = Allocation(review: string, projected: int, limit: int, content: string)

  datatype Warning = Warning(crossing: Crossing, content: string)

  /** The last threshold the allocation has reached. */
  function Reached(warnAt: seq<real>, a: Allocation): Option<real> {
    if warnAt == [] || a.limit <= 0 then None
    else if a.projected as real >= warnAt[|warnAt| - 1] * a.limit as real then Some(warnAt[|warnAt| - 1])
    else Reached(warnAt[..|warnAt| - 1], a)
  }

  /** This allocation needs no warning at `threshold`: one there, or above it, is on the ledger. */
  predicate ToldAt(cfg: Config, ledger: seq<Row>, a: Allocation, threshold: real) {
    exists t <- cfg.warnAt :: t >= threshold && HasNotice(ledger, CrossingFact(Crossing(a.review, t)))
  }

  /** The crossings the owner was not told of. */
  function Warnings(cfg: Config, ledger: seq<Row>, found: seq<Allocation>): seq<Warning> {
    if found == [] then []
    else
      var a := found[|found| - 1];
      var reached := Reached(cfg.warnAt, a);
      Warnings(cfg, ledger, found[..|found| - 1])
      + if reached.None? || ToldAt(cfg, ledger, a, reached.value) then [] else [Warning(Crossing(a.review, reached.value), a.content)]
  }

  function CrossingsOf(warnings: seq<Warning>): (r: seq<Crossing>)
    ensures |r| == |warnings| && forall k | 0 <= k < |r| :: r[k] == warnings[k].crossing
  {
    seq(|warnings|, k requires 0 <= k < |warnings| => warnings[k].crossing)
  }

  function FactsOf(crossings: seq<Crossing>): (r: seq<Identity>)
    ensures |r| == |crossings| && forall k | 0 <= k < |r| :: r[k] == CrossingFact(crossings[k])
  {
    seq(|crossings|, k requires 0 <= k < |crossings| => CrossingFact(crossings[k]))
  }

  function ContentsOf(warnings: seq<Warning>): seq<string> {
    seq(|warnings|, k requires 0 <= k < |warnings| => warnings[k].content)
  }

  /** One owner wake for a whole pass: it carries every warning's own identity. */
  function BudgetTelling(warnings: seq<Warning>, text: string, instructions: string): Telling
    requires warnings != []
  {
    var crossings := CrossingsOf(warnings);
    var key := if |warnings| == 1 then Crossed(crossings[0]) else Batch(crossings);
    Telling(Fact(BUDGET, key, RUNTIME), "mission/budget-warning", text, Some(ContentsOf(warnings) + [instructions]), FactsOf(crossings), false)
  }

  /** An escalation's own fact, never deduplicated: its id is fresh. */
  function EscalationTelling(id: nat, from: nat, text: string): Telling {
    Telling(Fact(ESCALATION, Raised(id), from), "escalation/raised", text, None, [], false)
  }

  datatype Event =
    | Notify(n: Telling, now: int)
    | WarnBudget(found: seq<Allocation>, text: string, instructions: string, now: int)
    | Escalate(from: nat, text: string, now: int)
    | RolledBack(told: Event)
    | HandOff(id: nat, content: Content)
    | Acknowledge(id: nat)
    | Restart

  /** The first handoff fixes the text and detaches the row from its window. */
  function HandedOff(s: State, id: nat, content: Content): State
    requires id < |s.ledger|
  {
    var row := s.ledger[id];
    s.(ledger := if row.handedOff then s.ledger else s.ledger[id := row.(content := content, handedOff := true)],
       window := if s.window.Some? && s.window.value.summary == Some(id) then Some(s.window.value.(summary := None)) else s.window)
  }

  /** What an event records, if anything. */
  function ToldBy(cfg: Config, s: State, e: Event): Option<Telling> {
    match e
    case Notify(n, _) => if HasNotice(s.ledger, n.identity) then None else Some(n)
    case WarnBudget(found, text, instructions, _) =>
      var warnings := Warnings(cfg, s.ledger, found);
      if warnings == [] || HasNotice(s.ledger, BudgetTelling(warnings, text, instructions).identity) then None
      else Some(BudgetTelling(warnings, text, instructions))
    case Escalate(from, text, _) => Some(EscalationTelling(s.raised, from, text))
    case _ => None
  }

  function Spoken(cfg: Config, s: State, e: Event): State {
    match e
    case Notify(n, now) => Notified(cfg, s, n, now)
    case WarnBudget(found, text, instructions, now) =>
      var warnings := Warnings(cfg, s.ledger, found);
      if warnings == [] then s else Notified(cfg, s, BudgetTelling(warnings, text, instructions), now)
    case Escalate(from, text, now) => Enqueued(cfg, s.(raised := s.raised + 1), EscalationTelling(s.raised, from, text), now)
    case _ => s
  }

  /**
   * A telling whose transaction rolls back: its row is gone, but the window in
   * memory keeps what the telling made of it. A summary that went with the
   * transaction is none. Several tellings of one transaction are one such
   * event each, but for those the transaction found told.
   */
  function Retracted(s: State, after: State): State {
    var gone := after.window.Some? && after.window.value.summary.Some? && after.window.value.summary.value >= |s.ledger|;
    after.(ledger := s.ledger, window := if gone then Some(after.window.value.(summary := None)) else after.window)
  }

  function Step(cfg: Config, s: State, e: Event): State {
    match e
    case RolledBack(told) => Retracted(s, Spoken(cfg, s, told))
    case HandOff(id, content) => if id < |s.ledger| && !s.ledger[id].delivered then HandedOff(s, id, content) else s
    case Acknowledge(id) => if id < |s.ledger| && s.ledger[id].handedOff then s.(ledger := s.ledger[id := s.ledger[id].(delivered := true)]) else s
    case Restart => s.(window := None)
    case _ => Spoken(cfg, s, e)
  }

  function Run(cfg: Config, s: State, events: seq<Event>): State
    decreases |events|
  {
    if events == [] then s else Step(cfg, Run(cfg, s, events[..|events| - 1]), events[|events| - 1])
  }

  /* ---- the invariant ---- */

  /** The ranges follow one another from the first fact to the last, and each constituent's identity is on the row. */
  ghost predicate Partitioned(row: Row) {
    var facts := row.facts.GetOr([]);
    row.ranges != [] ==>
      && row.ranges[0].start == 0 && row.ranges[|row.ranges| - 1].start + row.ranges[|row.ranges| - 1].count == |facts|
      && (forall i, j | 0 <= i < j < |row.ranges| && j == i + 1 :: row.ranges[j].start == row.ranges[i].start + row.ranges[i].count)
      && (forall i | 0 <= i < |row.ranges| :: row.ranges[i].identity in row.identities)
  }

  predicate Summary(row: Row) {
    row.own.WakeBudget?
  }

  ghost predicate RowOk(row: Row) {
    Partitioned(row) && (Summary(row) <==> row.ranges != []) && (row.delivered ==> row.handedOff)
  }

  /** The window's summary is a summary row that was never handed off. */
  ghost predicate WindowOk(cfg: Config, s: State) {
    s.window.Some? ==>
      && s.window.value.count <= cfg.wakeBudget
      && (s.window.value.summary.Some? ==>
            var id := s.window.value.summary.value; id < |s.ledger| && Summary(s.ledger[id]) && !s.ledger[id].handedOff)
  }

  ghost predicate Inv(cfg: Config, s: State) {
    (forall i | 0 <= i < |s.ledger| :: RowOk(s.ledger[i])) && WindowOk(cfg, s)
  }

  /** What a notify's callers tell: one fact, under no summary's, escalation's or batch's key. */
  predicate TellsFacts(e: Event) {
    if e.RolledBack? then TellsFacts(e.told)
    else e.Notify? ==> e.n.identity.Fact? && e.n.extras == [] && !e.n.identity.key.Raised? && !e.n.identity.key.Batch?
  }

  lemma AppendedIsOk(row: Row, n: Telling)
    requires RowOk(row) && Summary(row)
    ensures RowOk(Appended(row, n))
  {
    var after := Appended(row, n);
    forall i, j | 0 <= i < j < |after.ranges| && j == i + 1 ensures after.ranges[j].start == after.ranges[i].start + after.ranges[i].count {
      if j < |row.ranges| { assert after.ranges[j] == row.ranges[j] && after.ranges[i] == row.ranges[i]; }
    }
    forall i | 0 <= i < |after.ranges| ensures after.ranges[i].identity in after.identities {
      if i < |row.ranges| { assert row.ranges[i].identity in row.identities; }
    }
  }

  lemma EnqueueKeepsInv(cfg: Config, s: State, n: Telling, now: int)
    requires Inv(cfg, s) && n.identity.Fact?
    ensures Inv(cfg, Enqueued(cfg, s, n, now))
  {
    var w := WindowAt(cfg, s.window, now);
    if !n.covered && w.Some? && w.value.count >= cfg.wakeBudget {
      match OpenSummary(s.ledger, w.value)
      case Some(id) => AppendedIsOk(s.ledger[id], n);
      case None =>
    }
  }

  lemma HandOffKeepsInv(cfg: Config, s: State, id: nat, content: Content)
    requires Inv(cfg, s) && id < |s.ledger|
    ensures Inv(cfg, HandedOff(s, id, content))
  {
    var next := HandedOff(s, id, content);
    forall i | 0 <= i < |next.ledger| ensures RowOk(next.ledger[i]) {
      assert RowOk(s.ledger[i]);
    }
  }

  lemma AcknowledgeKeepsInv(cfg: Config, s: State, id: nat)
    requires Inv(cfg, s)
    ensures Inv(cfg, Step(cfg, s, Acknowledge(id)))
  {
    var next := Step(cfg, s, Acknowledge(id));
    forall i | 0 <= i < |next.ledger| ensures RowOk(next.ledger[i]) {
      assert RowOk(s.ledger[i]);
    }
  }

  lemma SpeakingKeepsInv(cfg: Config, s: State, e: Event)
    requires Inv(cfg, s) && TellsFacts(e)
    ensures Inv(cfg, Spoken(cfg, s, e))
  {
    match e
    case Notify(n, now) => EnqueueKeepsInv(cfg, s, n, now);
    case WarnBudget(found, text, instructions, now) =>
      var warnings := Warnings(cfg, s.ledger, found);
      if warnings != [] { EnqueueKeepsInv(cfg, s, BudgetTelling(warnings, text, instructions), now); }
    case Escalate(from, text, now) => EnqueueKeepsInv(cfg, s.(raised := s.raised + 1), EscalationTelling(s.raised, from, text), now);
    case _ =>
  }

  /** What a rolled-back telling leaves: the ledger as it was, and a window that stands on it. */
  lemma RetractingKeepsInv(cfg: Config, s: State, e: Event)
    requires Inv(cfg, s) && TellsFacts(e)
    ensures Inv(cfg, Retracted(s, Spoken(cfg, s, e)))
  {
    SpeakingKeepsInv(cfg, s, e);
    SpeakingKeepsRows(cfg, s, e);
  }

  lemma StepKeepsInv(cfg: Config, s: State, e: Event)
    requires Inv(cfg, s) && TellsFacts(e)
    ensures Inv(cfg, Step(cfg, s, e))
  {
    match e
    case RolledBack(told) => RetractingKeepsInv(cfg, s, told);
    case HandOff(id, content) => if id < |s.ledger| { HandOffKeepsInv(cfg, s, id, content); }
    case Acknowledge(id) => AcknowledgeKeepsInv(cfg, s, id);
    case Restart =>
    case _ => SpeakingKeepsInv(cfg, s, e);
  }

  lemma {:induction false} RunKeepsInv(cfg: Config, s: State, events: seq<Event>)
    requires Inv(cfg, s) && forall e <- events :: TellsFacts(e)
    ensures Inv(cfg, Run(cfg, s, events))
    decreases |events|
  {
    if events != [] {
      RunKeepsInv(cfg, s, events[..|events| - 1]);
      StepKeepsInv(cfg, Run(cfg, s, events[..|events| - 1]), events[|events| - 1]);
    }
  }

  /* ---- what a row keeps ---- */

  /** Rows are never dropped and keep every identity; a handed-off row keeps its text and its facts. */
  ghost predicate Keeps(before: Row, after: Row) {
    && after.own == before.own && before.identities <= after.identities
    && before.facts.GetOr([]) <= after.facts.GetOr([]) && before.ranges <= after.ranges
    && (before.handedOff ==> after.(delivered := before.delivered) == before)
    && (before.delivered ==> after.delivered)
  }

  ghost predicate LedgerKeeps(before: seq<Row>, after: seq<Row>) {
    |before| <= |after| && forall i | 0 <= i < |before| :: Keeps(before[i], after[i])
  }

  lemma EnqueueKeepsRows(cfg: Config, s: State, n: Telling, now: int)
    requires Inv(cfg, s)
    ensures LedgerKeeps(s.ledger, Enqueued(cfg, s, n, now).ledger)
  {
  }

  lemma SpeakingKeepsRows(cfg: Config, s: State, e: Event)
    requires Inv(cfg, s)
    ensures LedgerKeeps(s.ledger, Spoken(cfg, s, e).ledger)
  {
    var told := ToldBy(cfg, s, e);
    if told.Some? {
      EnqueueKeepsRows(cfg, s.(raised := if e.Escalate? then s.raised + 1 else s.raised), told.value, e.now);
    }
  }

  lemma StepKeepsRows(cfg: Config, s: State, e: Event)
    requires Inv(cfg, s)
    ensures LedgerKeeps(s.ledger, Step(cfg, s, e).ledger)
  {
    SpeakingKeepsRows(cfg, s, e);
  }

  lemma KeepsItself(ledger: seq<Row>)
    ensures LedgerKeeps(ledger, ledger)
  {
  }

  lemma KeepsIsTransitive(a: seq<Row>, b: seq<Row>, c: seq<Row>)
    requires LedgerKeeps(a, b) && LedgerKeeps(b, c)
    ensures LedgerKeeps(a, c)
  {
    forall i | 0 <= i < |a| ensures Keeps(a[i], c[i]) {
      assert Keeps(a[i], b[i]) && Keeps(b[i], c[i]);
      PrefixIsTransitive(a[i].facts.GetOr([]), b[i].facts.GetOr([]), c[i].facts.GetOr([]));
    }
  }

  lemma PrefixIsTransitive(a: seq<string>, b: seq<string>, c: seq<string>)
    requires a <= b <= c
    ensures a <= c
  {
  }

  /**
   * Over any run: no row is dropped, no identity leaves its row, a summary only
   * grows, and once a delivery was handed off its text, facts, identities and
   * ranges never change again.
   */
  lemma {:induction false} RunKeepsRows(cfg: Config, s: State, events: seq<Event>)
    requires Inv(cfg, s) && forall e <- events :: TellsFacts(e)
    ensures LedgerKeeps(s.ledger, Run(cfg, s, events).ledger)
    decreases |events|
  {
    if events != [] {
      var before := events[..|events| - 1];
      RunKeepsRows(cfg, s, before);
      RunKeepsInv(cfg, s, before);
      StepKeepsRows(cfg, Run(cfg, s, before), events[|events| - 1]);
      KeepsIsTransitive(s.ledger, Run(cfg, s, before).ledger, Run(cfg, s, events).ledger);
    }
  }

  /* ---- one row for each fact ---- */

  /** No identity of a fact is on two rows. */
  ghost predicate OneRowEach(ledger: seq<Row>) {
    forall r, t, i: Identity | 0 <= r < t < |ledger| && i.Fact? :: !(Carries(ledger[r], i) && Carries(ledger[t], i))
  }

  /** The row that receives a telling: a new one, or the window's open summary. */
  function Receiver(cfg: Config, s: State, n: Telling, now: int): nat {
    var w := WindowAt(cfg, s.window, now);
    if !n.covered && w.Some? && w.value.count >= cfg.wakeBudget then OpenSummary(s.ledger, w.value).GetOr(|s.ledger|)
    else |s.ledger|
  }

  /** The telling's identities go to its receiver, and nothing else changes on any row's identities. */
  lemma EnqueueCarries(cfg: Config, s: State, n: Telling, now: int, r: nat, i: Identity)
    requires r < |Enqueued(cfg, s, n, now).ledger| && i.Fact? && n.identity.Fact?
    ensures Receiver(cfg, s, n, now) <= |s.ledger|
    ensures Receiver(cfg, s, n, now) < |Enqueued(cfg, s, n, now).ledger| <= |s.ledger| + 1
    ensures |s.ledger| <= |Enqueued(cfg, s, n, now).ledger|
    ensures |Enqueued(cfg, s, n, now).ledger| > |s.ledger| ==> Receiver(cfg, s, n, now) == |s.ledger|
    ensures Carries(Enqueued(cfg, s, n, now).ledger[r], i) <==>
      (r < |s.ledger| && Carries(s.ledger[r], i)) || (r == Receiver(cfg, s, n, now) && (i == n.identity || i in n.extras))
  {
  }

  /** No row but the receiver already carries one of the telling's identities. */
  ghost predicate Disjoint(cfg: Config, s: State, n: Telling, now: int) {
    forall r, i: Identity | 0 <= r < |s.ledger| && r != Receiver(cfg, s, n, now) && i.Fact? && (i == n.identity || i in n.extras) ::
      !Carries(s.ledger[r], i)
  }

  /** Telling a fact keeps one row for each exactly when what it batches is on no other row. */
  lemma TellingKeepsOneRow(cfg: Config, s: State, n: Telling, now: int)
    requires OneRowEach(s.ledger) && n.identity.Fact?
    ensures OneRowEach(Enqueued(cfg, s, n, now).ledger) <==> Disjoint(cfg, s, n, now)
  {
    var after, q := Enqueued(cfg, s, n, now).ledger, Receiver(cfg, s, n, now);
    if Disjoint(cfg, s, n, now) {
      forall r, t, i: Identity | 0 <= r < t < |after| && i.Fact? ensures !(Carries(after[r], i) && Carries(after[t], i)) {
        EnqueueCarries(cfg, s, n, now, r, i);
        EnqueueCarries(cfg, s, n, now, t, i);
      }
    } else {
      var r, i: Identity :| 0 <= r < |s.ledger| && r != q && i.Fact? && (i == n.identity || i in n.extras) && Carries(s.ledger[r], i);
      EnqueueCarries(cfg, s, n, now, 0, i);
      EnqueueCarries(cfg, s, n, now, r, i);
      EnqueueCarries(cfg, s, n, now, q, i);
      var low, high := if r < q then r else q, if r < q then q else r;
      assert 0 <= low < high < |after| && Carries(after[low], i) && Carries(after[high], i);
    }
  }

  /** A step whose telling, if any, is of facts on no other row than the one that receives it. */
  ghost predicate TellsOnce(cfg: Config, s: State, e: Event) {
    ToldBy(cfg, s, e).Some? ==> Disjoint(cfg, s, ToldBy(cfg, s, e).value, e.now)
  }

  /** A telling that batches nothing: notify asks the ledger first. */
  lemma UnbatchedNotifyTellsOnce(cfg: Config, s: State, n: Telling, now: int)
    requires n.extras == []
    ensures TellsOnce(cfg, s, Notify(n, now))
  {
    if !HasNotice(s.ledger, n.identity) {
      forall r | 0 <= r < |s.ledger| ensures !Carries(s.ledger[r], n.identity) {
        assert s.ledger[r] in s.ledger;
      }
    }
  }

  /** Every warning of a pass is of a crossing the ledger does not hold. */
  lemma {:induction false} WarningsAreNew(cfg: Config, ledger: seq<Row>, found: seq<Allocation>)
    ensures forall w <- Warnings(cfg, ledger, found) :: !HasNotice(ledger, CrossingFact(w.crossing))
  {
    if found != [] {
      var a := found[|found| - 1];
      WarningsAreNew(cfg, ledger, found[..|found| - 1]);
      if Reached(cfg.warnAt, a).Some? { ReachedIsConfigured(cfg.warnAt, a); }
    }
  }

  lemma {:induction false} ReachedIsConfigured(warnAt: seq<real>, a: Allocation)
    requires Reached(warnAt, a).Some?
    ensures Reached(warnAt, a).value in warnAt
  {
    if Reached(warnAt, a).value != warnAt[|warnAt| - 1] {
      ReachedIsConfigured(warnAt[..|warnAt| - 1], a);
    }
  }

  /** The budget pass batches only crossings it found off the ledger, so it needs no more than its own filter. */
  lemma WarnBudgetTellsOnce(cfg: Config, s: State, found: seq<Allocation>, text: string, instructions: string, now: int)
    ensures TellsOnce(cfg, s, WarnBudget(found, text, instructions, now))
  {
    var e := WarnBudget(found, text, instructions, now);
    if ToldBy(cfg, s, e).Some? {
      var n := ToldBy(cfg, s, e).value;
      WarningsAreNew(cfg, s.ledger, found);
      forall r, i: Identity | 0 <= r < |s.ledger| && i.Fact? && (i == n.identity || i in n.extras) ensures !Carries(s.ledger[r], i) {
        assert s.ledger[r] in s.ledger && !HasNotice(s.ledger, i);
      }
    }
  }

  /** Escalation ids on the ledger were given out. */
  ghost predicate IdsGiven(s: State) {
    forall r, i: Identity | 0 <= r < |s.ledger| && Carries(s.ledger[r], i) && i.Fact? && i.key.Raised? :: i.key.escalation < s.raised
  }

  /** An escalation's id is fresh, so its fact is on no row, though nothing asks the ledger. */
  lemma EscalateTellsOnce(cfg: Config, s: State, from: nat, text: string, now: int)
    requires IdsGiven(s)
    ensures TellsOnce(cfg, s, Escalate(from, text, now))
  {
  }

  /** A row that carries a batch carries each of its crossings. */
  ghost predicate BatchesWhole(ledger: seq<Row>) {
    forall r, i: Identity | 0 <= r < |ledger| && Carries(ledger[r], i) && i.Fact? && i.key.Batch? :: CarriesAll(ledger[r], i.key.crossings)
  }

  ghost predicate CarriesAll(row: Row, crossings: seq<Crossing>) {
    forall c <- crossings :: Carries(row, CrossingFact(c))
  }

  /** One row for each fact, with what the next telling relies on. */
  ghost predicate OneRow(s: State) {
    OneRowEach(s.ledger) && IdsGiven(s) && BatchesWhole(s.ledger)
  }

  lemma SameIdentitiesKeepOneRow(before: seq<Row>, after: seq<Row>)
    requires OneRowEach(before) && BatchesWhole(before) && |after| == |before|
    requires forall r | 0 <= r < |after| :: after[r].own == before[r].own && after[r].identities == before[r].identities
    ensures OneRowEach(after) && BatchesWhole(after)
  {
    forall r, i: Identity | 0 <= r < |after| && Carries(after[r], i) && i.Fact? && i.key.Batch? ensures CarriesAll(after[r], i.key.crossings) {
      assert Carries(before[r], i) && CarriesAll(before[r], i.key.crossings);
    }
  }

  /** A telling whose own key, if it is a batch's, is that of its extras, and whose extras are crossings. */
  ghost predicate WellBatched(n: Telling) {
    && n.identity.Fact? && (forall x <- n.extras :: x.Fact? && x.key.Crossed?)
    && (n.identity.key.Batch? ==> forall c <- n.identity.key.crossings :: CrossingFact(c) in n.extras)
  }

  lemma TellingKeepsBatchesWhole(cfg: Config, s: State, n: Telling, now: int)
    requires BatchesWhole(s.ledger) && WellBatched(n)
    ensures BatchesWhole(Enqueued(cfg, s, n, now).ledger)
  {
    var after := Enqueued(cfg, s, n, now).ledger;
    forall r, i: Identity | 0 <= r < |after| && Carries(after[r], i) && i.Fact? && i.key.Batch? ensures CarriesAll(after[r], i.key.crossings) {
      EnqueueCarries(cfg, s, n, now, r, i);
      forall c | c in i.key.crossings ensures Carries(after[r], CrossingFact(c)) {
        EnqueueCarries(cfg, s, n, now, r, CrossingFact(c));
        if r < |s.ledger| && Carries(s.ledger[r], i) { assert CarriesAll(s.ledger[r], i.key.crossings); }
      }
    }
  }

  lemma TellingKeepsIdsGiven(cfg: Config, s: State, n: Telling, now: int)
    requires IdsGiven(s) && WellBatched(n) && (n.identity.key.Raised? ==> n.identity.key.escalation < s.raised)
    ensures IdsGiven(Enqueued(cfg, s, n, now))
  {
    var after := Enqueued(cfg, s, n, now).ledger;
    forall r, i: Identity | 0 <= r < |after| && Carries(after[r], i) && i.Fact? && i.key.Raised? ensures i.key.escalation < s.raised {
      EnqueueCarries(cfg, s, n, now, r, i);
    }
  }

  lemma ToldIsWellBatched(cfg: Config, s: State, e: Event)
    requires TellsFacts(e) && ToldBy(cfg, s, e).Some?
    ensures WellBatched(ToldBy(cfg, s, e).value)
  {
    if e.WarnBudget? {
      var crossings := CrossingsOf(Warnings(cfg, s.ledger, e.found));
      forall c | c in crossings ensures CrossingFact(c) in FactsOf(crossings) {
        var k :| 0 <= k < |crossings| && crossings[k] == c;
        assert FactsOf(crossings)[k] == CrossingFact(c);
      }
    }
  }

  /** Whatever the host tells, and whenever: no fact gets a second row. */
  lemma StepKeepsOneRow(cfg: Config, s: State, e: Event)
    requires OneRow(s) && TellsFacts(e)
    ensures OneRow(Step(cfg, s, e))
  {
    var told := ToldBy(cfg, s, e);
    if told.Some? {
      ToldTellsOnce(cfg, s, e);
      ToldIsWellBatched(cfg, s, e);
      var given := s.(raised := if e.Escalate? then s.raised + 1 else s.raised);
      TellingKeepsOneRow(cfg, given, told.value, e.now);
      TellingKeepsBatchesWhole(cfg, given, told.value, e.now);
      TellingKeepsIdsGiven(cfg, given, told.value, e.now);
    } else {
      SameIdentitiesKeepOneRow(s.ledger, Step(cfg, s, e).ledger);
    }
  }

  lemma ToldTellsOnce(cfg: Config, s: State, e: Event)
    requires OneRow(s) && TellsFacts(e)
    ensures TellsOnce(cfg, s, e)
  {
    match e
    case Notify(n, now) => UnbatchedNotifyTellsOnce(cfg, s, n, now);
    case WarnBudget(found, text, instructions, now) => WarnBudgetTellsOnce(cfg, s, found, text, instructions, now);
    case Escalate(from, text, now) => EscalateTellsOnce(cfg, s, from, text, now);
    case _ =>
  }

  lemma {:induction false} RunKeepsOneRow(cfg: Config, s: State, events: seq<Event>)
    requires OneRow(s) && forall e <- events :: TellsFacts(e)
    ensures OneRow(Run(cfg, s, events))
    decreases |events|
  {
    if events != [] {
      RunKeepsOneRow(cfg, s, events[..|events| - 1]);
      StepKeepsOneRow(cfg, Run(cfg, s, events[..|events| - 1]), events[|events| - 1]);
    }
  }

  /** Exactly one row of the ledger carries `i`. */
  ghost predicate OnExactlyOne(ledger: seq<Row>, i: Identity) {
    exists r :: 0 <= r < |ledger| && Carries(ledger[r], i) && forall t | 0 <= t < |ledger| && t != r :: !Carries(ledger[t], i)
  }

  /** The facts an event is to tell: a notify's own, every crossing a budget pass found untold, an escalation's. */
  ghost predicate Tells(cfg: Config, s: State, e: Event, i: Identity) {
    match e
    case Notify(n, _) => i == n.identity
    case WarnBudget(found, _, _, _) => exists w <- Warnings(cfg, s.ledger, found) :: i == CrossingFact(w.crossing)
    case Escalate(from, _, _) => i == Fact(ESCALATION, Raised(s.raised), from)
    case _ => false
  }

  /**
   * Every fact told, at any step of any run, is on exactly one row at its end,
   * through later tellings, window rollovers, handoffs and restarts.
   */
  lemma ToldFactsStayOnOneRow(cfg: Config, s: State, first: seq<Event>, e: Event, rest: seq<Event>, i: Identity)
    requires Inv(cfg, s) && OneRow(s) && forall x <- first + [e] + rest :: TellsFacts(x)
    requires Tells(cfg, Run(cfg, s, first), e, i)
    ensures OnExactlyOne(Run(cfg, s, first + [e] + rest).ledger, i)
  {
    var upTo := first + [e];
    assert upTo[..|first|] == first;
    forall x | x in first || x == e || x in rest ensures TellsFacts(x) {
      assert x in first + [e] + rest;
    }
    RunKeepsInv(cfg, s, first);
    RunKeepsOneRow(cfg, s, first);
    StepKeepsInv(cfg, Run(cfg, s, first), e);
    RunSplits(cfg, s, upTo, rest);
    RunKeepsRows(cfg, Run(cfg, s, upTo), rest);
    RunKeepsOneRow(cfg, s, upTo + rest);
    var r := ToldIsCarried(cfg, Run(cfg, s, first), e, i);
    CarriedOnceAndKept(Run(cfg, s, upTo).ledger, Run(cfg, s, upTo + rest).ledger, r, i);
  }

  /** After the pass every crossing it was given is told, at its threshold or a higher one. */
  lemma EveryCrossingIsTold(cfg: Config, s: State, found: seq<Allocation>, text: string, instructions: string, now: int, a: Allocation)
    requires OneRow(s) && a in found && Reached(cfg.warnAt, a).Some?
    ensures ToldAt(cfg, Step(cfg, s, WarnBudget(found, text, instructions, now)).ledger, a, Reached(cfg.warnAt, a).value)
  {
    var e, reached := WarnBudget(found, text, instructions, now), Reached(cfg.warnAt, a).value;
    var after := Step(cfg, s, e).ledger;
    ReachedIsConfigured(cfg.warnAt, a);
    if ToldAt(cfg, s.ledger, a, reached) {
      var t :| t in cfg.warnAt && t >= reached && HasNotice(s.ledger, CrossingFact(Crossing(a.review, t)));
      HeldStays(cfg, s, e, CrossingFact(Crossing(a.review, t)));
    } else {
      UntoldIsWarned(cfg, s.ledger, found, a);
      var r := ToldIsCarried(cfg, s, e, CrossingFact(Crossing(a.review, reached)));
      assert after[r] in after;
    }
  }

  lemma {:induction false} UntoldIsWarned(cfg: Config, ledger: seq<Row>, found: seq<Allocation>, a: Allocation)
    requires a in found && Reached(cfg.warnAt, a).Some? && !ToldAt(cfg, ledger, a, Reached(cfg.warnAt, a).value)
    ensures exists w <- Warnings(cfg, ledger, found) :: w.crossing == Crossing(a.review, Reached(cfg.warnAt, a).value)
  {
    var last := |found| - 1;
    if found[last] == a {
      assert Warning(Crossing(a.review, Reached(cfg.warnAt, a).value), a.content) in Warnings(cfg, ledger, found);
    } else {
      UntoldIsWarned(cfg, ledger, found[..last], a);
      var w :| w in Warnings(cfg, ledger, found[..last]) && w.crossing == Crossing(a.review, Reached(cfg.warnAt, a).value);
      assert w in Warnings(cfg, ledger, found);
    }
  }

  /** A telling takes no identity off any row. */
  lemma HeldStays(cfg: Config, s: State, e: Event, i: Identity)
    requires e.WarnBudget? && HasNotice(s.ledger, i) && i.Fact?
    ensures HasNotice(Step(cfg, s, e).ledger, i)
  {
    var after := Step(cfg, s, e).ledger;
    var row :| row in s.ledger && Carries(row, i);
    var r :| 0 <= r < |s.ledger| && s.ledger[r] == row;
    if ToldBy(cfg, s, e).Some? { EnqueueCarries(cfg, s, ToldBy(cfg, s, e).value, e.now, r, i); }
    assert after[r] in after;
  }

  lemma CarriedOnceAndKept(before: seq<Row>, after: seq<Row>, r: nat, i: Identity)
    requires r < |before| && Carries(before[r], i) && LedgerKeeps(before, after) && OneRowEach(after) && i.Fact?
    ensures OnExactlyOne(after, i)
  {
    assert Keeps(before[r], after[r]);
    assert Carries(after[r], i);
    forall t | 0 <= t < |after| && t != r ensures !Carries(after[t], i) {
      var low, high := if r < t then r else t, if r < t then t else r;
      assert !(Carries(after[low], i) && Carries(after[high], i));
    }
  }

  lemma ToldIsCarried(cfg: Config, s: State, e: Event, i: Identity) returns (r: nat)
    requires BatchesWhole(s.ledger) && TellsFacts(e) && Tells(cfg, s, e, i)
    ensures r < |Step(cfg, s, e).ledger| && Carries(Step(cfg, s, e).ledger[r], i)
  {
    if e.Notify? && HasNotice(s.ledger, i) {
      var row :| row in s.ledger && Carries(row, i);
      r :| 0 <= r < |s.ledger| && s.ledger[r] == row;
    } else {
      if e.WarnBudget? { NewBatchIsTold(cfg, s, e, i); }
      var n := ToldBy(cfg, s, e).value;
      var given := s.(raised := if e.Escalate? then s.raised + 1 else s.raised);
      r := Receiver(cfg, given, n, e.now);
      EnqueueCarries(cfg, given, n, e.now, 0, i);
      EnqueueCarries(cfg, given, n, e.now, r, i);
    }
  }

  /** A pass with something to warn of is not taken for told: a row with its batch's key would carry its crossings. */
  lemma NewBatchIsTold(cfg: Config, s: State, e: Event, i: Identity)
    requires BatchesWhole(s.ledger) && e.WarnBudget? && Tells(cfg, s, e, i)
    ensures ToldBy(cfg, s, e).Some? && i in ToldBy(cfg, s, e).value.extras
  {
    var warnings := Warnings(cfg, s.ledger, e.found);
    var n, crossings := BudgetTelling(warnings, e.text, e.instructions), CrossingsOf(warnings);
    WarningsAreNew(cfg, s.ledger, e.found);
    var w :| w in warnings && i == CrossingFact(w.crossing);
    var k :| 0 <= k < |warnings| && warnings[k] == w;
    assert FactsOf(crossings)[k] == i;
    assert warnings[0] in warnings && crossings[0] in crossings;
    assert !HasNotice(s.ledger, n.identity);
  }

  lemma {:induction false} RunSplits(cfg: Config, s: State, a: seq<Event>, b: seq<Event>)
    ensures Run(cfg, s, a + b) == Run(cfg, Run(cfg, s, a), b)
    decreases |b|
  {
    if b == [] {
      assert a + b == a;
    } else {
      RunSplits(cfg, s, a, b[..|b| - 1]);
      assert (a + b)[..|a + b| - 1] == a + b[..|b| - 1];
    }
  }

  predicate Covers(range: Range, k: nat) {
    range.start <= k < range.start + range.count
  }

  lemma {:induction false} RangesAscend(row: Row, i: nat, j: nat)
    requires Partitioned(row) && i < j < |row.ranges|
    ensures row.ranges[i].start + row.ranges[i].count <= row.ranges[j].start
    decreases j
  {
    assert row.ranges[j].start == row.ranges[j - 1].start + row.ranges[j - 1].count;
    if i < j - 1 {
      RangesAscend(row, i, j - 1);
    }
  }

  lemma {:induction false} SomeRangeCovers(row: Row, k: nat, upTo: nat) returns (j: nat)
    requires Partitioned(row) && upTo < |row.ranges| && k < row.ranges[upTo].start + row.ranges[upTo].count
    ensures j <= upTo && Covers(row.ranges[j], k)
    decreases upTo
  {
    if k >= row.ranges[upTo].start {
      j := upTo;
    } else {
      assert row.ranges[upTo].start == row.ranges[upTo - 1].start + row.ranges[upTo - 1].count;
      j := SomeRangeCovers(row, k, upTo - 1);
    }
  }

  /** In every reachable ledger, each fact of a summary belongs to exactly one constituent, whose identity the row carries. */
  lemma SummariesPartitionTheirFacts(cfg: Config, s: State, events: seq<Event>, r: nat, k: nat)
    requires Inv(cfg, s) && forall e <- events :: TellsFacts(e)
    requires r < |Run(cfg, s, events).ledger|
    ensures var row := Run(cfg, s, events).ledger[r];
      Summary(row) && k < |row.facts.GetOr([])| ==>
        exists j :: 0 <= j < |row.ranges| && Covers(row.ranges[j], k) && Carries(row, row.ranges[j].identity)
          && forall i | 0 <= i < |row.ranges| && i != j :: !Covers(row.ranges[i], k)
  {
    RunKeepsInv(cfg, s, events);
    var row := Run(cfg, s, events).ledger[r];
    assert RowOk(row);
    if Summary(row) && k < |row.facts.GetOr([])| {
      var j := SomeRangeCovers(row, k, |row.ranges| - 1);
      forall i | 0 <= i < |row.ranges| && i != j ensures !Covers(row.ranges[i], k) {
        if i < j { RangesAscend(row, i, j); } else { RangesAscend(row, j, i); }
      }
    }
  }
}
