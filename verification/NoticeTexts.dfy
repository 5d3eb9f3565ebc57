/** What a telling leaves to read: its own row within the budget, its texts in the window's summary past it, and for how long. */
module NoticeTexts {
  import opened Wrappers
  import opened NoticeLedger

  /** The window is open at `now` and its wakes are spent. */
  predicate PastBudget(cfg: Config, s: State, n: Telling, now: int) {
    && !n.covered && cfg.wakeBudget > 0 && s.window.Some?
    && now - s.window.value.startedAt <= cfg.windowMs && s.window.value.count >= cfg.wakeBudget
  }

  /** The row a telling past the budget is summarised in: the window's, or a new one once the owner has that. */
  function SummaryFor(s: State): nat
    requires s.window.Some?
  {
    var id := s.window.value.summary;
    if id.Some? && id.value < |s.ledger| && !s.ledger[id.value].delivered then id.value else |s.ledger|
  }

  /** The texts say what the telling does: its facts, or one text with its trigger that ends in its content. */
  predicate Says(n: Telling, texts: seq<string>) {
    match n.facts
    case Some(facts) => texts == facts
    case None => |texts| == 1 && EndsIn(texts[0], n.content) && Mentions(texts[0], n.trigger)
  }

  predicate EndsIn(text: string, part: string) {
    |part| <= |text| && text[|text| - |part|..] == part
  }

  predicate Mentions(text: string, part: string) {
    exists k :: 0 <= k <= |text| - |part| && text[k..][..|part|] == part
  }

  /** The constituent's texts are on the row, and say what the telling does. */
  predicate Tells(row: Row, range: Range, n: Telling) {
    var facts := row.facts.GetOr([]);
    range.identity == n.identity && range.start + range.count <= |facts| && Says(n, facts[range.start..][..range.count])
  }

  function RangesOf(ledger: seq<Row>, r: nat): seq<Range> {
    if r < |ledger| then ledger[r].ranges else []
  }

  /** Past the budget no fact is dropped: the summary gets one constituent more, with the telling's texts, and shows all it has. */
  lemma DegradedFactKeepsItsText(cfg: Config, s: State, n: Telling, now: int)
    requires Inv(cfg, s) && PastBudget(cfg, s, n, now)
    ensures var after, q := Enqueued(cfg, s, n, now), SummaryFor(s);
      && |after.ledger| == (if q < |s.ledger| then |s.ledger| else |s.ledger| + 1) && q < |after.ledger|
      && (forall r | 0 <= r < |s.ledger| && r != q :: after.ledger[r] == s.ledger[r])
      && Summary(after.ledger[q]) && !after.ledger[q].handedOff && !after.ledger[q].delivered && after.ledger[q].facts.Some?
      && after.ledger[q].content == Rendered(SUMMARY_HEADER, after.ledger[q].facts.value)
      && |after.ledger[q].ranges| == |RangesOf(s.ledger, q)| + 1 && RangesOf(s.ledger, q) <= after.ledger[q].ranges
      && Tells(after.ledger[q], after.ledger[q].ranges[|RangesOf(s.ledger, q)|], n)
      && (forall x <- [n.identity] + n.extras :: x in after.ledger[q].identities)
      && after.window == Some(s.window.value.(summary := Some(q)))
  {
    var after, q := Enqueued(cfg, s, n, now), SummaryFor(s);
    var added := ["[" + n.trigger + "] " + n.content];
    TriggerIsMentioned(n);
    var row, before := after.ledger[q], if q < |s.ledger| then s.ledger[q].facts.GetOr([]) else [];
    assert row.facts.value == before + n.facts.GetOr(added);
    assert row.facts.value[|before|..][..|row.facts.value| - |before|] == n.facts.GetOr(added);
  }

  lemma TriggerIsMentioned(n: Telling)
    ensures n.facts.None? ==> Says(n, ["[" + n.trigger + "] " + n.content])
  {
    var text := "[" + n.trigger + "] " + n.content;
    assert text[1..][..|n.trigger|] == n.trigger;
    assert text[|text| - |n.content|..] == n.content;
  }

  /** The window a wake within the budget counts in: the open one, or a new one from now. */
  predicate CountsOneMore(cfg: Config, before: Option<Window>, after: Option<Window>, now: int) {
    if before.Some? && now - before.value.startedAt <= cfg.windowMs
    then after == Some(before.value.(count := before.value.count + 1))
    else after == Some(Window(now, 1, None))
  }

  /** Otherwise it has a row of its own to be read, and one that wakes spends a wake of the window. */
  lemma OwnFactKeepsItsText(cfg: Config, s: State, n: Telling, now: int)
    requires !PastBudget(cfg, s, n, now)
    ensures var after := Enqueued(cfg, s, n, now);
      && |after.ledger| == |s.ledger| + 1 && after.ledger[..|s.ledger|] == s.ledger
      && after.ledger[|s.ledger|].own == n.identity && after.ledger[|s.ledger|].ranges == []
      && !after.ledger[|s.ledger|].handedOff && !after.ledger[|s.ledger|].delivered
      && (forall x <- n.extras :: x in after.ledger[|s.ledger|].identities)
      && Shows(cfg, after.ledger[|s.ledger|], n)
      && if n.covered || cfg.wakeBudget == 0 then after.window == s.window else CountsOneMore(cfg, s.window, after.window, now)
  {
  }

  /** The row shows the content whole; past the limit it has it, or the facts given for it, on record. */
  predicate Shows(cfg: Config, row: Row, n: Telling) {
    if |n.content| <= cfg.limit then row.content == Plain(n.content) && row.facts == n.facts
    else
      && row.facts.Some? && row.content == Rendered("", row.facts.value)
      && (n.facts == row.facts || (n.facts.None? && row.facts.value == [n.content]))
  }

  /**
   * A telling within the budget whose transaction rolls back leaves no row, but
   * the wake stays spent; one past it leaves the window on the summary it is on,
   * and on none where the transaction was to open it.
   */
  lemma RolledBackStaysSpent(cfg: Config, s: State, told: Event, n: Telling)
    requires Inv(cfg, s) && !told.RolledBack? && ToldBy(cfg, s, told) == Some(n) && cfg.wakeBudget > 0 && !n.covered
    ensures var after := Step(cfg, s, RolledBack(told));
      && after.ledger == s.ledger
      && (!PastBudget(cfg, s, n, told.now) ==> CountsOneMore(cfg, s.window, after.window, told.now))
      && (PastBudget(cfg, s, n, told.now) ==>
            after.window == Some(s.window.value.(summary := if SummaryFor(s) < |s.ledger| then Some(SummaryFor(s)) else None)))
  {
  }

  /* ---- what the host's own tellings say ---- */

  /** A budget pass words every crossing the ledger does not hold, and ends in its instructions. */
  lemma UntoldCrossingIsWorded(cfg: Config, s: State, e: Event, a: Allocation)
    requires OneRow(s) && e.WarnBudget? && a in e.found && Reached(cfg.warnAt, a).Some?
    requires !ToldAt(cfg, s.ledger, a, Reached(cfg.warnAt, a).value)
    ensures ToldBy(cfg, s, e).Some?
    ensures var n := ToldBy(cfg, s, e).value;
      && n.content == e.text && !n.covered && n.facts.Some? && EndsWith(n.facts.value, e.instructions)
      && a.content in n.facts.value && CrossingFact(Crossing(a.review, Reached(cfg.warnAt, a).value)) in n.extras
  {
    var warnings := Warnings(cfg, s.ledger, e.found);
    UntoldIsWorded(cfg, s.ledger, e.found, a);
    var k :| 0 <= k < |warnings| && warnings[k] == Warning(Crossing(a.review, Reached(cfg.warnAt, a).value), a.content);
    assert CrossingsOf(warnings)[k] == warnings[k].crossing;
    assert FactsOf(CrossingsOf(warnings))[k] == CrossingFact(warnings[k].crossing);
    NewBatchIsTold(cfg, s, e, CrossingFact(warnings[k].crossing));
    assert ContentsOf(warnings)[k] == a.content;
  }

  predicate EndsWith(facts: seq<string>, last: string) {
    facts != [] && facts[|facts| - 1] == last
  }

  lemma {:induction false} UntoldIsWorded(cfg: Config, ledger: seq<Row>, found: seq<Allocation>, a: Allocation)
    requires a in found && Reached(cfg.warnAt, a).Some? && !ToldAt(cfg, ledger, a, Reached(cfg.warnAt, a).value)
    ensures Warning(Crossing(a.review, Reached(cfg.warnAt, a).value), a.content) in Warnings(cfg, ledger, found)
  {
    var last := |found| - 1;
    if found[last] != a {
      UntoldIsWorded(cfg, ledger, found[..last], a);
    }
  }

  /** An escalation is told in its own words, to wake the owner. */
  lemma EscalationIsWorded(cfg: Config, s: State, from: nat, text: string, now: int)
    ensures var told := ToldBy(cfg, s, Escalate(from, text, now));
      told.Some? && told.value.content == text && !told.value.covered && told.value.facts.None?
  {
  }

  /** The first handoff of an undelivered row fixes its text, and takes the row out of the window it was summarising. */
  lemma HandOffFixesText(cfg: Config, s: State, id: nat, content: Content)
    requires id < |s.ledger| && !s.ledger[id].delivered
    ensures var after, before := Step(cfg, s, HandOff(id, content)), s.ledger[id];
      && |after.ledger| == |s.ledger| && (forall r | 0 <= r < |s.ledger| && r != id :: after.ledger[r] == s.ledger[r])
      && after.ledger[id] == before.(handedOff := true, content := after.ledger[id].content)
      && after.ledger[id].content == (if before.handedOff then before.content else content)
      && (after.window.Some? ==> after.window.value.summary != Some(id))
      && (s.window.Some? ==> after.window == Some(s.window.value.(summary := after.window.value.summary)))
      && (s.window.Some? && s.window.value.summary != Some(id) ==> after.window == s.window)
  {
  }

  /** An acknowledgement marks a handed-off row delivered and nothing else; a restart keeps every row and forgets the window. */
  lemma AcknowledgeAndRestartLand(cfg: Config, s: State, id: nat)
    requires id < |s.ledger| && s.ledger[id].handedOff
    ensures var after := Step(cfg, s, Acknowledge(id));
      && after.window == s.window && |after.ledger| == |s.ledger|
      && after.ledger[id] == s.ledger[id].(delivered := true) && forall r | 0 <= r < |s.ledger| && r != id :: after.ledger[r] == s.ledger[r]
    ensures var after := Step(cfg, s, Restart); after.ledger == s.ledger && after.window.None? && after.raised == s.raised
  {
  }

  /** After its handoff and acknowledgement no fact joins a row: the next one past the budget opens another summary. */
  lemma HandedOffSummaryIsClosed(cfg: Config, s: State, id: nat, content: Content, n: Telling, now: int)
    requires Inv(cfg, s) && id < |s.ledger| && !s.ledger[id].delivered
    ensures var after := Step(cfg, s, HandOff(id, content));
      Enqueued(cfg, after, n, now).ledger[id] == after.ledger[id]
  {
  }

  predicate IsReached(a: Allocation, share: real) {
    a.projected as real >= share * a.limit as real
  }

  /** Of the shares an allocation has reached, the last is warned of, and none when it has reached none. */
  lemma {:induction false} ReachedIsTheLast(warnAt: seq<real>, a: Allocation)
    requires a.limit > 0
    ensures Reached(warnAt, a).None? ==> forall t <- warnAt :: !IsReached(a, t)
    ensures Reached(warnAt, a).Some? ==> exists k :: IsLastReached(warnAt, a, k) && Reached(warnAt, a) == Some(warnAt[k])
    decreases |warnAt|
  {
    if warnAt != [] {
      var last := |warnAt| - 1;
      if IsReached(a, warnAt[last]) {
        assert IsLastReached(warnAt, a, last);
      } else {
        ReachedIsTheLast(warnAt[..last], a);
        assert Reached(warnAt, a) == Reached(warnAt[..last], a);
        if k :| IsLastReached(warnAt[..last], a, k) {
          assert IsLastReached(warnAt, a, k) && warnAt[..last][k] == warnAt[k];
        }
        assert forall t :: t in warnAt ==> t in warnAt[..last] || t == warnAt[last];
      }
    }
  }

  predicate IsLastReached(warnAt: seq<real>, a: Allocation, k: int) {
    0 <= k < |warnAt| && IsReached(a, warnAt[k]) && forall j | k < j < |warnAt| :: !IsReached(a, warnAt[j])
  }

  /* ---- over runs ---- */

  /** A constituent's texts never change, whatever is told, handed off or restarted later. */
  lemma ConstituentTextsStay(cfg: Config, s: State, events: seq<Event>, r: nat, j: nat, n: Telling)
    requires Inv(cfg, s) && forall e <- events :: TellsFacts(e)
    requires r < |s.ledger| && j < |s.ledger[r].ranges| && Tells(s.ledger[r], s.ledger[r].ranges[j], n)
    ensures var after := Run(cfg, s, events).ledger;
      r < |after| && j < |after[r].ranges| && after[r].ranges[j] == s.ledger[r].ranges[j] && Tells(after[r], after[r].ranges[j], n)
  {
    RunKeepsRows(cfg, s, events);
    var after := Run(cfg, s, events).ledger;
    assert Keeps(s.ledger[r], after[r]);
    var range := s.ledger[r].ranges[j];
    assert after[r].facts.GetOr([])[range.start..][..range.count] == s.ledger[r].facts.GetOr([])[range.start..][..range.count];
  }

  /** A fact told past the budget at any step of any run is in its summary, in its own words, at the end. */
  lemma DegradedTextStays(cfg: Config, s: State, first: seq<Event>, e: Event, rest: seq<Event>, n: Telling)
    requires Inv(cfg, s) && forall x <- first + [e] + rest :: TellsFacts(x)
    requires ToldBy(cfg, Run(cfg, s, first), e) == Some(n) && PastBudget(cfg, Run(cfg, s, first), n, e.now)
    ensures var q, after := SummaryFor(Run(cfg, s, first)), Run(cfg, s, first + [e] + rest).ledger;
      var j := |RangesOf(Run(cfg, s, first).ledger, q)|;
      q < |after| && Summary(after[q]) && j < |after[q].ranges| && Tells(after[q], after[q].ranges[j], n)
  {
    var upTo, w := first + [e], Run(cfg, s, first);
    assert upTo[..|first|] == first;
    forall x | x in first || x == e || x in rest ensures TellsFacts(x) {
      assert x in first + [e] + rest;
    }
    RunKeepsInv(cfg, s, first);
    StepKeepsInv(cfg, w, e);
    RunSplits(cfg, s, upTo, rest);
    var q := SummaryFor(w);
    StepKeepsItsText(cfg, w, e, n);
    ConstituentTextsStay(cfg, Run(cfg, s, upTo), rest, q, |RangesOf(w.ledger, q)|, n);
    RunKeepsRows(cfg, Run(cfg, s, upTo), rest);
    assert Keeps(Run(cfg, s, upTo).ledger[q], Run(cfg, s, upTo + rest).ledger[q]);
  }

  lemma StepKeepsItsText(cfg: Config, s: State, e: Event, n: Telling)
    requires Inv(cfg, s) && ToldBy(cfg, s, e) == Some(n) && PastBudget(cfg, s, n, e.now)
    ensures var q, after := SummaryFor(s), Step(cfg, s, e).ledger;
      var j := |RangesOf(s.ledger, q)|;
      q < |after| && Summary(after[q]) && j < |after[q].ranges| && Tells(after[q], after[q].ranges[j], n)
  {
    var given := s.(raised := if e.Escalate? then s.raised + 1 else s.raised);
    DegradedFactKeepsItsText(cfg, given, n, e.now);
    assert Step(cfg, s, e) == Enqueued(cfg, given, n, e.now);
  }
}
