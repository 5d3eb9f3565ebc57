/** The notice methods over the mutable ledger and window, proved to be the steps of `NoticeLedger`. */
module Notices {
  import opened Wrappers
  import opened NoticeLedger

  class Notices {
    const cfg: Config
    var ledger: seq<Row>
    var window: Option<Window>
    var raised: nat
    /** Everything told, handed off, acknowledged or restarted so far. */
    ghost var past: seq<Event>

    function View(): State
      reads this
    {
      State(ledger, window, raised)
    }

    constructor (cfg: Config)
      ensures this.cfg == cfg && View() == State([], None, 0) && Inv(cfg, View()) && OneRow(View()) && past == []
    {
      this.cfg, ledger, window, raised, past := cfg, [], None, 0, [];
    }

    method LedgerHolds(identity: Identity) returns (held: bool)
      ensures held <==> HasNotice(ledger, identity)
    {
      for r := 0 to |ledger|
        invariant !HasNotice(ledger[..r], identity)
      {
        if Carries(ledger[r], identity) {
          assert ledger[r] in ledger;
          return true;
        }
        assert ledger[..r + 1] == ledger[..r] + [ledger[r]];
      }
      assert ledger[..|ledger|] == ledger;
      return false;
    }

    /** Record one telling unless the ledger already holds its fact. */
    method Notify(n: Telling, now: int) returns (recorded: bool)
      modifies this`ledger, this`window, this`past
      ensures View() == Step(cfg, old(View()), Event.Notify(n, now)) && past == old(past) + [Event.Notify(n, now)]
      ensures recorded <==> !HasNotice(old(ledger), n.identity)
    {
      past := past + [Event.Notify(n, now)];
      var held := LedgerHolds(n.identity);
      if held {
        return false;
      }
      EnqueueOwnerNotice(n, now);
      return true;
    }

    /** The owner was told of this allocation at the threshold it reached, or at a higher one. */
    method HoldsAt(a: Allocation, threshold: real) returns (held: bool)
      ensures held <==> ToldAt(cfg, ledger, a, threshold)
    {
      for k := 0 to |cfg.warnAt|
        invariant forall j | 0 <= j < k && cfg.warnAt[j] >= threshold :: !HasNotice(ledger, CrossingFact(Crossing(a.review, cfg.warnAt[j])))
      {
        if cfg.warnAt[k] >= threshold {
          held := LedgerHolds(CrossingFact(Crossing(a.review, cfg.warnAt[k])));
          if held { return true; }
        }
      }
      return false;
    }

    /** One budget pass: warn of every crossing the ledger does not hold, in one telling. */
    method WarnBudget(found: seq<Allocation>, text: string, instructions: string, now: int)
      modifies this`ledger, this`window, this`past
      ensures View() == Step(cfg, old(View()), Event.WarnBudget(found, text, instructions, now))
      ensures past == old(past) + [Event.WarnBudget(found, text, instructions, now)]
    {
      var warnings: seq<Warning> := [];
      for k := 0 to |found|
        invariant warnings == Warnings(cfg, ledger, found[..k]) && View() == old(View()) && past == old(past)
      {
        assert found[..k + 1][..k] == found[..k];
        var reached := Reached(cfg.warnAt, found[k]);
        if reached.Some? {
          var held := HoldsAt(found[k], reached.value);
          if !held {
            warnings := warnings + [Warning(Crossing(found[k].review, reached.value), found[k].content)];
          }
        }
      }
      assert found[..|found|] == found;
      if warnings != [] {
        var recorded := Notify(BudgetTelling(warnings, text, instructions), now);
      }
      past := old(past) + [Event.WarnBudget(found, text, instructions, now)];
    }

    /** An escalation: under a fresh id, with no question to the ledger. */
    method Escalate(from: nat, text: string, now: int)
      modifies this`ledger, this`window, this`raised, this`past
      ensures View() == Step(cfg, old(View()), Event.Escalate(from, text, now)) && past == old(past) + [Event.Escalate(from, text, now)]
    {
      past := past + [Event.Escalate(from, text, now)];
      raised := raised + 1;
      EnqueueOwnerNotice(EscalationTelling(raised - 1, from, text), now);
    }

    /** A telling inside a transaction that rolls back: the store takes its row back, nothing takes back the window. */
    method RolledBack(told: Event)
      modifies this`ledger, this`window, this`raised, this`past
      ensures View() == Step(cfg, old(View()), Event.RolledBack(told)) && past == old(past) + [Event.RolledBack(told)]
    {
      var rows := ledger;
      match told {
        case Notify(n, now) => var recorded := Notify(n, now);
        case WarnBudget(found, text, instructions, now) => WarnBudget(found, text, instructions, now);
        case Escalate(from, text, now) => Escalate(from, text, now);
        case _ =>
      }
      ledger := rows;
      if window.Some? && window.value.summary.Some? && window.value.summary.value >= |rows| {
        window := Some(window.value.(summary := None));
      }
      past := old(past) + [Event.RolledBack(told)];
    }

    method EnqueueOwnerNotice(n: Telling, now: int)
      modifies this`ledger, this`window
      ensures View() == Enqueued(cfg, old(View()), n, now)
    {
      if !n.covered {
        WakeWindowFor(now);
        if window.Some? && cfg.wakeBudget > 0 {
          if window.value.count >= cfg.wakeBudget {
            AppendToWakeSummary(n);
            return;
          }
          window := Some(window.value.(count := window.value.count + 1));
        }
      }
      var row := Row(n.identity, Plain(n.content), n.facts, n.extras, [], false, false);
      if |n.content| > cfg.limit {
        if row.facts.None? {
          row := row.(facts := Some([n.content]));
        }
        row := row.(identities := row.identities + [n.identity], content := Rendered("", row.facts.value));
      }
      ledger := ledger + [row];
    }

    /** Roll the window over on its interval; without a budget there is none to keep. */
    method WakeWindowFor(now: int)
      modifies this`window
      ensures if cfg.wakeBudget == 0 then window == old(window) else window == WindowAt(cfg, old(window), now)
    {
      if cfg.wakeBudget == 0 || (window.Some? && now - window.value.startedAt <= cfg.windowMs) {
        return;
      }
      window := Some(Window(now, 0, None));
    }

    /** Past the budget a fact shares the summary row, a new one when the last is with the owner. */
    method AppendToWakeSummary(n: Telling)
      requires window.Some?
      modifies this`ledger, this`window
      ensures View() == Summarized(old(View()), old(window).value, n)
    {
      var current := window.value;
      if current.summary.Some? && current.summary.value < |ledger| && !ledger[current.summary.value].delivered {
        var id := current.summary.value;
        var row := ledger[id];
        var factStart := |row.facts.GetOr([])|;
        row := row.(facts := Some(row.facts.GetOr([]) + Added(n)), identities := row.identities + [n.identity] + n.extras);
        row := row.(ranges := row.ranges + [Range(n.identity, factStart, |Added(n)|)], content := Rendered(SUMMARY_HEADER, row.facts.value));
        ledger := ledger[id := row];
        return;
      }
      window := Some(current.(summary := Some(|ledger|)));
      ledger := ledger + [SummaryRow(current.startedAt, n)];
    }

    /** The flush's claim of a row: the first one fixes its text, and detaches it from its window. */
    method HandOff(id: nat, content: Content)
      modifies this`ledger, this`window, this`past
      ensures View() == Step(cfg, old(View()), Event.HandOff(id, content)) && past == old(past) + [Event.HandOff(id, content)]
    {
      past := past + [Event.HandOff(id, content)];
      if id >= |ledger| || ledger[id].delivered {
        return;
      }
      if !ledger[id].handedOff {
        ledger := ledger[id := ledger[id].(content := content, handedOff := true)];
      }
      if window.Some? && window.value.summary == Some(id) {
        window := Some(window.value.(summary := None));
      }
    }

    method Acknowledge(id: nat)
      requires id < |ledger| && ledger[id].handedOff
      modifies this`ledger, this`past
      ensures View() == Step(cfg, old(View()), Event.Acknowledge(id)) && past == old(past) + [Event.Acknowledge(id)]
    {
      past := past + [Event.Acknowledge(id)];
      if !ledger[id].delivered {
        ledger := ledger[id := ledger[id].(delivered := true)];
      }
    }

    /** A restart keeps the durable rows and forgets the in-memory window. */
    method Restart()
      modifies this`window, this`past
      ensures View() == Step(cfg, old(View()), Event.Restart) && past == old(past) + [Event.Restart]
    {
      past := past + [Event.Restart];
      window := None;
    }
  }
}
