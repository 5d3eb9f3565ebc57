/**
 * One usage meter of a member (its tokens, or one bucket): a lifetime total fed
 * by snapshots of the cumulative logs of successive native sessions.
 */
module UsageMeters {
  import opened Wrappers

  /** The native session a snapshot was taken in, and whether that session was restored. */
  datatype Source = Source(generation: nat, restored: bool)

  datatype Session = Session(generation: nat, high: nat)

  datatype Meter = Meter(total: nat, session: Option<Session>)

  /** One snapshot of the meter; a snapshot without buckets reports none. */
  datatype Reading = Reading(value: Option<nat>, source: Option<Source>)

  function Max(a: nat, b: nat): nat {
    if a >= b then a else b
  }

  /** A late observation of a retired generation. */
  predicate Retired(m: Meter, r: Reading) {
    r.source.Some? && m.session.Some? && r.source.value.generation < m.session.value.generation
  }

  /** The watermark a snapshot is measured from. */
  function Previous(m: Meter, r: Reading): nat {
    if r.source.None? || (m.session.None? && r.source.value.restored) then m.total
    else if m.session.Some? && m.session.value.generation == r.source.value.generation then m.session.value.high
    else 0
  }

  function Step(m: Meter, r: Reading): Meter {
    if Retired(m, r) then m
    else
      var previous := Previous(m, r);
      var high := Max(previous, r.value.GetOr(previous));
      Meter(m.total + (high - previous),
            if r.source.Some? then Some(Session(r.source.value.generation, high)) else m.session)
  }

  function Run(m: Meter, readings: seq<Reading>): Meter
    decreases |readings|
  {
    if readings == [] then m else Step(Run(m, readings[..|readings| - 1]), readings[|readings| - 1])
  }

  /* ---- the sum it comes down to ---- */

  predicate AllSourced(readings: seq<Reading>) {
    forall r <- readings :: r.source.Some?
  }

  /** The newest generation observed, or -1. */
  function Current(readings: seq<Reading>): int
    requires AllSourced(readings)
  {
    if readings == [] then -1
    else
      var before, g := readings[..|readings| - 1], readings[|readings| - 1].source.value.generation;
      if g > Current(before) then g else Current(before)
  }

  /** The highest value generation `g` reported while it was the newest. */
  function Highest(readings: seq<Reading>, g: nat): nat
    requires AllSourced(readings)
  {
    if readings == [] then 0
    else
      var before, last := readings[..|readings| - 1], readings[|readings| - 1];
      if last.source.value.generation == g && g >= Current(before) then Max(Highest(before, g), last.value.GetOr(0))
      else Highest(before, g)
  }

  /** The generations that were newest, oldest first. */
  function Generations(readings: seq<Reading>): seq<nat>
    requires AllSourced(readings)
  {
    if readings == [] then []
    else
      var before, g := readings[..|readings| - 1], readings[|readings| - 1].source.value.generation;
      Generations(before) + (if g > Current(before) then [g] else [])
  }

  /** Where a generation counts from: zero, or the total already there for a restored first one. */
  function From(base: nat, readings: seq<Reading>, g: nat): nat
    requires AllSourced(readings)
  {
    if readings != [] && readings[0].source.value == Source(g, true) then base else 0
  }

  /** What one generation adds: from where it counts to its highest value. */
  function Contribution(base: nat, readings: seq<Reading>, g: nat): nat
    requires AllSourced(readings)
  {
    var from := From(base, readings, g);
    Max(Highest(readings, g), from) - from
  }

  function Sum(base: nat, readings: seq<Reading>, generations: seq<nat>): nat
    requires AllSourced(readings)
  {
    if generations == [] then 0
    else Sum(base, readings, generations[..|generations| - 1]) + Contribution(base, readings, generations[|generations| - 1])
  }

  lemma {:induction false} GenerationsAscend(readings: seq<Reading>)
    requires AllSourced(readings)
    ensures var gs := Generations(readings);
      && (gs == [] <==> readings == []) && (gs != [] ==> gs[|gs| - 1] == Current(readings) && gs[0] == readings[0].source.value.generation)
      && (forall i | 0 <= i < |gs| - 1 :: gs[i] < Current(readings))
  {
    if readings != [] {
      GenerationsAscend(readings[..|readings| - 1]);
    }
  }

  /** One more reading, for every function of the readings. */
  lemma Grown(base: nat, before: seq<Reading>, last: Reading, g: nat)
    requires AllSourced(before + [last])
    ensures AllSourced(before)
    ensures var readings, mine := before + [last], last.source.value.generation;
      && Current(readings) == (if mine > Current(before) then mine else Current(before))
      && Generations(readings) == Generations(before) + (if mine > Current(before) then [mine] else [])
      && Highest(readings, g) == (if mine == g && g >= Current(before) then Max(Highest(before, g), last.value.GetOr(0)) else Highest(before, g))
      && (before != [] ==> From(base, readings, g) == From(base, before, g))
  {
    assert (before + [last])[..|before|] == before && (before + [last])[|before|] == last;
    forall r | r in before ensures r.source.Some? {
      assert r in before + [last];
    }
  }

  lemma SumSnoc(base: nat, readings: seq<Reading>, gs: seq<nat>, g: nat)
    requires AllSourced(readings)
    ensures Sum(base, readings, gs + [g]) == Sum(base, readings, gs) + Contribution(base, readings, g)
  {
    assert (gs + [g])[..|gs|] == gs && (gs + [g])[|gs|] == g;
  }

  /** A reading moves the contribution of its own generation only. */
  lemma {:induction false} SumKeeps(base: nat, before: seq<Reading>, last: Reading, generations: seq<nat>)
    requires AllSourced(before + [last]) && AllSourced(before) && before != []
    requires last.source.value.generation < Current(before) || last.source.value.generation !in generations
    ensures Sum(base, before + [last], generations) == Sum(base, before, generations)
    decreases |generations|
  {
    if generations != [] {
      var init, g := generations[..|generations| - 1], generations[|generations| - 1];
      assert generations == init + [g] && g in generations;
      SumKeeps(base, before, last, init);
      Grown(base, before, last, g);
      SumSnoc(base, before, init, g);
      SumSnoc(base, before + [last], init, g);
    }
  }

  /** The session of the newest generation holds its watermark. */
  ghost predicate Watermark(base: nat, readings: seq<Reading>, m: Meter)
    requires AllSourced(readings) && readings != []
  {
    && m.session.Some? && m.session.value.generation == Current(readings)
    && m.session.value.high == Max(Highest(readings, m.session.value.generation), From(base, readings, m.session.value.generation))
  }

  /** The meter after these readings is what their sum says. */
  ghost predicate Sums(base: nat, readings: seq<Reading>, m: Meter)
    requires AllSourced(readings)
  {
    if readings == [] then m == Meter(base, None)
    else m.total == base + Sum(base, readings, Generations(readings)) && Watermark(base, readings, m)
  }

  lemma FirstReading(base: nat, last: Reading)
    requires last.source.Some?
    ensures Sums(base, [last], Step(Meter(base, None), last))
  {
    var g := last.source.value.generation;
    assert [] + [last] == [last];
    Grown(base, [], last, g);
    SumSnoc(base, [last], [], g);
  }

  lemma NewerSum(base: nat, before: seq<Reading>, last: Reading)
    requires AllSourced(before + [last]) && AllSourced(before) && before != [] && last.source.value.generation > Current(before)
    ensures var readings, g := before + [last], last.source.value.generation;
      && Current(readings) == g && Highest(readings, g) == last.value.GetOr(0) && From(base, readings, g) == 0
      && Sum(base, readings, Generations(readings)) == Sum(base, before, Generations(before)) + last.value.GetOr(0)
  {
    var readings, g := before + [last], last.source.value.generation;
    Grown(base, before, last, g);
    GenerationsAscend(before);
    NewGenerationReportedNothing(before, g);
    assert readings[0] == before[0];
    SumKeeps(base, before, last, Generations(before));
    SumSnoc(base, readings, Generations(before), g);
  }

  /** A newer generation starts its own contribution. */
  lemma NewerReading(base: nat, before: seq<Reading>, last: Reading, m: Meter)
    requires AllSourced(before + [last]) && AllSourced(before) && before != [] && Sums(base, before, m)
    requires last.source.value.generation > Current(before)
    ensures Sums(base, before + [last], Step(m, last))
  {
    NewerSum(base, before, last);
  }

  lemma SameSum(base: nat, before: seq<Reading>, last: Reading)
    requires AllSourced(before + [last]) && AllSourced(before) && before != [] && last.source.value.generation == Current(before)
    ensures var readings, g := before + [last], last.source.value.generation;
      && Current(readings) == g && From(base, readings, g) == From(base, before, g)
      && Highest(readings, g) == Max(Highest(before, g), last.value.GetOr(0))
      && Sum(base, readings, Generations(readings)) - Contribution(base, readings, g)
         == Sum(base, before, Generations(before)) - Contribution(base, before, g)
  {
    var g, gs := last.source.value.generation, Generations(before);
    Grown(base, before, last, g);
    GenerationsAscend(before);
    var init := gs[..|gs| - 1];
    assert gs == init + [g] && Generations(before + [last]) == gs;
    SumKeeps(base, before, last, init);
    SumSnoc(base, before, init, g);
    SumSnoc(base, before + [last], init, g);
  }

  /** The current generation raises its own contribution to its new watermark. */
  lemma SameReading(base: nat, before: seq<Reading>, last: Reading, m: Meter)
    requires AllSourced(before + [last]) && AllSourced(before) && before != [] && Sums(base, before, m)
    requires last.source.value.generation == Current(before)
    ensures Sums(base, before + [last], Step(m, last))
  {
    SameSum(base, before, last);
  }

  /** A retired generation's late reading moves no contribution. */
  lemma RetiredReading(base: nat, before: seq<Reading>, last: Reading, m: Meter)
    requires AllSourced(before + [last]) && AllSourced(before) && before != [] && Sums(base, before, m)
    requires last.source.value.generation < Current(before)
    ensures Sums(base, before + [last], Step(m, last))
  {
    Grown(base, before, last, Current(before));
    SumKeeps(base, before, last, Generations(before));
    assert Generations(before + [last]) == Generations(before);
  }

  /**
   * For every sequence of snapshots, the lifetime total is the base plus the
   * sum over the session generations of the highest value each reported while
   * it was current.
   */
  lemma {:induction false} LifetimeIsTheSum(base: nat, readings: seq<Reading>)
    requires AllSourced(readings)
    ensures Sums(base, readings, Run(Meter(base, None), readings))
  {
    if readings != [] {
      var before, last := readings[..|readings| - 1], readings[|readings| - 1];
      LifetimeIsTheSum(base, before);
      assert readings == before + [last];
      var m := Run(Meter(base, None), before);
      if before == [] {
        FirstReading(base, last);
      } else if last.source.value.generation > Current(before) {
        NewerReading(base, before, last, m);
      } else if last.source.value.generation == Current(before) {
        SameReading(base, before, last, m);
      } else {
        RetiredReading(base, before, last, m);
      }
    }
  }

  lemma {:induction false} NewGenerationReportedNothing(readings: seq<Reading>, g: nat)
    requires AllSourced(readings) && g > Current(readings)
    ensures Highest(readings, g) == 0
  {
    if readings != [] {
      NewGenerationReportedNothing(readings[..|readings| - 1], g);
    }
  }

  /** A replayed snapshot adds nothing: of a retired generation, or at or below its generation's watermark. */
  lemma ReplayAddsNothing(base: nat, readings: seq<Reading>, r: Reading)
    requires AllSourced(readings) && readings != [] && r.source.Some?
    requires var g := r.source.value.generation;
      g < Current(readings) || (g == Current(readings) && r.value.GetOr(0) <= Highest(readings, g))
    ensures Run(Meter(base, None), readings + [r]).total == Run(Meter(base, None), readings).total
  {
    LifetimeIsTheSum(base, readings);
    assert (readings + [r])[..|readings|] == readings;
  }

  lemma {:induction false} RunSplits(m: Meter, first: seq<Reading>, rest: seq<Reading>)
    ensures Run(m, first + rest) == Run(Run(m, first), rest)
    decreases |rest|
  {
    if rest == [] {
      assert first + rest == first;
    } else {
      RunSplits(m, first, rest[..|rest| - 1]);
      assert (first + rest)[..|first + rest| - 1] == first + rest[..|rest| - 1];
    }
  }

  /** The order of two snapshots of one session does not matter, whatever came before and comes after. */
  lemma ReorderingAddsNothing(m: Meter, before: seq<Reading>, x: Reading, y: Reading, rest: seq<Reading>)
    requires x.source.Some? && x.source == y.source
    ensures Run(m, before + [x, y] + rest) == Run(m, before + [y, x] + rest)
  {
    RunSplits(m, before + [x, y], rest);
    RunSplits(m, before + [y, x], rest);
    RunSplits(m, before, [x, y]);
    RunSplits(m, before, [y, x]);
    RunOfTwo(Run(m, before), x, y);
    RunOfTwo(Run(m, before), y, x);
    SameSessionCommutes(Run(m, before), x, y);
  }

  lemma RunOfTwo(m: Meter, x: Reading, y: Reading)
    ensures Run(m, [x, y]) == Step(Step(m, x), y)
  {
    assert [x, y][..1] == [x] && [x][..0] == [];
    assert Run(m, [x]) == Step(Run(m, []), x);
  }

  lemma SameSessionCommutes(m: Meter, x: Reading, y: Reading)
    requires x.source.Some? && x.source == y.source
    ensures Step(Step(m, x), y) == Step(Step(m, y), x)
  {
  }

  /**
   * A snapshot that names no session is measured from the lifetime total and
   * moves no watermark. While a session is current, what it adds is counted
   * beside the session's own next snapshot, not as part of it: the total ends
   * higher than the session alone makes it exactly when the snapshot exceeds
   * the lifetime total.
   */
  lemma UnsourcedCountsTwice(m: Meter, value: nat, next: nat)
    requires m.session.Some?
    ensures var s := m.session.value;
      var sourced := Reading(Some(next), Some(Source(s.generation, false)));
      var twice := Run(m, [Reading(Some(value), None), sourced]);
      && twice.session == Step(m, sourced).session
      && (twice.total > Step(m, sourced).total <==> value > m.total)
  {
    RunOfTwo(m, Reading(Some(value), None), Reading(Some(next), Some(Source(m.session.value.generation, false))));
  }
}
