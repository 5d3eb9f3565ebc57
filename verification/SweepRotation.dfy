/**
 * The dispatch sweep's chain: a body that stops early at a member boundary
 * hands the rest of the rotation to the next body.
 */
module SweepRotation {
  import opened Wrappers

  type MemberId = nat

  predicate Distinct(members: seq<MemberId>) {
    forall i, j | 0 <= i < j < |members| :: members[i] != members[j]
  }

  class SchedulingPass {
    /** Where the order of this body begins. */
    var sweepFrom: Option<MemberId>
    /** The member where its chain of early-stopped bodies started. */
    var chainFrom: Option<MemberId>
    /** The member it gave up before, if it gave up. */
    var stoppedBefore: Option<MemberId>

    constructor (sweepFrom: Option<MemberId>, chainFrom: Option<MemberId>)
      ensures this.sweepFrom == sweepFrom && this.chainFrom == chainFrom && stoppedBefore.None?
    {
      this.sweepFrom, this.chainFrom, this.stoppedBefore := sweepFrom, chainFrom, None;
    }
  }

  function Rotation(members: seq<MemberId>, sweepFrom: Option<MemberId>): seq<MemberId> {
    var from := if sweepFrom.Some? then IndexOf(members, sweepFrom.value, 0) else -1;
    if from > 0 then members[from..] + members[..from] else members
  }

  /** The members one body may sweep: its rotation, up to where its chain started. */
  function Order(members: seq<MemberId>, sweepFrom: Option<MemberId>, chainFrom: Option<MemberId>): seq<MemberId> {
    var rotation := Rotation(members, sweepFrom);
    var end := if chainFrom.Some? then IndexOf(rotation, chainFrom.value, 1) else -1;
    if end > 0 then rotation[..end] else rotation
  }

  function Reading(clock: seq<int>, i: nat): int {
    if i < |clock| then clock[i] else 0
  }

  /** How long the step of the member before boundary `i` held the body. */
  function HeldBefore(clock: seq<int>, i: nat): int
    requires i > 0
  {
    Reading(clock, 2 * i) - Reading(clock, 2 * i - 1)
  }

  /**
   * One body's sweep. `clock` is what the clock reads at each boundary and
   * after it. The body stops before a member when the one before it held the
   * body for a whole bound, so at least the first one is swept.
   */
  method Dispatch(members: seq<MemberId>, pass: SchedulingPass, clock: seq<int>, bound: int) returns (finished: bool, swept: seq<MemberId>)
    requires pass.stoppedBefore.None?
    modifies pass
    ensures var order := Order(members, old(pass.sweepFrom), old(pass.chainFrom));
      && |swept| <= |order| && swept == order[..|swept|] && (finished <==> swept == order)
      && (!finished ==>
            && |swept| > 0 && pass.stoppedBefore == Some(order[|swept|])
            && pass.chainFrom == if |order| < |members| then old(pass.chainFrom) else Some(order[0]))
    ensures forall i | 0 < i < |swept| :: HeldBefore(clock, i) < bound
    ensures !finished ==> HeldBefore(clock, |swept|) >= bound
    ensures pass.sweepFrom == old(pass.sweepFrom)
  {
    var rotation := Rotation(members, pass.sweepFrom);
    var end := if pass.chainFrom.Some? then IndexOf(rotation, pass.chainFrom.value, 1) else -1;
    var order := if end > 0 then rotation[..end] else rotation;
    assert |rotation| == |members|;
    swept := [];
    var memberSince := Reading(clock, 0);
    for index := 0 to |order|
      invariant swept == order[..index] && pass.stoppedBefore.None?
      invariant index > 0 ==> memberSince == Reading(clock, 2 * index - 1)
      invariant forall i | 0 < i < index :: HeldBefore(clock, i) < bound
      invariant pass.sweepFrom == old(pass.sweepFrom) && pass.chainFrom == old(pass.chainFrom)
    {
      if index > 0 && Reading(clock, 2 * index) - memberSince >= bound {
        pass.stoppedBefore := Some(order[index]);
        pass.chainFrom := if end > 0 then pass.chainFrom else Some(order[0]);
        return false, swept;
      }
      memberSince := Reading(clock, 2 * index + 1);
      swept := swept + [order[index]];
    }
    return true, swept;
  }

  /** The order of a chained body: from where its predecessor stopped to the end of the roster. */
  lemma ChainedOrder(members: seq<MemberId>, j: nat)
    requires Distinct(members) && 0 < j < |members|
    ensures Order(members, Some(members[j]), Some(members[0])) == members[j..]
  {
    var rotation := members[j..] + members[..j];
    assert IndexOf(members, members[j], 0) == j;
    assert Rotation(members, Some(members[j])) == rotation;
    var end := IndexOf(rotation, members[0], 1);
    assert rotation[|members| - j] == members[0];
    assert forall i | 0 <= i < |members| && i != |members| - j :: rotation[i] != members[0];
    assert end == |members| - j;
    assert rotation[..end] == members[j..];
  }

  /**
   * The order of any body: the whole roster, turned to begin where its
   * predecessor stopped, and cut off before the member its chain started at.
   */
  lemma OrderIsTheRotation(members: seq<MemberId>, j: nat, i: nat)
    requires Distinct(members) && j < |members| && i < |members|
    ensures Order(members, None, None) == members
    ensures Order(members, Some(members[j]), None) == members[j..] + members[..j]
    ensures Order(members, Some(members[j]), Some(members[i])) ==
      if i == j then members[j..] + members[..j] else if i < j then members[j..] + members[..i] else members[j..i]
  {
    assert IndexOf(members, members[j], 0) == j;
    if i != j { WhereTurned(members, j, i); } else { NotAgain(members, j); }
  }

  /** Where another member stands in the turned roster. */
  lemma WhereTurned(members: seq<MemberId>, j: nat, i: nat)
    requires Distinct(members) && j < |members| && i < |members| && i != j
    ensures var rotation := members[j..] + members[..j];
      var at := IndexOf(rotation, members[i], 1);
      0 < at && rotation[..at] == if i < j then members[j..] + members[..i] else members[j..i]
  {
    var rotation := members[j..] + members[..j];
    var at := if i >= j then i - j else |members| - j + i;
    assert rotation[at] == members[i];
    forall k | 0 <= k < at ensures rotation[k] != members[i] {
      assert rotation[k] == members[if k < |members| - j then j + k else k - (|members| - j)];
    }
    assert rotation[..at] == if i < j then members[j..] + members[..i] else members[j..i];
  }

  lemma NotAgain(members: seq<MemberId>, j: nat)
    requires Distinct(members) && j < |members|
    ensures IndexOf(members[j..] + members[..j], members[j], 1) == -1
  {
    var rotation := members[j..] + members[..j];
    forall k | 1 <= k < |rotation| ensures rotation[k] != members[j] {
      assert rotation[k] == members[if k < |members| - j then j + k else k - (|members| - j)];
    }
  }

  /** A member that is gone begins no body and ends no chain. */
  lemma GoneMembersAreIgnored(members: seq<MemberId>, gone: MemberId, m: Option<MemberId>)
    requires gone !in members
    ensures Order(members, Some(gone), m) == Order(members, None, m) && Order(members, m, Some(gone)) == Order(members, m, None)
  {
    assert IndexOf(members, gone, 0) == -1;
    var rotation := Rotation(members, m);
    assert forall x <- rotation :: x in members;
    assert IndexOf(rotation, gone, 1) == -1;
  }

  /** The bodies so far swept the first members, one after another, each at least one. */
  ghost predicate SweptSoFar(members: seq<MemberId>, bodies: seq<seq<MemberId>>, swept: seq<MemberId>) {
    && swept <= members && swept == Flat(bodies)
    && (forall b <- bodies :: b != [] || members == []) && (|bodies| <= |swept| || members == [])
  }

  /** The next body starts at member `from`, in a chain that started at the first. */
  predicate Starts(members: seq<MemberId>, sweepFrom: Option<MemberId>, chainFrom: Option<MemberId>, from: nat) {
    if from == 0 then sweepFrom.None? && chainFrom.None?
    else from < |members| && sweepFrom == Some(members[from]) && chainFrom == Some(members[0])
  }

  /** One body of the chain, and the pass of the next one. */
  method RunBody(members: seq<MemberId>, pass: SchedulingPass, clock: seq<int>, bound: int, ghost from: nat)
    returns (finished: bool, part: seq<MemberId>, next: SchedulingPass)
    requires Distinct(members) && pass.stoppedBefore.None? && Starts(members, pass.sweepFrom, pass.chainFrom, from)
    modifies pass
    ensures part <= members[from..] && (finished <==> part == members[from..])
    ensures !finished ==> part != [] && Starts(members, next.sweepFrom, next.chainFrom, from + |part|)
    ensures fresh(next) && next.stoppedBefore.None?
  {
    if from > 0 { ChainedOrder(members, from); }
    assert Order(members, pass.sweepFrom, pass.chainFrom) == members[from..];
    finished, part := Dispatch(members, pass, clock, bound);
    next := new SchedulingPass(pass.stoppedBefore, pass.chainFrom);
  }

  lemma BodySwept(members: seq<MemberId>, bodies: seq<seq<MemberId>>, swept: seq<MemberId>, part: seq<MemberId>)
    requires SweptSoFar(members, bodies, swept) && part <= members[|swept|..] && (part != [] || members == [])
    ensures SweptSoFar(members, bodies + [part], swept + part)
    ensures part == members[|swept|..] ==> swept + part == members
  {
    FlatAppends(bodies, part);
    assert members == swept + members[|swept|..];
  }

  /** The chain so far, and whether its last body ran to the end of the roster. */
  ghost predicate Chained(members: seq<MemberId>, bodies: seq<seq<MemberId>>, swept: seq<MemberId>, finished: bool) {
    && SweptSoFar(members, bodies, swept)
    && (if finished then swept == members && |bodies| >= 1 && (members == [] ==> |bodies| == 1) else members == [] ==> bodies == [])
  }

  lemma ChainGoesOn(members: seq<MemberId>, bodies: seq<seq<MemberId>>, swept: seq<MemberId>, part: seq<MemberId>, finished: bool)
    requires Chained(members, bodies, swept, false) && part <= members[|swept|..] && (finished <==> part == members[|swept|..])
    requires !finished ==> part != []
    requires part != [] || members == []
    ensures Chained(members, bodies + [part], swept + part, finished)
  {
    BodySwept(members, bodies, swept, part);
  }

  /**
   * The whole chain over a stable roster, whatever the clock reads: the bodies
   * sweep the members one after another in roster order, each exactly once, in
   * at most as many bodies as there are members, and the last one runs to its end.
   */
  method RunChain(members: seq<MemberId>, clocks: seq<seq<int>>, bound: int) returns (bodies: seq<seq<MemberId>>, swept: seq<MemberId>)
    requires Distinct(members)
    ensures swept == members && Flat(bodies) == members
    ensures |bodies| >= 1 && |bodies| <= (if |members| == 0 then 1 else |members|)
    ensures forall b <- bodies :: b != [] || members == []
  {
    bodies, swept := [], [];
    var pass := new SchedulingPass(None, None);
    var finished := false;
    while !finished
      invariant fresh(pass) && Chained(members, bodies, swept, finished)
      invariant !finished ==> pass.stoppedBefore.None? && Starts(members, pass.sweepFrom, pass.chainFrom, |swept|)
      decreases |members| - |swept|, !finished
    {
      var clock := if |bodies| < |clocks| then clocks[|bodies|] else [];
      var part;
      finished, part, pass := RunBody(members, pass, clock, bound, |swept|);
      ChainGoesOn(members, bodies, swept, part, finished);
      bodies, swept := bodies + [part], swept + part;
    }
  }

  function Flat(parts: seq<seq<MemberId>>): seq<MemberId> {
    if parts == [] then [] else Flat(parts[..|parts| - 1]) + parts[|parts| - 1]
  }

  lemma FlatAppends(parts: seq<seq<MemberId>>, part: seq<MemberId>)
    ensures Flat(parts + [part]) == Flat(parts) + part
  {
    assert (parts + [part])[..|parts|] == parts;
  }
}
