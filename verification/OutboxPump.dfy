/**
 * The outbox pump: deferred starts, joins, supersession, and the claim of each
 * delivery attempt. A method is one stretch between awaits; `Drive` runs any
 * interleaving of them.
 */
module OutboxPump {
  type Mission = nat
  type Delivery = nat
  type Request = nat

  /** One run of the pump. `requested`: it owes another sweep once the present one is through. */
  class Pump {
    /** How many pumps were started up to this one. */
    ghost const generation: nat
    var sweepStartedAt: int
    var requested: bool
    /** The missions its sweep has still to flush. */
    var remaining: seq<Mission>
    var ended: bool

    constructor (now: int, ghost generation: nat)
      ensures sweepStartedAt == now && requested && remaining == [] && !ended && this.generation == generation
    {
      this.generation, sweepStartedAt, requested, remaining, ended := generation, now, true, [], false;
    }
  }

  datatype Event =
    | Requests(r: Request)
    | Starts(now: int, missions: seq<Mission>)
    | Resumes(now: int, missions: seq<Mission>)
    | Attempts(d: Delivery)
    | Settles(d: Delivery)
    | Shuts

  /** A mission's flush that began: the pump that began it, and the newest pump then. */
  datatype Flush = Flush(mission: Mission, starter: nat, newest: nat)

  /** What became of the attempts, in order. */
  datatype Call = Begun(d: Delivery) | Over(d: Delivery)

  /** The last attempt of `d` is not over. */
  predicate InFlight(calls: seq<Call>, d: Delivery) {
    calls != [] &&
    var last := calls[|calls| - 1];
    if last.d == d then last.Begun? else InFlight(calls[..|calls| - 1], d)
  }

  /**
   * A sweep's course. `at` counts the flushes begun before it. A sweep of the
   * pump then current lists its missions and answers the requests made so far;
   * its pump finishes, is replaced, or is cut short by the shutdown.
   */
  datatype Mark =
    | Sweeps(generation: nat, at: nat, listed: seq<Mission>, answers: set<Request>)
    | Finished(at: nat)
    | Replaced(at: nat)
    | Cut(at: nat)

  /** The missions flushed from one count of flushes to another, in order. */
  function Reached(flushes: seq<Flush>, from: nat, upto: nat): seq<Mission>
    requires from <= upto <= |flushes|
    decreases upto
  {
    if from == upto then [] else Reached(flushes, from, upto - 1) + [flushes[upto - 1].mission]
  }

  ghost predicate StartedBy(flushes: seq<Flush>, from: nat, upto: nat, generation: nat) {
    forall i | from <= i < upto && i < |flushes| :: flushes[i].starter == generation
  }

  /** What its pump flushed between the two marks begins the sweep's list, and is all of it unless the pump was replaced or cut short. */
  ghost predicate SweepOver(flushes: seq<Flush>, sweep: Mark, over: Mark)
    requires sweep.Sweeps?
  {
    && sweep.at <= over.at <= |flushes| && StartedBy(flushes, sweep.at, over.at, sweep.generation)
    && (if over.Sweeps? || over.Finished? then Reached(flushes, sweep.at, over.at) == sweep.listed
        else Reached(flushes, sweep.at, over.at) <= sweep.listed)
  }

  /** The second mark comes right after the first: every flush is a sweep's, and a replaced pump's successor sweeps at once. */
  ghost predicate Follows(flushes: seq<Flush>, mark: Mark, next: Mark) {
    if mark.Sweeps? then SweepOver(flushes, mark, next) else next.Sweeps? && next.at == mark.at
  }

  ghost predicate SweepsReach(flushes: seq<Flush>, marks: seq<Mark>) {
    forall j, k | 0 <= j < k < |marks| && k == j + 1 :: Follows(flushes, marks[j], marks[k])
  }

  /** The last sweep is under way: what it flushed and what it has still to flush is its list. */
  ghost predicate UnderWay(flushes: seq<Flush>, marks: seq<Mark>, generation: nat, remaining: seq<Mission>) {
    marks != [] &&
    var last := marks[|marks| - 1];
    && last.Sweeps? && last.generation == generation && last.at <= |flushes|
    && StartedBy(flushes, last.at, |flushes|, generation) && Reached(flushes, last.at, |flushes|) + remaining == last.listed
  }

  /** No sweep is under way. */
  ghost predicate Idle(flushes: seq<Flush>, marks: seq<Mark>) {
    if marks == [] then flushes == [] else !marks[|marks| - 1].Sweeps? && marks[|marks| - 1].at == |flushes|
  }

  ghost predicate AnsweredBy(marks: seq<Mark>, r: Request, k: int) {
    0 <= k < |marks| && marks[k].Sweeps? && r in marks[k].answers
  }

  ghost predicate IsAnswered(marks: seq<Mark>, r: Request) {
    exists k :: AnsweredBy(marks, r, k)
  }

  lemma {:induction false} ReachedAlike(flushes: seq<Flush>, longer: seq<Flush>, from: nat, upto: nat)
    requires from <= upto <= |flushes| && flushes <= longer
    ensures Reached(longer, from, upto) == Reached(flushes, from, upto)
    decreases upto
  {
    if from != upto { ReachedAlike(flushes, longer, from, upto - 1); }
  }

  lemma FlushAdded(flushes: seq<Flush>, marks: seq<Mark>, f: Flush)
    requires SweepsReach(flushes, marks)
    ensures SweepsReach(flushes + [f], marks)
  {
    forall j, k | 0 <= j < k < |marks| && k == j + 1 ensures Follows(flushes + [f], marks[j], marks[k]) {
      assert Follows(flushes, marks[j], marks[k]);
      if marks[j].Sweeps? { ReachedAlike(flushes, flushes + [f], marks[j].at, marks[k].at); }
    }
  }

  /** The sweep under way flushes the next mission of its list. */
  lemma HeadFlushed(flushes: seq<Flush>, marks: seq<Mark>, generation: nat, newest: nat, remaining: seq<Mission>)
    requires UnderWay(flushes, marks, generation, remaining) && remaining != []
    ensures UnderWay(flushes + [Flush(remaining[0], generation, newest)], marks, generation, remaining[1..])
  {
    var longer, last := flushes + [Flush(remaining[0], generation, newest)], marks[|marks| - 1];
    ReachedAlike(flushes, longer, last.at, |flushes|);
    assert Reached(longer, last.at, |longer|) == Reached(flushes, last.at, |flushes|) + [remaining[0]];
    assert Reached(longer, last.at, |longer|) + remaining[1..] == Reached(flushes, last.at, |flushes|) + remaining;
  }

  lemma MarkAdded(flushes: seq<Flush>, marks: seq<Mark>, mark: Mark)
    requires SweepsReach(flushes, marks) && (marks != [] ==> Follows(flushes, marks[|marks| - 1], mark))
    ensures SweepsReach(flushes, marks + [mark])
  {
    var longer := marks + [mark];
    forall j, k | 0 <= j < k < |longer| && k == j + 1 ensures Follows(flushes, longer[j], longer[k]) {
      if k < |marks| { assert Follows(flushes, marks[j], marks[k]); }
    }
  }

  /** A pump whose list is through, or whose sweep stops short, closes its sweep. */
  lemma SweepCloses(flushes: seq<Flush>, marks: seq<Mark>, generation: nat, remaining: seq<Mission>, mark: Mark)
    requires UnderWay(flushes, marks, generation, remaining) && mark.at == |flushes|
    requires mark.Sweeps? || mark.Finished? ==> remaining == []
    ensures Follows(flushes, marks[|marks| - 1], mark)
  {
    assert Reached(flushes, marks[|marks| - 1].at, |flushes|) + [] == Reached(flushes, marks[|marks| - 1].at, |flushes|);
  }

  /** Sweep `j` flushed its whole list, is under way, or was cut short by the shutdown. */
  ghost predicate GoesThrough(flushes: seq<Flush>, marks: seq<Mark>, j: int) {
    0 <= j < |marks| && marks[j].Sweeps? &&
    (j + 1 == |marks| || marks[j + 1].Cut? ||
     (marks[j].at <= marks[j + 1].at <= |flushes| && Reached(flushes, marks[j].at, marks[j + 1].at) == marks[j].listed))
  }

  /** A sweep is followed through: by itself, or by the sweep of the last pump that replaced it. */
  lemma {:induction false} SweepIsFollowedThrough(flushes: seq<Flush>, marks: seq<Mark>, k: nat)
    requires SweepsReach(flushes, marks) && k < |marks| && marks[k].Sweeps? && !marks[|marks| - 1].Replaced?
    ensures exists j :: k <= j && GoesThrough(flushes, marks, j)
    decreases |marks| - k
  {
    if k + 1 < |marks| {
      assert Follows(flushes, marks[k], marks[k + 1]);
      if marks[k + 1].Replaced? {
        assert Follows(flushes, marks[k + 1], marks[k + 2]);
        SweepIsFollowedThrough(flushes, marks, k + 2);
        return;
      }
    }
    assert GoesThrough(flushes, marks, k);
  }

  lemma AnswersKept(marks: seq<Mark>, mark: Mark, r: Request)
    requires IsAnswered(marks, r) || (mark.Sweeps? && r in mark.answers)
    ensures IsAnswered(marks + [mark], r)
  {
    if k :| AnsweredBy(marks, r, k) {
      assert AnsweredBy(marks + [mark], r, k);
    } else {
      assert AnsweredBy(marks + [mark], r, |marks|);
    }
  }

  /** A sweep answers the request, and one no older flushed its whole list, is under way, or was cut short. */
  ghost predicate Reaches(flushes: seq<Flush>, marks: seq<Mark>, r: Request) {
    exists k, j :: AnsweredBy(marks, r, k) && k <= j && GoesThrough(flushes, marks, j)
  }

  lemma AnswerReaches(flushes: seq<Flush>, marks: seq<Mark>, r: Request)
    requires SweepsReach(flushes, marks) && marks != [] && !marks[|marks| - 1].Replaced? && IsAnswered(marks, r)
    ensures Reaches(flushes, marks, r)
  {
    var k :| AnsweredBy(marks, r, k);
    SweepIsFollowedThrough(flushes, marks, k);
  }

  lemma AnswersReach(flushes: seq<Flush>, marks: seq<Mark>, answered: set<Request>)
    requires SweepsReach(flushes, marks) && (marks != [] ==> !marks[|marks| - 1].Replaced?) && forall r <- answered :: IsAnswered(marks, r)
    ensures forall r <- answered :: Reaches(flushes, marks, r)
  {
    forall r | r in answered ensures Reaches(flushes, marks, r) {
      AnswerReaches(flushes, marks, r);
    }
  }

  /** No attempt of a delivery began while another one was in flight. */
  ghost predicate OneAtATime(calls: seq<Call>) {
    forall k | 0 <= k < |calls| && calls[k].Begun? :: !InFlight(calls[..k], calls[k].d)
  }

  /** Only the newest pump ever began a flush, so no pump begins one after a newer pump was started. */
  ghost predicate ByNewest(flushes: seq<Flush>, generation: nat) {
    && (forall f <- flushes :: f.starter == f.newest <= generation)
    && (forall i, j | 0 <= i < j < |flushes| :: flushes[i].newest <= flushes[j].newest)
  }

  lemma CallAdded(calls: seq<Call>, call: Call)
    requires OneAtATime(calls) && (call.Begun? ==> !InFlight(calls, call.d))
    ensures OneAtATime(calls + [call]) && forall d :: InFlight(calls + [call], d) <==> if d == call.d then call.Begun? else InFlight(calls, d)
  {
    var longer := calls + [call];
    assert longer[..|calls|] == calls;
    forall k | 0 <= k < |longer| && longer[k].Begun? ensures !InFlight(longer[..k], longer[k].d) {
      if k < |calls| { assert longer[..k] == calls[..k]; }
    }
  }

  class Outbox {
    const bound: nat
    var startPending: bool
    var pump: Pump?
    var shuttingDown: bool
    var delivering: set<Delivery>
    /** Every pump started so far. */
    var pumps: set<Pump>
    /** The requests no sweep of a then-current pump has started after. */
    ghost var unanswered: set<Request>
    /** Every request taken on, and the course of every sweep of a then-current pump. */
    ghost var asked: set<Request>
    ghost var marks: seq<Mark>
    /** Every attempt begun and over. */
    ghost var calls: seq<Call>
    /** How many pumps were started, and every flush begun. */
    ghost var generation: nat
    ghost var flushes: seq<Flush>

    /** Before shutdown, an unanswered request is held by the pending start or by the current pump's flag. */
    ghost predicate RequestsHeld()
      reads this, pumps
    {
      !shuttingDown && unanswered != {} ==> startPending || (pump != null && pump in pumps && pump.requested)
    }

    /** A delivery is claimed exactly while an attempt of it is in flight, and never has two. */
    ghost predicate ClaimsUnique()
      reads this
    {
      OneAtATime(calls) && forall d: Delivery :: d in delivering <==> InFlight(calls, d)
    }

    /** The current pump is the newest one, and every flush so far was the newest pump's when it began. */
    ghost predicate Ordered()
      reads this
    {
      (pump != null ==> pump.generation == generation) && ByNewest(flushes, generation)
    }

    /** A request not answered by a sweep is still owed one; only the shutdown cuts a sweep short. */
    ghost predicate Accounted()
      reads this
    {
      && SweepsReach(flushes, marks) && (forall m <- marks :: m.Cut? ==> shuttingDown)
      && (forall r <- asked :: r in unanswered || IsAnswered(marks, r))
    }

    /** The current pump's sweep is under way, and without a pump none is. */
    ghost predicate Tracked()
      reads this, pump
    {
      if pump == null then Idle(flushes, marks) && (marks != [] ==> !marks[|marks| - 1].Replaced?)
      else UnderWay(flushes, marks, pump.generation, pump.remaining)
    }

    /** The pump was just started and has not listed its missions. */
    ghost predicate JustStarted(p: Pump)
      reads this, p
    {
      pump == p && p.requested && p.remaining == [] && Idle(flushes, marks)
    }

    ghost predicate Valid()
      reads this, pumps, pump
    {
      && RequestsHeld() && ClaimsUnique() && Ordered() && Accounted() && Tracked()
      && (pump != null ==> pump in pumps && !pump.ended)
      && (forall p <- pumps :: p.ended ==> p != pump)
    }

    constructor (bound: nat)
      ensures Valid() && this.bound == bound && pumps == {} && !shuttingDown && unanswered == {} && delivering == {}
      ensures asked == {} && marks == [] && flushes == []
    {
      this.bound := bound;
      startPending, pump, shuttingDown, delivering, pumps, unanswered := false, null, false, {}, {}, {};
      calls, generation, flushes, asked, marks := [], 0, [], {}, [];
    }

    /** Ask for a sweep. At most one start is pending, on behalf of all who asked since the last. */
    method PumpOutbox(r: Request)
      requires Valid()
      modifies this`startPending, this`unanswered, this`asked
      ensures Valid() && (!shuttingDown ==> startPending && unanswered == old(unanswered) + {r} && asked == old(asked) + {r})
      ensures shuttingDown ==> startPending == old(startPending) && unanswered == old(unanswered) && asked == old(asked)
    {
      if shuttingDown {
        return;
      }
      unanswered, asked := unanswered + {r}, asked + {r};
      if startPending {
        return;
      }
      startPending := true;
    }

    /**
     * The deferred start. A sweep younger than the bound takes the requests
     * on; an older one is left to itself, and a new pump, whose sweep starts at
     * once, answers every request.
     */
    method RunStart(now: int, missions: seq<Mission>) returns (flush: seq<Mission>)
      requires Valid() && startPending
      modifies this, pumps
      ensures Valid() && !startPending && delivering == old(delivering) && shuttingDown == old(shuttingDown) && asked == old(asked)
      ensures old(pump) != null && now - old(pump.sweepStartedAt) < bound ==>
        pump == old(pump) && pump.requested && flush == [] && marks == old(marks)
      ensures old(pump) == null || now - old(pump.sweepStartedAt) >= bound ==>
        && (pump == null || (pump != old(pump) && fresh(pump)))
        && flush == (if shuttingDown then [] else missions[..if missions == [] then 0 else 1])
        && marks == old(marks) + (if old(pump) == null then [] else [Replaced(|old(flushes)|)])
             + [Sweeps(generation, |old(flushes)|, missions, old(unanswered))] + Closing(flush, missions, |flushes|)
      ensures !shuttingDown && (old(pump) == null || now - old(pump.sweepStartedAt) >= bound) ==> unanswered == {}
      ensures |flush| <= 1 && (flush != [] ==> pump != null && fresh(pump) && !shuttingDown)
      ensures flushes == old(flushes) + (if flush == [] then [] else [Flush(flush[0], generation, generation)]) && calls == old(calls)
      ensures forall p <- pumps :: p in old(pumps) || fresh(p)
    {
      startPending := false;
      if pump != null && now - pump.sweepStartedAt < bound {
        pump.requested := true;
        return [];
      }
      var p := Succeed(now);
      flush := Resume(p, now, missions);
    }

    /** A new pump takes over from the current one, if there is one. */
    method Succeed(now: int) returns (p: Pump)
      requires Accounted() && Tracked() && ClaimsUnique() && Ordered() && (pump != null ==> pump in pumps && !pump.ended)
      requires forall q <- pumps :: q.ended ==> q != pump
      modifies this`marks, this`pump, this`pumps, this`generation
      ensures fresh(p) && pumps == old(pumps) + {p} && JustStarted(p) && !p.ended && p.sweepStartedAt == now
      ensures Accounted() && ClaimsUnique() && Ordered() && generation == old(generation) + 1
      ensures marks == old(marks) + if old(pump) == null then [] else [Replaced(|flushes|)]
    {
      if pump != null {
        NoteMark(Replaced(|flushes|), pump.generation, pump.remaining);
      }
      generation := generation + 1;
      p := new Pump(now, generation);
      pump, pumps := p, pumps + {p};
    }

    /** How a pump that begins no further flush leaves its sweep: through its list, or cut short. */
    static ghost function Closing(flush: seq<Mission>, listed: seq<Mission>, at: nat): seq<Mark> {
      if flush != [] then [] else [if listed == [] then Finished(at) else Cut(at)]
    }

    /**
     * Pump `p` continues: the next mission of its sweep while it is current,
     * another sweep if a request waits, otherwise its end. A pump that was
     * replaced begins no further flush.
     */
    method Resume(p: Pump, now: int, missions: seq<Mission>) returns (flush: seq<Mission>)
      requires ClaimsUnique() && Ordered() && (pump != null ==> pump in pumps && !pump.ended) && (forall q <- pumps :: q.ended ==> q != pump)
      requires p in pumps && !p.ended
      requires RequestsHeld() && Accounted() && (Tracked() || JustStarted(p))
      modifies this`pump, this`unanswered, this`flushes, this`marks, p
      ensures Valid()
      ensures flushes == old(flushes) + if flush == [] then [] else [Flush(flush[0], p.generation, generation)]
      ensures pump == old(pump) || (pump == null && old(pump) == p && p.ended)
      ensures |flush| <= 1 && (flush != [] ==> pump == p && !shuttingDown && !p.ended)
      ensures p.requested == (old(p.requested) && old(p.remaining) != [])
      ensures var listed := if old(p.remaining) == [] && old(p.requested) then missions else old(p.remaining);
        if old(pump) == p && !shuttingDown && listed != []
        then flush == [listed[0]] && p.remaining == listed[1..] && pump == p && !p.ended
        else flush == [] && p.ended && pump == (if old(pump) == p then null else old(pump))
      ensures old(pump) != p ==> marks == old(marks)
      ensures old(pump) == p && old(p.remaining) == [] && old(p.requested) ==>
        marks == old(marks) + [Sweeps(p.generation, |old(flushes)|, missions, old(unanswered))] + Closing(flush, missions, |flushes|)
      ensures old(pump) == p && (old(p.remaining) != [] || !old(p.requested)) ==>
        marks == old(marks) + Closing(flush, old(p.remaining), |flushes|)
      ensures old(pump) == p && old(p.requested) && old(p.remaining) == [] && !shuttingDown ==> unanswered == {}
      ensures unanswered == old(unanswered) || unanswered == {}
    {
      if p.remaining == [] && p.requested {
        BeginSweep(p, now, missions);
      }
      flush := Continue(p);
    }

    /** The next flush of a current pump's list, or the pump's end. */
    method Continue(p: Pump) returns (flush: seq<Mission>)
      requires ClaimsUnique() && Ordered() && (pump != null ==> pump in pumps && !pump.ended) && (forall q <- pumps :: q.ended ==> q != pump)
      requires p in pumps && !p.ended && RequestsHeld() && Accounted() && Tracked() && (p.remaining == [] ==> !p.requested)
      modifies this`pump, this`flushes, this`marks, p`remaining, p`ended
      ensures Valid()
      ensures flushes == old(flushes) + if flush == [] then [] else [Flush(flush[0], p.generation, generation)]
      ensures if old(pump) == p && !shuttingDown && old(p.remaining) != []
        then flush == [old(p.remaining[0])] && p.remaining == old(p.remaining[1..]) && pump == p && !p.ended
        else flush == [] && p.ended && pump == (if old(pump) == p then null else old(pump))
      ensures marks == old(marks) + if old(pump) == p then Closing(flush, old(p.remaining), |flushes|) else []
    {
      if p.remaining != [] && pump == p && !shuttingDown {
        flush := [p.remaining[0]];
        NoteFlush(p.generation, p.remaining);
        p.remaining := p.remaining[1..];
        return;
      }
      flush := [];
      if pump == p {
        NoteMark(if p.remaining == [] then Finished(|flushes|) else Cut(|flushes|), p.generation, p.remaining);
        pump := null;
      }
      p.ended := true;
    }

    /** The sweep under way begins its next flush. */
    ghost method NoteFlush(starter: nat, remaining: seq<Mission>)
      requires Accounted() && UnderWay(flushes, marks, starter, remaining) && remaining != []
      requires starter == generation && ByNewest(flushes, generation)
      modifies this`flushes
      ensures flushes == old(flushes) + [Flush(remaining[0], starter, generation)]
      ensures Accounted() && UnderWay(flushes, marks, starter, remaining[1..]) && ByNewest(flushes, generation)
    {
      FlushAdded(flushes, marks, Flush(remaining[0], starter, generation));
      HeadFlushed(flushes, marks, starter, generation, remaining);
      flushes := flushes + [Flush(remaining[0], starter, generation)];
    }

    /** The sweep under way is closed. */
    ghost method NoteMark(mark: Mark, generation: nat, remaining: seq<Mission>)
      requires Accounted() && UnderWay(flushes, marks, generation, remaining) && !mark.Sweeps? && mark.at == |flushes|
      requires (mark.Finished? ==> remaining == []) && (mark.Cut? ==> shuttingDown)
      modifies this`marks
      ensures marks == old(marks) + [mark] && Accounted() && Idle(flushes, marks)
    {
      SweepCloses(flushes, marks, generation, remaining, mark);
      MarkAdded(flushes, marks, mark);
      forall r | r in asked && r !in unanswered ensures IsAnswered(marks + [mark], r) {
        AnswersKept(marks, mark, r);
      }
      marks := marks + [mark];
    }

    /** A sweep lists every mission. One that starts in the current pump answers every request made so far. */
    method BeginSweep(p: Pump, now: int, missions: seq<Mission>)
      requires Accounted() && (pump == p ==> JustStarted(p) || UnderWay(flushes, marks, p.generation, []))
      modifies this`unanswered, this`marks, p
      ensures !p.requested && p.sweepStartedAt == now && p.remaining == missions && p.ended == old(p.ended)
      ensures unanswered == if pump == p then {} else old(unanswered)
      ensures marks == old(marks) + if pump == p then [Sweeps(p.generation, |flushes|, missions, old(unanswered))] else []
      ensures Accounted() && (pump == p ==> UnderWay(flushes, marks, p.generation, missions))
    {
      ghost var mark := Sweeps(p.generation, |flushes|, missions, unanswered);
      if pump == p {
        if !JustStarted(p) { SweepCloses(flushes, marks, p.generation, [], mark); }
        MarkAdded(flushes, marks, mark);
        forall r | r in asked ensures IsAnswered(marks + [mark], r) {
          AnswersKept(marks, mark, r);
        }
        unanswered, marks := {}, marks + [mark];
      }
      p.requested, p.sweepStartedAt, p.remaining := false, now, missions;
    }

    /** One delivery attempt, unless the delivery is already claimed. */
    method Attempt(d: Delivery) returns (claimed: bool)
      requires Valid()
      modifies this`delivering, this`calls
      ensures Valid() && (claimed <==> d !in old(delivering)) && delivering == old(delivering) + {d}
      ensures calls == old(calls) + if claimed then [Begun(d)] else []
    {
      if d in delivering {
        return false;
      }
      CallAdded(calls, Begun(d));
      delivering, calls := delivering + {d}, calls + [Begun(d)];
      return true;
    }

    /** The attempt settled, failed, or was abandoned at its bound. */
    method Settle(d: Delivery)
      requires Valid() && d in delivering
      modifies this`delivering, this`calls
      ensures Valid() && delivering == old(delivering) - {d} && calls == old(calls) + [Over(d)]
    {
      CallAdded(calls, Over(d));
      delivering, calls := delivering - {d}, calls + [Over(d)];
    }

    method Shutdown()
      requires Valid()
      modifies this`shuttingDown
      ensures Valid() && shuttingDown
    {
      shuttingDown := true;
    }

    /** One event, unless its time has not come. */
    method Handle(event: Event)
      requires Valid()
      modifies this, pumps
      ensures Valid() && forall p <- pumps :: p in old(pumps) || fresh(p)
      ensures old(flushes) <= flushes && old(calls) <= calls && old(marks) <= marks && old(asked) <= asked
      ensures shuttingDown == (old(shuttingDown) || event.Shuts?)
      ensures asked == old(asked) + (if event.Requests? && !old(shuttingDown) then {event.r} else {})
      ensures event.Starts? ==> !startPending
      ensures event.Attempts? ==> event.d in delivering
      ensures event.Settles? ==> event.d !in delivering
    {
      match event
      case Requests(r) => PumpOutbox(r);
      case Starts(now, missions) => StartDue(now, missions);
      case Resumes(now, missions) => ResumeSome(now, missions);
      case Attempts(d) => var claimed := Attempt(d);
      case Settles(d) =>
        if d in delivering {
          Settle(d);
        }
      case Shuts => Shutdown();
    }

    /** The pending start, if there is one. */
    method StartDue(now: int, missions: seq<Mission>)
      requires Valid()
      modifies this, pumps
      ensures Valid() && !startPending && shuttingDown == old(shuttingDown) && asked == old(asked)
      ensures calls == old(calls) && old(flushes) <= flushes && old(marks) <= marks
      ensures forall p <- pumps :: p in old(pumps) || fresh(p)
    {
      if startPending {
        var flush := RunStart(now, missions);
      }
    }

    /** Some pump that has not ended, if there is one. */
    method ResumeSome(now: int, missions: seq<Mission>)
      requires Valid()
      modifies this`pump, this`unanswered, this`flushes, this`marks, pumps
      ensures Valid() && old(flushes) <= flushes && old(marks) <= marks
    {
      if p :| p in pumps && !p.ended {
        var flush := Resume(p, now, missions);
      }
    }

    /** The requests made before the shutdown. */
    static ghost function Asked(events: seq<Event>, shut: bool): set<Request>
      decreases |events|
    {
      if events == [] then {}
      else
        var before, e := events[..|events| - 1], events[|events| - 1];
        Asked(before, shut) + (if e.Requests? && !shut && NoneShuts(before) then {e.r} else {})
    }

    static predicate NoneShuts(events: seq<Event>) {
      forall e <- events :: !e.Shuts?
    }

    static lemma OneMoreAsked(events: seq<Event>, i: nat, shut: bool)
      requires i < |events|
      ensures NoneShuts(events[..i + 1]) <==> NoneShuts(events[..i]) && !events[i].Shuts?
      ensures Asked(events[..i + 1], shut) ==
        Asked(events[..i], shut) + (if events[i].Requests? && !shut && NoneShuts(events[..i]) then {events[i].r} else {})
    {
      var longer := events[..i + 1];
      assert longer[..i] == events[..i] && longer == events[..i] + [events[i]];
    }

    /**
     * Every state of every interleaving is valid; an event whose time has not
     * come changes nothing. Over the whole run every flush was begun by the
     * pump that was newest then, and no delivery had two attempts at once.
     * A current pump ends, or begins another sweep, only after it flushed the
     * missions its sweep listed, each once and in order; so each request is
     * still held, or a sweep no older than its answer flushed its whole list,
     * is under way, or was cut short by the shutdown.
     */
    method Drive(events: seq<Event>)
      requires Valid()
      modifies this, pumps
      ensures Valid() && ByNewest(flushes, generation) && OneAtATime(calls)
      ensures old(flushes) <= flushes && old(calls) <= calls && old(marks) <= marks && old(asked) <= asked
      ensures asked == old(asked) + Asked(events, old(shuttingDown)) && shuttingDown == (old(shuttingDown) || !NoneShuts(events))
      ensures SweepsReach(flushes, marks) && forall r <- asked ::
        Reaches(flushes, marks, r) || (r in unanswered && (!shuttingDown ==> startPending || (pump != null && pump.requested)))
      ensures !shuttingDown && !startPending && pump == null ==> marks == [] || marks[|marks| - 1].Finished?
    {
      for i := 0 to |events|
        invariant Valid() && forall p <- pumps :: p in old(pumps) || fresh(p)
        invariant old(flushes) <= flushes && old(calls) <= calls && old(marks) <= marks
        invariant asked == old(asked) + Asked(events[..i], old(shuttingDown))
        invariant shuttingDown == (old(shuttingDown) || !NoneShuts(events[..i]))
      {
        OneMoreAsked(events, i, old(shuttingDown));
        Handle(events[i]);
      }
      assert events[..|events|] == events;
      AnswersReach(flushes, marks, asked - unanswered);
    }
  }
}
