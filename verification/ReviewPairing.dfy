/** The reviews the host adds to a plan: one for every deliverable no verification task names. */
module ReviewPairing {
  import opened Wrappers
  import opened Digraph
  import opened Plans

  const KEY_LIMIT := 100
  const DEFAULT_TASK_MAX_STEPS := 150

  datatype Plan = Plan(tasks: seq<Row>, maxTasks: nat, maxSteps: nat)

  datatype Pairing = Paired(plan: Plan) | TooManyTasks(needed: nat)

  /* ---- a fresh key for a review ---- */

  /** `slice(0, n)`: a negative end counts back from the end. */
  function Slice(s: string, n: int): string {
    if n >= |s| then s else if n >= 0 then s[..n] else if |s| + n > 0 then s[..|s| + n] else ""
  }

  predicate Digit(c: char) {
    '0' <= c <= '9'
  }

  function Decimal(n: nat): (s: string)
    ensures s != [] && forall c <- s :: Digit(c)
  {
    if n < 10 then ['0' + n as char] else Decimal(n / 10) + ['0' + (n % 10) as char]
  }

  function Value(s: string): nat
    requires forall c <- s :: Digit(c)
  {
    if s == [] then 0 else
      var last := s[|s| - 1];
      assert last in s && Digit(last);
      10 * Value(s[..|s| - 1]) + (last as int - '0' as int)
  }

  lemma {:induction false} DecimalReadsBack(n: nat)
    ensures Value(Decimal(n)) == n
  {
    if n >= 10 {
      DecimalReadsBack(n / 10);
      var s := Decimal(n);
      assert s[..|s| - 1] == Decimal(n / 10);
      assert s[|s| - 1] as int - '0' as int == n % 10;
    } else {
      assert Value(['0' + n as char]) == 10 * Value([]) + n;
    }
  }

  /** The number a review key carries: none on the first candidate. */
  function Number(index: nat): (s: string)
    ensures forall c <- s :: Digit(c)
  {
    if index == 1 then "" else Decimal(index)
  }

  function Suffix(index: nat): string {
    "-review" + Number(index)
  }

  function Candidate(source: Key, index: nat): Key {
    Slice(source, KEY_LIMIT - |Suffix(index)|) + Suffix(index)
  }

  /** The longest run of digits a key ends with. */
  function Tail(s: string): string {
    if s == [] || !Digit(s[|s| - 1]) then "" else Tail(s[..|s| - 1]) + [s[|s| - 1]]
  }

  lemma {:induction false} TailIsTheNumber(prefix: string, digits: string)
    requires prefix != [] && !Digit(prefix[|prefix| - 1]) && forall c <- digits :: Digit(c)
    ensures Tail(prefix + digits) == digits
    decreases |digits|
  {
    if digits == [] {
      assert prefix + digits == prefix;
    } else {
      var s := prefix + digits;
      assert s[..|s| - 1] == prefix + digits[..|digits| - 1];
      TailIsTheNumber(prefix, digits[..|digits| - 1]);
    }
  }

  /** No two candidates are the same key, whatever was cut off the source's key. */
  lemma CandidatesDiffer(source: Key, i: nat, j: nat)
    requires 1 <= i && 1 <= j && Candidate(source, i) == Candidate(source, j)
    ensures i == j
  {
    TailOfCandidate(source, i);
    TailOfCandidate(source, j);
    DecimalReadsBack(i);
    DecimalReadsBack(j);
  }

  lemma TailOfCandidate(source: Key, index: nat)
    ensures Tail(Candidate(source, index)) == Number(index)
  {
    var prefix := Slice(source, KEY_LIMIT - |Suffix(index)|) + "-review";
    assert Candidate(source, index) == prefix + Number(index);
    TailIsTheNumber(prefix, Number(index));
  }

  /** A candidate keeps as much of the source's key as fits: all of it, or what fills the limit. */
  lemma CandidateKeepsSource(source: Key, index: nat)
    requires |Suffix(index)| < KEY_LIMIT
    ensures |source| + |Suffix(index)| <= 100 ==> Candidate(source, index) == source + "-review" + Number(index)
    ensures |source| + |Suffix(index)| > 100 ==>
      && |Candidate(source, index)| == 100
      && Candidate(source, index) == source[..100 - |Suffix(index)|] + "-review" + Number(index)
  {
    assert source + Suffix(index) == source + "-review" + Number(index);
  }

  function Candidates(source: Key, n: nat): set<Key> {
    if n == 0 then {} else Candidates(source, n - 1) + {Candidate(source, n)}
  }

  /** The first `n` candidates are `n` keys. */
  lemma {:induction false} CandidatesAreMany(source: Key, n: nat)
    ensures |Candidates(source, n)| == n
    ensures forall k <- Candidates(source, n) :: exists i: nat :: 1 <= i <= n && k == Candidate(source, i)
  {
    if n > 0 {
      CandidatesAreMany(source, n - 1);
      if Candidate(source, n) in Candidates(source, n - 1) {
        var i: nat :| 1 <= i <= n - 1 && Candidate(source, n) == Candidate(source, i);
        CandidatesDiffer(source, n, i);
      }
    }
  }

  lemma SubsetFits<T>(a: set<T>, b: set<T>)
    requires a <= b
    ensures |a| <= |b|
  {
    assert b == a + (b - a);
  }

  /** The first free candidate. It exists within one more try than there are taken keys. */
  method ReviewKey(source: Key, taken: set<Key>) returns (key: Key, ghost index: nat)
    ensures 1 <= index <= |taken| + 1 && key == Candidate(source, index) && key !in taken
    ensures Candidates(source, index - 1) <= taken
    ensures |Suffix(index)| <= KEY_LIMIT ==> |key| <= KEY_LIMIT
  {
    var i: nat := 1;
    key := Candidate(source, i);
    while key in taken
      invariant 1 <= i <= |taken| + 1 && key == Candidate(source, i)
      invariant Candidates(source, i - 1) <= taken
      decreases |taken| + 1 - i
    {
      CandidatesAreMany(source, i);
      SubsetFits(Candidates(source, i), taken);
      i := i + 1;
      key := Candidate(source, i);
    }
    index := i;
  }

  /* ---- pairing ---- */

  predicate Reviews(r: Row, key: Key) {
    r.kind.Verification? && r.reviewOf == Some(key)
  }

  function Reviewed(rows: seq<Row>): set<Key> {
    set r | r in rows && r.kind.Verification? && r.reviewOf.Some? :: r.reviewOf.value
  }

  predicate Unreviewed(r: Row, reviewed: set<Key>) {
    !r.kind.Verification? && r.key !in reviewed
  }

  /** The review the host adds: the source's, with its override's fields. */
  function Review(source: Row, key: Key, maxSteps: nat): Row {
    var o := source.review.GetOr(Override(None, None, None, None, None));
    Row(key, Verification, source.workstream, "Independent review of " + source.title,
        o.objective.GetOr("Independently verify the submitted artifact of " + source.key + " (" + source.title + ") against its acceptance criteria."), source.scope,
        o.acceptance.GetOr([]), Some([]), o.assignee, Some(Ceiling(o.maxSteps, maxSteps)),
        if o.maxRecovery.Some? then o.maxRecovery else source.maxRecovery,
        source.checkTimeout, source.priority, [], Some(source.key), None)
  }

  /** A review's step ceiling: the override's, or the task default within the mission's. */
  function Ceiling(chosen: Option<nat>, maxSteps: nat): nat {
    match chosen
    case Some(n) => n
    case None => if maxSteps < 1 then 1 else if maxSteps < DEFAULT_TASK_MAX_STEPS then maxSteps else DEFAULT_TASK_MAX_STEPS
  }

  predicate Overrides<T(==)>(chosen: Option<T>, default: Option<T>, result: Option<T>) {
    result == if chosen.Some? then chosen else default
  }

  /**
   * The added review names nothing but its source and carries its fields, or
   * what the source prescribes for it. Its steps are prescribed, or all the
   * mission allows up to the task default, and never none.
   */
  lemma AddedReview(source: Row, key: Key, maxSteps: nat)
    ensures var r, o := Review(source, key, maxSteps), source.review.GetOr(Override(None, None, None, None, None));
      && r.key == key && Reviews(r, source.key) && r.Edges() == [source.key] && r.review.None? && r.outputs == Some([])
      && r.workstream == source.workstream && r.scope == source.scope && r.priority == source.priority && r.checkTimeout == source.checkTimeout
      && r.assignee == o.assignee && Overrides(o.maxRecovery, source.maxRecovery, r.maxRecovery)
      && Overrides(o.acceptance, Some([]), Some(r.acceptance)) && (o.objective.Some? ==> r.objective == o.objective.value)
      && r.maxSteps.Some? && (o.maxSteps.Some? ==> r.maxSteps == o.maxSteps)
      && (o.maxSteps.None? ==>
            && 1 <= r.maxSteps.value <= 150 && (maxSteps > 0 ==> r.maxSteps.value <= maxSteps)
            && (r.maxSteps.value < 150 && maxSteps > 0 ==> r.maxSteps.value == maxSteps))
  {
  }

  /** Each row, its override consumed, followed by its review where it needs one. */
  function Expand(rows: seq<Row>, reviewed: set<Key>, chosen: map<Key, Key>, maxSteps: nat): seq<Row>
    requires forall r <- rows | Unreviewed(r, reviewed) :: r.key in chosen
  {
    if rows == [] then [] else
      var before, last := rows[..|rows| - 1], rows[|rows| - 1];
      Expand(before, reviewed, chosen, maxSteps) + [last.(review := None)]
      + (if Unreviewed(last, reviewed) then [Review(last, chosen[last.key], maxSteps)] else [])
  }

  function CountReviews(rows: seq<Row>, key: Key): nat {
    if rows == [] then 0 else
      CountReviews(rows[..|rows| - 1], key) + (if Reviews(rows[|rows| - 1], key) then 1 else 0)
  }

  function CountUnreviewed(rows: seq<Row>, reviewed: set<Key>): nat {
    if rows == [] then 0 else
      CountUnreviewed(rows[..|rows| - 1], reviewed) + (if Unreviewed(rows[|rows| - 1], reviewed) then 1 else 0)
  }

  /** What plan validation guarantees: unique keys, an order, and overrides only where the host adds a review. */
  ghost predicate Validated(plan: Plan) {
    && UniqueKeys(plan.tasks) && Orderable(ByKey(plan.tasks))
    && |plan.tasks| <= plan.maxTasks && plan.maxSteps >= 1
    && (forall r <- plan.tasks :: r.reviewOf.Some? <==> r.kind.Verification?)
    && (forall r <- plan.tasks :: r.review.Some? ==>
          Unreviewed(r, Reviewed(plan.tasks)) && (r.review.value.maxSteps.Some? ==> r.review.value.maxSteps.value <= plan.maxSteps))
  }

  /* ---- what the expansion is ---- */

  /** The rows before it and their reviews. */
  function PositionOf(rows: seq<Row>, i: nat, reviewed: set<Key>): nat
    requires i <= |rows|
  {
    i + CountUnreviewed(rows[..i], reviewed)
  }

  lemma {:induction false} ExpandLength(rows: seq<Row>, reviewed: set<Key>, chosen: map<Key, Key>, maxSteps: nat)
    requires forall r <- rows | Unreviewed(r, reviewed) :: r.key in chosen
    ensures |Expand(rows, reviewed, chosen, maxSteps)| == |rows| + CountUnreviewed(rows, reviewed)
  {
    if rows != [] {
      ExpandLength(rows[..|rows| - 1], reviewed, chosen, maxSteps);
    }
  }

  /** Every row stands where it stood among the others, its review right after it. */
  lemma {:induction false} ReviewsFollowTheirSources(rows: seq<Row>, reviewed: set<Key>, chosen: map<Key, Key>, maxSteps: nat, i: nat)
    requires forall r <- rows | Unreviewed(r, reviewed) :: r.key in chosen
    requires i < |rows|
    ensures var out, p := Expand(rows, reviewed, chosen, maxSteps), PositionOf(rows, i, reviewed);
      && p < |out| && out[p] == rows[i].(review := None)
      && (Unreviewed(rows[i], reviewed) ==> p + 1 < |out| && out[p + 1] == Review(rows[i], chosen[rows[i].key], maxSteps))
  {
    var before := rows[..|rows| - 1];
    ExpandLength(before, reviewed, chosen, maxSteps);
    ExpandLength(rows, reviewed, chosen, maxSteps);
    if i < |before| {
      ReviewsFollowTheirSources(before, reviewed, chosen, maxSteps, i);
      assert before[..i] == rows[..i];
    } else {
      assert rows[..i] == before;
    }
  }

  /** An expanded row is an original, or the review of one. */
  ghost predicate FromRow(rows: seq<Row>, reviewed: set<Key>, chosen: map<Key, Key>, maxSteps: nat, r: Row) {
    exists s <- rows ::
      r == s.(review := None) || (Unreviewed(s, reviewed) && s.key in chosen && r == Review(s, chosen[s.key], maxSteps))
  }

  lemma {:induction false} ExpandedIsFromRow(rows: seq<Row>, reviewed: set<Key>, chosen: map<Key, Key>, maxSteps: nat, r: Row)
    requires forall r <- rows | Unreviewed(r, reviewed) :: r.key in chosen
    requires r in Expand(rows, reviewed, chosen, maxSteps)
    ensures FromRow(rows, reviewed, chosen, maxSteps, r)
  {
    var before, last := rows[..|rows| - 1], rows[|rows| - 1];
    if r in Expand(before, reviewed, chosen, maxSteps) {
      ExpandedIsFromRow(before, reviewed, chosen, maxSteps, r);
      var s :| s in before &&
        (r == s.(review := None) || (Unreviewed(s, reviewed) && s.key in chosen && r == Review(s, chosen[s.key], maxSteps)));
      assert s in rows;
    } else {
      assert last in rows;
    }
  }

  lemma {:induction false} RowIsExpanded(rows: seq<Row>, reviewed: set<Key>, chosen: map<Key, Key>, maxSteps: nat, s: Row)
    requires forall r <- rows | Unreviewed(r, reviewed) :: r.key in chosen
    requires s in rows
    ensures s.(review := None) in Expand(rows, reviewed, chosen, maxSteps)
    ensures Unreviewed(s, reviewed) ==> Review(s, chosen[s.key], maxSteps) in Expand(rows, reviewed, chosen, maxSteps)
  {
    var i :| 0 <= i < |rows| && rows[i] == s;
    ReviewsFollowTheirSources(rows, reviewed, chosen, maxSteps, i);
  }

  /** The host adds a review of `key`. */
  ghost predicate Adds(rows: seq<Row>, reviewed: set<Key>, key: Key) {
    exists i :: 0 <= i < |rows| && rows[i].key == key && Unreviewed(rows[i], reviewed)
  }

  /** The reviews of a task are the authored ones and, for an unreviewed deliverable, the added one. */
  lemma {:induction false} ExpandCountsReviews(rows: seq<Row>, reviewed: set<Key>, chosen: map<Key, Key>, maxSteps: nat, key: Key)
    requires forall r <- rows | Unreviewed(r, reviewed) :: r.key in chosen
    requires UniqueKeys(rows)
    ensures CountReviews(Expand(rows, reviewed, chosen, maxSteps), key)
         == CountReviews(rows, key) + (if Adds(rows, reviewed, key) then 1 else 0)
  {
    if rows != [] {
      var before, last := rows[..|rows| - 1], rows[|rows| - 1];
      var out := Expand(before, reviewed, chosen, maxSteps);
      ExpandCountsReviews(before, reviewed, chosen, maxSteps, key);
      CountSplits(out, [last.(review := None)], key);
      if Unreviewed(last, reviewed) {
        CountSplits(out + [last.(review := None)], [Review(last, chosen[last.key], maxSteps)], key);
        assert Reviews(Review(last, chosen[last.key], maxSteps), key) <==> last.key == key;
      } else {
        assert Expand(rows, reviewed, chosen, maxSteps) == out + [last.(review := None)];
      }
      assert Reviews(last.(review := None), key) <==> Reviews(last, key);
      AddsSplits(rows, reviewed, key);
    }
  }

  lemma AddsSplits(rows: seq<Row>, reviewed: set<Key>, key: Key)
    requires rows != [] && UniqueKeys(rows)
    ensures var before, last := rows[..|rows| - 1], rows[|rows| - 1];
      && (Adds(rows, reviewed, key) <==> Adds(before, reviewed, key) || (last.key == key && Unreviewed(last, reviewed)))
      && !(Adds(before, reviewed, key) && last.key == key)
  {
    var before, last := rows[..|rows| - 1], rows[|rows| - 1];
    if Adds(before, reviewed, key) {
      var i :| 0 <= i < |before| && before[i].key == key && Unreviewed(before[i], reviewed);
      assert rows[i] == before[i];
    }
    if Adds(rows, reviewed, key) {
      var i :| 0 <= i < |rows| && rows[i].key == key && Unreviewed(rows[i], reviewed);
      assert i == |rows| - 1 || before[i] == rows[i];
    }
  }

  lemma CountSplits(rows: seq<Row>, one: seq<Row>, key: Key)
    requires |one| == 1
    ensures CountReviews(rows + one, key) == CountReviews(rows, key) + (if Reviews(one[0], key) then 1 else 0)
  {
    assert (rows + one)[..|rows|] == rows;
  }

  lemma {:induction false} UncountedIsUnreviewed(rows: seq<Row>, key: Key)
    ensures CountReviews(rows, key) > 0 <==> key in Reviewed(rows)
  {
    if rows != [] {
      var before, last := rows[..|rows| - 1], rows[|rows| - 1];
      UncountedIsUnreviewed(before, key);
      assert forall r :: r in rows <==> r in before || r == last;
    }
  }

  /** Exactly one review for each deliverable that had none, and as many as before for every other task. */
  lemma EachDeliverableReviewedOnce(rows: seq<Row>, chosen: map<Key, Key>, maxSteps: nat, key: Key)
    requires UniqueKeys(rows) && forall r <- rows | Unreviewed(r, Reviewed(rows)) :: r.key in chosen
    ensures var out := Expand(rows, Reviewed(rows), chosen, maxSteps);
      CountReviews(out, key) ==
        if Adds(rows, Reviewed(rows), key) then 1 else CountReviews(rows, key)
  {
    ExpandCountsReviews(rows, Reviewed(rows), chosen, maxSteps, key);
    UncountedIsUnreviewed(rows, key);
  }

  predicate NothingToAdd(rows: seq<Row>) {
    forall r <- rows :: !Unreviewed(r, Reviewed(rows))
  }

  /** After pairing no deliverable is left unreviewed. */
  lemma PairedNeedsNothing(rows: seq<Row>, chosen: map<Key, Key>, maxSteps: nat)
    requires forall r <- rows | Unreviewed(r, Reviewed(rows)) :: r.key in chosen
    ensures NothingToAdd(Expand(rows, Reviewed(rows), chosen, maxSteps))
  {
    var reviewed, out := Reviewed(rows), Expand(rows, Reviewed(rows), chosen, maxSteps);
    forall r | r in out && !r.kind.Verification? ensures r.key in Reviewed(out) {
      ExpandedIsFromRow(rows, reviewed, chosen, maxSteps, r);
      var s :| s in rows && r == s.(review := None);
      if Unreviewed(s, reviewed) {
        RowIsExpanded(rows, reviewed, chosen, maxSteps, s);
        assert Reviews(Review(s, chosen[s.key], maxSteps), r.key);
      } else {
        var v :| v in rows && v.kind.Verification? && v.reviewOf == Some(s.key);
        RowIsExpanded(rows, reviewed, chosen, maxSteps, v);
        assert Reviews(v.(review := None), r.key);
      }
    }
  }

  /** Fresh keys: none is a row's, and no two are the same. */
  ghost predicate FreshKeys(rows: seq<Row>, chosen: map<Key, Key>) {
    && (forall k <- chosen.Keys :: forall r <- rows :: r.key != chosen[k])
    && (forall k, l | k in chosen && l in chosen && k != l :: chosen[k] != chosen[l])
  }

  /** The added rows keep the plan acyclic: nothing names a review, and a review names only its source. */
  lemma PairedIsOrderable(rows: seq<Row>, chosen: map<Key, Key>, maxSteps: nat)
    requires UniqueKeys(rows) && Orderable(ByKey(rows)) && FreshKeys(rows, chosen)
    requires forall r <- rows | Unreviewed(r, Reviewed(rows)) :: r.key in chosen
    ensures Orderable(ByKey(Expand(rows, Reviewed(rows), chosen, maxSteps)))
  {
    var out := Expand(rows, Reviewed(rows), chosen, maxSteps);
    ByKeyIndexes(out);
    OrderableIsSound(ByKey(rows));
    var rank :| Ranks(Links(ByKey(rows)), rank);
    var later := map k | k in ByKey(out) :: if k in rank then rank[k] else RankOfReview(ByKey(out)[k], rank);
    forall a, b | Edge(Links(ByKey(out)), a, b) ensures b in later && later[b] < later[a] {
      EdgeStaysRanked(rows, chosen, maxSteps, rank, ByKey(out)[a], b);
      KeyStays(rows, chosen, maxSteps, b);
    }
    assert Ranks(Links(ByKey(out)), later);
  }

  /** An expanded row's edge leads to an original row of lower rank. */
  lemma EdgeStaysRanked(rows: seq<Row>, chosen: map<Key, Key>, maxSteps: nat, rank: map<Key, nat>, r: Row, b: Key)
    requires UniqueKeys(rows) && Ranks(Links(ByKey(rows)), rank) && AllKnown(ByKey(rows)) && FreshKeys(rows, chosen)
    requires forall r <- rows | Unreviewed(r, Reviewed(rows)) :: r.key in chosen
    requires r in Expand(rows, Reviewed(rows), chosen, maxSteps) && b in r.Edges()
    ensures b in rank && b in ByKey(rows)
    ensures rank[b] < if r.key in rank then rank[r.key] else RankOfReview(r, rank)
  {
    var reviewed, out := Reviewed(rows), Expand(rows, Reviewed(rows), chosen, maxSteps);
    ExpandedIsFromRow(rows, reviewed, chosen, maxSteps, r);
    var s :| s in rows &&
      (r == s.(review := None) || (Unreviewed(s, reviewed) && s.key in chosen && r == Review(s, chosen[s.key], maxSteps)));
    RowsEdgeDescends(rows, rank, s);
    if r != s.(review := None) {
      FreshIsNoRow(rows, chosen, s.key);
      assert b == s.key && r.Edges() == [s.key];
    }
  }

  lemma FreshIsNoRow(rows: seq<Row>, chosen: map<Key, Key>, k: Key)
    requires FreshKeys(rows, chosen) && k in chosen
    ensures chosen[k] !in ByKey(rows)
  {
    ByKeyIndexes(rows);
  }

  lemma RowsEdgeDescends(rows: seq<Row>, rank: map<Key, nat>, s: Row)
    requires UniqueKeys(rows) && Ranks(Links(ByKey(rows)), rank) && AllKnown(ByKey(rows)) && s in rows
    ensures s.key in rank && s.key in ByKey(rows)
    ensures forall b | b in s.Edges() :: b in ByKey(rows) && b in rank && rank[b] < rank[s.key]
  {
    ByKeyIndexes(rows);
    UniqueKeepsEveryRow(rows);
    forall b | b in s.Edges() ensures b in ByKey(rows) && b in rank && rank[b] < rank[s.key] {
      assert Edge(Links(ByKey(rows)), s.key, b);
    }
  }

  lemma KeyStays(rows: seq<Row>, chosen: map<Key, Key>, maxSteps: nat, b: Key)
    requires b in ByKey(rows) && forall r <- rows | Unreviewed(r, Reviewed(rows)) :: r.key in chosen
    ensures b in ByKey(Expand(rows, Reviewed(rows), chosen, maxSteps))
  {
    var out := Expand(rows, Reviewed(rows), chosen, maxSteps);
    ByKeyIndexes(rows);
    RowIsExpanded(rows, Reviewed(rows), chosen, maxSteps, ByKey(rows)[b]);
    ByKeyIndexes(out);
    assert ByKey(rows)[b].(review := None) in out;
  }

  function RankOfReview(r: Row, rank: map<Key, nat>): nat {
    if r.reviewOf.Some? && r.reviewOf.value in rank then rank[r.reviewOf.value] + 1 else 0
  }

  lemma {:induction false} ExpandedKeysAreUnique(rows: seq<Row>, reviewed: set<Key>, chosen: map<Key, Key>, maxSteps: nat)
    requires UniqueKeys(rows) && FreshKeys(rows, chosen)
    requires forall r <- rows | Unreviewed(r, reviewed) :: r.key in chosen
    ensures UniqueKeys(Expand(rows, reviewed, chosen, maxSteps))
  {
    if rows != [] {
      var before, last := rows[..|rows| - 1], rows[|rows| - 1];
      ExpandedKeysAreUnique(before, reviewed, chosen, maxSteps);
      var out := Expand(before, reviewed, chosen, maxSteps);
      forall r | r in out ensures r.key != last.key && (last.key in chosen ==> r.key != chosen[last.key]) {
        KeysApart(rows, reviewed, chosen, maxSteps, r);
      }
      assert last in rows;
    }
  }

  /** An expanded row's key is an original's, or the one chosen for it. */
  lemma ExpandedKey(rows: seq<Row>, reviewed: set<Key>, chosen: map<Key, Key>, maxSteps: nat, r: Row) returns (i: nat)
    requires forall r <- rows | Unreviewed(r, reviewed) :: r.key in chosen
    requires r in Expand(rows, reviewed, chosen, maxSteps)
    ensures i < |rows| && (r.key == rows[i].key || (rows[i].key in chosen && r.key == chosen[rows[i].key]))
  {
    ExpandedIsFromRow(rows, reviewed, chosen, maxSteps, r);
    var s :| s in rows &&
      (r == s.(review := None) || (Unreviewed(s, reviewed) && s.key in chosen && r == Review(s, chosen[s.key], maxSteps)));
    i :| 0 <= i < |rows| && rows[i] == s;
  }

  /** A row expanded from the earlier rows shares no key with the last row or its review. */
  lemma KeysApart(rows: seq<Row>, reviewed: set<Key>, chosen: map<Key, Key>, maxSteps: nat, r: Row)
    requires UniqueKeys(rows) && FreshKeys(rows, chosen) && rows != []
    requires forall r <- rows | Unreviewed(r, reviewed) :: r.key in chosen
    requires r in Expand(rows[..|rows| - 1], reviewed, chosen, maxSteps)
    ensures var last := rows[|rows| - 1]; r.key != last.key && (last.key in chosen ==> r.key != chosen[last.key])
  {
    var i := ExpandedKey(rows[..|rows| - 1], reviewed, chosen, maxSteps, r);
    assert rows[i].key != rows[|rows| - 1].key && rows[i] in rows && rows[|rows| - 1] in rows;
  }

  lemma {:induction false} ExpandReadsItsKeys(rows: seq<Row>, reviewed: set<Key>, chosen: map<Key, Key>, more: map<Key, Key>, maxSteps: nat)
    requires forall r <- rows | Unreviewed(r, reviewed) :: r.key in chosen && r.key in more && more[r.key] == chosen[r.key]
    ensures Expand(rows, reviewed, more, maxSteps) == Expand(rows, reviewed, chosen, maxSteps)
  {
    if rows != [] {
      ExpandReadsItsKeys(rows[..|rows| - 1], reviewed, chosen, more, maxSteps);
      assert rows[|rows| - 1] in rows;
    }
  }

  lemma {:induction false} CountIsZero(rows: seq<Row>, reviewed: set<Key>)
    ensures CountUnreviewed(rows, reviewed) == 0 <==> forall r <- rows :: !Unreviewed(r, reviewed)
  {
    if rows != [] {
      CountIsZero(rows[..|rows| - 1], reviewed);
      assert forall r :: r in rows <==> r in rows[..|rows| - 1] || r == rows[|rows| - 1];
    }
  }

  /** A fresh key for each unreviewed deliverable of `part`, all different. */
  ghost predicate Chosen(rows: seq<Row>, part: seq<Row>, chosen: map<Key, Key>) {
    FreshKeys(rows, chosen) && forall r <- part | Unreviewed(r, Reviewed(rows)) :: r.key in chosen
  }

  lemma KeyIsChosen(rows: seq<Row>, part: seq<Row>, source: Row, chosen: map<Key, Key>, key: Key, maxSteps: nat)
    requires Chosen(rows, part, chosen) && forall r <- part :: r.key != source.key
    requires (forall r <- rows :: r.key != key) && (forall k <- chosen.Keys :: chosen[k] != key)
    ensures var more := chosen[source.key := key];
      && Chosen(rows, part + [source], more)
      && Expand(part, Reviewed(rows), more, maxSteps) == Expand(part, Reviewed(rows), chosen, maxSteps)
  {
    ExpandReadsItsKeys(part, Reviewed(rows), chosen, chosen[source.key := key], maxSteps);
  }

  /** The loop has expanded `part`, the first of `rows`. */
  ghost predicate Expanded(rows: seq<Row>, part: seq<Row>, chosen: map<Key, Key>, maxSteps: nat, tasks: seq<Row>, added: nat) {
    && Chosen(rows, part, chosen)
    && tasks == Expand(part, Reviewed(rows), chosen, maxSteps) && added == CountUnreviewed(part, Reviewed(rows))
  }

  /** No key in use is free. */
  ghost predicate InUse(rows: seq<Row>, chosen: map<Key, Key>, taken: set<Key>) {
    (forall t <- rows :: t.key in taken) && (forall k <- chosen.Keys :: chosen[k] in taken)
  }

  lemma KeepsRow(rows: seq<Row>, part: seq<Row>, source: Row, chosen: map<Key, Key>, maxSteps: nat, tasks: seq<Row>, added: nat)
    requires Expanded(rows, part, chosen, maxSteps, tasks, added) && !Unreviewed(source, Reviewed(rows))
    ensures Expanded(rows, part + [source], chosen, maxSteps, tasks + [source.(review := None)], added)
  {
    assert (part + [source])[..|part|] == part;
    assert forall r :: r in part + [source] <==> r in part || r == source;
  }

  lemma AddsReview(
    rows: seq<Row>, part: seq<Row>, source: Row, chosen: map<Key, Key>, maxSteps: nat, tasks: seq<Row>, added: nat,
    key: Key, taken: set<Key>)
    requires Expanded(rows, part, chosen, maxSteps, tasks, added) && Unreviewed(source, Reviewed(rows))
    requires forall r <- part :: r.key != source.key
    requires InUse(rows, chosen, taken) && key !in taken
    ensures Expanded(rows, part + [source], chosen[source.key := key], maxSteps,
                     tasks + [source.(review := None)] + [Review(source, key, maxSteps)], added + 1)
    ensures InUse(rows, chosen[source.key := key], taken + {key})
  {
    KeyIsChosen(rows, part, source, chosen, key, maxSteps);
    assert (part + [source])[..|part|] == part;
  }

  /** The loop over the plan's rows: each is kept, and each unreviewed deliverable followed by its review. */
  method AddReviews(rows: seq<Row>, maxSteps: nat) returns (tasks: seq<Row>, added: nat, ghost chosen: map<Key, Key>)
    requires UniqueKeys(rows)
    ensures Expanded(rows, rows, chosen, maxSteps, tasks, added)
  {
    var reviewed := Reviewed(rows);
    var taken := set t | t in rows :: t.key;
    tasks, added, chosen := [], 0, map[];
    for i := 0 to |rows|
      invariant Expanded(rows, rows[..i], chosen, maxSteps, tasks, added)
      invariant InUse(rows, chosen, taken)
    {
      var source := rows[i];
      ghost var part := rows[..i];
      assert rows[..i + 1] == part + [source];
      if Unreviewed(source, reviewed) {
        var key, index := ReviewKey(source.key, taken);
        EarlierKeysDiffer(rows, i);
        AddsReview(rows, part, source, chosen, maxSteps, tasks, added, key, taken);
        taken, chosen := taken + {key}, chosen[source.key := key];
        tasks, added := tasks + [source.(review := None)] + [Review(source, key, maxSteps)], added + 1;
      } else {
        KeepsRow(rows, part, source, chosen, maxSteps, tasks, added);
        tasks := tasks + [source.(review := None)];
      }
    }
    assert rows[..|rows|] == rows;
  }

  lemma EarlierKeysDiffer(rows: seq<Row>, i: nat)
    requires UniqueKeys(rows) && i < |rows|
    ensures forall r <- rows[..i] :: r.key != rows[i].key
  {
  }

  /**
   * A plan without an unreviewed deliverable comes back as it is. Otherwise every
   * unreviewed deliverable gets a review under a fresh key, unless the paired
   * plan exceeds the task budget. The result is again a validated plan.
   */
  method PairReviews(plan: Plan) returns (r: Pairing, ghost chosen: map<Key, Key>)
    requires Validated(plan)
    ensures NothingToAdd(plan.tasks) ==> r == Paired(plan)
    ensures var needed := |plan.tasks| + CountUnreviewed(plan.tasks, Reviewed(plan.tasks));
      if needed > plan.maxTasks then r == TooManyTasks(needed) else r.Paired? && |r.plan.tasks| == needed
    ensures Chosen(plan.tasks, plan.tasks, chosen)
    ensures r.Paired? && !NothingToAdd(plan.tasks) ==>
      r.plan == plan.(tasks := Expand(plan.tasks, Reviewed(plan.tasks), chosen, plan.maxSteps))
    ensures r.Paired? ==> Validated(r.plan) && NothingToAdd(r.plan.tasks)
  {
    var tasks, added;
    tasks, added, chosen := AddReviews(plan.tasks, plan.maxSteps);
    CountIsZero(plan.tasks, Reviewed(plan.tasks));
    if added == 0 {
      return Paired(plan), chosen;
    }
    ExpandLength(plan.tasks, Reviewed(plan.tasks), chosen, plan.maxSteps);
    if |tasks| > plan.maxTasks {
      return TooManyTasks(|tasks|), chosen;
    }
    PairedIsValid(plan, chosen);
    var order := OrderedTasks(tasks);
    assert order.Ordered?;
    return Paired(plan.(tasks := tasks)), chosen;
  }

  lemma PairedIsValid(plan: Plan, chosen: map<Key, Key>)
    requires Validated(plan) && FreshKeys(plan.tasks, chosen)
    requires forall r <- plan.tasks | Unreviewed(r, Reviewed(plan.tasks)) :: r.key in chosen
    requires |Expand(plan.tasks, Reviewed(plan.tasks), chosen, plan.maxSteps)| <= plan.maxTasks
    ensures var paired := plan.(tasks := Expand(plan.tasks, Reviewed(plan.tasks), chosen, plan.maxSteps));
      Validated(paired) && NothingToAdd(paired.tasks)
  {
    var out := Expand(plan.tasks, Reviewed(plan.tasks), chosen, plan.maxSteps);
    ExpandedKeysAreUnique(plan.tasks, Reviewed(plan.tasks), chosen, plan.maxSteps);
    PairedIsOrderable(plan.tasks, chosen, plan.maxSteps);
    PairedNeedsNothing(plan.tasks, chosen, plan.maxSteps);
    forall r | r in out ensures (r.reviewOf.Some? <==> r.kind.Verification?) && r.review.None? {
      ExpandedIsFromRow(plan.tasks, Reviewed(plan.tasks), chosen, plan.maxSteps, r);
    }
  }

  /** Pairing a paired plan again changes nothing. */
  method PairTwice(plan: Plan) returns (once: Pairing, twice: Pairing)
    requires Validated(plan)
    ensures twice == once
  {
    ghost var chosen;
    once, chosen := PairReviews(plan);
    twice := once;
    if once.Paired? {
      twice, chosen := PairReviews(once.plan);
    }
  }
}
