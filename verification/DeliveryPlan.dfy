/** Planning a delivery by three-way merge, and the delivery from plan to end. */
module DeliveryPlan {
  import opened Wrappers
  import opened DeliveryMerge
  import opened DeliveryDisk
  import opened DeliveryRollback
  import opened DeliveryApply
  import opened DeliveryRuns

  /** One changed path of the delivery: the snapshot's entry and the result's. */
  datatype Candidate = Candidate(rel: Rel, base: Option<Entry>, result: Option<Entry>)

  function MergedAt(t: Tree, c: Candidate, merge: MergeFile): Merged {
    MergeEntry(c.base, t.EntryAt(Target(c.rel)), c.result, merge)
  }

  /** The merge of this candidate is not what stands at its path. */
  predicate Differs(t: Tree, c: Candidate, merge: MergeFile) {
    MergedAt(t, c, merge).Output? && MergedAt(t, c, merge).entry != t.EntryAt(Target(c.rel))
  }

  /** What the plan holds of a candidate it has looked at. */
  ghost predicate InPlan(t: Tree, c: Candidate, merge: MergeFile, changes: seq<Change>, conflicts: seq<Rel>) {
    match MergedAt(t, c, merge)
    case Conflict => c.rel in conflicts
    case Output(entry) => Differs(t, c, merge) ==> Change(c.rel, t.LocalAt(Target(c.rel)), entry) in changes
  }

  /** This candidate is why the plan holds this change. */
  ghost predicate Asks(t: Tree, c: Candidate, merge: MergeFile, change: Change) {
    c.rel == change.rel && Differs(t, c, merge) && MergedAt(t, c, merge) == Output(change.output) && change.original == t.LocalAt(Target(c.rel))
  }

  predicate DistinctRels(candidates: seq<Candidate>) {
    forall i, j | 0 <= i < j < |candidates| :: candidates[i].rel != candidates[j].rel
  }

  /** The plan of these candidates: every one is in it, and it holds nothing else. */
  ghost predicate PlanOf(t: Tree, candidates: seq<Candidate>, merge: MergeFile, changes: seq<Change>, conflicts: seq<Rel>) {
    && (forall c <- candidates :: InPlan(t, c, merge, changes, conflicts))
    && (forall ch <- changes :: exists c <- candidates :: Asks(t, c, merge, ch))
    && (forall rel <- conflicts :: exists c <- candidates :: c.rel == rel && MergedAt(t, c, merge).Conflict?)
    && (DistinctRels(candidates) ==> forall i, j | 0 <= i < j < |changes| :: changes[i].rel != changes[j].rel)
  }

  lemma PlanGrows(t: Tree, part: seq<Candidate>, c: Candidate, merge: MergeFile, changes: seq<Change>, conflicts: seq<Rel>)
    requires PlanOf(t, part, merge, changes, conflicts)
    ensures match MergedAt(t, c, merge)
      case Conflict => PlanOf(t, part + [c], merge, changes, conflicts + [c.rel])
      case Output(entry) =>
        var change := Change(c.rel, t.LocalAt(Target(c.rel)), entry);
        PlanOf(t, part + [c], merge, if entry != t.EntryAt(Target(c.rel)) then changes + [change] else changes, conflicts)
  {
    var more := part + [c];
    assert c in more && forall k <- part :: k in more;
    if DistinctRels(more) {
      RelsStayDistinct(t, part, c, merge, changes);
    }
  }

  lemma RelsStayDistinct(t: Tree, part: seq<Candidate>, c: Candidate, merge: MergeFile, changes: seq<Change>)
    requires DistinctRels(part + [c]) && forall ch <- changes :: exists k <- part :: Asks(t, k, merge, ch)
    ensures DistinctRels(part) && forall ch <- changes :: ch.rel != c.rel
  {
    var more := part + [c];
    assert forall i | 0 <= i < |part| :: more[i] == part[i];
    forall ch | ch in changes ensures ch.rel != c.rel {
      var k :| k in part && Asks(t, k, merge, ch);
      var i :| 0 <= i < |part| && part[i] == k;
      assert more[i].rel != more[|part|].rel;
    }
  }

  lemma PlanIsPlanned(t: Tree, candidates: seq<Candidate>, merge: MergeFile, changes: seq<Change>, conflicts: seq<Rel>)
    requires PlanOf(t, candidates, merge, changes, conflicts) && DistinctRels(candidates) && Whole(t)
    ensures Planned(t, changes)
  {
  }

  /** Two candidates stand on one file: their paths are hard links. */
  predicate OneFile(t: Tree, a: Candidate, b: Candidate) {
    t.LocalAt(Target(a.rel)).Some? && t.LocalAt(Target(b.rel)).Some? && t.LocalAt(Target(a.rel)).value.ino == t.LocalAt(Target(b.rel)).value.ino
  }

  /** No two paths the delivery would change are hard links of one file. */
  predicate OwnFiles(t: Tree, candidates: seq<Candidate>, merge: MergeFile) {
    forall i, j | 0 <= i < j < |candidates| ::
      Differs(t, candidates[i], merge) && Differs(t, candidates[j], merge) ==> !OneFile(t, candidates[i], candidates[j])
  }

  /** Whether two changes of the plan share a file can be told from the tree and the candidates. */
  lemma SharedFilesAreHardLinks(t: Tree, candidates: seq<Candidate>, merge: MergeFile, changes: seq<Change>)
    requires PlanOf(t, candidates, merge, changes, []) && DistinctRels(candidates)
    ensures NoneShared(changes) <==> OwnFiles(t, candidates, merge)
  {
    forall i, j | 0 <= i < j < |candidates| && Differs(t, candidates[i], merge) && Differs(t, candidates[j], merge) && NoneShared(changes)
      ensures !OneFile(t, candidates[i], candidates[j])
    {
      assert candidates[i] in candidates && candidates[j] in candidates;
      assert InPlan(t, candidates[i], merge, changes, []) && InPlan(t, candidates[j], merge, changes, []);
      var k :| 0 <= k < |changes| && changes[k].rel == candidates[i].rel && changes[k].original == t.LocalAt(Target(candidates[i].rel));
      var l :| 0 <= l < |changes| && changes[l].rel == candidates[j].rel && changes[l].original == t.LocalAt(Target(candidates[j].rel));
      assert k < l || l < k;
    }
    forall k, l | 0 <= k < l < |changes| && OwnFiles(t, candidates, merge) ensures !SameOriginal(changes[k], changes[l]) {
      assert changes[k] in changes && changes[l] in changes;
      var a :| a in candidates && Asks(t, a, merge, changes[k]);
      var b :| b in candidates && Asks(t, b, merge, changes[l]);
      var i :| 0 <= i < |candidates| && candidates[i] == a;
      var j :| 0 <= j < |candidates| && candidates[j] == b;
      assert i < j || j < i;
    }
  }

  /** Every candidate's path holds its three-way merge, and every other path what it held. */
  ghost predicate MergedTree(start: Tree, t: Tree, candidates: seq<Candidate>, merge: MergeFile) {
    && (forall c <- candidates :: MergeEntry(c.base, start.EntryAt(Target(c.rel)), c.result, merge) == Output(t.EntryAt(Target(c.rel))))
    && (forall rel :: (forall c <- candidates :: c.rel != rel) ==> t.EntryAt(Target(rel)) == start.EntryAt(Target(rel)))
  }

  lemma DeliveredIsMerged(start: Tree, t: Tree, candidates: seq<Candidate>, merge: MergeFile, changes: seq<Change>)
    requires PlanOf(start, candidates, merge, changes, []) && DistinctRels(candidates) && Delivered(start, t, changes)
    ensures MergedTree(start, t, candidates, merge)
  {
    forall c | c in candidates ensures MergedAt(start, c, merge) == Output(t.EntryAt(Target(c.rel))) {
      assert InPlan(start, c, merge, changes, []);
      if ch :| ch in changes && ch.rel == c.rel {
        var k :| k in candidates && Asks(start, k, merge, ch);
        assert k == c;
      }
    }
    forall rel | forall c <- candidates :: c.rel != rel ensures t.EntryAt(Target(rel)) == start.EntryAt(Target(rel)) {
      forall ch | ch in changes ensures ch.rel != rel {
        var k :| k in candidates && Asks(start, k, merge, ch);
      }
    }
  }

  /** No file was made, and none renamed aside: there were only looks. */
  ghost predicate OnlyLooked(before: History, after: History) {
    after.made == before.made && LookedOnly(before.aside, after.aside) && before.seen <= after.seen
  }

  /** Each change's path was seen, since `before`, as the change was planned from. */
  ghost predicate AllSeen(before: seq<(Path, Sight)>, after: seq<(Path, Sight)>, changes: seq<Change>) {
    forall c <- changes :: SeenSince(before, after, (Target(c.rel), Saw(c.original)))
  }

  lemma AllSeenGrows(first: seq<(Path, Sight)>, before: seq<(Path, Sight)>, after: seq<(Path, Sight)>, changes: seq<Change>)
    requires first <= before <= after && AllSeen(first, before, changes)
    ensures AllSeen(first, after, changes)
  {
    forall c | c in changes ensures SeenSince(first, after, (Target(c.rel), Saw(c.original))) {
      SeenSinceGrows(first, before, after, (Target(c.rel), Saw(c.original)));
    }
  }

  lemma OneMoreSeen(first: seq<(Path, Sight)>, before: seq<(Path, Sight)>, after: seq<(Path, Sight)>, changes: seq<Change>, c: Change)
    requires first <= before <= after && AllSeen(first, before, changes) && SeenSince(before, after, (Target(c.rel), Saw(c.original)))
    ensures AllSeen(first, after, changes + [c])
  {
    AllSeenGrows(first, before, after, changes);
    SeenSinceGrows(first, before, after, (Target(c.rel), Saw(c.original)));
  }

  /**
   * Before the first write every change was seen as planned twice: when it was
   * planned and, once all were, again. Until then nothing was made or renamed.
   */
  ghost predicate CheckedFirst(h0: History, h: History, changes: seq<Change>) {
    exists planned: History, checked: History :: CheckedBy(h0, planned, checked, h, changes)
  }

  ghost predicate CheckedBy(h0: History, planned: History, checked: History, h: History, changes: seq<Change>) {
    && OnlyLooked(h0, planned) && AllSeen(h0.seen, planned.seen, changes)
    && OnlyLooked(planned, checked) && AllSeen(planned.seen, checked.seen, changes) && checked.seen <= h.seen
  }

  /** Three-way merge every candidate. Planning only looks: whatever it finds, it writes nothing. */
  method PlanDelivery(d: Disk, candidates: seq<Candidate>, merge: MergeFile) returns (ok: bool, changes: seq<Change>, conflicts: seq<Rel>)
    requires d.Valid()
    modifies d`paths, d`inodes, d`next, d`turns, d`history
    ensures d.Valid() && d.next >= old(d.next) && PrivateKept(d, None) && OnlyLooked(old(d.history), d.history)
    ensures AllSeen(old(d.history).seen, d.history.seen, changes)
    ensures old(d.Quiet()) ==> ok && d.Quiet() && d.Now() == old(d.Now()) && PlanOf(d.Now(), candidates, merge, changes, conflicts)
  {
    changes, conflicts := [], [];
    for i := 0 to |candidates|
      invariant d.Valid() && d.next >= old(d.next) && PrivateKept(d, None) && OnlyLooked(old(d.history), d.history)
      invariant AllSeen(old(d.history).seen, d.history.seen, changes)
      invariant old(d.Quiet()) ==> d.Quiet() && d.Now() == old(d.Now()) && PlanOf(d.Now(), candidates[..i], merge, changes, conflicts)
    {
      var c := candidates[i];
      assert candidates[..i + 1] == candidates[..i] + [c];
      ghost var before := d.history.seen;
      var seen, now := LookAt(d, Target(c.rel));
      AllSeenGrows(old(d.history).seen, before, d.history.seen, changes);
      if !seen { return false, changes, conflicts; }
      if old(d.Quiet()) { PlanGrows(d.Now(), candidates[..i], c, merge, changes, conflicts); }
      match MergedAt(d.Now(), c, merge)
      case Conflict => conflicts := conflicts + [c.rel];
      case Output(entry) =>
        if entry != d.Now().EntryAt(Target(c.rel)) {
          OneMoreSeen(old(d.history).seen, before, d.history.seen, changes, Change(c.rel, now, entry));
          changes := changes + [Change(c.rel, now, entry)];
        }
    }
    assert candidates[..|candidates|] == candidates;
    return true, changes, conflicts;
  }

  /** Look at the whole write set once more before the first write. */
  method CheckPlan(d: Disk, changes: seq<Change>) returns (ok: bool)
    requires d.Valid()
    modifies d`paths, d`inodes, d`next, d`turns, d`history
    ensures d.Valid() && d.next >= old(d.next) && PrivateKept(d, None) && OnlyLooked(old(d.history), d.history)
    ensures ok ==> AllSeen(old(d.history).seen, d.history.seen, changes)
    ensures old(d.Quiet()) && (forall c <- changes :: c.original == old(d.Now()).LocalAt(Target(c.rel))) ==>
      ok && d.Quiet() && d.Now() == old(d.Now())
  {
    ghost var first := d.history.seen;
    for i := 0 to |changes|
      invariant d.Valid() && d.next >= old(d.next) && PrivateKept(d, None) && OnlyLooked(old(d.history), d.history)
      invariant forall j | 0 <= j < i :: SeenSince(first, d.history.seen, (Target(changes[j].rel), Saw(changes[j].original)))
      invariant old(d.Quiet()) ==> d.Quiet() && d.Now() == old(d.Now())
    {
      assert changes[i] in changes;
      ghost var before := d.history.seen;
      var seen, now := LookAt(d, Target(changes[i].rel));
      if !seen || now != changes[i].original { return false; }
      forall j | 0 <= j <= i ensures SeenSince(first, d.history.seen, (Target(changes[j].rel), Saw(changes[j].original))) {
        SeenSinceGrows(first, before, d.history.seen, (Target(changes[j].rel), Saw(changes[j].original)));
      }
    }
    return true;
  }

  /** What holds since a later look holds since an earlier one. */
  lemma NothingLostSince(h0: History, h1: History, h: History, paths: map<Path, Ino>, retained: seq<Path>, changes: seq<Change>)
    requires OnlyLooked(h0, h1) && NothingLost(h1, h, paths, retained, changes)
    ensures NothingLost(h0, h, paths, retained, changes)
  {
    forall q | q in h.aside && q !in h0.aside
      ensures OriginalKept(h0.seen, h, paths, retained, changes, q)
        || exists c, l :: c in changes && OutputTaken(h0.seen, h, paths, retained, c, l, q)
    {
      if OriginalKept(h1.seen, h, paths, retained, changes, q) {
        var c :| c in changes && c.rel == h.aside[q].rel && SeenSince(h1.seen, h.seen, (Target(c.rel), Saw(c.original)));
        SeenSinceGrows(h0.seen, h1.seen, h.seen, (Target(c.rel), Saw(c.original)));
      } else {
        var c, l :| c in changes && OutputTaken(h1.seen, h, paths, retained, c, l, q);
        SeenSinceGrows(h0.seen, h1.seen, h.seen, (Target(c.rel), Saw(Some(l))));
        assert OutputTaken(h0.seen, h, paths, retained, c, l, q);
      }
    }
  }

  datatype Report = Conflicts(paths: seq<Rel>) | Failed | Ended(outcome: Outcome)

  /**
   * A conflicting plan ends the delivery before its first write: it makes no
   * file and renames none, and so does a path that is not as it was planned
   * when the whole write set is looked at again. A delivery that stops later
   * loses nothing, whatever the editor does. Without interference, every
   * delivered path ends up holding its three-way merge and every other what it
   * held, with no private name left, exactly when nothing aborts it and no two
   * paths it changes are one file; else the whole tree is as it was.
   */
  method Deliver(d: Disk, candidates: seq<Candidate>, merge: MergeFile, aborts: seq<bool>) returns (r: Report, ghost changes: seq<Change>)
    requires d.Valid() && !d.receipted
    modifies d
    ensures d.Valid() && (d.receipted <==> r.Ended? && r.outcome.Applied?)
    ensures r.Conflicts? || r.Failed? ==> OnlyLooked(old(d.history), d.history) && PrivateKept(d, None)
    ensures r.Ended? ==> CheckedFirst(old(d.history), d.history, changes)
    ensures r.Ended? && r.outcome.Stopped? ==> NothingLost(old(d.history), d.history, d.paths, r.outcome.retained, changes)
    ensures old(d.Quiet()) ==>
      && !r.Failed? && (r.Conflicts? ==> d.Now() == old(d.Now()))
      && (r.Conflicts? <==> exists c <- candidates :: MergedAt(old(d.Now()), c, merge).Conflict?)
    ensures old(d.Quiet()) && DistinctRels(candidates) && r.Ended? ==>
      && PlanOf(old(d.Now()), candidates, merge, changes, [])
      && (r.outcome.Applied? <==> NoneAborted(aborts, |changes| + 1) && OwnFiles(old(d.Now()), candidates, merge))
      && (r.outcome.Applied? ==> MergedTree(old(d.Now()), d.Now(), candidates, merge) && Tidy(old(d.Now()), d.Now()))
      && (r.outcome.Stopped? ==> r.outcome.retained == [] && Restored(old(d.Now()), d.Now()))
  {
    ghost var start, quiet := d.Now(), d.Quiet();
    var ok, plan, conflicts := PlanDelivery(d, candidates, merge);
    changes := plan;
    if !ok { return Failed, plan; }
    if conflicts != [] {
      assert conflicts[0] in conflicts;
      return Conflicts(conflicts), plan;
    }
    ghost var h0 := d.history;
    ok := CheckPlan(d, plan);
    if !ok { return Failed, plan; }
    ghost var planned, h1 := quiet && DistinctRels(candidates), d.history;
    if planned { PlanIsPlanned(start, candidates, merge, plan, []); SharedFilesAreHardLinks(start, candidates, merge, plan); }
    var outcome;
    ghost var written;
    outcome, written := ApplyDelivery(d, plan, aborts);
    if planned && outcome.Applied? { DeliveredIsMerged(start, d.Now(), candidates, merge, plan); }
    if outcome.Stopped? { NothingLostSince(old(d.history), h1, d.history, d.paths, outcome.retained, plan); }
    assert CheckedBy(old(d.history), h0, h1, d.history, plan);
    return Ended(outcome), plan;
  }
}
