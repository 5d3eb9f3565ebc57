/** A whole delivery: the plan that writes nothing on a conflict, the changes in order, and the way back. */
module DeliveryRuns {
  import opened Wrappers
  import opened DeliveryMerge
  import opened DeliveryDisk
  import opened DeliveryRollback
  import opened DeliveryApply

  /* ---- what the items record, whatever the editor does ---- */

  /** One item, of the change it is for: looked at before it was displaced, and published as the output. */
  ghost predicate Entered(seen: seq<(Path, Sight)>, h: History, it: Item, c: Change) {
    && it.change == c && SeenSince(seen, h.seen, (Target(c.rel), Saw(c.original)))
    && (it.published.Some? ==> Some(it.published.value.entry) == c.output)
  }

  /** No item's backup is a name from before. */
  ghost predicate NewBackups(h0: History, written: seq<Item>) {
    forall it <- written :: it.backup.Some? ==> it.backup.value !in h0.aside
  }

  /** The items are those of the first changes, and everything renamed aside since is the backup of one. */
  ghost predicate Recording(h0: History, h: History, changes: seq<Change>, written: seq<Item>) {
    && |written| <= |changes| && Remembered(h0, h) && NewBackups(h0, written)
    && (forall q <- h.aside.Keys :: q in h0.aside || BackupOf(written, q))
    && (forall i | 0 <= i < |written| :: Entered(h0.seen, h, written[i], changes[i]))
  }

  /** One more change: its item, if it has one, records what was renamed aside for it. */
  lemma RecordingGoesOn(h0: History, h1: History, h2: History, changes: seq<Change>, written: seq<Item>, pushed: Option<Item>)
    requires Recording(h0, h1, changes, written) && |written| < |changes| && Recorded(h1, h2, changes[|written|], pushed)
    ensures Recording(h0, h2, changes, written + (if pushed.Some? then [pushed.value] else []))
  {
    var longer := written + (if pushed.Some? then [pushed.value] else []);
    forall i | 0 <= i < |longer| ensures Entered(h0.seen, h2, longer[i], changes[i]) {
      if i < |written| {
        assert longer[i] == written[i] && Entered(h0.seen, h1, written[i], changes[i]);
        SeenSinceGrows(h0.seen, h1.seen, h2.seen, (Target(changes[i].rel), Saw(changes[i].original)));
      } else {
        SeenSinceGrows(h0.seen, h1.seen, h2.seen, (Target(changes[i].rel), Saw(changes[i].original)));
      }
    }
    forall q | q in h2.aside && q !in h0.aside ensures BackupOf(longer, q) {
      if q in h1.aside {
        var it :| it in written && it.backup == Some(q);
        assert it in longer;
      } else {
        assert longer[|written|] in longer;
      }
    }
  }

  /** A pushed item's backup is newer than every backup before it. */
  lemma PushHeld(h1: History, paths1: map<Path, Ino>, h2: History, paths2: map<Path, Ino>, written: seq<Item>, pushed: Option<Item>, n: nat, next: nat, c: Change)
    requires ItemsOk(written, n) && n <= next && AllHeld(h1, paths1, written) && Recorded(h1, h2, c, pushed) && NamesKept(paths1, paths2, n, None)
    requires pushed.Some? ==> Held(h2, paths2, pushed.value)
    requires pushed.Some? && pushed.value.backup.Some? ==> pushed.value.backup.value.Backup? && n <= pushed.value.backup.value.uid < next
    ensures var longer := written + (if pushed.Some? then [pushed.value] else []); ItemsOk(longer, next) && AllHeld(h2, paths2, longer)
  {
    var longer := written + (if pushed.Some? then [pushed.value] else []);
    forall i | 0 <= i < |written| && written[i].backup.Some? && pushed.Some? ensures written[i].backup != pushed.value.backup {
      assert written[i] in written;
    }
    forall it | it in longer ensures Held(h2, paths2, it) {
      assert it in written || Some(it) == pushed;
    }
  }

  /* ---- the quiet progress ---- */

  /** Two changes of one file: their paths are hard links. */
  predicate SameOriginal(a: Change, b: Change) {
    a.original.Some? && b.original.Some? && a.original.value.ino == b.original.value.ino
  }

  /** One of the first `k` changes displaces the file of `c`. */
  predicate SharedBefore(changes: seq<Change>, k: nat, c: Change)
    requires k <= |changes|
  {
    exists i | 0 <= i < k :: SameOriginal(changes[i], c)
  }

  /** No two changed paths are hard links of one file. */
  predicate NoneShared(changes: seq<Change>) {
    forall i, j | 0 <= i < j < |changes| :: !SameOriginal(changes[i], changes[j])
  }

  /** The plan's view of the tree, at different paths. */
  ghost predicate Planned(t: Tree, changes: seq<Change>) {
    && (forall c <- changes :: t.LocalAt(Target(c.rel)) == c.original && (c.original.None? ==> Target(c.rel) !in t.paths))
    && (forall i, j | 0 <= i < j < |changes| :: changes[i].rel != changes[j].rel)
  }

  /** A tree of files older than `n`. */
  ghost predicate OlderThan(t: Tree, n: nat) {
    && (forall p <- t.paths.Keys :: t.paths[p] in t.inodes)
    && (forall i <- t.inodes.Keys :: i < n && t.inodes[i].ctime < n)
  }

  /** Items published as files newer than the plan, whose originals are the plan's. */
  ghost predicate FromPlan(changes: seq<Change>, written: seq<Item>, n0: nat) {
    && |written| <= |changes|
    && (forall i | 0 <= i < |written| :: written[i].change == changes[i])
    && (forall it <- written :: it.published.Some? ==> it.published.value.ino >= n0)
    && (forall it <- written :: it.backup.Some? ==> it.change.original.Some? && it.moved == it.change.original.value.ino)
  }

  /** The quiet progress: every item stands, the rest of the tree is as it was, and a later change finds its file exactly when no earlier one displaced it. */
  ghost predicate Progress(start: Tree, t: Tree, changes: seq<Change>, written: seq<Item>, n0: nat) {
    && FromPlan(changes, written, n0) && Apart(written) && AllStanding(t, written) && OnlyItems(start, t, written)
    && (forall j | 0 <= j < |written| :: !SharedBefore(changes, j, changes[j]))
    && forall j | |written| <= j < |changes| ::
         t.LocalAt(Target(changes[j].rel)) == changes[j].original <==> !SharedBefore(changes, |written|, changes[j])
  }

  lemma ItemIsApart(start: Tree, changes: seq<Change>, written: seq<Item>, it: Item, n0: nat, n: nat)
    requires Planned(start, changes) && FromPlan(changes, written, n0) && Apart(written) && |written| < |changes|
    requires OlderThan(start, n0) && n0 <= n && it.change == changes[|written|] && !SharedBefore(changes, |written|, it.change)
    requires ItemsOk(written, n) && (it.backup.Some? ==> it.backup.value.Backup? && n <= it.backup.value.uid)
    requires forall w <- written :: w.published.Some? ==> w.published.value.ino < n
    requires it.published.Some? ==> it.published.value.ino >= n
    requires it.backup.Some? ==> it.change.original.Some? && it.moved == it.change.original.value.ino
    ensures Apart(written + [it]) && FromPlan(changes, written + [it], n0)
  {
    forall i | 0 <= i < |written|
      ensures written[i].change.rel != it.change.rel && Touched(written[i]) !! Touched(it)
        && (written[i].backup.Some? ==> written[i].backup != it.backup)
    {
      assert written[i] in written && changes[i] in changes && changes[|written|] in changes;
      assert !SameOriginal(changes[i], it.change);
    }
  }

  lemma ProgressGrows(start: Tree, before: Tree, after: Tree, changes: seq<Change>, written: seq<Item>, it: Item, n0: nat, n: nat)
    requires Planned(start, changes) && Progress(start, before, changes, written, n0) && |written| < |changes|
    requires OlderThan(start, n0) && OlderThan(before, n) && n0 <= n && it.change == changes[|written|]
    requires before.LocalAt(Target(it.change.rel)) == it.change.original
    requires ItemsOk(written, n) && (it.backup.Some? ==> it.backup.value.Backup? && n <= it.backup.value.uid)
    requires it.published.Some? ==> it.published.value.ino >= n
    requires (it.backup.Some? <==> it.change.original.Some?) && (it.backup.Some? ==> it.moved == it.change.original.value.ino)
    requires it.backup.Some? ==> it.moved in after.inodes && after.inodes[it.moved].ctime >= n
    requires Standing(after, it) && OthersKept(before, after, it)
    ensures Progress(start, after, changes, written + [it], n0)
  {
    forall w | w in written && w.published.Some? ensures w.published.value.ino < n {
      assert Standing(before, w);
    }
    ItemIsApart(start, changes, written, it, n0, n);
    StandingGrows(before, after, written, it);
    OnlyItemsGrow(start, before, after, written, it);
    forall j | |written| < j < |changes|
      ensures after.LocalAt(Target(changes[j].rel)) == changes[j].original <==> !SharedBefore(changes, |written| + 1, changes[j])
    {
      LookGoesOn(start, before, after, changes, |written|, it, j, n0, n);
    }
  }

  /** After one more change, a later one finds its file exactly when that file was not displaced. */
  lemma LookGoesOn(start: Tree, before: Tree, after: Tree, changes: seq<Change>, k: nat, it: Item, j: nat, n0: nat, n: nat)
    requires Planned(start, changes) && k < j < |changes| && it.change == changes[k] && OlderThan(start, n0) && OlderThan(before, n) && n0 <= n
    requires OthersKept(before, after, it) && (it.published.Some? ==> it.published.value.ino >= n)
    requires (it.backup.Some? <==> it.change.original.Some?) && (it.backup.Some? ==> it.backup.value.Backup? && it.moved == it.change.original.value.ino)
    requires it.backup.Some? ==> it.moved in after.inodes && after.inodes[it.moved].ctime >= n
    requires before.LocalAt(Target(changes[j].rel)) == changes[j].original <==> !SharedBefore(changes, k, changes[j])
    ensures after.LocalAt(Target(changes[j].rel)) == changes[j].original <==> !SharedBefore(changes, k + 1, changes[j])
  {
    var p := Target(changes[j].rel);
    assert changes[k].rel != changes[j].rel && changes[j] in changes && SamePath(before, after, p);
    SharedGrows(changes, k, changes[j]);
    if SameOriginal(changes[k], changes[j]) {
      assert changes[j].original.value.ctime < n0;
    } else if p in before.paths {
      UntouchedLook(before, after, it, p, changes[j], n);
    }
  }

  lemma SharedGrows(changes: seq<Change>, k: nat, c: Change)
    requires k < |changes|
    ensures SharedBefore(changes, k + 1, c) <==> SharedBefore(changes, k, c) || SameOriginal(changes[k], c)
  {
  }

  /** A path whose file the change did not touch looks as before; if it touched it, the path was no longer the plan's. */
  lemma UntouchedLook(before: Tree, after: Tree, it: Item, p: Path, c: Change, n: nat)
    requires OlderThan(before, n) && OthersKept(before, after, it) && p in before.paths && SamePath(before, after, p)
    requires !SameOriginal(it.change, c) && (it.published.Some? ==> it.published.value.ino >= n)
    requires (it.backup.Some? <==> it.change.original.Some?) && (it.backup.Some? ==> it.moved == it.change.original.value.ino)
    ensures after.LocalAt(p) == c.original <==> before.LocalAt(p) == c.original
  {
    if before.paths[p] in Touched(it) {
      assert it.backup.Some? && before.paths[p] == it.moved;
      assert before.LocalAt(p).value.ino == it.moved && after.LocalAt(p).value.ino == it.moved;
    }
  }

  lemma StandingGrows(before: Tree, after: Tree, written: seq<Item>, it: Item)
    requires AllStanding(before, written) && Apart(written + [it]) && Standing(after, it) && OthersKept(before, after, it)
    requires forall p <- before.paths.Keys :: before.paths[p] in before.inodes
    ensures AllStanding(after, written + [it])
  {
    var longer := written + [it];
    forall i | 0 <= i < |longer| ensures Standing(after, longer[i]) {
      if i < |written| {
        assert written[i] in written && longer[i] == written[i] && longer[|written|] == it;
        StandingStays(before, after, it, written[i]);
      }
    }
  }

  lemma OnlyItemsGrow(start: Tree, before: Tree, after: Tree, written: seq<Item>, it: Item)
    requires OnlyItems(start, before, written) && OthersKept(before, after, it)
    ensures OnlyItems(start, after, written + [it])
  {
    var longer := written + [it];
    forall q: Path ensures ItemsPath(longer, q) || SamePath(start, after, q) {
      assert it in longer && forall w <- written :: w in longer;
      assert ItemsPath(written, q) || SamePath(start, before, q);
    }
  }

  lemma StandingBesideStaged(before: Tree, after: Tree, staged: Option<Path>, written: seq<Item>)
    requires AllStanding(before, written) && StagedLeft(before, after, staged) && Whole(before)
    ensures AllStanding(after, written)
  {
    forall it | it in written ensures Standing(after, it) {
      assert Standing(before, it) && SamePath(before, after, Target(it.change.rel));
      if it.backup.Some? { assert SamePath(before, after, it.backup.value); }
    }
  }

  ghost predicate AllFinished(written: seq<Item>) {
    forall it <- written :: Finished(it)
  }

  /** Every change stands only if no two displaced the same file. */
  lemma AllUnshared(start: Tree, t: Tree, changes: seq<Change>, written: seq<Item>, n0: nat)
    requires Progress(start, t, changes, written, n0) && |written| == |changes|
    ensures NoneShared(changes)
  {
    forall i, j | 0 <= i < j < |changes| ensures !SameOriginal(changes[i], changes[j]) {
      assert !SharedBefore(changes, j, changes[j]);
    }
  }

  lemma SharedIsFound(changes: seq<Change>, k: nat)
    requires k < |changes| && SharedBefore(changes, k, changes[k])
    ensures !NoneShared(changes)
  {
  }

  predicate Aborted(aborts: seq<bool>, k: nat) {
    k < |aborts| && aborts[k]
  }

  predicate NoneAborted(aborts: seq<bool>, n: nat) {
    forall k | 0 <= k < n :: !Aborted(aborts, k)
  }

  /** The items so far are held and recorded. */
  ghost predicate Going(h0: History, h: History, paths: map<Path, Ino>, next: nat, changes: seq<Change>, written: seq<Item>) {
    ItemsOk(written, next) && AllHeld(h, paths, written) && Recording(h0, h, changes, written)
  }

  /** `middle` is the tree the items made of the plan's, undisturbed. */
  ghost predicate OnPlan(start: Tree, n0: nat, changes: seq<Change>, written: seq<Item>, middle: Tree) {
    Planned(start, changes) && OlderThan(start, n0) && Progress(start, middle, changes, written, n0) && Whole(middle)
  }

  function With(written: seq<Item>, pushed: Option<Item>): seq<Item> {
    written + if pushed.Some? then [pushed.value] else []
  }

  lemma GoesOn(
      h0: History, h1: History, paths1: map<Path, Ino>, n: nat, h2: History, paths2: map<Path, Ino>, next: nat,
      changes: seq<Change>, written: seq<Item>, pushed: Option<Item>)
    requires |written| < |changes| && Going(h0, h1, paths1, n, changes, written)
    requires Pushed(h1, paths1, n, h2, paths2, next, changes[|written|], pushed)
    ensures Going(h0, h2, paths2, next, changes, With(written, pushed))
  {
    RecordingGoesOn(h0, h1, h2, changes, written, pushed);
    PushHeld(h1, paths1, h2, paths2, written, pushed, n, next, changes[|written|]);
  }

  lemma PlanGoesOn(start: Tree, n0: nat, changes: seq<Change>, written: seq<Item>, before: Tree, after: Tree, n: nat, it: Item)
    requires OnPlan(start, n0, changes, written, before) && |written| < |changes| && it.change == changes[|written|]
    requires OlderThan(before, n) && n0 <= n && Whole(after) && before.LocalAt(Target(it.change.rel)) == it.change.original
    requires ItemsOk(written, n) && (it.backup.Some? ==> it.backup.value.Backup? && n <= it.backup.value.uid) && Stands(before, after, n, it)
    ensures OnPlan(start, n0, changes, written + [it], after)
  {
    ProgressGrows(start, before, after, changes, written, it, n0, n);
  }

  /** One change of the run: its item is recorded, and the progress goes on or stops before it. */
  method ApplyNext(
      d: Disk, changes: seq<Change>, written: seq<Item>, ghost h0: History, ghost start: Tree, ghost n0: nat, ghost quiet: bool)
    returns (done: bool, more: seq<Item>, staged: Option<Path>)
    requires |written| < |changes| && d.Valid() && n0 <= d.next && Going(h0, d.history, d.paths, d.next, changes, written) && AllFinished(written)
    requires quiet ==> d.Quiet() && OnPlan(start, n0, changes, written, d.Now())
    modifies d`paths, d`inodes, d`next, d`turns, d`history
    ensures d.Valid() && n0 <= d.next && Going(h0, d.history, d.paths, d.next, changes, more)
    ensures staged.Some? ==> staged.value.Staged? && staged.value in d.paths && staged.value.uid < d.next
    ensures done ==> |more| == |written| + 1 && staged.None? && AllFinished(more)
    ensures quiet ==> (done <==> !SharedBefore(changes, |written|, changes[|written|]))
    ensures quiet && done ==> d.Quiet() && OnPlan(start, n0, changes, more, d.Now())
    ensures quiet && !done ==> d.Quiet() && OnPlan(start, n0, changes, more, old(d.Now())) && StagedLeft(old(d.Now()), d.Now(), staged)
  {
    var pushed;
    done, pushed, staged := ApplyChange(d, changes[|written|]);
    GoesOn(h0, old(d.history), old(d.paths), old(d.next), d.history, d.paths, d.next, changes, written, pushed);
    more := With(written, pushed);
    if quiet && done { PlanGoesOn(start, n0, changes, written, old(d.Now()), d.Now(), old(d.next), pushed.value); }
  }

  /** The changes in order, up to the first abort or surprise. */
  method ApplyAll(d: Disk, changes: seq<Change>, aborts: seq<bool>)
    returns (ok: bool, written: seq<Item>, staged: Option<Path>, ghost middle: Tree)
    requires d.Valid()
    modifies d`paths, d`inodes, d`next, d`turns, d`history
    ensures d.Valid() && d.next >= old(d.next) && Going(old(d.history), d.history, d.paths, d.next, changes, written)
    ensures staged.Some? ==> staged.value.Staged? && staged.value in d.paths && staged.value.uid < d.next
    ensures ok ==> |written| == |changes| && staged.None? && AllFinished(written)
    ensures old(d.Quiet()) && Planned(old(d.Now()), changes) ==>
      && d.Quiet() && OnPlan(old(d.Now()), old(d.next), changes, written, middle) && StagedLeft(middle, d.Now(), staged)
      && (ok <==> NoneAborted(aborts, |changes|) && NoneShared(changes)) && (ok ==> middle == d.Now())
  {
    ghost var h0, start, n0, quiet := d.history, d.Now(), d.next, d.Quiet() && Planned(d.Now(), changes);
    written, staged, middle := [], None, d.Now();
    while |written| < |changes|
      invariant d.Valid() && n0 <= d.next && Going(h0, d.history, d.paths, d.next, changes, written) && AllFinished(written)
      invariant middle == d.Now() && (quiet ==> d.Quiet() && OnPlan(start, n0, changes, written, middle))
      invariant NoneAborted(aborts, |written|)
      decreases |changes| - |written|
    {
      if Aborted(aborts, |written|) {
        return false, written, None, middle;
      }
      ghost var k := |written|;
      var done, more;
      done, more, staged := ApplyNext(d, changes, written, h0, start, n0, quiet);
      if !done {
        if quiet { SharedIsFound(changes, k); }
        return false, more, staged, middle;
      }
      written, middle := more, d.Now();
    }
    if quiet { AllUnshared(start, middle, changes, written, n0); }
    return true, written, None, middle;
  }

  /* ---- the last look, the receipt and the way back ---- */

  /** The item was looked at: its path is as published, and its backup holds the original. */
  ghost predicate Verified(before: seq<(Path, Sight)>, after: seq<(Path, Sight)>, it: Item) {
    && SeenSince(before, after, (Target(it.change.rel), Saw(it.published)))
    && (it.backup.Some? ==> SeenHolding(before, after, it.backup.value, OriginalEntry(it.change)))
  }

  ghost predicate SeenHolding(before: seq<(Path, Sight)>, after: seq<(Path, Sight)>, p: Path, entry: Option<Entry>) {
    exists l: Local :: SeenSince(before, after, (p, Saw(Some(l)))) && Some(l.entry) == entry
  }

  lemma VerifiedStays(first: seq<(Path, Sight)>, before: seq<(Path, Sight)>, after: seq<(Path, Sight)>, it: Item)
    requires Verified(first, before, it) && before <= after
    ensures Verified(first, after, it)
  {
    SeenSinceGrows(first, before, after, (Target(it.change.rel), Saw(it.published)));
    if it.backup.Some? {
      var l: Local :| SeenSince(first, before, (it.backup.value, Saw(Some(l)))) && Some(l.entry) == OriginalEntry(it.change);
      SeenSinceGrows(first, before, after, (it.backup.value, Saw(Some(l))));
    }
  }

  /** Nothing but the last look at a name is new. */
  ghost predicate LookedOnly(before: map<Path, Aside>, after: map<Path, Aside>) {
    after.Keys == before.Keys && forall q <- before.Keys :: after[q] == before[q].(look := after[q].look)
  }

  lemma HeldUnderLooks(h1: History, paths1: map<Path, Ino>, h2: History, paths2: map<Path, Ino>, written: seq<Item>, n: nat)
    requires ItemsOk(written, n) && AllHeld(h1, paths1, written) && LookedOnly(h1.aside, h2.aside) && NamesKept(paths1, paths2, n, None)
    ensures AllHeld(h2, paths2, written)
  {
  }

  /** Look at one item. */
  method Verify(d: Disk, it: Item) returns (ok: bool)
    requires d.Valid() && (it.backup.Some? ==> it.backup.value.Backup? && it.backup.value.uid < d.next) && Held(d.history, d.paths, it)
    requires it.backup.Some? ==> it.change.original.Some?
    modifies d`paths, d`inodes, d`next, d`turns, d`history
    ensures d.Valid() && d.next >= old(d.next) && PrivateKept(d, None) && old(d.history).seen <= d.history.seen
    ensures LookedOnly(old(d.history).aside, d.history.aside)
    ensures ok ==> Verified(old(d.history).seen, d.history.seen, it)
    ensures old(d.Quiet() && Standing(d.Now(), it)) ==> ok && d.Quiet() && d.Now() == old(d.Now())
  {
    ghost var first := d.history.seen;
    var now;
    ok, now := LookAt(d, Target(it.change.rel));
    if !ok || now != it.published { return false; }
    if it.backup.None? { return true; }
    ghost var looked := d.history.seen;
    ok, now := LookAt(d, it.backup.value);
    if !ok { return false; }
    SeenSinceGrows(first, looked, d.history.seen, (Target(it.change.rel), Saw(it.published)));
    SeenSinceGrows(first, looked, d.history.seen, (it.backup.value, Saw(now)));
    return now.Some? && Some(now.value.entry) == OriginalEntry(it.change);
  }

  /** One look, on record. */
  method LookAt(d: Disk, p: Path) returns (ok: bool, now: Option<Local>)
    requires d.Valid()
    modifies d`paths, d`inodes, d`next, d`turns, d`history
    ensures d.Valid() && d.next >= old(d.next) && PrivateKept(d, None) && LookedOnly(old(d.history).aside, d.history.aside)
    ensures now == d.Now().LocalAt(p) && d.history.made == old(d.history).made
    ensures old(d.history).seen <= d.history.seen && (ok ==> SeenSince(old(d.history).seen, d.history.seen, (p, Saw(now))))
    ensures old(d.Quiet()) ==> ok && d.Quiet() && d.Now() == old(d.Now())
  {
    ghost var first := d.history.seen;
    var fault;
    fault, now := d.See(p);
    assert d.history.seen == first + [(p, if fault then Unseen else Saw(now))];
    return !fault, now;
  }

  /** Every published file is as published, every removed one still gone, every backup unwritten. */
  method VerifyAll(d: Disk, written: seq<Item>) returns (ok: bool)
    requires d.Valid() && ItemsOk(written, d.next) && AllHeld(d.history, d.paths, written) && AllFinished(written)
    modifies d`paths, d`inodes, d`next, d`turns, d`history
    ensures d.Valid() && d.next >= old(d.next) && PrivateKept(d, None) && ItemsOk(written, d.next) && AllHeld(d.history, d.paths, written)
    ensures old(d.history).seen <= d.history.seen && LookedOnly(old(d.history).aside, d.history.aside)
    ensures ok ==> forall it <- written :: Verified(old(d.history).seen, d.history.seen, it)
    ensures old(d.Quiet() && AllStanding(d.Now(), written)) ==> ok && d.Quiet() && d.Now() == old(d.Now())
  {
    ghost var quiet, first := d.Quiet() && AllStanding(d.Now(), written), d.history.seen;
    for i := 0 to |written|
      invariant d.Valid() && d.next >= old(d.next) && PrivateKept(d, None) && ItemsOk(written, d.next) && AllHeld(d.history, d.paths, written)
      invariant first <= d.history.seen && LookedOnly(old(d.history).aside, d.history.aside)
      invariant forall j | 0 <= j < i :: Verified(first, d.history.seen, written[j])
      invariant quiet ==> d.Quiet() && d.Now() == old(d.Now())
    {
      assert written[i] in written;
      ghost var before, h1, paths1, n := d.history.seen, d.history, d.paths, d.next;
      ok := Verify(d, written[i]);
      HeldUnderLooks(h1, paths1, d.history, d.paths, written, n);
      if !ok { return false; }
      forall j | 0 <= j <= i ensures Verified(first, d.history.seen, written[j]) {
        if j < i { VerifiedStays(first, before, d.history.seen, written[j]); } else { VerifiedSince(first, before, d.history.seen, written[j]); }
      }
    }
    return true;
  }

  lemma VerifiedSince(first: seq<(Path, Sight)>, before: seq<(Path, Sight)>, after: seq<(Path, Sight)>, it: Item)
    requires Verified(before, after, it) && first <= before
    ensures Verified(first, after, it)
  {
    SeenSinceGrows(first, before, after, (Target(it.change.rel), Saw(it.published)));
    if it.backup.Some? {
      var l: Local :| SeenSince(before, after, (it.backup.value, Saw(Some(l)))) && Some(l.entry) == OriginalEntry(it.change);
      SeenSinceGrows(first, before, after, (it.backup.value, Saw(Some(l))));
    }
  }

  /** The last look over all items, then the receipt. */
  method Commit(d: Disk, written: seq<Item>) returns (ok: bool)
    requires d.Valid() && !d.receipted && ItemsOk(written, d.next) && AllHeld(d.history, d.paths, written) && AllFinished(written)
    modifies d
    ensures d.Valid() && d.next >= old(d.next) && PrivateKept(d, None) && ItemsOk(written, d.next) && AllHeld(d.history, d.paths, written)
    ensures old(d.history).seen <= d.history.seen && LookedOnly(old(d.history).aside, d.history.aside) && (ok <==> d.receipted)
    ensures ok ==> forall it <- written :: Verified(old(d.history).seen, d.history.seen, it)
    ensures old(d.Quiet() && AllStanding(d.Now(), written)) ==> ok && d.Quiet() && d.Now() == old(d.Now())
  {
    ok := VerifyAll(d, written);
    if !ok { return; }
    ghost var h1, paths1, n := d.history, d.paths, d.next;
    var fault := d.Await();
    HeldUnderLooks(h1, paths1, d.history, d.paths, written, n);
    if fault { return false; }
    d.WriteReceipt();
  }

  /** After the receipt the backups are no longer anyone's only copy of the project. */
  method DropBackups(d: Disk, written: seq<Item>)
    requires d.Valid() && d.receipted && ItemsOk(written, d.next) && AllHeld(d.history, d.paths, written)
    modifies d`paths, d`inodes, d`next, d`turns, d`history
    ensures d.Valid() && d.history.seen == old(d.history).seen
    ensures old(d.Quiet()) ==>
      && d.Quiet()
      && (forall rel :: d.Now().EntryAt(Target(rel)) == old(d.Now()).EntryAt(Target(rel)))
      && (forall it <- written :: it.backup.Some? ==> it.backup.value !in d.paths) && Tidy(old(d.Now()), d.Now())
  {
    ghost var start := d.Now();
    for i := 0 to |written|
      invariant d.Valid() && d.receipted && d.next >= old(d.next) && ItemsOk(written, d.next) && BackupsAt(d.paths, written[i..])
      invariant d.history.seen == old(d.history).seen
      invariant old(d.Quiet()) ==> d.Quiet() && forall rel :: d.Now().EntryAt(Target(rel)) == start.EntryAt(Target(rel))
      invariant old(d.Quiet()) ==> Tidy(start, d.Now())
      invariant old(d.Quiet()) ==> forall j | 0 <= j < i :: written[j].backup.Some? ==> written[j].backup.value !in d.paths
    {
      var it := written[i];
      assert it in written[i..] && it in written;
      assert forall w :: w in written[i + 1..] ==> w in written[i..] && w in written;
      if it.backup.Some? {
        forall w | w in written[i + 1..] && w.backup.Some? ensures w.backup != it.backup {
          var j :| i + 1 <= j < |written| && written[j] == w;
        }
        DropBackup(d, it.backup.value, written[i + 1..]);
      }
    }
  }

  method DropBackup(d: Disk, p: Path, ghost rest: seq<Item>)
    requires d.Valid() && d.receipted && p.Backup? && p in d.paths
    requires ItemsOk(rest, d.next) && BackupsAt(d.paths, rest) && forall w <- rest :: w.backup != Some(p)
    modifies d`paths, d`inodes, d`next, d`turns, d`history
    ensures d.Valid() && d.next >= old(d.next) && d.history.seen == old(d.history).seen && BackupsAt(d.paths, rest)
    ensures old(d.Quiet()) ==>
      d.Quiet() && d.paths == old(d.paths) - {p} && forall rel :: d.Now().EntryAt(Target(rel)) == old(d.Now()).EntryAt(Target(rel))
  {
    var fault := d.Await();
    if !fault { d.UnlinkPrivate(p); }
  }

  /** No private name is left that was not there. */
  ghost predicate Tidy(before: Tree, after: Tree) {
    forall p <- after.paths.Keys :: p.Target? || p in before.paths
  }

  /** Without their backups the changes leave no private name. */
  lemma BackupsGone(start: Tree, before: Tree, after: Tree, written: seq<Item>)
    requires OnlyItems(start, before, written) && Tidy(before, after)
    requires forall it <- written :: it.backup.Some? ==> it.backup.value !in after.paths
    ensures Tidy(start, after)
  {
    forall p | p in after.paths && !p.Target? ensures p in start.paths {
      assert !ItemsPath(written, p);
      assert SamePath(start, before, p);
    }
  }

  /** The backups are there. */
  ghost predicate BackupsAt(paths: map<Path, Ino>, written: seq<Item>) {
    forall it <- written :: it.backup.Some? ==> it.backup.value in paths
  }

  /** Roll back, then drop the staged name an aborted change left behind. */
  method Retreat(d: Disk, written: seq<Item>, staged: Option<Path>) returns (retained: seq<Path>)
    requires d.Valid() && ItemsOk(written, d.next) && AllHeld(d.history, d.paths, written)
    requires staged.Some? ==> staged.value.Staged? && staged.value in d.paths && staged.value.uid < d.next
    modifies d`paths, d`inodes, d`next, d`turns, d`history
    ensures d.Valid() && Accounting(old(d.history), d.history, d.paths, retained, written, 0)
    ensures old(d.Quiet() && AllStanding(d.Now(), written)) && Apart(written) ==>
      retained == [] && d.Quiet() && Retreated(old(d.Now()), d.Now(), written, staged)
  {
    ghost var quiet := d.Quiet() && AllStanding(d.Now(), written) && Apart(written);
    retained := Rollback(d, written);
    ghost var h, t, n := d.history, d.Now(), d.next;
    var dropped := DropName(d, staged);
    StillAccounted(old(d.history), h, t.paths, d.history, d.paths, retained, written, staged, n);
    if quiet { RetreatedInAll(old(d.Now()), t, d.Now(), written, staged); }
  }

  lemma RetreatedInAll(before: Tree, t: Tree, after: Tree, written: seq<Item>, staged: Option<Path>)
    requires (forall it <- written :: Undone(t, it) && (it.backup.Some? ==> it.backup.value.Backup?)) && OnlyItems(before, t, written)
    requires after.paths == (if staged.Some? then t.paths - {staged.value} else t.paths) && (staged.Some? ==> staged.value.Staged?)
    requires Whole(t) && forall i <- t.inodes.Keys :: i in after.inodes && after.inodes[i].entry == t.inodes[i].entry
    ensures Retreated(before, after, written, staged)
  {
    forall q: Path ensures ItemsPath(written, q) || Some(q) == staged || SamePath(before, after, q) {
      assert ItemsPath(written, q) || SamePath(before, t, q);
    }
    forall it | it in written ensures Undone(after, it) {
      assert SamePath(t, after, Target(it.change.rel));
    }
  }

  /** Every item undone, the staged name gone, and nothing else changed. */
  ghost predicate Retreated(before: Tree, after: Tree, written: seq<Item>, staged: Option<Path>) {
    && (forall it <- written :: Undone(after, it)) && (staged.Some? ==> staged.value !in after.paths)
    && (forall q: Path :: ItemsPath(written, q) || Some(q) == staged || SamePath(before, after, q))
    && (forall i <- before.inodes.Keys :: i in after.inodes && after.inodes[i].entry == before.inodes[i].entry)
  }

  lemma StillAccounted(
      h0: History, h: History, paths: map<Path, Ino>, h1: History, paths1: map<Path, Ino>, retained: seq<Path>, written: seq<Item>,
      staged: Option<Path>, n: nat)
    requires Accounting(h0, h, paths, retained, written, 0) && h1.aside == h.aside && h1.seen == h.seen
    requires NamesKept(paths, paths1, n, staged) && (staged.Some? ==> staged.value.Staged?)
    requires forall q <- h.aside.Keys :: (q.Backup? || q.Displaced?) && q.uid < n
    ensures Accounting(h0, h1, paths1, retained, written, 0)
  {
    forall q | q in h1.aside && q !in h0.aside ensures Explained(h0.seen, h1, paths1, retained, written, q) {
      var it :| it in written && TakenBack(h0.seen, h, paths, retained, it, q);
      TakenBackStays(h0.seen, h, paths, retained, h1, paths1, retained, it, q);
    }
  }

  datatype Outcome = Applied | Stopped(retained: seq<Path>)

  /** Every changed path holds its output, and every other what it held. */
  ghost predicate Delivered(start: Tree, t: Tree, changes: seq<Change>) {
    && (forall c <- changes :: t.EntryAt(Target(c.rel)) == c.output)
    && (forall rel :: (forall c <- changes :: c.rel != rel) ==> t.EntryAt(Target(rel)) == start.EntryAt(Target(rel)))
  }

  /** Every path holds what it held, and no private name is left. */
  ghost predicate Restored(start: Tree, t: Tree) {
    (forall rel :: t.EntryAt(Target(rel)) == start.EntryAt(Target(rel))) && Tidy(start, t)
  }

  ghost predicate Whole(t: Tree) {
    forall p <- t.paths.Keys :: t.paths[p] in t.inodes
  }

  lemma AllStandIsDelivered(start: Tree, t: Tree, changes: seq<Change>, written: seq<Item>, n0: nat)
    requires Progress(start, t, changes, written, n0) && |written| == |changes| && Whole(start)
    ensures Delivered(start, t, changes)
  {
    forall c | c in changes ensures t.EntryAt(Target(c.rel)) == c.output {
      var i :| 0 <= i < |changes| && changes[i] == c;
      assert written[i] in written && Standing(t, written[i]);
    }
    forall it | it in written ensures it.change in changes && Standing(t, it) {
      var i :| 0 <= i < |written| && written[i] == it;
    }
    forall rel | forall c <- changes :: c.rel != rel ensures t.EntryAt(Target(rel)) == start.EntryAt(Target(rel)) {
      assert !ItemsPath(written, Target(rel));
      assert SamePath(start, t, Target(rel));
    }
  }

  /** The tree the retreat comes back from: the plan's changes so far, and perhaps a staged name. */
  lemma AllUndoneIsRestored(start: Tree, n0: nat, changes: seq<Change>, written: seq<Item>, middle: Tree, before: Tree, t: Tree, staged: Option<Path>)
    requires OnPlan(start, n0, changes, written, middle) && StagedLeft(middle, before, staged) && Retreated(before, t, written, staged)
    ensures Restored(start, t)
  {
    forall q: Path | !ItemsPath(written, q) && Some(q) != staged ensures SamePath(start, t, q) {
      assert SamePath(start, middle, q) && SamePath(middle, before, q) && SamePath(before, t, q);
    }
    forall rel ensures t.EntryAt(Target(rel)) == start.EntryAt(Target(rel)) {
      if ItemsPath(written, Target(rel)) {
        var it :| it in written && (Target(rel) == Target(it.change.rel) || Some(Target(rel)) == it.backup);
        var i :| 0 <= i < |written| && written[i] == it;
        assert changes[i] in changes && Standing(middle, it) && Undone(t, it);
      } else {
        assert SamePath(start, t, Target(rel));
      }
    }
    forall p | p in t.paths && !p.Target? ensures p in start.paths {
      assert !ItemsPath(written, p);
      assert SamePath(start, t, p);
    }
  }

  /* ---- what a stopped delivery tells ---- */

  /** An original that was displaced is back at its path, or at this private name and named to the caller. */
  ghost predicate OriginalKept(seen: seq<(Path, Sight)>, h: History, paths: map<Path, Ino>, retained: seq<Path>, changes: seq<Change>, q: Path)
    requires q in h.aside
  {
    && q.Backup? && (exists c <- changes :: c.rel == h.aside[q].rel && SeenSince(seen, h.seen, (Target(c.rel), Saw(c.original))))
    && (h.aside[q].returned || (q in retained && q in paths && paths[q] == h.aside[q].ino))
  }

  /** What rollback took off a path was seen there as the change's own output, and has a known fate. */
  ghost predicate OutputTaken(seen: seq<(Path, Sight)>, h: History, paths: map<Path, Ino>, retained: seq<Path>, c: Change, l: Local, q: Path)
    requires q in h.aside
  {
    && q.Displaced? && c.rel == h.aside[q].rel && Some(l.entry) == c.output && SeenSince(seen, h.seen, (Target(c.rel), Saw(Some(l))))
    && Fate(h.aside[q], paths, retained, q, l)
  }

  /** Every file renamed aside since `h0` is accounted for, and only such files are named to the caller. */
  ghost predicate NothingLost(h0: History, h: History, paths: map<Path, Ino>, retained: seq<Path>, changes: seq<Change>) {
    && (forall q <- h.aside.Keys :: q in h0.aside || OriginalKept(h0.seen, h, paths, retained, changes, q)
          || exists c, l :: c in changes && OutputTaken(h0.seen, h, paths, retained, c, l, q))
    && (forall k <- retained :: k in h.aside && k !in h0.aside) && h0.seen <= h.seen
  }

  lemma StoppedLosesNothing(
      h0: History, h1: History, paths1: map<Path, Ino>, next: nat, h: History, paths: map<Path, Ino>, retained: seq<Path>,
      changes: seq<Change>, written: seq<Item>)
    requires Going(h0, h1, paths1, next, changes, written) && Accounting(h1, h, paths, retained, written, 0)
    requires forall q <- h.aside.Keys :: q in paths ==> paths[q] == h.aside[q].ino
    ensures NothingLost(h0, h, paths, retained, changes)
  {
    forall q | q in h.aside && q !in h0.aside
      ensures OriginalKept(h0.seen, h, paths, retained, changes, q)
        || exists c, l :: c in changes && OutputTaken(h0.seen, h, paths, retained, c, l, q)
    {
      if q in h1.aside {
        OriginalIsKept(h0, h1, paths1, next, h, paths, retained, changes, written, q);
      } else {
        OutputIsTaken(h0, h1, h, paths, retained, changes, written, q);
      }
    }
    forall k | k in retained ensures k in h.aside && k !in h0.aside {
      if BackupOf(written, k) {
        var it :| it in written && it.backup == Some(k);
      }
    }
  }

  lemma OriginalIsKept(
      h0: History, h1: History, paths1: map<Path, Ino>, next: nat, h: History, paths: map<Path, Ino>, retained: seq<Path>,
      changes: seq<Change>, written: seq<Item>, q: Path)
    requires Going(h0, h1, paths1, next, changes, written) && Accounting(h1, h, paths, retained, written, 0)
    requires (forall p <- h.aside.Keys :: p in paths ==> paths[p] == h.aside[p].ino) && q in h1.aside && q !in h0.aside
    ensures q in h.aside && OriginalKept(h0.seen, h, paths, retained, changes, q)
  {
    var it :| it in written && it.backup == Some(q);
    var i :| 0 <= i < |written| && written[i] == it;
    assert Entered(h0.seen, h1, written[i], changes[i]) && Held(h1, paths1, it) && Accounted(h, paths, written[i], retained);
    SeenSinceGrows(h0.seen, h1.seen, h.seen, (Target(it.change.rel), Saw(it.change.original)));
    assert changes[i] in changes;
  }

  lemma OutputIsTaken(
      h0: History, h1: History, h: History, paths: map<Path, Ino>, retained: seq<Path>, changes: seq<Change>, written: seq<Item>, q: Path)
    requires Recording(h0, h1, changes, written) && AllExplained(h1, h, paths, retained, written) && h1.seen <= h.seen
    requires q in h.aside && q !in h1.aside
    ensures exists c, l :: c in changes && OutputTaken(h0.seen, h, paths, retained, c, l, q)
  {
    var it :| it in written && TakenBack(h1.seen, h, paths, retained, it, q);
    var i :| 0 <= i < |written| && written[i] == it;
    assert Entered(h0.seen, h1, written[i], changes[i]);
    SeenSinceGrows(h0.seen, h1.seen, h.seen, (Target(it.change.rel), Saw(it.published)));
    assert changes[i] in changes && OutputTaken(h0.seen, h, paths, retained, changes[i], it.published.value, q);
  }

  /** Looking changes nothing an item records. */
  lemma GoingUnderLooks(
      h0: History, h1: History, paths1: map<Path, Ino>, next1: nat, h2: History, paths2: map<Path, Ino>, next2: nat,
      changes: seq<Change>, written: seq<Item>)
    requires Going(h0, h1, paths1, next1, changes, written) && LookedOnly(h1.aside, h2.aside) && h1.seen <= h2.seen
    requires ItemsOk(written, next2) && AllHeld(h2, paths2, written)
    ensures Going(h0, h2, paths2, next2, changes, written)
  {
  }

  /** Every change was looked at last as it was applied. */
  ghost predicate SeenApplied(seen: seq<(Path, Sight)>, h: History, changes: seq<Change>, written: seq<Item>) {
    && |written| == |changes| && seen <= h.seen
    && forall i | 0 <= i < |changes| :: written[i].change == changes[i] && Finished(written[i]) && Verified(seen, h.seen, written[i])
  }

  lemma CommittedIsSeen(h0: History, h1: History, h2: History, h: History, changes: seq<Change>, written: seq<Item>)
    requires Recording(h0, h1, changes, written) && |written| == |changes| && AllFinished(written) && h1.seen <= h2.seen
    requires (forall it <- written :: Verified(h1.seen, h2.seen, it)) && h.seen == h2.seen
    ensures SeenApplied(h0.seen, h, changes, written)
  {
    forall i | 0 <= i < |changes| ensures written[i].change == changes[i] && Finished(written[i]) && Verified(h0.seen, h.seen, written[i]) {
      assert written[i] in written && Entered(h0.seen, h1, written[i], changes[i]);
      VerifiedSince(h0.seen, h1.seen, h2.seen, written[i]);
    }
  }

  /** Record a delivery that went through, and drop its backups. */
  method Conclude(
      d: Disk, changes: seq<Change>, written: seq<Item>, ghost h0: History, ghost start: Tree, ghost n0: nat, ghost quiet: bool)
    returns (ok: bool)
    requires d.Valid() && !d.receipted && Going(h0, d.history, d.paths, d.next, changes, written) && |written| == |changes| && AllFinished(written)
    requires quiet ==> d.Quiet() && Whole(start) && Progress(start, d.Now(), changes, written, n0)
    modifies d
    ensures d.Valid() && (ok <==> d.receipted)
    ensures ok ==> SeenApplied(h0.seen, d.history, changes, written)
    ensures !ok ==> Going(h0, d.history, d.paths, d.next, changes, written)
    ensures quiet ==> ok && Delivered(start, d.Now(), changes) && Tidy(start, d.Now())
  {
    ghost var h1, paths1, n1 := d.history, d.paths, d.next;
    ok := Commit(d, written);
    if !ok {
      GoingUnderLooks(h0, h1, paths1, n1, d.history, d.paths, d.next, changes, written);
      return;
    }
    ghost var h2 := d.history;
    ghost var stood := d.Now();
    if quiet { AllStandIsDelivered(start, stood, changes, written, n0); }
    DropBackups(d, written);
    if quiet { BackupsGone(start, stood, d.Now(), written); }
    CommittedIsSeen(h0, h1, h2, d.history, changes, written);
  }

  /** The changes, and the receipt if nothing stopped them. */
  method Attempt(d: Disk, changes: seq<Change>, aborts: seq<bool>)
    returns (ok: bool, written: seq<Item>, staged: Option<Path>, ghost middle: Tree)
    requires d.Valid() && !d.receipted
    modifies d
    ensures d.Valid() && (ok <==> d.receipted)
    ensures ok ==> SeenApplied(old(d.history).seen, d.history, changes, written)
    ensures !ok ==> Going(old(d.history), d.history, d.paths, d.next, changes, written)
    ensures !ok && staged.Some? ==> staged.value.Staged? && staged.value in d.paths && staged.value.uid < d.next
    ensures old(d.Quiet()) && Planned(old(d.Now()), changes) ==>
      && (ok <==> NoneAborted(aborts, |changes| + 1) && NoneShared(changes))
      && (ok ==> Delivered(old(d.Now()), d.Now(), changes) && Tidy(old(d.Now()), d.Now()))
      && (!ok ==> d.Quiet() && OnPlan(old(d.Now()), old(d.next), changes, written, middle) && StagedLeft(middle, d.Now(), staged))
  {
    ghost var quiet := d.Quiet() && Planned(d.Now(), changes);
    ok, written, staged, middle := ApplyAll(d, changes, aborts);
    if ok {
      if Aborted(aborts, |changes|) { return false, written, staged, middle; }
      ok := Conclude(d, changes, written, old(d.history), old(d.Now()), old(d.next), quiet);
    }
  }

  /** Take back what was done, and say what could not be. */
  method Withdraw(
      d: Disk, changes: seq<Change>, written: seq<Item>, staged: Option<Path>,
      ghost h0: History, ghost start: Tree, ghost n0: nat, ghost middle: Tree, ghost quiet: bool)
    returns (retained: seq<Path>)
    requires d.Valid() && Going(h0, d.history, d.paths, d.next, changes, written)
    requires staged.Some? ==> staged.value.Staged? && staged.value in d.paths && staged.value.uid < d.next
    requires quiet ==> d.Quiet() && OnPlan(start, n0, changes, written, middle) && StagedLeft(middle, d.Now(), staged)
    modifies d`paths, d`inodes, d`next, d`turns, d`history
    ensures d.Valid() && NothingLost(h0, d.history, d.paths, retained, changes)
    ensures quiet ==> retained == [] && Restored(start, d.Now())
  {
    ghost var h1, before, n := d.history, d.Now(), d.next;
    if quiet { StandingBesideStaged(middle, before, staged, written); }
    retained := Retreat(d, written, staged);
    StoppedLosesNothing(h0, h1, before.paths, n, d.history, d.paths, retained, changes, written);
    if quiet { AllUndoneIsRestored(start, n0, changes, written, middle, before, d.Now(), staged); }
  }

  /**
   * Apply a plan. Whatever the editor does: the receipt is written only after
   * every change was seen as applied and every backup as the plan's original,
   * and a delivery that stops instead has each file it renamed aside back at
   * its path, or at its private name and named to the caller, but for the
   * published files rollback takes off their paths, whose fate is theirs.
   * Without interference the delivery is applied exactly when it is not aborted
   * and no two of its paths are one file, and any stop restores the tree.
   */
  method ApplyDelivery(d: Disk, changes: seq<Change>, aborts: seq<bool>) returns (r: Outcome, ghost written: seq<Item>)
    requires d.Valid() && !d.receipted
    modifies d
    ensures d.Valid() && (r.Applied? <==> d.receipted)
    ensures r.Applied? ==> SeenApplied(old(d.history).seen, d.history, changes, written)
    ensures r.Stopped? ==> NothingLost(old(d.history), d.history, d.paths, r.retained, changes)
    ensures old(d.Quiet()) && Planned(old(d.Now()), changes) ==>
      && (r.Applied? <==> NoneAborted(aborts, |changes| + 1) && NoneShared(changes))
      && (r.Applied? ==> Delivered(old(d.Now()), d.Now(), changes) && Tidy(old(d.Now()), d.Now()))
      && (r.Stopped? ==> r.retained == [] && Restored(old(d.Now()), d.Now()))
  {
    var ok, items, staged;
    ghost var middle;
    ok, items, staged, middle := Attempt(d, changes, aborts);
    written := items;
    if ok { return Applied, items; }
    ghost var quiet := old(d.Quiet()) && Planned(old(d.Now()), changes);
    var retained := Withdraw(d, changes, items, staged, old(d.history), old(d.Now()), old(d.next), middle, quiet);
    return Stopped(retained), items;
  }
}
