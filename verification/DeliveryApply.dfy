/** Applying one change of a delivery, call by call, while another editor may act at every call. */
module DeliveryApply {
  import opened Wrappers
  import opened DeliveryMerge
  import opened DeliveryDisk
  import opened DeliveryRollback

  /** A private name made since `before`. */
  ghost predicate FreshName(before: nat, d: Disk, p: Path)
    reads d
  {
    !p.Target? && before <= p.uid < d.next && p in d.paths
  }

  /** An item's backup, when it has one, is a fresh name on the inode it displaced. */
  ghost predicate FreshItem(before: nat, d: Disk, it: Item)
    reads d
  {
    (it.backup.Some? ==> it.backup.value.Backup? && FreshName(before, d, it.backup.value)) && Held(d.history, d.paths, it)
  }

  /** The item records everything that was renamed aside for it, after a look that found what the plan saw. */
  ghost predicate Recorded(h0: History, h1: History, c: Change, pushed: Option<Item>) {
    && h0.seen <= h1.seen
    && match pushed
       case None => h1.aside == h0.aside
       case Some(it) =>
         && it.change == c && SeenSince(h0.seen, h1.seen, (Target(c.rel), Saw(c.original)))
         && (if it.backup.None? then h1.aside == h0.aside
             else it.backup.value !in h0.aside && it.backup.value in h1.aside && h1.aside == h0.aside[it.backup.value := h1.aside[it.backup.value]])
         && (it.published.Some? ==> Some(it.published.value.entry) == c.output)
  }

  /** The original is in the backup, exactly as the plan saw it. */
  ghost predicate AsPlanned(d: Disk, it: Item)
    reads d
  {
    && (it.backup.Some? <==> it.change.original.Some?)
    && (it.backup.Some? ==> it.moved == it.change.original.value.ino && d.Now().EntryAt(it.backup.value) == OriginalEntry(it.change))
  }

  /** Without interference, staging adds one file under its staged name. */
  ghost predicate StagedBeside(before: Tree, after: Tree, n: nat, c: Change, staged: Option<Path>) {
    && after.paths == (if staged.Some? then before.paths[staged.value := n] else before.paths)
    && after.inodes == (if staged.Some? && c.output.Some? then before.inodes[n := Inode(c.output.value, n)] else before.inodes)
    && (staged.Some? ==> c.output.Some?)
  }

  /** Stage the output beside its target; a symlink or a removal stages nothing. */
  method StageOutput(d: Disk, c: Change) returns (ok: bool, staged: Option<Path>)
    requires d.Valid()
    modifies d`paths, d`inodes, d`next, d`turns, d`history
    ensures d.Valid() && d.next >= old(d.next) && PrivateKept(d, None)
    ensures d.history == old(d.history).(made := d.history.made, during := d.history.during)
    ensures staged.Some? ==> staged.value.Staged? && FreshName(old(d.next), d, staged.value) && staged.value !in old(d.paths)
    ensures ok ==> (staged.Some? <==> c.output.Some? && c.output.value.kind.RegularFile?)
    ensures old(d.Quiet()) ==> ok && d.Quiet() && StagedBeside(old(d.Now()), d.Now(), old(d.next), c, staged)
  {
    if c.output.None? || c.output.value.kind.Symlink? {
      return true, None;
    }
    var fault := d.Await();
    if fault { return false, None; }
    var p := d.Stage(c.output.value);
    return true, Some(p);
  }

  /** Move the original aside, once it is still what the plan saw, and look at what was moved. */
  method Displace(d: Disk, c: Change) returns (ok: bool, pushed: Option<Item>)
    requires d.Valid()
    modifies d`paths, d`inodes, d`next, d`turns, d`history
    ensures d.Valid() && d.next >= old(d.next) && PrivateKept(d, None)
    ensures Recorded(old(d.history), d.history, c, pushed) && (pushed.Some? ==> FreshItem(old(d.next), d, pushed.value))
    ensures ok ==> pushed.Some? && pushed.value.published.None? && AsPlanned(d, pushed.value)
    ensures old(d.Quiet()) ==> d.Quiet() && (ok <==> old(d.Now()).LocalAt(Target(c.rel)) == c.original)
    ensures old(d.Quiet()) && !ok ==> pushed.None? && d.Now() == old(d.Now())
    ensures old(d.Quiet()) && ok ==>
      && Target(c.rel) !in d.paths && OthersKept(old(d.Now()), d.Now(), pushed.value)
      && (c.original.Some? ==> d.inodes[c.original.value.ino].ctime >= old(d.next))
  {
    ghost var h0 := d.history;
    var fault, now := d.See(Target(c.rel));
    assert d.history.seen == h0.seen + [(Target(c.rel), if fault then Unseen else Saw(now))];
    if fault || now != c.original { return false, None; }
    var it := Item(c, None, 0, None);
    if c.original.None? { return true, Some(it); }
    ok, it := MoveOriginal(d, it);
    pushed := Some(it);
    SeenSinceGrows(h0.seen, h0.seen + [(Target(c.rel), Saw(now))], d.history.seen, (Target(c.rel), Saw(c.original)));
  }

  method MoveOriginal(d: Disk, it: Item) returns (ok: bool, moved: Item)
    requires d.Valid() && it.backup.None? && it.published.None? && it.change.original.Some?
    modifies d`paths, d`inodes, d`next, d`turns, d`history
    ensures d.Valid() && d.next >= old(d.next) && PrivateKept(d, None)
    ensures moved == it.(backup := moved.backup, moved := moved.moved) && old(d.history).seen <= d.history.seen
    ensures OneMore(old(d.history), d.history, old(d.next), moved.backup, it.change.rel, false)
    ensures FreshItem(old(d.next), d, moved) && (ok ==> AsPlanned(d, moved))
    ensures old(d.Quiet()) && old(d.Now()).LocalAt(Target(it.change.rel)) == it.change.original ==>
      && ok && d.Quiet() && Target(it.change.rel) !in d.paths && OthersKept(old(d.Now()), d.Now(), moved)
      && d.inodes[it.change.original.value.ino].ctime >= old(d.next)
  {
    var c := it.change;
    var p := TakeAside(d, c.rel, false);
    if p.None? { return false, it; }
    moved := it.(backup := p, moved := d.paths[p.value]);
    var fault, now := d.See(p.value);
    return !fault && SameFile(now.value, c.original.value), moved;
  }

  /* ---- publishing ---- */

  /** Without interference, the item's output is published where its target was free. */
  ghost predicate Published(before: Tree, after: Tree, it: Item, staged: Option<Path>, ino: Ino) {
    && it.published.Some? && it.published.value.ino == ino && Some(it.published.value.entry) == it.change.output
    && after.LocalAt(Target(it.change.rel)) == it.published
    && after.paths == (if staged.Some? then before.paths - {staged.value} else before.paths)[Target(it.change.rel) := ino]
    && ContentKept(before, after, {ino})
  }

  /** The inode an output is published as. */
  function PublishedIno(paths: map<Path, Ino>, next: nat, staged: Option<Path>): Ino
    requires staged.Some? ==> staged.value in paths
  {
    if staged.Some? then paths[staged.value] else next
  }

  /** Link the staged file, or create the symlink, at a free target: never over another file. */
  method Place(d: Disk, c: Change, staged: Option<Path>) returns (ok: bool)
    requires d.Valid() && c.output.Some? && (staged.Some? ==> staged.value.Staged? && staged.value in d.paths)
    modifies d`paths, d`inodes, d`next, d`turns, d`history
    ensures d.Valid() && d.next >= old(d.next) && PrivateKept(d, None)
    ensures d.history == old(d.history).(made := d.history.made, during := d.history.during)
    ensures (&& old(d.Quiet()) && Target(c.rel) !in old(d.paths)
             && (staged.Some? ==> old(d.Now()).EntryAt(staged.value) == c.output)) ==>
      var ino := PublishedIno(old(d.paths), old(d.next), staged);
      && ok && d.Quiet() && d.Now().EntryAt(Target(c.rel)) == c.output
      && d.paths == old(d.paths)[Target(c.rel) := ino] && ContentKept(old(d.Now()), d.Now(), {ino})
  {
    var fault := d.Await();
    if fault || Target(c.rel) in d.paths { return false; }
    if staged.Some? {
      d.LinkTo(staged.value, c.rel);
    } else {
      d.SymlinkTo(c.output.value, c.rel, None);
    }
    return true;
  }

  /** Look at what stands at the target: nothing else than `output` will do. */
  method Look(d: Disk, rel: Rel, output: Entry) returns (seen: Option<Local>)
    requires d.Valid()
    modifies d`paths, d`inodes, d`next, d`turns, d`history
    ensures d.Valid() && d.next >= old(d.next) && PrivateKept(d, None)
    ensures d.history.aside == old(d.history).aside && old(d.history).seen <= d.history.seen
    ensures seen.Some? ==> seen.value.entry == output && SeenSince(old(d.history).seen, d.history.seen, (Target(rel), Saw(seen)))
    ensures seen.Some? ==> d.Now().LocalAt(Target(rel)) == seen
    ensures old(d.Quiet() && d.Now().EntryAt(Target(rel)) == Some(output)) ==> seen.Some? && d.Quiet() && d.Now() == old(d.Now())
  {
    ghost var first := d.history.seen;
    var fault, now := d.See(Target(rel));
    assert d.history.seen == first + [(Target(rel), if fault then Unseen else Saw(now))];
    if fault || now.None? || now.value.entry != output { return None; }
    return now;
  }

  /** Drop the staged name once its output is published. */
  method DropName(d: Disk, staged: Option<Path>) returns (ok: bool)
    requires d.Valid() && (staged.Some? ==> staged.value.Staged? && staged.value in d.paths)
    modifies d`paths, d`inodes, d`next, d`turns, d`history
    ensures d.Valid() && d.next >= old(d.next) && PrivateKept(d, staged)
    ensures d.history == old(d.history).(during := d.history.during)
    ensures staged.Some? ==> (ok <==> staged.value !in d.paths) && (!ok ==> d.paths[staged.value] == old(d.paths)[staged.value])
    ensures staged.None? ==> ok
    ensures old(d.Quiet()) ==>
      && ok && d.Quiet() && d.paths == (if staged.Some? then old(d.paths) - {staged.value} else old(d.paths))
      && ContentKept(old(d.Now()), d.Now(), if staged.Some? then {old(d.paths)[staged.value]} else {})
  {
    if staged.None? { return true; }
    var fault := d.Await();
    if fault { return false; }
    d.UnlinkPrivate(staged.value);
    return true;
  }

  /** Publish the output at its free target, look at what stands there, drop the staged name, and look again. */
  method Publish(d: Disk, it: Item, staged: Option<Path>) returns (ok: bool, done: Item, left: Option<Path>)
    requires d.Valid() && it.published.None? && it.change.output.Some?
    requires staged.Some? ==> staged.value.Staged? && staged.value in d.paths
    modifies d`paths, d`inodes, d`next, d`turns, d`history
    ensures d.Valid() && d.next >= old(d.next) && PrivateKept(d, staged)
    ensures d.history.aside == old(d.history).aside && old(d.history).seen <= d.history.seen
    ensures done == it.(published := done.published) && (ok ==> done.published.Some? && left.None?)
    ensures done.published.Some? ==> Some(done.published.value.entry) == it.change.output
    ensures left == staged || left.None?
    ensures left.Some? ==> left.value in d.paths
    ensures (&& old(d.Quiet()) && Target(it.change.rel) !in old(d.paths)
             && (staged.Some? ==> old(d.Now()).EntryAt(staged.value) == it.change.output)) ==>
      ok && d.Quiet() && Published(old(d.Now()), d.Now(), done, staged, PublishedIno(old(d.paths), old(d.next), staged))
  {
    done, left := it, staged;
    ok := Place(d, it.change, staged);
    if !ok { return; }
    ok, done, left := Confirm(d, it, staged);
  }

  method Confirm(d: Disk, it: Item, staged: Option<Path>) returns (ok: bool, done: Item, left: Option<Path>)
    requires d.Valid() && it.published.None? && it.change.output.Some?
    requires staged.Some? ==> staged.value.Staged? && staged.value in d.paths
    modifies d`paths, d`inodes, d`next, d`turns, d`history
    ensures d.Valid() && d.next >= old(d.next) && PrivateKept(d, staged)
    ensures d.history.aside == old(d.history).aside && old(d.history).seen <= d.history.seen
    ensures done == it.(published := done.published) && (ok ==> done.published.Some? && left.None?)
    ensures done.published.Some? ==> Some(done.published.value.entry) == it.change.output
    ensures left == staged || left.None?
    ensures left.Some? ==> left.value in d.paths
    ensures (&& old(d.Quiet() && d.Now().EntryAt(Target(it.change.rel)) == it.change.output)
             && (staged.Some? ==> old(d.paths)[staged.value] == old(d.paths)[Target(it.change.rel)])) ==>
      && ok && d.Quiet() && d.paths == (if staged.Some? then old(d.paths) - {staged.value} else old(d.paths))
      && ContentKept(old(d.Now()), d.Now(), {d.paths[Target(it.change.rel)]})
      && done.published.Some? && d.Now().LocalAt(Target(it.change.rel)) == done.published
  {
    done, left := it, staged;
    var seen := Look(d, it.change.rel, it.change.output.value);
    if seen.None? { return false, done, left; }
    done := done.(published := seen);
    var dropped := DropName(d, staged);
    if !dropped { return false, done, left; }
    left := None;
    seen := Look(d, it.change.rel, it.change.output.value);
    if seen.None? { return false, done, left; }
    done := done.(published := seen);
    return true, done, left;
  }

  /** Everything outside one item and its staged name, which is gone, is as it was. */
  ghost predicate InstalledBeside(before: Tree, after: Tree, it: Item, staged: Option<Path>) {
    && (forall q: Path :: q == Target(it.change.rel) || Some(q) == it.backup || Some(q) == staged || SamePath(before, after, q))
    && ContentKept(before, after, Touched(it)) && (staged.Some? ==> staged.value !in after.paths)
  }

  /** The displaced change, ready for its output: its path is free and its backup holds the original. */
  ghost predicate Ready(t: Tree, it: Item, staged: Option<Path>, ino: Ino) {
    && Target(it.change.rel) !in t.paths && it.published.None? && (it.backup.Some? <==> it.change.original.Some?)
    && (it.backup.Some? ==>
          && it.backup.value.Backup? && it.backup.value in t.paths && t.paths[it.backup.value] == it.moved
          && it.moved != ino && t.EntryAt(it.backup.value) == OriginalEntry(it.change))
    && (staged.Some? ==> t.EntryAt(staged.value) == it.change.output)
  }

  lemma PublishedStands(t2: Tree, t3: Tree, it: Item, done: Item, staged: Option<Path>, ino: Ino)
    requires Ready(t2, it, staged, ino) && (staged.Some? ==> staged.value.Staged?)
    requires done == it.(published := done.published) && Published(t2, t3, done, staged, ino)
    ensures Standing(t3, done) && InstalledBeside(t2, t3, done, staged) && BackupUntouched(t2, t3, it)
  {
  }

  ghost predicate BackupUntouched(before: Tree, after: Tree, it: Item) {
    it.backup.Some? && it.moved in before.inodes ==> it.moved in after.inodes && after.inodes[it.moved] == before.inodes[it.moved]
  }

  /** Publish the displaced change's output, if it has one. */
  method Finish(d: Disk, it: Item, staged: Option<Path>) returns (ok: bool, done: Item, left: Option<Path>)
    requires d.Valid() && it.published.None? && (staged.Some? ==> it.change.output.Some?)
    requires staged.Some? ==> staged.value.Staged? && staged.value in d.paths
    modifies d`paths, d`inodes, d`next, d`turns, d`history
    ensures d.Valid() && d.next >= old(d.next) && PrivateKept(d, staged)
    ensures d.history.aside == old(d.history).aside && old(d.history).seen <= d.history.seen
    ensures done == it.(published := done.published) && (ok ==> (done.published.Some? <==> it.change.output.Some?) && left.None?)
    ensures done.published.Some? ==> Some(done.published.value.entry) == it.change.output
    ensures left == staged || left.None?
    ensures left.Some? ==> left.value in d.paths
    ensures old(d.Quiet() && Ready(d.Now(), it, staged, PublishedIno(d.paths, d.next, staged))) ==>
      && ok && d.Quiet() && Standing(d.Now(), done) && InstalledBeside(old(d.Now()), d.Now(), done, staged)
      && BackupUntouched(old(d.Now()), d.Now(), it)
      && (done.published.Some? ==> done.published.value.ino == PublishedIno(old(d.paths), old(d.next), staged))
  {
    ghost var t2, ino := d.Now(), PublishedIno(d.paths, d.next, staged);
    ghost var quiet := d.Quiet() && Ready(t2, it, staged, ino);
    if it.change.output.None? { return true, it, None; }
    ok, done, left := Publish(d, it, staged);
    if quiet { PublishedStands(t2, d.Now(), it, done, staged, ino); }
  }

  /** The quiet steps of one installation, taken together: nothing else moved. */
  lemma InstalledInAll(t1: Tree, t2: Tree, t3: Tree, it: Item, done: Item, staged: Option<Path>)
    requires OthersKept(t1, t2, it) && InstalledBeside(t2, t3, done, staged)
    requires done == it.(published := done.published) && it.published.None?
    ensures InstalledBeside(t1, t3, done, staged)
  {
    assert Touched(it) <= Touched(done);
    forall q: Path ensures q == Target(done.change.rel) || Some(q) == done.backup || Some(q) == staged || SamePath(t1, t3, q) {
      assert q == Target(it.change.rel) || Some(q) == it.backup || SamePath(t1, t2, q);
    }
  }

  /** The original's inode; no inode number when there is none. */
  function OriginalIno(c: Change): int {
    if c.original.Some? then c.original.value.ino else -1
  }

  lemma RecordedStays(h0: History, h1: History, h2: History, it: Item, done: Item)
    requires Recorded(h0, h1, it.change, Some(it)) && h2.aside == h1.aside && h1.seen <= h2.seen && done == it.(published := done.published)
    requires done.published.Some? ==> Some(done.published.value.entry) == it.change.output
    ensures Recorded(h0, h2, it.change, Some(done))
  {
    SeenSinceGrows(h0.seen, h1.seen, h2.seen, (Target(it.change.rel), Saw(it.change.original)));
  }

  /** Displace the original and publish the output, up to the first thing that is not as it should be. */
  method Install(d: Disk, c: Change, staged: Option<Path>) returns (ok: bool, pushed: Option<Item>, left: Option<Path>)
    requires d.Valid() && (staged.Some? ==> c.output.Some?)
    requires staged.Some? ==> staged.value.Staged? && staged.value in d.paths && staged.value.uid < d.next
    modifies d`paths, d`inodes, d`next, d`turns, d`history
    ensures d.Valid() && d.next >= old(d.next) && PrivateKept(d, staged)
    ensures Recorded(old(d.history), d.history, c, pushed) && (pushed.Some? ==> FreshItem(old(d.next), d, pushed.value))
    ensures left == staged || left.None?
    ensures left.Some? ==> left.value in d.paths
    ensures ok ==> pushed.Some? && left.None? && Finished(pushed.value)
    ensures old(d.Quiet()) && old(d.Now()).LocalAt(Target(c.rel)) != c.original ==>
      !ok && pushed.None? && left == staged && d.Quiet() && d.Now() == old(d.Now())
    ensures (&& old(d.Quiet() && d.Now().LocalAt(Target(c.rel)) == c.original)
             && (staged.Some? ==> old(d.Now()).EntryAt(staged.value) == c.output && old(d.paths)[staged.value] != OriginalIno(c))) ==>
      && ok && d.Quiet() && Standing(d.Now(), pushed.value) && InstalledBeside(old(d.Now()), d.Now(), pushed.value, staged)
      && (pushed.value.published.Some? ==>
            pushed.value.published.value.ino >= old(d.next) || (staged.Some? && pushed.value.published.value.ino == old(d.paths)[staged.value]))
      && (c.original.Some? ==> c.original.value.ino in d.inodes && d.inodes[c.original.value.ino].ctime >= old(d.next))
  {
    ghost var t1, quiet := d.Now(), d.Quiet() && d.Now().LocalAt(Target(c.rel)) == c.original
      && (staged.Some? ==> d.Now().EntryAt(staged.value) == c.output && d.paths[staged.value] != OriginalIno(c));
    left := staged;
    ok, pushed := Displace(d, c);
    if !ok { return; }
    ghost var t2, it, h1 := d.Now(), pushed.value, d.history;
    var done;
    ok, done, left := Finish(d, pushed.value, staged);
    RecordedStays(old(d.history), h1, d.history, it, done);
    pushed := Some(done);
    if quiet { InstalledInAll(t1, t2, d.Now(), it, done, staged); }
  }

  /** A finished item: its original set aside if there was one, its output published if there is one. */
  ghost predicate Finished(it: Item) {
    && (it.backup.Some? <==> it.change.original.Some?) && (it.published.Some? <==> it.change.output.Some?)
    && (it.backup.Some? ==> it.moved == it.change.original.value.ino)
  }

  /** Everything but the item and the staged name it used is as it was before staging. */
  lemma StagedAside(t0: Tree, t1: Tree, t3: Tree, n0: nat, it: Item, staged: Option<Path>)
    requires (forall i <- t0.inodes.Keys :: i < n0) && (staged.Some? ==> staged.value !in t0.paths)
    requires StagedBeside(t0, t1, n0, it.change, staged) && InstalledBeside(t1, t3, it, staged)
    ensures OthersKept(t0, t3, it)
  {
    forall q: Path ensures q == Target(it.change.rel) || Some(q) == it.backup || SamePath(t0, t3, q) {
      assert q == Target(it.change.rel) || Some(q) == it.backup || Some(q) == staged || SamePath(t1, t3, q);
    }
  }

  /** What one change left: its item, recorded and held, among names newer than `n`. */
  ghost predicate Pushed(h1: History, paths1: map<Path, Ino>, n: nat, h2: History, paths2: map<Path, Ino>, next: nat, c: Change, pushed: Option<Item>) {
    && n <= next && Recorded(h1, h2, c, pushed) && NamesKept(paths1, paths2, n, None)
    && (pushed.Some? ==> Held(h2, paths2, pushed.value))
    && (pushed.Some? && pushed.value.backup.Some? ==> pushed.value.backup.value.Backup? && n <= pushed.value.backup.value.uid < next)
  }

  /** What one undisturbed change did. */
  ghost predicate Stands(before: Tree, after: Tree, n: nat, it: Item) {
    && Standing(after, it) && OthersKept(before, after, it)
    && (it.published.Some? ==> it.published.value.ino >= n)
    && (it.change.original.Some? ==> it.change.original.value.ino in after.inodes && after.inodes[it.change.original.value.ino].ctime >= n)
    && (it.backup.Some? ==> it.moved == it.change.original.value.ino)
  }

  /** The staged name an aborted change left behind, and nothing else, is beside this tree. */
  ghost predicate StagedLeft(before: Tree, after: Tree, staged: Option<Path>) {
    && (forall q: Path :: Some(q) == staged || SamePath(before, after, q))
    && (forall i <- before.inodes.Keys :: i in after.inodes && after.inodes[i] == before.inodes[i])
    && (staged.Some? ==> staged.value.Staged? && staged.value !in before.paths)
  }

  /** One change: staged, installed, and whatever was left behind handed back. */
  method ApplyChange(d: Disk, c: Change) returns (ok: bool, pushed: Option<Item>, staged: Option<Path>)
    requires d.Valid()
    modifies d`paths, d`inodes, d`next, d`turns, d`history
    ensures d.Valid() && Pushed(old(d.history), old(d.paths), old(d.next), d.history, d.paths, d.next, c, pushed)
    ensures staged.Some? ==> staged.value.Staged? && staged.value in d.paths && staged.value.uid < d.next
    ensures ok ==> pushed.Some? && staged.None? && Finished(pushed.value)
    ensures old(d.Quiet()) ==> d.Quiet() && (ok <==> old(d.Now()).LocalAt(Target(c.rel)) == c.original)
    ensures old(d.Quiet()) && ok ==> Stands(old(d.Now()), d.Now(), old(d.next), pushed.value)
    ensures old(d.Quiet()) && !ok ==> pushed.None? && StagedLeft(old(d.Now()), d.Now(), staged)
  {
    ghost var t0, n0, quiet := d.Now(), d.next, d.Quiet();
    pushed := None;
    ok, staged := StageOutput(d, c);
    if !ok { return; }
    ghost var t1, name, h1 := d.Now(), staged, d.history;
    LookIsUnmoved(t0, t1, n0, c, staged, quiet);
    ok, pushed, staged := Install(d, c, staged);
    if quiet && ok { StagedAside(t0, t1, d.Now(), n0, pushed.value, name); }
  }

  /** Staging moves no project path. */
  lemma LookIsUnmoved(t0: Tree, t1: Tree, n: nat, c: Change, staged: Option<Path>, quiet: bool)
    requires quiet ==> StagedBeside(t0, t1, n, c, staged)
    requires (forall i <- t0.inodes.Keys :: i < n) && (forall p <- t0.paths.Keys :: t0.paths[p] in t0.inodes)
    requires staged.Some? ==> staged.value.Staged?
    ensures quiet ==> t1.LocalAt(Target(c.rel)) == t0.LocalAt(Target(c.rel))
  {
  }
}
