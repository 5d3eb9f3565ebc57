/** The changes of a delivery, and taking them back one by one while another editor may act at every call. */
module DeliveryRollback {
  import opened Wrappers
  import opened DeliveryMerge
  import opened DeliveryDisk

  /** One path to change: what the plan saw there, and what is to be there. */
  datatype Change = Change(rel: Rel, original: Option<Local>, output: Option<Entry>)

  /** A change in progress: the private name its original was moved to, that inode, and what was published. */
  datatype Item = Item(change: Change, backup: Option<Path>, moved: Ino, published: Option<Local>)

  function OriginalEntry(c: Change): Option<Entry> {
    match c.original
    case Some(l) => Some(l.entry)
    case None => None
  }

  /** Items keep private backups made before `next`, each its own. */
  ghost predicate ItemsOk(written: seq<Item>, next: nat) {
    && (forall it <- written :: it.backup.Some? ==> it.backup.value.Backup? && it.backup.value.uid < next)
    && (forall i, j | 0 <= i < j < |written| && written[i].backup.Some? && written[j].backup.Some? :: written[i].backup != written[j].backup)
  }

  /** Private names other than `p` that existed before are on the inodes they were on. */
  twostate predicate PrivateKept(d: Disk, p: Option<Path>)
    reads d
  {
    forall q: Path :: !q.Target? && q.uid < old(d.next) && Some(q) != p ==>
      (q in d.paths <==> q in old(d.paths)) && (q in d.paths ==> d.paths[q] == old(d.paths)[q])
  }

  /** What is known of a private name only grows. */
  ghost predicate Later(a: Aside, b: Aside) {
    b.rel == a.rel && b.ino == a.ino && (a.returned ==> b.returned) && (a.gone.Some? ==> b.gone == a.gone)
  }

  /** The same, over values. */
  ghost predicate NamesKept(before: map<Path, Ino>, after: map<Path, Ino>, n: nat, p: Option<Path>) {
    forall q: Path :: !q.Target? && q.uid < n && Some(q) != p ==> (q in after <==> q in before) && (q in after ==> after[q] == before[q])
  }

  /** The history only grows, and of names older than `n` it says nothing new except of `p`. */
  ghost predicate HistoryKept(h0: History, h1: History, n: nat, p: Option<Path>) {
    && (forall q <- h0.aside.Keys :: q in h1.aside && (if Some(q) == p then Later(h0.aside[q], h1.aside[q]) else h1.aside[q] == h0.aside[q]))
    && (forall q <- h1.aside.Keys :: q in h0.aside || (!q.Target? && n <= q.uid))
    && h0.seen <= h1.seen
  }

  /** Files hold what they held, and only those of `touched` changed their time. */
  ghost predicate ContentKept(before: Tree, after: Tree, touched: set<Ino>) {
    forall i <- before.inodes.Keys ::
      i in after.inodes && after.inodes[i].entry == before.inodes[i].entry && (i !in touched ==> after.inodes[i] == before.inodes[i])
  }

  /** No scribble reaches a symlink. */
  lemma SymlinkStays(entry: Entry, i: Ino, edits: seq<Edit>)
    requires entry.kind.Symlink?
    ensures Scribbled(entry, i, edits) == entry
  {
    ScribbledByTheLast(entry, i, edits);
  }

  /** The private name `p` is on a file that was renamed off `rel`. */
  ghost predicate OffPath(d: Disk, p: Path, rel: Rel)
    reads d
  {
    p in d.paths && p in d.history.aside && d.history.aside[p].rel == rel
  }

  /** A symlink is read and made again, since linking it could follow it. */
  method RecreateLink(d: Disk, p: Path, rel: Rel) returns (ok: bool)
    requires d.Valid() && OffPath(d, p, rel) && d.inodes[d.paths[p]].entry.kind.Symlink?
    modifies d`paths, d`inodes, d`next, d`turns, d`history
    ensures d.Valid() && d.next >= old(d.next) && PrivateKept(d, None) && OffPath(d, p, rel) && d.paths[p] == old(d.paths)[p]
    ensures d.history == (if ok then Returned(old(d.history), p) else old(d.history)).(made := d.history.made, during := d.history.during)
    ensures old(d.Quiet()) && Target(rel) !in old(d.paths) ==>
      && ok && d.Quiet() && Target(rel) in d.paths && d.inodes[d.paths[Target(rel)]].entry == old(d.inodes[d.paths[p]]).entry
      && d.paths == old(d.paths)[Target(rel) := d.paths[Target(rel)]] && ContentKept(old(d.Now()), d.Now(), {})
  {
    var fault := d.Await();
    SymlinkStays(old(d.inodes[d.paths[p]].entry), d.paths[p], d.history.during);
    if fault { return false; }
    ok := MakeLink(d, p, rel, d.inodes[d.paths[p]].entry);
  }

  method MakeLink(d: Disk, p: Path, rel: Rel, content: Entry) returns (ok: bool)
    requires d.Valid() && OffPath(d, p, rel) && content.kind.Symlink? && d.inodes[d.paths[p]].entry == content
    modifies d`paths, d`inodes, d`next, d`turns, d`history
    ensures d.Valid() && d.next >= old(d.next) && PrivateKept(d, None) && OffPath(d, p, rel) && d.paths[p] == old(d.paths)[p]
    ensures d.history == (if ok then Returned(old(d.history), p) else old(d.history)).(made := d.history.made, during := d.history.during)
    ensures old(d.Quiet()) && Target(rel) !in old(d.paths) ==>
      && ok && d.Quiet() && Target(rel) in d.paths && d.inodes[d.paths[Target(rel)]].entry == content
      && d.paths == old(d.paths)[Target(rel) := d.paths[Target(rel)]] && ContentKept(old(d.Now()), d.Now(), {})
  {
    var fault := d.Await();
    SymlinkStays(content, d.paths[p], d.history.during);
    if fault || Target(rel) in d.paths { return false; }
    d.SymlinkTo(content, rel, Some(p));
    return true;
  }

  /** Put a displaced file back at its path, never over another: a link, or for a symlink a copy. */
  method PutBack(d: Disk, p: Path, rel: Rel) returns (ok: bool)
    requires d.Valid() && OffPath(d, p, rel)
    modifies d`paths, d`inodes, d`next, d`turns, d`history
    ensures d.Valid() && d.next >= old(d.next) && PrivateKept(d, None) && OffPath(d, p, rel) && d.paths[p] == old(d.paths)[p]
    ensures d.history == (if ok then Returned(old(d.history), p) else old(d.history)).(made := d.history.made, during := d.history.during)
    ensures old(d.Quiet()) && Target(rel) !in old(d.paths) ==>
      && ok && d.Quiet() && Target(rel) in d.paths && d.inodes[d.paths[Target(rel)]].entry == old(d.inodes[d.paths[p]]).entry
      && d.paths == old(d.paths)[Target(rel) := d.paths[Target(rel)]] && ContentKept(old(d.Now()), d.Now(), {d.paths[p]})
  {
    var fault := d.Await();
    if fault { return false; }
    if d.inodes[d.paths[p]].entry.kind.Symlink? {
      ok := RecreateLink(d, p, rel);
      return;
    }
    fault := d.Await();
    if fault || Target(rel) in d.paths { return false; }
    d.LinkTo(p, rel);
    return true;
  }

  /** The tree once a file is back at its path and its private name is dropped. */
  lemma DroppedAfterPutBack(t0: Tree, t1: Tree, t2: Tree, p: Path, rel: Rel, time: nat)
    requires !p.Target? && Target(rel) in t1.paths && p in t1.paths && t1.paths[p] in t1.inodes
    requires t1.paths == t0.paths[Target(rel) := t1.paths[Target(rel)]] && ContentKept(t0, t1, {t1.paths[p]})
    requires t2.paths == t1.paths - {p}
    requires t2.inodes == t1.inodes[t1.paths[p] := t1.inodes[t1.paths[p]].(ctime := time)]
    ensures t2.paths == (t0.paths - {p})[Target(rel) := t1.paths[Target(rel)]] && ContentKept(t0, t2, {t1.paths[p]})
    ensures t2.EntryAt(Target(rel)) == t1.EntryAt(Target(rel))
  {
  }

  /** Put a displaced file back, then drop its private name. */
  method RestoreExclusive(d: Disk, p: Path, rel: Rel) returns (ok: bool)
    requires d.Valid() && OffPath(d, p, rel)
    modifies d`paths, d`inodes, d`next, d`turns, d`history
    ensures d.Valid() && d.next >= old(d.next) && PrivateKept(d, Some(p))
    ensures d.history.seen == old(d.history).seen && p in d.history.aside && d.history.aside == old(d.history).aside[p := d.history.aside[p]]
    ensures Later(old(d.history).aside[p], d.history.aside[p]) && d.history.aside[p].look == old(d.history).aside[p].look
    ensures d.history.aside[p].returned || (p in d.paths && d.paths[p] == old(d.paths)[p])
    ensures ok ==> d.history.aside[p].returned && p !in d.paths
    ensures old(d.Quiet()) && Target(rel) !in old(d.paths) ==>
      && ok && d.Quiet() && Target(rel) in d.paths && d.inodes[d.paths[Target(rel)]].entry == old(d.inodes[d.paths[p]]).entry
      && d.paths == (old(d.paths) - {p})[Target(rel) := d.paths[Target(rel)]] && ContentKept(old(d.Now()), d.Now(), {old(d.paths)[p]})
  {
    ok := PutBack(d, p, rel);
    if !ok { return; }
    var fault := d.Await();
    if fault { return false; }
    ghost var t1, quiet := d.Now(), old(d.Quiet()) && Target(rel) !in old(d.paths);
    ghost var time := d.next;
    d.UnlinkPrivate(p);
    if quiet { DroppedAfterPutBack(old(d.Now()), t1, d.Now(), p, rel, time); }
  }

  /* ---- rollback ---- */

  /** The change stands exactly as it was applied: its output published, its original in the backup. */
  ghost predicate Standing(t: Tree, it: Item) {
    && (it.published.Some? <==> it.change.output.Some?) && (it.backup.Some? <==> it.change.original.Some?)
    && (it.published.None? ==> Target(it.change.rel) !in t.paths)
    && (it.published.Some? ==> Some(it.published.value.entry) == it.change.output)
    && t.LocalAt(Target(it.change.rel)) == it.published
    && (it.backup.Some? ==>
          && it.backup.value.Backup? && it.backup.value in t.paths && t.paths[it.backup.value] == it.moved
          && t.EntryAt(it.backup.value) == OriginalEntry(it.change)
          && (it.published.Some? ==> it.published.value.ino != it.moved))
  }

  /** The inodes a rolled-back item touches. */
  function Touched(it: Item): set<Ino> {
    (if it.published.Some? then {it.published.value.ino} else {}) + (if it.backup.Some? then {it.moved} else {})
  }

  predicate SamePath(before: Tree, after: Tree, q: Path) {
    (q in after.paths <==> q in before.paths) && (q in after.paths ==> after.paths[q] == before.paths[q])
  }

  /** Everything outside one item is as it was. */
  ghost predicate OthersKept(before: Tree, after: Tree, it: Item) {
    && (forall q: Path :: q == Target(it.change.rel) || Some(q) == it.backup || SamePath(before, after, q))
    && ContentKept(before, after, Touched(it))
  }

  /** After a rename only identity and content can be compared, not the time. */
  predicate SameFile(l: Local, published: Local) {
    l.ino == published.ino && l.entry == published.entry
  }

  /** What was removed is the published file, holding what was published but for what the editor wrote just before. */
  ghost predicate RemovedOwn(a: Aside, published: Local) {
    && a.gone.Some? && a.ino == published.ino
    && a.gone.value.entry == Scribbled(published.entry, published.ino, a.gone.value.during)
  }

  /**
   * What becomes of a file taken off its path: removed as the one published
   * there, put back, or still at its private name `q`. There it is named to the
   * caller exactly when it was seen to be another file; it goes unnamed only
   * when the look at it failed, or when it is the published one.
   */
  ghost predicate Fate(a: Aside, paths: map<Path, Ino>, kept: seq<Path>, q: Path, published: Local) {
    || RemovedOwn(a, published)
    || a.returned
    || (&& q in paths && a.look.Some?
        && (q in kept <==> a.look.value.Saw? && a.look.value.local.Some? && !SameFile(a.look.value.local.value, published)))
  }

  /** The look failed: the file stays where it was taken, with what the editor wrote, and no caller is told. */
  ghost predicate Unnoticed(d: Disk, p: Path, kept: seq<Path>, entry: Entry, edits: seq<Edit>)
    reads d
  {
    && p in d.paths && p in d.history.aside && d.history.aside[p].look == Some(Unseen) && !d.history.aside[p].returned && kept == []
    && d.Now().EntryAt(p) == Some(Scribbled(entry, d.paths[p], edits))
  }

  /** The published file is removed with whatever these edits wrote to it. */
  ghost predicate GoesWith(a: Aside, published: Local, edits: seq<Edit>) {
    a.ino == published.ino && a.gone == Some(Gone(Scribbled(published.entry, published.ino, edits), edits))
  }

  /** What the published file's own removal did. */
  datatype Removal = Removed | Left | Threw

  /** Remove a file just seen to be the published one. */
  method RemoveSeen(d: Disk, p: Path, published: Local) returns (r: Removal)
    requires d.Valid() && p.Displaced? && p in d.history.aside && p in d.paths && d.paths[p] == published.ino
    requires d.inodes[d.paths[p]].entry == published.entry
    modifies d`paths, d`inodes, d`next, d`turns, d`history
    ensures d.Valid() && d.next >= old(d.next) && PrivateKept(d, Some(p))
    ensures p in d.history.aside && d.history.aside == old(d.history).aside[p := d.history.aside[p]] && d.history.seen == old(d.history).seen
    ensures d.history.aside[p] == old(d.history).aside[p].(gone := d.history.aside[p].gone)
    ensures Later(old(d.history).aside[p], d.history.aside[p])
    ensures r == (if TurnAt(old(d.turns), 0).fault then Threw else Removed)
    ensures if r.Threw? then p in d.paths else GoesWith(d.history.aside[p], published, TurnAt(old(d.turns), 0).edits)
    ensures old(d.Quiet()) ==>
      r == Removed && d.Quiet() && d.paths == old(d.paths) - {p} && ContentKept(old(d.Now()), d.Now(), {published.ino})
  {
    var fault := d.Await();
    if fault {
      return Threw;
    }
    assert d.inodes[d.paths[p]].entry == Scribbled(published.entry, published.ino, d.history.during);
    d.UnlinkPrivate(p);
    return Removed;
  }

  /** The look found another file: it goes back to its path, or the caller is told where it is. */
  ghost predicate FoundOther(h: History, p: Path, published: Local)
    requires p in h.aside
  {
    var look := h.aside[p].look;
    look.Some? && look.value.Saw? && look.value.local.Some? && !SameFile(look.value.local.value, published)
  }

  method PutOther(d: Disk, p: Path, it: Item) returns (kept: seq<Path>)
    requires d.Valid() && it.published.Some? && OffPath(d, p, it.change.rel) && FoundOther(d.history, p, it.published.value)
    modifies d`paths, d`inodes, d`next, d`turns, d`history
    ensures d.Valid() && d.next >= old(d.next) && PrivateKept(d, Some(p)) && d.history.seen == old(d.history).seen
    ensures p in d.history.aside && d.history.aside == old(d.history).aside[p := d.history.aside[p]]
    ensures Later(old(d.history).aside[p], d.history.aside[p])
    ensures (kept == [] || kept == [p]) && Fate(d.history.aside[p], d.paths, kept, p, it.published.value)
  {
    var ok := RestoreExclusive(d, p, it.change.rel);
    return if ok then [] else [p];
  }

  /** A file just looked at, under its private name: removed if it is exactly what was published, else put back. */
  method RemoveOrPutBack(d: Disk, p: Path, it: Item, now: Local) returns (r: Removal, kept: seq<Path>)
    requires d.Valid() && it.published.Some? && p.Displaced? && OffPath(d, p, it.change.rel)
    requires d.history.aside[p].look == Some(Saw(Some(now))) && d.Now().LocalAt(p) == Some(now)
    modifies d`paths, d`inodes, d`next, d`turns, d`history
    ensures d.Valid() && d.next >= old(d.next) && PrivateKept(d, Some(p)) && d.history.seen == old(d.history).seen
    ensures p in d.history.aside && d.history.aside == old(d.history).aside[p := d.history.aside[p]]
    ensures Later(old(d.history).aside[p], d.history.aside[p])
    ensures (kept == [] || kept == [p]) && Fate(d.history.aside[p], d.paths, kept, p, it.published.value)
    ensures r.Removed? ==> RemovedOwn(d.history.aside[p], it.published.value)
    ensures SameFile(now, it.published.value) && !TurnAt(old(d.turns), 0).fault ==>
      r == Removed && kept == [] && GoesWith(d.history.aside[p], it.published.value, TurnAt(old(d.turns), 0).edits)
    ensures SameFile(now, it.published.value) && old(d.Quiet()) ==>
      && r == Removed && kept == [] && d.Quiet() && d.paths == old(d.paths) - {p}
      && ContentKept(old(d.Now()), d.Now(), {it.published.value.ino})
  {
    if !SameFile(now, it.published.value) {
      kept := PutOther(d, p, it);
      return Left, kept;
    }
    r := RemoveSeen(d, p, it.published.value);
    kept := [];
  }

  /** What was taken off the path: looked at, then removed or put back. When the look fails it stays where it is. */
  method Dispose(d: Disk, p: Path, it: Item) returns (r: Removal, kept: seq<Path>)
    requires d.Valid() && it.published.Some? && p.Displaced? && OffPath(d, p, it.change.rel)
    modifies d`paths, d`inodes, d`next, d`turns, d`history
    ensures d.Valid() && d.next >= old(d.next) && PrivateKept(d, Some(p))
    ensures old(d.history).seen <= d.history.seen && p in d.history.aside
    ensures d.history.aside == old(d.history).aside[p := d.history.aside[p]] && Later(old(d.history).aside[p], d.history.aside[p])
    ensures (kept == [] || kept == [p]) && Fate(d.history.aside[p], d.paths, kept, p, it.published.value)
    ensures r.Removed? ==> RemovedOwn(d.history.aside[p], it.published.value)
    ensures TurnAt(old(d.turns), 0).fault && !old(d.history).aside[p].returned ==>
      && Unnoticed(d, p, kept, old(d.inodes[d.paths[p]].entry), TurnAt(old(d.turns), 0).edits)
      && (OnlyScribbles(TurnAt(old(d.turns), 0).edits) ==> d.paths == old(d.paths))
    ensures (&& TurnAt(old(d.turns), 0) == Turn([], false) && !TurnAt(old(d.turns), 1).fault
             && old(d.paths)[p] == it.published.value.ino && old(d.Now()).EntryAt(p) == Some(it.published.value.entry)) ==>
      r == Removed && kept == [] && GoesWith(d.history.aside[p], it.published.value, TurnAt(old(d.turns), 1).edits)
    ensures (&& old(d.Quiet()) && old(d.paths)[p] == it.published.value.ino
             && old(d.Now()).EntryAt(p) == Some(it.published.value.entry)) ==>
      && r == Removed && kept == [] && d.Quiet() && d.paths == old(d.paths) - {p}
      && ContentKept(old(d.Now()), d.Now(), {it.published.value.ino})
  {
    ghost var first := d.inodes[d.paths[p]].entry;
    var fault, now := d.See(p);
    assert d.inodes[d.paths[p]].entry == Scribbled(first, d.paths[p], d.history.during);
    if fault {
      return Threw, [];
    }
    r, kept := RemoveOrPutBack(d, p, it, now.value);
  }

  /** The look `what` was taken since `before`. */
  ghost predicate SeenSince(before: seq<(Path, Sight)>, after: seq<(Path, Sight)>, what: (Path, Sight)) {
    before <= after && what in after[|before|..]
  }

  lemma SeenSinceGrows(first: seq<(Path, Sight)>, before: seq<(Path, Sight)>, after: seq<(Path, Sight)>, what: (Path, Sight))
    requires first <= before <= after && (SeenSince(first, before, what) || SeenSince(before, after, what))
    ensures SeenSince(first, after, what)
  {
    assert after[|first|..] == after[|first|..|before|] + after[|before|..];
    assert before[|first|..] == after[|first|..|before|];
  }

  /** At most one more name, the one this file was taken aside as. */
  ghost predicate OneMore(h0: History, h1: History, n: nat, taken: Option<Path>, rel: Rel, displaced: bool) {
    match taken
    case None => h1.aside == h0.aside
    case Some(q) =>
      (if displaced then q.Displaced? else q.Backup?) && n <= q.uid && q in h1.aside && q !in h0.aside && h1.aside[q].rel == rel && h1.aside == h0.aside[q := h1.aside[q]]
  }

  /** Rename what stands at the path to a private name. */
  method TakeAside(d: Disk, rel: Rel, displaced: bool) returns (taken: Option<Path>)
    requires d.Valid()
    modifies d`paths, d`inodes, d`next, d`turns, d`history
    ensures d.Valid() && d.next >= old(d.next) && PrivateKept(d, None) && d.history.seen == old(d.history).seen
    ensures OneMore(old(d.history), d.history, old(d.next), taken, rel, displaced)
    ensures taken.Some? ==> d.history.aside[taken.value] == Aside(rel, d.history.aside[taken.value].ino, None, false, None)
    ensures taken.Some? ==> taken.value in d.paths && taken.value.uid < d.next && Target(rel) !in d.paths
    ensures d.turns == if old(d.turns) == [] then [] else old(d.turns)[1..]
    ensures Target(rel) in old(d.paths) && !TurnAt(old(d.turns), 0).fault && OnlyScribbles(TurnAt(old(d.turns), 0).edits) ==>
      && taken.Some? && d.paths == (old(d.paths) - {Target(rel)})[taken.value := old(d.paths)[Target(rel)]]
      && d.Now().EntryAt(taken.value) ==
         Some(Scribbled(old(d.inodes[d.paths[Target(rel)]].entry), old(d.paths[Target(rel)]), TurnAt(old(d.turns), 0).edits))
    ensures old(d.Quiet()) && Target(rel) in old(d.paths) ==>
      && taken.Some? && d.Quiet() && ContentKept(old(d.Now()), d.Now(), {old(d.paths)[Target(rel)]})
      && d.inodes[old(d.paths)[Target(rel)]].ctime >= old(d.next)
  {
    ghost var i, entry := 0, Entry(RegularFile, 0, []);
    if Target(rel) in d.paths { i, entry := d.paths[Target(rel)], d.inodes[d.paths[Target(rel)]].entry; }
    var fault := d.Await();
    if fault || Target(rel) !in d.paths { return None; }
    assert Target(rel) in old(d.paths) ==> d.inodes[i].entry == Scribbled(entry, i, d.history.during);
    var p := d.MoveAside(rel, displaced);
    return Some(p);
  }

  /** The editor only writes through descriptors before the rename, and the look after it fails. */
  predicate UnseenTurns(turns: seq<Turn>) {
    && OnlyScribbles(TurnAt(turns, 0).edits) && !TurnAt(turns, 0).fault
    && OnlyScribbles(TurnAt(turns, 1).edits) && TurnAt(turns, 1).fault
  }

  /** Nothing happens until the last look found the published file; then the removal goes through. */
  predicate LateTurns(turns: seq<Turn>) {
    TurnAt(turns, 0) == Turn([], false) && TurnAt(turns, 1) == Turn([], false) && !TurnAt(turns, 2).fault
  }

  /** Take a still-published file off its path; anything else found there is left, or put back. */
  method RemovePublished(d: Disk, it: Item) returns (r: Removal, kept: seq<Path>, ghost taken: Option<Path>)
    requires d.Valid() && it.published.Some?
    modifies d`paths, d`inodes, d`next, d`turns, d`history
    ensures d.Valid() && d.next >= old(d.next) && PrivateKept(d, None)
    ensures old(d.history).seen <= d.history.seen && OneMore(old(d.history), d.history, old(d.next), taken, it.change.rel, true)
    ensures taken.None? ==> r.Threw? && kept == []
    ensures taken.Some? ==>
      && (kept == [] || kept == [taken.value]) && Fate(d.history.aside[taken.value], d.paths, kept, taken.value, it.published.value)
      && (r.Removed? ==> RemovedOwn(d.history.aside[taken.value], it.published.value))
    ensures Target(it.change.rel) in old(d.paths) && UnseenTurns(old(d.turns)) ==>
      var i, entry, edits := old(d.paths[Target(it.change.rel)]), old(d.inodes[d.paths[Target(it.change.rel)]].entry), TurnAt(old(d.turns), 0).edits;
      && taken.Some? && Target(it.change.rel) !in d.paths && taken.value in d.paths && d.paths[taken.value] == i
      && Unnoticed(d, taken.value, kept, Scribbled(entry, i, edits), TurnAt(old(d.turns), 1).edits)
    ensures old(d.Now()).LocalAt(Target(it.change.rel)) == it.published && LateTurns(old(d.turns)) ==>
      r == Removed && kept == [] && taken.Some? && GoesWith(d.history.aside[taken.value], it.published.value, TurnAt(old(d.turns), 2).edits)
    ensures old(d.Quiet()) && old(d.Now()).LocalAt(Target(it.change.rel)) == it.published ==>
      && r == Removed && kept == [] && d.Quiet() && d.paths == old(d.paths) - {Target(it.change.rel)}
      && ContentKept(old(d.Now()), d.Now(), {it.published.value.ino})
  {
    taken := None;
    var q := TakeAside(d, it.change.rel, true);
    if q.None? { return Threw, [], None; }
    r, kept := Dispose(d, q.value, it);
    taken := q;
  }

  /** The backup, when it could not be put back. */
  function Retained(it: Item): seq<Path> {
    if it.backup.Some? then [it.backup.value] else []
  }

  /** The item's backup is where it was left, with the original it was made for. */
  ghost predicate Held(h: History, paths: map<Path, Ino>, it: Item) {
    it.backup.Some? ==>
      var p := it.backup.value;
      p in paths && paths[p] == it.moved && p in h.aside && h.aside[p].rel == it.change.rel
  }

  /** A displaced original is back, or is in its backup and the caller is told which. */
  ghost predicate Accounted(h: History, paths: map<Path, Ino>, it: Item, retained: seq<Path>) {
    it.backup.Some? ==>
      && it.backup.value in h.aside
      && (h.aside[it.backup.value].returned
          || (it.backup.value in retained && it.backup.value in paths && paths[it.backup.value] == it.moved))
  }

  /** What rollback took off the item's path was seen there as published, and has one of these fates. */
  ghost predicate TakenBack(seen: seq<(Path, Sight)>, h: History, paths: map<Path, Ino>, retained: seq<Path>, it: Item, q: Path) {
    && it.published.Some? && q.Displaced? && q in h.aside && h.aside[q].rel == it.change.rel
    && SeenSince(seen, h.seen, (Target(it.change.rel), Saw(it.published)))
    && Fate(h.aside[q], paths, retained, q, it.published.value)
  }

  /** The original is back at its path, and its backup gone. */
  ghost predicate Undone(t: Tree, it: Item) {
    t.EntryAt(Target(it.change.rel)) == OriginalEntry(it.change) && (it.backup.Some? ==> it.backup.value !in t.paths)
  }

  /** The item's path was seen free since, or its published file was taken off it and removed. */
  ghost predicate Cleared(seen: seq<(Path, Sight)>, h: History, it: Item, taken: Option<Path>) {
    || SeenSince(seen, h.seen, (Target(it.change.rel), Saw(None)))
    || (it.published.Some? && taken.Some? && taken.value in h.aside && RemovedOwn(h.aside[taken.value], it.published.value))
  }

  /** The original is put back only at a path that was cleared: anything else found there keeps it. */
  ghost predicate BackWhenClear(h0: History, h1: History, it: Item, taken: Option<Path>) {
    it.backup.Some? && it.backup.value in h0.aside && it.backup.value in h1.aside && h1.aside[it.backup.value].returned ==>
      h0.aside[it.backup.value].returned || Cleared(h0.seen, h1, it, taken)
  }

  /** Look at the item's path, and take the published file off it. */
  method ClearPath(d: Disk, it: Item) returns (clear: bool, kept: seq<Path>, ghost taken: Option<Path>)
    requires d.Valid()
    modifies d`paths, d`inodes, d`next, d`turns, d`history
    ensures d.Valid() && d.next >= old(d.next) && PrivateKept(d, None)
    ensures old(d.history).seen <= d.history.seen && OneMore(old(d.history), d.history, old(d.next), taken, it.change.rel, true)
    ensures taken.None? ==> kept == []
    ensures taken.Some? ==>
      (kept == [] || kept == [taken.value]) && TakenBack(old(d.history).seen, d.history, d.paths, kept, it, taken.value)
    ensures clear ==> kept == [] && Cleared(old(d.history).seen, d.history, it, taken)
    ensures old(d.Quiet() && d.Now().LocalAt(Target(it.change.rel)) == it.published) ==>
      && clear && d.Quiet() && d.paths == old(d.paths) - {Target(it.change.rel)}
      && ContentKept(old(d.Now()), d.Now(), if it.published.Some? then {it.published.value.ino} else {})
  {
    var rel := it.change.rel;
    var fault, now := d.See(Target(rel));
    ghost var first := old(d.history).seen;
    assert d.history.seen == first + [(Target(rel), if fault then Unseen else Saw(now))];
    if fault { return false, [], None; }
    if it.published.Some? && now == it.published {
      ghost var looked := d.history.seen;
      assert SeenSince(first, looked, (Target(rel), Saw(it.published)));
      var removal;
      removal, kept, taken := RemovePublished(d, it);
      SeenSinceGrows(first, looked, d.history.seen, (Target(rel), Saw(it.published)));
      return removal.Removed? && kept == [], kept, taken;
    }
    return now.None?, [], None;
  }

  /** A fate is not changed by what happens to another name. */
  lemma TakenBackStays(
      seen: seq<(Path, Sight)>, h0: History, paths0: map<Path, Ino>, kept0: seq<Path>,
      h1: History, paths1: map<Path, Ino>, kept1: seq<Path>, it: Item, q: Path)
    requires TakenBack(seen, h0, paths0, kept0, it, q) && h0.seen <= h1.seen
    requires q in h1.aside && h1.aside[q] == h0.aside[q] && (q in paths1 <==> q in paths0) && (q in kept1 <==> q in kept0)
    ensures TakenBack(seen, h1, paths1, kept1, it, q)
  {
    SeenSinceGrows(seen, h0.seen, h1.seen, (Target(it.change.rel), Saw(it.published)));
  }

  /** Put the original back where its path is clear. */
  method RestoreBackup(d: Disk, it: Item) returns (retained: seq<Path>)
    requires d.Valid() && (it.backup.Some? ==> it.backup.value.Backup? && it.backup.value.uid < d.next) && Held(d.history, d.paths, it)
    modifies d`paths, d`inodes, d`next, d`turns, d`history
    ensures d.Valid() && d.next >= old(d.next) && PrivateKept(d, it.backup)
    ensures HistoryKept(old(d.history), d.history, old(d.next), it.backup) && d.history.aside.Keys == old(d.history).aside.Keys
    ensures Accounted(d.history, d.paths, it, retained) && (retained == [] || retained == Retained(it))
    ensures old(d.Quiet() && Target(it.change.rel) !in d.paths && Original(d.Now(), it)) ==>
      retained == [] && d.Quiet() && Undone(d.Now(), it) && OnlyBackupBack(old(d.Now()), d.Now(), it)
  {
    if it.backup.None? { return []; }
    var ok := RestoreExclusive(d, it.backup.value, it.change.rel);
    return if ok then [] else Retained(it);
  }

  /** The backup holds the original, and there is one exactly when there was an original. */
  ghost predicate Original(t: Tree, it: Item) {
    (it.backup.Some? <==> it.change.original.Some?)
    && (it.backup.Some? ==> it.backup.value in t.paths && t.paths[it.backup.value] == it.moved && t.EntryAt(it.backup.value) == OriginalEntry(it.change))
  }

  ghost predicate OnlyBackupBack(before: Tree, after: Tree, it: Item) {
    && (forall q: Path :: q == Target(it.change.rel) || Some(q) == it.backup || SamePath(before, after, q))
    && ContentKept(before, after, if it.backup.Some? then {it.moved} else {})
  }

  lemma ClearedThenRestored(t0: Tree, t1: Tree, t2: Tree, it: Item)
    requires t1.paths == t0.paths - {Target(it.change.rel)} && OnlyBackupBack(t1, t2, it)
    requires ContentKept(t0, t1, if it.published.Some? then {it.published.value.ino} else {})
    ensures OthersKept(t0, t2, it)
  {
    forall q: Path ensures q == Target(it.change.rel) || Some(q) == it.backup || SamePath(t0, t2, q) {
      assert q == Target(it.change.rel) || Some(q) == it.backup || SamePath(t1, t2, q);
    }
  }

  /** What one item's rollback did to the names and the history. */
  ghost predicate OneStep(
      h1: History, paths1: map<Path, Ino>, h2: History, paths2: map<Path, Ino>, kept: seq<Path>, it: Item, n: nat, taken: Option<Path>)
  {
    && HistoryKept(h1, h2, n, it.backup) && NamesKept(paths1, paths2, n, it.backup)
    && (it.backup.Some? ==> it.backup.value.Backup?)
    && (forall q <- h2.aside.Keys :: q in h1.aside || Some(q) == taken)
    && Accounted(h2, paths2, it, kept) && (forall k <- kept :: Some(k) == it.backup || Some(k) == taken)
    && (taken.Some? ==> taken.value !in h1.aside && TakenBack(h1.seen, h2, paths2, kept, it, taken.value))
  }

  /** One item of the rollback. A later edit found at its path stays there, and the original in its backup. */
  method RollbackItem(d: Disk, it: Item) returns (retained: seq<Path>, ghost taken: Option<Path>)
    requires d.Valid() && (it.backup.Some? ==> it.backup.value.Backup? && it.backup.value.uid < d.next) && Held(d.history, d.paths, it)
    modifies d`paths, d`inodes, d`next, d`turns, d`history
    ensures d.Valid() && d.next >= old(d.next)
    ensures OneStep(old(d.history), old(d.paths), d.history, d.paths, retained, it, old(d.next), taken)
    ensures BackWhenClear(old(d.history), d.history, it, taken)
    ensures old(d.Quiet() && Standing(d.Now(), it)) ==>
      retained == [] && d.Quiet() && Undone(d.Now(), it) && OthersKept(old(d.Now()), d.Now(), it)
  {
    var clear, kept;
    clear, kept, taken := ClearPath(d, it);
    ghost var h1, t1, n1 := d.history, d.Now(), d.next;
    if !clear {
      retained := kept + Retained(it);
    } else {
      retained := RestoreBackup(d, it);
      StaysCleared(old(d.history).seen, h1, d.history, it, taken, n1);
      if old(d.Quiet() && Standing(d.Now(), it)) { ClearedThenRestored(old(d.Now()), t1, d.Now(), it); }
    }
    TwoSteps(old(d.history), old(d.paths), h1, t1.paths, kept, d.history, d.paths, retained, it, old(d.next), n1, taken);
  }

  lemma StaysCleared(seen: seq<(Path, Sight)>, h1: History, h2: History, it: Item, taken: Option<Path>, n: nat)
    requires Cleared(seen, h1, it, taken) && HistoryKept(h1, h2, n, it.backup) && seen <= h1.seen
    requires (it.backup.Some? ==> it.backup.value.Backup?) && (taken.Some? ==> taken.value.Displaced?)
    ensures Cleared(seen, h2, it, taken)
  {
    if SeenSince(seen, h1.seen, (Target(it.change.rel), Saw(None))) {
      SeenSinceGrows(seen, h1.seen, h2.seen, (Target(it.change.rel), Saw(None)));
    }
  }

  /** The path cleared, and the original put back or kept: one step of the rollback. */
  lemma TwoSteps(
      h0: History, paths0: map<Path, Ino>, h1: History, paths1: map<Path, Ino>, kept: seq<Path>,
      h2: History, paths2: map<Path, Ino>, retained: seq<Path>, it: Item, n: nat, n1: nat, taken: Option<Path>)
    requires (it.backup.Some? ==> it.backup.value.Backup? && it.backup.value.uid < n) && Held(h0, paths0, it) && n <= n1
    requires h0.seen <= h1.seen && OneMore(h0, h1, n, taken, it.change.rel, true) && NamesKept(paths0, paths1, n, None)
    requires if taken.None? then kept == [] else (kept == [] || kept == [taken.value]) && TakenBack(h0.seen, h1, paths1, kept, it, taken.value)
    requires taken.Some? ==> taken.value.uid < n1
    requires HistoryKept(h1, h2, n1, it.backup) && h2.aside.Keys == h1.aside.Keys && NamesKept(paths1, paths2, n1, it.backup)
    requires Accounted(h2, paths2, it, retained)
    requires retained == kept + Retained(it) || (kept == [] && (retained == [] || retained == Retained(it)))
    ensures OneStep(h0, paths0, h2, paths2, retained, it, n, taken)
  {
    if taken.Some? {
      TakenBackStays(h0.seen, h1, paths1, kept, h2, paths2, retained, it, taken.value);
    }
  }

  /* ---- the items, newest first ---- */

  /** Different paths, backups and inodes. */
  ghost predicate Apart(written: seq<Item>) {
    forall i, j | 0 <= i < j < |written| ::
      && written[i].change.rel != written[j].change.rel
      && (written[i].backup.Some? ==> written[i].backup != written[j].backup)
      && Touched(written[i]) !! Touched(written[j])
  }

  ghost predicate AllStanding(t: Tree, written: seq<Item>) {
    forall it <- written :: Standing(t, it)
  }

  /** Some item accounts for what happened at `q`. */
  predicate ItemsPath(written: seq<Item>, q: Path) {
    exists it <- written :: q == Target(it.change.rel) || Some(q) == it.backup
  }

  /** Nothing but the items' own paths and backups differs from before, and no file's content. */
  ghost predicate OnlyItems(before: Tree, after: Tree, written: seq<Item>) {
    && (forall q: Path :: ItemsPath(written, q) || SamePath(before, after, q))
    && (forall i <- before.inodes.Keys :: i in after.inodes && after.inodes[i].entry == before.inodes[i].entry)
  }

  lemma StandingStays(before: Tree, after: Tree, it: Item, other: Item)
    requires OthersKept(before, after, it) && Standing(before, other)
    requires it.change.rel != other.change.rel && Touched(it) !! Touched(other)
    requires it.backup.Some? ==> it.backup.value.Backup? && it.backup != other.backup
    requires forall p <- before.paths.Keys :: before.paths[p] in before.inodes
    ensures Standing(after, other)
  {
    assert SamePath(before, after, Target(other.change.rel));
    if other.backup.Some? {
      assert SamePath(before, after, other.backup.value);
    }
  }

  lemma UndoneStays(before: Tree, after: Tree, it: Item, other: Item)
    requires OthersKept(before, after, it) && Undone(before, other)
    requires it.change.rel != other.change.rel && (it.backup.Some? ==> it.backup.value.Backup? && it.backup != other.backup)
    requires (other.backup.Some? ==> other.backup.value.Backup?) && forall p <- before.paths.Keys :: before.paths[p] in before.inodes
    ensures Undone(after, other)
  {
    assert SamePath(before, after, Target(other.change.rel));
    if other.backup.Some? {
      assert SamePath(before, after, other.backup.value);
    }
  }

  lemma OnlyItemsStays(start: Tree, before: Tree, after: Tree, written: seq<Item>, it: Item)
    requires OnlyItems(start, before, written) && OthersKept(before, after, it) && it in written
    ensures OnlyItems(start, after, written)
  {
    forall q: Path ensures ItemsPath(written, q) || SamePath(start, after, q) {
      assert ItemsPath(written, q) || SamePath(start, before, q);
    }
  }

  /** The quiet rollback so far: items from `i` on are undone, earlier ones still stand. */
  ghost predicate UndoneFrom(start: Tree, t: Tree, written: seq<Item>, i: nat)
    requires i <= |written|
  {
    && OnlyItems(start, t, written)
    && (forall j | 0 <= j < i :: Standing(t, written[j])) && (forall j | i <= j < |written| :: Undone(t, written[j]))
  }

  lemma OneUndone(start: Tree, before: Tree, after: Tree, written: seq<Item>, i: nat)
    requires i < |written| && Apart(written) && UndoneFrom(start, before, written, i + 1)
    requires OthersKept(before, after, written[i]) && Undone(after, written[i])
    requires forall p <- before.paths.Keys :: before.paths[p] in before.inodes
    requires forall it <- written :: it.backup.Some? ==> it.backup.value.Backup?
    ensures UndoneFrom(start, after, written, i)
  {
    forall j | 0 <= j < i ensures Standing(after, written[j]) {
      assert written[j].change.rel != written[i].change.rel;
      StandingStays(before, after, written[i], written[j]);
    }
    forall j | i < j < |written| ensures Undone(after, written[j]) {
      assert written[i].change.rel != written[j].change.rel && written[j] in written;
      UndoneStays(before, after, written[i], written[j]);
    }
    assert written[i] in written;
    OnlyItemsStays(start, before, after, written, written[i]);
  }

  /** These items are where they were left. */
  ghost predicate AllHeld(h: History, paths: map<Path, Ino>, written: seq<Item>) {
    forall it <- written :: Held(h, paths, it)
  }

  /** Some item explains what rollback took off its path as `q`. */
  ghost predicate Explained(
      seen: seq<(Path, Sight)>, h: History, paths: map<Path, Ino>, retained: seq<Path>, written: seq<Item>, q: Path)
  {
    exists it <- written :: TakenBack(seen, h, paths, retained, it, q)
  }

  ghost predicate AllAccounted(h: History, paths: map<Path, Ino>, retained: seq<Path>, written: seq<Item>, i: nat)
    requires i <= |written|
  {
    forall j | i <= j < |written| :: Accounted(h, paths, written[j], retained)
  }

  ghost predicate AllExplained(h0: History, h: History, paths: map<Path, Ino>, retained: seq<Path>, written: seq<Item>) {
    forall q <- h.aside.Keys :: q in h0.aside || Explained(h0.seen, h, paths, retained, written, q)
  }

  /** Some item's backup is this name. */
  ghost predicate BackupOf(written: seq<Item>, q: Path) {
    exists it <- written :: it.backup == Some(q)
  }

  /** Only the items' backups, and what rollback took aside, is named to the caller. */
  ghost predicate NamesKnown(h0: History, h: History, retained: seq<Path>, written: seq<Item>) {
    forall k <- retained :: k in h.aside && (k !in h0.aside || BackupOf(written, k))
  }

  /** Whatever was on record stays on record. */
  ghost predicate Remembered(h0: History, h: History) {
    h0.seen <= h.seen && forall q <- h0.aside.Keys :: q in h.aside && Later(h0.aside[q], h.aside[q])
  }

  /** The rollback so far: the items from `i` on are accounted for, and so is everything it took off a path. */
  ghost predicate Accounting(
      h0: History, h: History, paths: map<Path, Ino>, retained: seq<Path>, written: seq<Item>, i: nat)
    requires i <= |written|
  {
    && Remembered(h0, h)
    && AllAccounted(h, paths, retained, written, i)
    && AllExplained(h0, h, paths, retained, written)
    && NamesKnown(h0, h, retained, written)
  }

  lemma AccountedGoesOn(
      h1: History, paths1: map<Path, Ino>, retained: seq<Path>, h2: History, paths2: map<Path, Ino>, kept: seq<Path>,
      written: seq<Item>, i: nat, n: nat, taken: Option<Path>)
    requires i < |written| && ItemsOk(written, n) && AllAccounted(h1, paths1, retained, written, i + 1)
    requires OneStep(h1, paths1, h2, paths2, kept, written[i], n, taken)
    ensures AllAccounted(h2, paths2, retained + kept, written, i)
  {
    forall j | i <= j < |written| ensures Accounted(h2, paths2, written[j], retained + kept) {
      if j > i { AccountedStays(h1, paths1, retained, h2, paths2, kept, written, i, j, n); }
    }
  }

  lemma ExplainedGoesOn(
      h0: History, h1: History, paths1: map<Path, Ino>, retained: seq<Path>, h2: History, paths2: map<Path, Ino>, kept: seq<Path>,
      written: seq<Item>, it: Item, n: nat, taken: Option<Path>)
    requires it in written && h0.seen <= h1.seen && h0.aside.Keys <= h1.aside.Keys
    requires AllExplained(h0, h1, paths1, retained, written) && NamesKnown(h0, h1, retained, written)
    requires OneStep(h1, paths1, h2, paths2, kept, it, n, taken) && forall q <- h1.aside.Keys :: !q.Target? && q.uid < n
    ensures AllExplained(h0, h2, paths2, retained + kept, written)
  {
    forall q | q in h2.aside && q !in h0.aside ensures Explained(h0.seen, h2, paths2, retained + kept, written, q) {
      if q in h1.aside {
        ExplainedStays(h0.seen, h1, paths1, retained, h2, paths2, kept, written, q, n, it.backup, taken);
      } else {
        NewlyTaken(h0.seen, h1.seen, h2, paths2, retained, kept, it, q);
      }
    }
  }

  lemma NamesStayKnown(
      h0: History, h1: History, retained: seq<Path>, h2: History, paths1: map<Path, Ino>, paths2: map<Path, Ino>, kept: seq<Path>,
      written: seq<Item>, it: Item, n: nat, taken: Option<Path>)
    requires NamesKnown(h0, h1, retained, written) && OneStep(h1, paths1, h2, paths2, kept, it, n, taken) && Remembered(h0, h1) && it in written
    ensures NamesKnown(h0, h2, retained + kept, written) && Remembered(h0, h2)
  {
  }

  /** One more item rolled back: what was accounted for stays so. */
  lemma AccountingGoesOn(
      h0: History, h1: History, paths1: map<Path, Ino>, retained: seq<Path>, h2: History, paths2: map<Path, Ino>, kept: seq<Path>,
      written: seq<Item>, i: nat, n: nat, taken: Option<Path>)
    requires i < |written| && ItemsOk(written, n) && Accounting(h0, h1, paths1, retained, written, i + 1)
    requires OneStep(h1, paths1, h2, paths2, kept, written[i], n, taken) && forall q <- h1.aside.Keys :: !q.Target? && q.uid < n
    ensures Accounting(h0, h2, paths2, retained + kept, written, i)
  {
    assert written[i] in written;
    AccountedGoesOn(h1, paths1, retained, h2, paths2, kept, written, i, n, taken);
    ExplainedGoesOn(h0, h1, paths1, retained, h2, paths2, kept, written, written[i], n, taken);
    NamesStayKnown(h0, h1, retained, h2, paths1, paths2, kept, written, written[i], n, taken);
  }

  lemma ExplainedStays(
      first: seq<(Path, Sight)>, h1: History, paths1: map<Path, Ino>, retained: seq<Path>,
      h2: History, paths2: map<Path, Ino>, kept: seq<Path>, written: seq<Item>, q: Path, n: nat, backup: Option<Path>, taken: Option<Path>)
    requires Explained(first, h1, paths1, retained, written, q) && HistoryKept(h1, h2, n, backup) && NamesKept(paths1, paths2, n, backup)
    requires q in h1.aside && !q.Target? && q.uid < n && (backup.Some? ==> backup.value.Backup?) && (taken.Some? ==> taken.value !in h1.aside)
    requires forall k <- kept :: Some(k) == backup || Some(k) == taken
    ensures Explained(first, h2, paths2, retained + kept, written, q)
  {
    var it :| it in written && TakenBack(first, h1, paths1, retained, it, q);
    TakenBackStays(first, h1, paths1, retained, h2, paths2, retained + kept, it, q);
  }

  lemma AccountedStays(
      h1: History, paths1: map<Path, Ino>, retained: seq<Path>, h2: History, paths2: map<Path, Ino>, kept: seq<Path>,
      written: seq<Item>, i: nat, j: nat, n: nat)
    requires i < j < |written| && ItemsOk(written, n) && Accounted(h1, paths1, written[j], retained)
    requires HistoryKept(h1, h2, n, written[i].backup)
    requires NamesKept(paths1, paths2, n, written[i].backup)
    ensures Accounted(h2, paths2, written[j], retained + kept)
  {
    assert written[j] in written;
  }

  lemma NewlyTaken(
      first: seq<(Path, Sight)>, seen: seq<(Path, Sight)>, h: History, paths: map<Path, Ino>, retained: seq<Path>, kept: seq<Path>,
      it: Item, q: Path)
    requires first <= seen && TakenBack(seen, h, paths, kept, it, q) && q !in retained
    ensures TakenBack(first, h, paths, retained + kept, it, q)
  {
    SeenSinceGrows(first, seen, h.seen, (Target(it.change.rel), Saw(it.published)));
  }

  lemma EarlierHeld(h1: History, paths1: map<Path, Ino>, h2: History, paths2: map<Path, Ino>, written: seq<Item>, i: nat, n: nat)
    requires i < |written| && ItemsOk(written, n) && AllHeld(h1, paths1, written[..i + 1])
    requires HistoryKept(h1, h2, n, written[i].backup)
    requires NamesKept(paths1, paths2, n, written[i].backup)
    ensures AllHeld(h2, paths2, written[..i])
  {
    forall it | it in written[..i] ensures Held(h2, paths2, it) {
      var j :| 0 <= j < i && written[j] == it;
      assert it in written && it in written[..i + 1];
    }
  }

  lemma OthersStayOn(p0: map<Path, Ino>, p1: map<Path, Ino>, p2: map<Path, Ino>, n0: nat, n: nat, backup: Option<Path>)
    requires OthersStay(p0, p1, n0) && NamesKept(p1, p2, n, backup) && n0 <= n && (backup.Some? ==> backup.value.Backup?)
    ensures OthersStay(p0, p2, n0)
  {
  }

  /** Private names older than `n` that are not backups stay where they are. */
  ghost predicate OthersStay(before: map<Path, Ino>, after: map<Path, Ino>, n: nat) {
    forall p: Path :: (p.Staged? || p.Displaced?) && p.uid < n ==> (p in after <==> p in before) && (p in after ==> after[p] == before[p])
  }

  /**
   * Rollback runs over the items newest first. Whatever the editor does, every
   * original is back or named to the caller, and whatever was taken off a path
   * was seen there as published and has a known fate. Without interference it
   * restores every item, and keeps nothing aside.
   */
  method Rollback(d: Disk, written: seq<Item>) returns (retained: seq<Path>)
    requires d.Valid() && ItemsOk(written, d.next) && AllHeld(d.history, d.paths, written)
    modifies d`paths, d`inodes, d`next, d`turns, d`history
    ensures d.Valid() && d.next >= old(d.next) && OthersStay(old(d.paths), d.paths, old(d.next))
    ensures Accounting(old(d.history), d.history, d.paths, retained, written, 0)
    ensures old(d.Quiet() && AllStanding(d.Now(), written)) && Apart(written) ==>
      retained == [] && d.Quiet() && (forall it <- written :: Undone(d.Now(), it)) && OnlyItems(old(d.Now()), d.Now(), written)
  {
    ghost var start, h0, quiet := d.Now(), d.history, d.Quiet() && AllStanding(d.Now(), written) && Apart(written);
    retained := [];
    var i := |written|;
    assert written[..i] == written;
    while i > 0
      invariant 0 <= i <= |written| && d.Valid() && d.next >= old(d.next)
      invariant AllHeld(d.history, d.paths, written[..i]) && OthersStay(old(d.paths), d.paths, old(d.next))
      invariant Accounting(h0, d.history, d.paths, retained, written, i)
      invariant quiet ==> d.Quiet() && retained == [] && UndoneFrom(start, d.Now(), written, i)
    {
      i := i - 1;
      var it := written[i];
      assert it in written && it in written[..i + 1];
      ghost var before, h1, n := d.Now(), d.history, d.next;
      var kept;
      ghost var taken;
      kept, taken := RollbackItem(d, it);
      AccountingGoesOn(h0, h1, before.paths, retained, d.history, d.paths, kept, written, i, n, taken);
      EarlierHeld(h1, before.paths, d.history, d.paths, written, i, n);
      OthersStayOn(old(d.paths), before.paths, d.paths, old(d.next), n, it.backup);
      retained := retained + kept;
      if quiet { OneUndone(start, before, d.Now(), written, i); }
    }
  }
}
