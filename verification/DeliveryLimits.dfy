/** Where a delivery does less than it means to: the inputs that show it, and exactly when it happens. */
module DeliveryLimits {
  import opened Wrappers
  import opened DeliveryMerge
  import opened DeliveryDisk
  import opened DeliveryRollback
  import opened DeliveryRuns
  import opened DeliveryPlan

  const PUBLISHED := Entry(RegularFile, 0, [5])
  const EDITED := Entry(RegularFile, 0, [7])

  /** A path whose file was published as inode 1, and had no original. */
  function PublishedItem(): Item {
    Item(Change(0, None, Some(PUBLISHED)), None, 0, Some(Local(1, 0, PUBLISHED)))
  }

  method PublishedDisk(turns: seq<Turn>) returns (d: Disk)
    ensures fresh(d) && d.Valid() && d.turns == turns && d.Now() == Tree(map[Target(0) := 1], map[1 := Inode(PUBLISHED, 0)])
  {
    d := new Disk(Tree(map[Target(0) := 1], map[1 := Inode(PUBLISHED, 0)]), 2, turns);
  }

  /* ---- an edit that goes with the published file ---- */

  /** An edit through an open descriptor, after the last look and before the removal, goes with the published file. */
  method EditGoesWithPublished() returns (r: Removal, kept: seq<Path>, ghost a: Aside)
    ensures r == Removed && kept == [] && RemovedOwn(a, PublishedItem().published.value) && a.gone.value.entry == EDITED
  {
    var turns := [Turn([], false), Turn([], false), Turn([Scribble(1, [7])], false)];
    var d := PublishedDisk(turns);
    ghost var taken;
    r, kept, taken := RemovePublished(d, PublishedItem());
    a := d.history.aside[taken.value];
    ScribbledByTheLast(PUBLISHED, 1, turns[2].edits);
  }

  /** The last bytes a descriptor wrote to the file just before it was removed are not those published. */
  predicate LateEdit(a: Aside, published: Local) {
    && a.gone.Some? && published.entry.kind.RegularFile?
    && LastScribble(published.ino, a.gone.value.during).Some?
    && LastScribble(published.ino, a.gone.value.during).value != published.entry.bytes
  }

  /**
   * Over any stopped delivery: a file removed without being put back is one the
   * delivery published, and held something else than was published exactly when
   * a descriptor wrote to it between the last look and the removal.
   */
  lemma EditLostIff(h0: History, h: History, paths: map<Path, Ino>, retained: seq<Path>, changes: seq<Change>, q: Path) returns (c: Change, l: Local)
    requires NothingLost(h0, h, paths, retained, changes) && q in h.aside && q !in h0.aside
    requires q !in paths && h.aside[q].gone.Some? && !h.aside[q].returned
    ensures c in changes && OutputTaken(h0.seen, h, paths, retained, c, l, q) && h.aside[q].ino == l.ino
    ensures h.aside[q].gone.value.entry != l.entry <==> LateEdit(h.aside[q], l)
  {
    c, l :| c in changes && OutputTaken(h0.seen, h, paths, retained, c, l, q);
    ScribbledByTheLast(l.entry, l.ino, h.aside[q].gone.value.during);
  }

  /* ---- a file left under a name no caller is told ---- */

  /** An edited file is renamed off its path, the look at it fails, and it stays where no caller is told of it. */
  method UnseenFileIsUnnamed() returns (kept: seq<Path>, ghost q: Path, ghost t: Tree)
    ensures kept == [] && Target(0) !in t.paths && q.Displaced? && t.EntryAt(q) == Some(EDITED)
  {
    var turns := [Turn([Scribble(1, [7])], false), Turn([], true)];
    var d := PublishedDisk(turns);
    var r;
    ghost var taken;
    r, kept, taken := RemovePublished(d, PublishedItem());
    q, t := taken.value, d.Now();
    ScribbledByTheLast(PUBLISHED, 1, turns[0].edits);
    ScribbledByTheLast(EDITED, 1, turns[1].edits);
  }

  /** The look at what rollback took off a path failed, or found the file as this delivery published it. */
  ghost predicate Unremarked(h0: History, h: History, paths: map<Path, Ino>, retained: seq<Path>, changes: seq<Change>, q: Path)
    requires q in h.aside
  {
    && q.Displaced? && h.aside[q].look.Some?
    && (h.aside[q].look.value.Unseen?
        || exists c, l :: c in changes && OutputTaken(h0.seen, h, paths, retained, c, l, q) && !FoundOther(h, q, l))
  }

  /** Over any stopped delivery: a file left at a private name goes unnamed exactly when the look at it failed, or found it as published. */
  lemma UnnamedIff(h0: History, h: History, paths: map<Path, Ino>, retained: seq<Path>, changes: seq<Change>, q: Path)
    requires NothingLost(h0, h, paths, retained, changes) && q in h.aside && q !in h0.aside
    requires q in paths && h.aside[q].gone.None? && !h.aside[q].returned
    ensures q !in retained <==> Unremarked(h0, h, paths, retained, changes, q)
  {
    if !OriginalKept(h0.seen, h, paths, retained, changes, q) {
      var c, l :| c in changes && OutputTaken(h0.seen, h, paths, retained, c, l, q);
      assert Fate(h.aside[q], paths, retained, q, l);
    }
  }

  /* ---- two paths of one file ---- */

  /** Undisturbed and unaborted, a delivery to two hard links of one file stops. */
  method HardLinkedDeliveryStops() returns (r: Report)
    ensures r == Ended(Stopped([]))
  {
    var d := new Disk(Tree(map[Target(0) := 0, Target(1) := 0], map[0 := Inode(PUBLISHED, 0)]), 1, []);
    var candidates := [Candidate(0, Some(PUBLISHED), Some(EDITED)), Candidate(1, Some(PUBLISHED), Some(EDITED))];
    ghost var changes, start := [], d.Now();
    r, changes := Deliver(d, candidates, (c, b, r) => None, []);
    assert Differs(start, candidates[0], (c, b, r) => None) && Differs(start, candidates[1], (c, b, r) => None);
    assert OneFile(start, candidates[0], candidates[1]);
  }
}
