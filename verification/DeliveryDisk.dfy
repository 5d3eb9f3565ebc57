/**
 * The source tree while a delivery is applied: paths over inodes, single
 * file-system calls, and another editor that may act before each of them.
 */
module DeliveryDisk {
  import opened Wrappers
  import opened DeliveryMerge

  type Rel = nat
  type Ino = nat

  /** A project file, or a private name no editor knows. */
  datatype Path = Target(rel: Rel) | Staged(uid: nat) | Backup(uid: nat) | Displaced(uid: nat)

  datatype Inode = Inode(entry: Entry, ctime: nat)

  /** What one look at a path sees: its fingerprint is all three. */
  datatype Local = Local(ino: Ino, ctime: nat, entry: Entry)

  /** What another editor does: to project paths, or through a descriptor it holds open. */
  datatype Edit =
    | Save(rel: Rel, entry: Entry)
    | Delete(rel: Rel)
    | Move(from: Rel, to: Rel)
    | Scribble(ino: Ino, bytes: seq<nat>)

  /** What happens before one call: edits, then perhaps the call's failure. */
  datatype Turn = Turn(edits: seq<Edit>, fault: bool)

  /** The turn before the `k`-th call from now: once they run out, nothing happens. */
  function TurnAt(turns: seq<Turn>, k: nat): Turn {
    if k < |turns| then turns[k] else Turn([], false)
  }

  /** The editor only writes through descriptors it holds. */
  predicate OnlyScribbles(edits: seq<Edit>) {
    forall e <- edits :: e.Scribble?
  }

  /** The tree at one instant: which inode each path is on, and what each inode holds. */
  datatype Tree = Tree(paths: map<Path, Ino>, inodes: map<Ino, Inode>) {
    function LocalAt(p: Path): Option<Local> {
      if p in paths && paths[p] in inodes then Some(Local(paths[p], inodes[paths[p]].ctime, inodes[paths[p]].entry)) else None
    }

    function EntryAt(p: Path): Option<Entry> {
      if p in paths && paths[p] in inodes then Some(inodes[paths[p]].entry) else None
    }
  }

  /** What file `i` holds after one edit: only a scribble reaches a file whatever its path. */
  function Edited(entry: Entry, i: Ino, e: Edit): Entry {
    if e.Scribble? && e.ino == i && entry.kind.RegularFile? then entry.(bytes := e.bytes) else entry
  }

  function Scribbled(entry: Entry, i: Ino, edits: seq<Edit>): Entry {
    if edits == [] then entry else Edited(Scribbled(entry, i, edits[..|edits| - 1]), i, edits[|edits| - 1])
  }

  /** The bytes the last scribble on file `i` leaves, if there is one. */
  function LastScribble(i: Ino, edits: seq<Edit>): Option<seq<nat>> {
    if edits == [] then None
    else
      var e := edits[|edits| - 1];
      if e.Scribble? && e.ino == i then Some(e.bytes) else LastScribble(i, edits[..|edits| - 1])
  }

  lemma {:induction false} ScribbledByTheLast(entry: Entry, i: Ino, edits: seq<Edit>)
    ensures Scribbled(entry, i, edits) ==
      if entry.kind.RegularFile? && LastScribble(i, edits).Some? then entry.(bytes := LastScribble(i, edits).value) else entry
  {
    if edits != [] {
      ScribbledByTheLast(entry, i, edits[..|edits| - 1]);
    }
  }

  /** Every file holds what these edits made of it. */
  ghost predicate Wrote(before: map<Ino, Inode>, after: map<Ino, Inode>, edits: seq<Edit>) {
    forall i {:trigger Scribbled(before[i].entry, i, edits)} | i in before ::
      i in after && after[i].entry == Scribbled(before[i].entry, i, edits)
  }

  lemma WroteOneMore(start: map<Ino, Inode>, before: map<Ino, Inode>, after: map<Ino, Inode>, edits: seq<Edit>, e: Edit)
    requires Wrote(start, before, edits) && forall i <- before.Keys :: i in after && after[i].entry == Edited(before[i].entry, i, e)
    ensures Wrote(start, after, edits + [e])
  {
    forall i | i in start ensures i in after && after[i].entry == Scribbled(start[i].entry, i, edits + [e]) {
      assert (edits + [e])[..|edits|] == edits;
      var was := Scribbled(start[i].entry, i, edits);
      assert i in before && before[i].entry == was;
    }
  }

  /** What a look at a path found, or that it failed. */
  datatype Sight = Saw(local: Option<Local>) | Unseen

  /** What a private name held when it was removed, and what the editor did just before. */
  datatype Gone = Gone(entry: Entry, during: seq<Edit>)

  /**
   * A file renamed off `rel` to a private name: the last look at that name,
   * whether the file was put back at `rel`, and the name's removal.
   */
  datatype Aside = Aside(rel: Rel, ino: Ino, look: Option<Sight>, returned: bool, gone: Option<Gone>)

  /**
   * What this delivery did: the files it made, what it renamed aside and under
   * which name, what it looked at, and the edits just before its last call.
   */
  datatype History = History(made: set<Ino>, aside: map<Path, Aside>, seen: seq<(Path, Sight)>, during: seq<Edit>)

  class Disk {
    var paths: map<Path, Ino>
    var inodes: map<Ino, Inode>
    /** Fresh inode numbers, change times and private names. */
    var next: nat
    var turns: seq<Turn>
    /** The receipt is written: the delivery is applied, whatever follows. */
    var receipted: bool
    ghost var history: History

    /**
     * A file renamed aside is at its private name until that name is removed,
     * and until the receipt a backup is removed only once its file was put back
     * where it came from.
     */
    ghost predicate Conserved()
      reads this
    {
      forall q <- history.aside.Keys ::
        && (q.Backup? || q.Displaced?) && q.uid < next
        && (q in paths <==> history.aside[q].gone.None?) && (q in paths ==> paths[q] == history.aside[q].ino)
        && (q.Backup? && history.aside[q].gone.Some? ==> receipted || history.aside[q].returned)
    }

    ghost predicate Valid()
      reads this
    {
      && (forall p <- paths.Keys :: paths[p] in inodes)
      && (forall i <- inodes.Keys :: i < next && inodes[i].ctime < next)
      && (forall p <- paths.Keys :: !p.Target? ==> p.uid < next)
      && Conserved()
    }

    constructor (tree: Tree, next: nat, turns: seq<Turn>)
      requires forall p <- tree.paths.Keys :: tree.paths[p] in tree.inodes && (!p.Target? ==> p.uid < next)
      requires forall i <- tree.inodes.Keys :: i < next && tree.inodes[i].ctime < next
      ensures Valid() && Now() == tree && this.next == next && this.turns == turns && !receipted
      ensures history == History({}, map[], [], [])
    {
      this.paths, this.inodes, this.next, this.turns, this.receipted := tree.paths, tree.inodes, next, turns, false;
      this.history := History({}, map[], [], []);
    }

    function Now(): Tree
      reads this
    {
      Tree(paths, inodes)
    }

    /** No editor acts and no call fails from now on. */
    predicate Quiet()
      reads this
    {
      forall t <- turns :: t.edits == [] && !t.fault
    }

    /** The editor's edits leave every private name on its inode, and remove no inode. */
    method Await() returns (fault: bool)
      requires Valid()
      modifies this`paths, this`inodes, this`next, this`turns, this`history
      ensures Valid() && next >= old(next) && old(inodes).Keys <= inodes.Keys
      ensures forall p: Path :: !p.Target? ==> (p in paths <==> p in old(paths)) && (p in paths ==> paths[p] == old(paths)[p])
      ensures history == old(history).(during := history.during)
      ensures Wrote(old(inodes), inodes, history.during)
      ensures fault == TurnAt(old(turns), 0).fault && history.during == TurnAt(old(turns), 0).edits
      ensures turns == if old(turns) == [] then [] else old(turns)[1..]
      ensures OnlyScribbles(history.during) ==> paths == old(paths)
      ensures history.during == [] ==> paths == old(paths) && inodes == old(inodes) && next == old(next)
      ensures old(Quiet()) ==> !fault && Quiet() && history.during == []
    {
      if turns == [] {
        history := history.(during := []);
        return false;
      }
      var t := turns[0];
      assert t in turns && forall u :: u in turns[1..] ==> u in turns;
      turns := turns[1..];
      fault := t.fault;
      for k := 0 to |t.edits|
        invariant turns == old(turns)[1..] && history == old(history)
        invariant Valid() && next >= old(next) && old(inodes).Keys <= inodes.Keys
        invariant forall p: Path :: !p.Target? ==> (p in paths <==> p in old(paths)) && (p in paths ==> paths[p] == old(paths)[p])
        invariant Wrote(old(inodes), inodes, t.edits[..k])
        invariant OnlyScribbles(t.edits) ==> paths == old(paths)
        invariant t.edits == [] ==> paths == old(paths) && inodes == old(inodes) && next == old(next)
      {
        ghost var before := inodes;
        Perform(t.edits[k]);
        WroteOneMore(old(inodes), before, inodes, t.edits[..k], t.edits[k]);
        assert t.edits[..k + 1] == t.edits[..k] + [t.edits[k]];
      }
      assert t.edits[..|t.edits|] == t.edits;
      history := history.(during := t.edits);
    }

    method Perform(e: Edit)
      requires Valid()
      modifies this`paths, this`inodes, this`next
      ensures Valid() && next >= old(next) && old(inodes).Keys <= inodes.Keys
      ensures forall p: Path :: !p.Target? ==> (p in paths <==> p in old(paths)) && (p in paths ==> paths[p] == old(paths)[p])
      ensures forall i <- old(inodes).Keys :: inodes[i].entry == Edited(old(inodes)[i].entry, i, e)
      ensures e.Scribble? ==> paths == old(paths)
    {
      match e
      case Save(rel, entry) =>
        inodes, paths := inodes[next := Inode(entry, next)], paths[Target(rel) := next];
        next := next + 1;
      case Delete(rel) =>
        paths := paths - {Target(rel)};
      case Move(from, to) =>
        if Target(from) in paths {
          var i := paths[Target(from)];
          paths := (paths - {Target(from)})[Target(to) := i];
        }
      case Scribble(i, bytes) =>
        if i in inodes && inodes[i].entry.kind.RegularFile? {
          inodes, next := inodes[i := Inode(inodes[i].entry.(bytes := bytes), next)], next + 1;
        }
    }

    /* ---- single calls ---- */

    /** Look at a path, after whatever the editor does first. */
    method See(p: Path) returns (fault: bool, now: Option<Local>)
      requires Valid()
      modifies this`paths, this`inodes, this`next, this`turns, this`history
      ensures Valid() && next >= old(next) && old(inodes).Keys <= inodes.Keys
      ensures forall q: Path :: !q.Target? ==> (q in paths <==> q in old(paths)) && (q in paths ==> paths[q] == old(paths)[q])
      ensures now == Now().LocalAt(p)
      ensures history == Looked(old(history), p, if fault then Unseen else Saw(now)).(during := history.during)
      ensures fault == TurnAt(old(turns), 0).fault && history.during == TurnAt(old(turns), 0).edits
      ensures turns == if old(turns) == [] then [] else old(turns)[1..]
      ensures history.during == [] ==> Now() == old(Now()) && next == old(next)
      ensures Wrote(old(inodes), inodes, history.during) && (OnlyScribbles(history.during) ==> paths == old(paths))
      ensures old(Quiet()) ==> !fault && Quiet() && Now() == old(Now()) && next == old(next)
    {
      fault := Await();
      now := Now().LocalAt(p);
      history := Looked(history, p, if fault then Unseen else Saw(now));
    }

    /** Write a private file. */
    method Stage(entry: Entry) returns (p: Path)
      requires Valid()
      modifies this`paths, this`inodes, this`next, this`history
      ensures Valid() && p == Staged(old(next)) && p !in old(paths) && next == old(next) + 1
      ensures history == old(history).(made := old(history).made + {old(next)})
      ensures paths == old(paths)[p := old(next)] && inodes == old(inodes)[old(next) := Inode(entry, old(next))]
    {
      p := Staged(next);
      inodes, paths := inodes[next := Inode(entry, next)], paths[p := next];
      history, next := history.(made := history.made + {next}), next + 1;
    }

    /** Rename whatever is at the target to a fresh private name. */
    method MoveAside(rel: Rel, displaced: bool) returns (p: Path)
      requires Valid() && Target(rel) in paths
      modifies this`paths, this`inodes, this`next, this`history
      ensures Valid() && p == (if displaced then Displaced(old(next)) else Backup(old(next))) && p !in old(paths) && next == old(next) + 1
      ensures paths == (old(paths) - {Target(rel)})[p := old(paths)[Target(rel)]]
      ensures inodes == old(inodes)[paths[p] := old(inodes)[paths[p]].(ctime := old(next))]
      ensures p !in old(history).aside && history == old(history).(aside := old(history).aside[p := Aside(rel, paths[p], None, false, None)])
    {
      p := if displaced then Displaced(next) else Backup(next);
      var i := paths[Target(rel)];
      paths := (paths - {Target(rel)})[p := i];
      inodes, next := inodes[i := inodes[i].(ctime := next)], next + 1;
      history := history.(aside := history.aside[p := Aside(rel, i, None, false, None)]);
    }

    /** Link a private file to its target, which must be free. One renamed off that target is thereby put back. */
    method LinkTo(p: Path, rel: Rel)
      requires Valid() && p in paths && !p.Target? && Target(rel) !in paths
      modifies this`paths, this`inodes, this`next, this`history
      ensures Valid() && next == old(next) + 1 && paths == old(paths)[Target(rel) := old(paths)[p]]
      ensures inodes == old(inodes)[paths[p] := old(inodes)[paths[p]].(ctime := old(next))]
      ensures history == if p in old(history).aside && old(history).aside[p].rel == rel then Returned(old(history), p) else old(history)
    {
      var i := paths[p];
      paths := paths[Target(rel) := i];
      inodes, next := inodes[i := inodes[i].(ctime := next)], next + 1;
      history := if p in history.aside && history.aside[p].rel == rel then Returned(history, p) else history;
    }

    /**
     * Create a symlink at a free target. `copied` is the private symlink it
     * recreates, if any: put back when it came from there and holds the same.
     */
    method SymlinkTo(entry: Entry, rel: Rel, ghost copied: Option<Path>)
      requires Valid() && Target(rel) !in paths && (copied.Some? ==> copied.value in paths)
      modifies this`paths, this`inodes, this`next, this`history
      ensures Valid() && next == old(next) + 1 && paths == old(paths)[Target(rel) := old(next)]
      ensures inodes == old(inodes)[old(next) := Inode(entry, old(next))]
      ensures history ==
        (if copied.Some? && PutsBack(old(history), old(Now()), copied.value, rel, entry) then Returned(old(history), copied.value) else old(history))
        .(made := old(history).made + {old(next)})
    {
      history := if copied.Some? && PutsBack(history, Now(), copied.value, rel, entry) then Returned(history, copied.value) else history;
      inodes, paths := inodes[next := Inode(entry, next)], paths[Target(rel) := next];
      history, next := history.(made := history.made + {next}), next + 1;
    }

    /**
     * Remove a private name. This is the one call that can make a file
     * unreachable, so until the receipt is written it demands of a backup that
     * its file was put back where it came from.
     */
    method UnlinkPrivate(p: Path)
      requires Valid() && p in paths && !p.Target?
      requires p.Backup? && p in history.aside ==> receipted || history.aside[p].returned
      modifies this`paths, this`inodes, this`next, this`history
      ensures Valid() && next == old(next) + 1 && paths == old(paths) - {p}
      ensures inodes == old(inodes)[old(paths)[p] := old(inodes)[old(paths)[p]].(ctime := old(next))]
      ensures history == Dropped(old(history), p, old(inodes)[old(paths)[p]].entry)
    {
      var i := paths[p];
      history := Dropped(history, p, inodes[i].entry);
      paths := paths - {p};
      inodes, next := inodes[i := inodes[i].(ctime := next)], next + 1;
    }

    method WriteReceipt()
      requires Valid()
      modifies this`receipted
      ensures Valid() && receipted
    {
      receipted := true;
    }
  }

  /** A symlink holding `entry` at `rel` puts back the one renamed aside as `p`. */
  ghost predicate PutsBack(h: History, t: Tree, p: Path, rel: Rel, entry: Entry) {
    p in h.aside && h.aside[p].rel == rel && t.EntryAt(p) == Some(entry)
  }

  ghost function Looked(h: History, p: Path, s: Sight): History {
    h.(seen := h.seen + [(p, s)], aside := if p in h.aside then h.aside[p := h.aside[p].(look := Some(s))] else h.aside)
  }

  ghost function Returned(h: History, p: Path): History
    requires p in h.aside
  {
    h.(aside := h.aside[p := h.aside[p].(returned := true)])
  }

  ghost function Dropped(h: History, p: Path, entry: Entry): History {
    if p in h.aside then h.(aside := h.aside[p := h.aside[p].(gone := Some(Gone(entry, h.during)))]) else h
  }
}
