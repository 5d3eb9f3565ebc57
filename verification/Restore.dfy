/**
 * Replacing the state database by a snapshot, one file step at a time. The
 * process may die before any step, and be restarted any number of times.
 * Content stands for its own hash.
 */
module Restore {
  import opened Wrappers

  type Name = nat

  datatype Entry = File(bytes: nat) | NotAFile

  /** The restore intent as read from disk: the staged file it authorizes and that file's hash. */
  datatype Marker = Intent(staging: Name, hash: nat) | Malformed

  /** The database: its main file and the sidecars SQLite would replay over it. */
  datatype Files = Files(main: Option<Entry>, wal: Option<Entry>, shm: Option<Entry>)

  /** A restore whose intent is durable: its staged file and the snapshot it holds. */
  datatype Pending = Pending(name: Name, snapshot: nat)

  datatype Outcome = Done | Blocked | Died | Failed

  /** What a finished restore leaves: the database as it was, or exactly the snapshot without sidecars. */
  function Settled(current: Files, pending: Option<Pending>): Files {
    match pending
    case None => current
    case Some(p) => Files(Some(File(p.snapshot)), None, None)
  }

  class Disk {
    var main: Option<Entry>
    var wal: Option<Entry>
    var shm: Option<Entry>
    var intent: Option<Marker>
    var staged: map<Name, Entry>
    var writing: map<Name, Marker>

    function Database(): Files
      reads this
    {
      Files(main, wal, shm)
    }

    /** The staged file while it exists, otherwise the database itself. */
    function Candidate(): Option<Entry>
      requires intent.Some? && intent.value.Intent?
      reads this
    {
      if intent.value.staging in staged then Some(staged[intent.value.staging]) else main
    }

    /** The marker is malformed, or names nothing that has its hash. */
    predicate Unfinishable()
      reads this
    {
      intent.Some? && (intent.value.Malformed? || Candidate() != Some(File(intent.value.hash)))
    }

    /**
     * `current` is the database the last success left, `pending` the restore
     * since authorized, and the files are at some step between them.
     */
    predicate Between(current: Files, pending: Option<Pending>)
      reads this
    {
      match pending
      case None => intent.None? && Database() == current
      case Some(p) =>
        intent == Some(Intent(p.name, p.snapshot))
        && if p.name in staged then staged[p.name] == File(p.snapshot) && Database() == current
           else main == Some(File(p.snapshot)) && (wal == current.wal || wal.None?) && (shm == current.shm || (shm.None? && wal.None?))
    }

    /**
     * Finish the exact restore the durable marker authorizes, in four steps. It
     * can die before each; whatever step it reached, a later run finishes the
     * same restore.
     */
    method FinishRestore(budget: nat, ghost current: Files, ghost pending: Option<Pending>) returns (o: Outcome, left: nat)
      modifies this`main, this`wal, this`shm, this`intent, this`staged
      ensures o == Blocked <==> old(Unfinishable())
      ensures old(intent).None? || o == Blocked ==> Database() == old(Database()) && intent == old(intent) && staged == old(staged)
      ensures o != Failed && (o == Done ==> intent.None?) && (o == Died ==> budget < 4 && left == 0)
      ensures o == Done ==> left + 4 >= budget
      ensures staged.Keys <= old(staged).Keys && forall n <- old(staged).Keys ::
        n in staged || (old(intent).Some? && old(intent).value.Intent? && n == old(intent).value.staging)
      ensures old(Between(current, pending)) ==>
        && o != Blocked
        && (o == Done ==> Database() == Settled(current, pending))
        && (o == Died ==> Between(current, pending))
    {
      left := budget;
      if intent.None? {
        return Done, left;
      }
      if intent.value.Malformed? {
        return Blocked, left;
      }
      var name := intent.value.staging;
      if Candidate() != Some(File(intent.value.hash)) {
        return Blocked, left;
      }
      if name in staged {
        if left == 0 { return Died, 0; }
        left := left - 1;
        main, staged := Some(staged[name]), staged - {name};
      }
      if left == 0 { return Died, 0; }
      left := left - 1;
      wal := None;
      if left == 0 { return Died, 0; }
      left := left - 1;
      shm := None;
      if left == 0 { return Died, 0; }
      left := left - 1;
      intent := None;
      return Done, left;
    }

    /** Opening the store finishes any restore first; doing it again changes nothing. */
    method Open(budget: nat, ghost current: Files, ghost pending: Option<Pending>)
      returns (o: Outcome, ghost now: Files, ghost owed: Option<Pending>)
      requires Between(current, pending)
      modifies this`main, this`wal, this`shm, this`intent, this`staged
      ensures (o == Done || o == Died) && Between(now, owed)
      ensures o == Done ==> Database() == Settled(current, pending) == now && owed.None? && !Unfinishable()
      ensures o == Died ==> now == current && owed == pending && budget < 4
    {
      var left;
      o, left := FinishRestore(budget, current, pending);
      now, owed := if o == Done then Settled(current, pending) else current, if o == Done then None else pending;
    }

    /** On the way out: the unfinished marker, and the staged file no durable marker names. */
    method Cleanup(name: Name, budget: nat)
      modifies this`staged, this`writing
      ensures staged == if budget > 1 && intent.None? then old(staged) - {name} else old(staged)
      ensures writing == if budget > 0 then old(writing) - {name} else old(writing)
    {
      if budget > 0 {
        writing := writing - {name};
      }
      if budget > 1 && intent.None? {
        staged := staged - {name};
      }
    }

    /**
     * The owner's restore under a fresh staging name. `valid` is the snapshot's
     * validation, `copied` the staged copy's; `torn` is what a copy cut short
     * leaves. A process that lives long enough leaves no file of its own, and
     * succeeds exactly when both validate and nothing is staged under the name.
     * Success leaves exactly the snapshot; any other end leaves the
     * database it found, or one that the next open turns into exactly the snapshot.
     */
    method RestoreSnapshot(
      name: Name, snapshot: nat, valid: bool, copied: bool, torn: Entry, budget: nat, ghost current: Files, ghost pending: Option<Pending>)
      returns (o: Outcome, ghost now: Files, ghost owed: Option<Pending>)
      requires Between(current, pending) && (pending.Some? ==> name != pending.value.name)
      modifies this
      ensures o != Blocked && Between(now, owed)
      ensures !valid ==> o == Failed && Database() == old(Database()) && now == current && owed == pending
      ensures budget >= 12 ==> o == if valid && name !in old(staged) && copied then Done else Failed
      ensures o == Done ==> valid && name !in old(staged) && copied
      ensures budget >= 14 && (valid || name !in old(staged)) ==> name !in staged && name !in writing
      ensures o == Done ==> Database() == now == Files(Some(File(snapshot)), None, None) && owed.None?
      ensures o != Done ==>
        || (now == current && owed == pending)
        || (now == Settled(current, pending) && (owed.None? || owed == Some(Pending(name, snapshot))))
    {
      now, owed := current, pending;
      if !valid {
        Cleanup(name, budget);
        return Failed, now, owed;
      }
      var left;
      o, now, owed, left := FinishEarlier(budget, name, current, pending);
      if o != Done { return o, now, owed; }
      if name in staged {
        Cleanup(name, left);
        return Failed, now, owed;
      }
      if left == 0 { return Died, now, owed; }
      staged := staged[name := torn];
      if left == 1 { return Died, now, owed; }
      staged := staged[name := File(snapshot)];
      if !copied {
        Cleanup(name, left - 2);
        return Failed, now, owed;
      }
      if left == 2 { return Died, now, owed; }
      writing := writing[name := Intent(name, snapshot)];
      if left == 3 { return Died, now, owed; }
      intent, writing := Some(writing[name]), writing - {name};
      owed := Some(Pending(name, snapshot));
      o, now, owed, left := FinishEarlier(left - 4, name, now, owed);
      if o == Done {
        Cleanup(name, left);
      }
    }

    method FinishEarlier(budget: nat, ghost name: Name, ghost current: Files, ghost pending: Option<Pending>)
      returns (o: Outcome, ghost now: Files, ghost owed: Option<Pending>, left: nat)
      requires Between(current, pending)
      modifies this`main, this`wal, this`shm, this`intent, this`staged
      ensures (o == Done || o == Died) && Between(now, owed)
      ensures o == Done ==> now == Settled(current, pending) && owed.None?
      ensures o == Died ==> now == current && owed == pending && budget < 4
      ensures o == Done ==> left + 4 >= budget
      ensures o == Done && (pending.Some? ==> name != pending.value.name) ==> (name in staged <==> name in old(staged))
    {
      o, left := FinishRestore(budget, current, pending);
      now, owed := if o == Done then Settled(current, pending) else current, if o == Done then None else pending;
    }
  }

  /**
   * One life of a process over the state directory, dying after `budget` steps
   * at the latest. A host that opened the database leaves it as `written`.
   */
  datatype Life =
    | Opens(budget: nat, written: Files)
    | Restores(name: Name, snapshot: nat, valid: bool, copied: bool, torn: Entry, budget: nat)

  /** The first database, one a host left, or exactly a snapshot: never a mix. */
  predicate Whole(initial: Files, lives: seq<Life>, f: Files) {
    || f == initial
    || exists l <- lives :: (l.Opens? && f == l.written) || (l.Restores? && f == Files(Some(File(l.snapshot)), None, None))
  }

  /** A pending restore is one some life authorized. */
  predicate Authorized(lives: seq<Life>, owed: Option<Pending>) {
    owed.Some? ==> exists l <- lives :: l.Restores? && l.name == owed.value.name && l.snapshot == owed.value.snapshot
  }

  /** Every attempt stages under its own name. */
  predicate FreshNames(lives: seq<Life>) {
    forall i, j | 0 <= i < j < |lives| && lives[i].Restores? && lives[j].Restores? :: lives[i].name != lives[j].name
  }

  /** How many of the lives last long enough to open the database. */
  function LongOpens(lives: seq<Life>): nat {
    if lives == [] then 0
    else LongOpens(lives[..|lives| - 1]) + (var l := lives[|lives| - 1]; if l.Opens? && l.budget >= 4 then 1 else 0)
  }

  /** Whatever the lives and wherever each ends, every database ever opened is whole, and each life that lasts long enough opens it. */
  method Live(disk: Disk, lives: seq<Life>) returns (ghost seen: seq<Files>, ghost now: Files, ghost owed: Option<Pending>)
    requires disk.intent.None? && FreshNames(lives)
    modifies disk
    ensures (forall f <- seen :: Whole(old(disk.Database()), lives, f)) && |seen| >= LongOpens(lives)
    ensures disk.Between(now, owed) && Whole(old(disk.Database()), lives, now) && Authorized(lives, owed)
  {
    ghost var initial := disk.Database();
    seen, now, owed := [], initial, None;
    for i := 0 to |lives|
      invariant disk.Between(now, owed) && Whole(initial, lives[..i], now) && Authorized(lives[..i], owed)
      invariant (forall f <- seen :: Whole(initial, lives[..i], f)) && |seen| >= LongOpens(lives[..i])
    {
      var l := lives[i];
      assert lives[..i + 1][..i] == lives[..i];
      WholeGrows(initial, lives, i);
      ghost var before, settled := now, Settled(now, owed);
      assert Whole(initial, lives[..i], settled);
      match l
      case Opens(budget, written) =>
        var o;
        o, now, owed := disk.Open(budget, now, owed);
        if o == Done {
          seen := seen + [disk.Database()];
          disk.main, disk.wal, disk.shm, now := written.main, written.wal, written.shm, written;
        }
      case Restores(name, snapshot, valid, copied, torn, budget) =>
        var o;
        o, now, owed := disk.RestoreSnapshot(name, snapshot, valid, copied, torn, budget, now, owed);
    }
    assert lives[..|lives|] == lives;
  }

  lemma WholeGrows(initial: Files, lives: seq<Life>, i: nat)
    requires i < |lives|
    ensures lives[i] in lives[..i + 1]
    ensures forall f :: Whole(initial, lives[..i], f) ==> Whole(initial, lives[..i + 1], f)
    ensures forall owed :: Authorized(lives[..i], owed) ==> Authorized(lives[..i + 1], owed)
    ensures FreshNames(lives) && lives[i].Restores? ==>
      forall owed: Option<Pending> :: owed.Some? && Authorized(lives[..i], owed) ==> owed.value.name != lives[i].name
  {
    assert lives[..i + 1] == lives[..i] + [lives[i]];
    forall owed: Option<Pending> | FreshNames(lives) && lives[i].Restores? && owed.Some? && Authorized(lives[..i], owed)
      ensures owed.value.name != lives[i].name
    {
      var l :| l in lives[..i] && l.Restores? && l.name == owed.value.name;
      var j :| 0 <= j < i && lives[j] == l;
    }
  }
}
