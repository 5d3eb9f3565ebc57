/** The three-way decision for one delivered path: snapshot, local file and result. */
module DeliveryMerge {
  import opened Wrappers

  datatype Kind = RegularFile | Symlink

  datatype Entry = Entry(kind: Kind, mode: nat, bytes: seq<nat>)

  datatype Merged = Output(entry: Option<Entry>) | Conflict

  /** `git merge-file` on three texts; none when it reports conflicts. */
  type MergeFile = (seq<nat>, seq<nat>, seq<nat>) -> Option<seq<nat>>

  /** One side's value where the other is unchanged, the common value where both agree. */
  function ThreeWay<T(==)>(base: T, current: T, result: T): Option<T> {
    if current == result then Some(current) else if current == base then Some(result) else if result == base then Some(current) else None
  }

  /** A side that did not change yields to the other; without one both have to agree. */
  lemma ThreeWayTakesTheChange<T>(base: T, current: T, result: T)
    ensures ThreeWay(base, base, result) == Some(result) && ThreeWay(base, current, base) == Some(current)
    ensures current != base && result != base ==> (ThreeWay(base, current, result).Some? <==> current == result)
    ensures current == result ==> ThreeWay(base, current, result) == Some(current)
  {
  }

  predicate Binary(bytes: seq<nat>) {
    0 in bytes
  }

  function MergeEntry(base: Option<Entry>, current: Option<Entry>, result: Option<Entry>, merge: MergeFile): Merged {
    if current == result || base == result then Output(current)
    else if current == base then Output(result)
    else if base.None? || current.None? || result.None? || !base.value.kind.RegularFile? || !current.value.kind.RegularFile?
            || !result.value.kind.RegularFile? then Conflict
    else
      var b, c, r := base.value, current.value, result.value;
      var mode := if c.mode == r.mode then Some(c.mode) else if c.mode == b.mode then Some(r.mode)
                  else if r.mode == b.mode then Some(c.mode) else None;
      if mode.None? then Conflict
      else if c.bytes == r.bytes then Output(Some(c.(mode := mode.value)))
      else if c.bytes == b.bytes then Output(Some(r.(mode := mode.value)))
      else if r.bytes == b.bytes then Output(Some(c.(mode := mode.value)))
      else if Binary(b.bytes) || Binary(c.bytes) || Binary(r.bytes) then Conflict
      else match merge(c.bytes, b.bytes, r.bytes)
        case Some(bytes) => Output(Some(Entry(RegularFile, mode.value, bytes)))
        case None => Conflict
  }

  /** The bytes of three files: one side's change, or the texts, none with a zero byte, merged line by line. */
  function MergedBytes(b: Entry, c: Entry, r: Entry, merge: MergeFile): Option<seq<nat>> {
    match ThreeWay(b.bytes, c.bytes, r.bytes)
    case Some(bytes) => Some(bytes)
    case None => if exists f <- [b, c, r] :: 0 in f.bytes then None else merge(c.bytes, b.bytes, r.bytes)
  }

  /** Three regular files merge mode and bytes independently: no change of either side is dropped or taken as the other's. */
  lemma FilesMergeByPart(b: Entry, c: Entry, r: Entry, merge: MergeFile)
    requires b.kind.RegularFile? && c.kind.RegularFile? && r.kind.RegularFile?
    ensures MergeEntry(Some(b), Some(c), Some(r), merge) ==
      var mode, bytes := ThreeWay(b.mode, c.mode, r.mode), MergedBytes(b, c, r, merge);
      if mode.Some? && bytes.Some? then Output(Some(Entry(RegularFile, mode.value, bytes.value))) else Conflict
  {
    assert Some(c) == Some(r) <==> c == r;
    assert Some(b) == Some(r) <==> b == r;
    assert Some(c) == Some(b) <==> c == b;
  }

  /** Anything but three regular files merges only when one side is unchanged or both agree, to the side that changed. */
  lemma OtherEntriesMergeWhole(base: Option<Entry>, current: Option<Entry>, result: Option<Entry>, merge: MergeFile)
    requires !(base.Some? && base.value.kind.RegularFile? && current.Some? && current.value.kind.RegularFile?
               && result.Some? && result.value.kind.RegularFile?)
    ensures MergeEntry(base, current, result, merge) ==
      match ThreeWay(base, current, result) case Some(entry) => Output(entry) case None => Conflict
  {
  }

  /** Swapping the local file and the result swaps nothing but the text merge's own sides. */
  lemma MergeIsSymmetric(base: Option<Entry>, current: Option<Entry>, result: Option<Entry>, merge: MergeFile, swapped: MergeFile)
    requires forall c, b, r :: merge(c, b, r) == swapped(r, b, c)
    ensures MergeEntry(base, current, result, merge) == MergeEntry(base, result, current, swapped)
  {
    if base.Some? && current.Some? && result.Some? && base.value.kind.RegularFile? && current.value.kind.RegularFile? && result.value.kind.RegularFile? {
      FilesMergeByPart(base.value, current.value, result.value, merge);
      FilesMergeByPart(base.value, result.value, current.value, swapped);
      assert merge(current.value.bytes, base.value.bytes, result.value.bytes) == swapped(result.value.bytes, base.value.bytes, current.value.bytes);
    } else {
      OtherEntriesMergeWhole(base, current, result, merge);
      OtherEntriesMergeWhole(base, result, current, swapped);
    }
  }
}
