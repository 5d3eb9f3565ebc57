/** Which tasks a live replacement carries: the backward walk over `replaces`. */
module Coverage {
  import opened Tasks
  import opened Digraph

  /** The indexed rows each row replaces. */
  function Replaced(tasks: map<TaskId, Task>): map<TaskId, set<TaskId>> {
    map t | t in tasks :: set p | p in tasks[t].replacing && p in tasks
  }

  /** `carrier` replaces `t`, directly or through other replacements. */
  ghost predicate Carries(tasks: map<TaskId, Task>, carrier: TaskId, t: TaskId) {
    t != carrier && Reaches(Replaced(tasks), carrier, t)
  }

  /** Some unfinished task carries `t`. */
  ghost predicate Covered(tasks: map<TaskId, Task>, t: TaskId) {
    exists c <- tasks.Keys :: !Terminal(tasks[c].status) && Carries(tasks, c, t)
  }

  /** The walk in progress: everything found is reached, and the rows before `index` have been expanded. */
  ghost predicate Walked(tasks: map<TaskId, Task>, start: TaskId, found: seq<TaskId>, index: nat) {
    && index <= |found| && start in found
    && (forall t <- found :: t in tasks && Reaches(Replaced(tasks), start, t))
    && (forall i, p | 0 <= i < index && Edge(Replaced(tasks), found[i], p) :: p in found)
  }

  lemma WalkExpands(tasks: map<TaskId, Task>, start: TaskId, found: seq<TaskId>, index: nat, p: TaskId)
    requires Walked(tasks, start, found, index) && index < |found| && Edge(Replaced(tasks), found[index], p)
    ensures Walked(tasks, start, found + [p], index)
  {
    ReachesFurther(Replaced(tasks), start, found[index], p);
  }

  lemma WalkIsExact(tasks: map<TaskId, Task>, start: TaskId, found: seq<TaskId>, t: TaskId)
    requires Walked(tasks, start, found, |found|)
    ensures t in found <==> Reaches(Replaced(tasks), start, t)
  {
    if Reaches(Replaced(tasks), start, t) {
      var path :| Walk(Replaced(tasks), path) && path[0] == start && path[|path| - 1] == t;
      var nodes := set f | f in found;
      forall a, b | a in nodes && Edge(Replaced(tasks), a, b) ensures b in nodes {
        var i :| 0 <= i < |found| && found[i] == a;
      }
      ClosedKeepsWalks(Replaced(tasks), nodes, path);
    }
  }

  /** `id` first, then every task it replaces, transitively, each once. */
  method ReplacedLineage(tasks: map<TaskId, Task>, id: TaskId) returns (found: seq<TaskId>)
    requires id in tasks
    ensures |found| > 0 && found[0] == id && forall i, j | 0 <= i < j < |found| :: found[i] != found[j]
    ensures forall t :: t in found <==> Reaches(Replaced(tasks), id, t)
  {
    found := [id];
    assert Walk(Replaced(tasks), [id]);
    var index := 0;
    while index < |found|
      invariant |found| > 0 && found[0] == id && Walked(tasks, id, found, index)
      invariant forall i, j | 0 <= i < j < |found| :: found[i] != found[j]
      decreases |tasks.Keys| - index
    {
      var row := tasks[found[index]];
      for k := 0 to |row.replacing|
        invariant index < |found| && found[0] == id && Walked(tasks, id, found, index) && row == tasks[found[index]]
        invariant forall i, j | 0 <= i < j < |found| :: found[i] != found[j]
        invariant forall l | 0 <= l < k :: row.replacing[l] in tasks ==> row.replacing[l] in found
      {
        var p := row.replacing[k];
        if p in tasks && p !in found {
          WalkExpands(tasks, id, found, index, p);
          found := found + [p];
        }
      }
      DistinctFit(found, tasks.Keys);
      index := index + 1;
    }
    forall t ensures t in found <==> Reaches(Replaced(tasks), id, t) {
      WalkIsExact(tasks, id, found, t);
    }
  }

  /** The ids a live task carries, whatever the order of the rows. */
  method ReplacementCoverage(tasks: map<TaskId, Task>, order: seq<TaskId>) returns (covered: set<TaskId>)
    requires forall t :: t in order <==> t in tasks
    ensures forall t :: t in covered <==> Covered(tasks, t)
  {
    covered := {};
    for i := 0 to |order|
      invariant forall t :: t in covered <==> exists j :: 0 <= j < i && !Terminal(tasks[order[j]].status) && Carries(tasks, order[j], t)
    {
      if !Terminal(tasks[order[i]].status) {
        var lineage := ReplacedLineage(tasks, order[i]);
        covered := covered + (set t | t in lineage && t != order[i]);
      }
    }
    forall t ensures t in covered <==> Covered(tasks, t) {
      if Covered(tasks, t) {
        var c :| c in tasks && !Terminal(tasks[c].status) && Carries(tasks, c, t);
        var j :| 0 <= j < |order| && order[j] == c;
      }
    }
  }
}
