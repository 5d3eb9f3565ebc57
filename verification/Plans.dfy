/** The rows of a launched plan and the order in which they are admitted. */
module Plans {
  import opened Wrappers
  import opened Digraph

  type Key = string

  datatype Kind = Research | Implementation | Integration | Verification

  /** What a deliverable prescribes for its own added review. */
  datatype Override = Override(
    assignee: Option<Key>, objective: Option<string>, acceptance: Option<seq<string>>, maxSteps: Option<nat>, maxRecovery: Option<nat>)

  datatype Row = Row(
    key: Key, kind: Kind, workstream: Key, title: string, objective: string, scope: seq<string>, acceptance: seq<string>,
    outputs: Option<seq<string>>, assignee: Option<Key>, maxSteps: Option<nat>, maxRecovery: Option<nat>,
    checkTimeout: Option<nat>, priority: Option<nat>, dependencies: seq<Key>, reviewOf: Option<Key>, review: Option<Override>)
  {
    /** What the row has to come after, as listed, and last what it reviews. */
    function Edges(): seq<Key> {
      dependencies + (if reviewOf.Some? then [reviewOf.value] else [])
    }
  }

  /** A later row of the same key replaces an earlier one. */
  function ByKey(rows: seq<Row>): map<Key, Row> {
    if rows == [] then map[] else var last := rows[|rows| - 1]; ByKey(rows[..|rows| - 1])[last.key := last]
  }

  lemma {:induction false} ByKeyIndexes(rows: seq<Row>)
    ensures forall r <- rows :: r.key in ByKey(rows)
    ensures forall k <- ByKey(rows).Keys :: ByKey(rows)[k] in rows && ByKey(rows)[k].key == k
  {
    if rows != [] {
      ByKeyIndexes(rows[..|rows| - 1]);
      assert rows == rows[..|rows| - 1] + [rows[|rows| - 1]];
    }
  }

  function Links(rows: map<Key, Row>): map<Key, set<Key>> {
    map k | k in rows :: set e | e in rows[k].Edges()
  }

  predicate AllKnown(rows: map<Key, Row>) {
    forall k <- rows.Keys :: forall e <- rows[k].Edges() :: e in rows
  }

  /** Every row can be placed after everything it names. */
  ghost predicate Orderable(rows: map<Key, Row>) {
    exists rank: map<Key, nat> :: Ranks(Links(rows), rank)
  }

  lemma OrderableIsSound(rows: map<Key, Row>)
    ensures Orderable(rows) ==> AllKnown(rows) && !Cyclic(Links(rows))
  {
    if rank: map<Key, nat> :| Ranks(Links(rows), rank) {
      RankedIsAcyclic(Links(rows), rank);
      forall k, e | k in rows && e in rows[k].Edges() ensures e in rows {
        assert Edge(Links(rows), k, e);
      }
    }
  }

  datatype Failure = CycleFound | UnknownKey

  /** `row` is at the position its rank gives. */
  predicate PlacedAt(result: seq<Row>, i: nat, k: Key) {
    i < |result| && result[i].key == k
  }

  /** Each row once, under its own key, after everything it names. */
  ghost predicate InOrder(rows: map<Key, Row>, result: seq<Row>) {
    && (forall i | 0 <= i < |result| :: result[i].key in rows && rows[result[i].key] == result[i])
    && (forall i, j | 0 <= i < j < |result| :: result[i].key != result[j].key)
    && (forall k <- rows.Keys :: exists i: nat :: PlacedAt(result, i, k))
    && (forall i, e | 0 <= i < |result| && e in result[i].Edges() :: exists j: nat :: j < i && PlacedAt(result, j, e))
  }

  class Orderer {
    const rows: map<Key, Row>
    var visiting: set<Key>
    var done: set<Key>
    var result: seq<Row>
    ghost var stack: seq<Key>
    ghost var rank: map<Key, nat>

    /** `a` finished at its rank, after its target `b`. */
    ghost predicate Placed(a: Key, b: Key)
      reads this
    {
      a in done ==>
        && a in rank && a in rows && PlacedAt(result, rank[a], a) && result[rank[a]] == rows[a]
        && (b in rows[a].Edges() ==> b in done && b in rank && rank[b] < rank[a])
    }

    ghost predicate Valid()
      reads this
    {
      && visiting !! done && visiting + done <= rows.Keys
      && (forall k <- rows.Keys :: rows[k].key == k)
      && (forall k :: k in rank <==> k in done)
      && (forall a, b :: Placed(a, b))
      && (forall i | 0 <= i < |result| :: result[i].key in done && result[i].key in rank && rank[result[i].key] == i)
      && (stack != [] ==> Walk(Links(rows), stack))
      && (forall k :: k in stack <==> k in visiting)
    }

    constructor (rows: map<Key, Row>)
      requires forall k <- rows.Keys :: rows[k].key == k
      ensures Valid() && this.rows == rows && visiting == {} && done == {} && stack == []
    {
      this.rows := rows;
      visiting, done, result, stack, rank := {}, {}, [], [], map[];
    }

    method Visit(key: Key) returns (failure: Option<Failure>)
      requires Valid() && (stack != [] ==> Edge(Links(rows), stack[|stack| - 1], key))
      requires stack == [] ==> visiting == {} && key in rows
      modifies this
      ensures failure == Some(CycleFound) ==> Cyclic(Links(rows))
      ensures failure == Some(UnknownKey) ==> !AllKnown(rows)
      ensures failure.None? ==> Valid() && stack == old(stack) && visiting == old(visiting) && old(done) <= done && key in done
      decreases rows.Keys - visiting - done, 1
    {
      if key in visiting {
        SuffixReaches(Links(rows), stack, key);
        ClosingEdgeIsCyclic(Links(rows), stack[|stack| - 1], key);
        return Some(CycleFound);
      }
      if key in done {
        return None;
      }
      if key !in rows {
        assert stack[|stack| - 1] in rows && key in rows[stack[|stack| - 1]].Edges();
        return Some(UnknownKey);
      }
      Enter(key);
      assert key in rows.Keys - old(visiting) - old(done) && key !in rows.Keys - visiting - done;
      failure := VisitEdges(key);
      if failure.None? {
        assert stack[..|stack| - 1] == old(stack);
        Leave(key);
        assert stack == old(stack) && visiting == old(visiting);
      }
    }

    method Enter(key: Key)
      requires Valid() && key in rows && key !in visiting + done && (stack != [] ==> Edge(Links(rows), stack[|stack| - 1], key))
      modifies this`visiting, this`stack
      ensures Valid() && visiting == old(visiting) + {key} && stack == old(stack) + [key]
    {
      visiting, stack := visiting + {key}, stack + [key];
      forall a, b ensures Placed(a, b) {
        assert old(Placed(a, b));
      }
    }

    method VisitEdges(key: Key) returns (failure: Option<Failure>)
      requires Valid() && key in rows && stack != [] && stack[|stack| - 1] == key
      modifies this
      ensures failure == Some(CycleFound) ==> Cyclic(Links(rows))
      ensures failure == Some(UnknownKey) ==> !AllKnown(rows)
      ensures failure.None? ==> Valid() && stack == old(stack) && visiting == old(visiting) && old(done) <= done
      ensures failure.None? ==> forall e <- rows[key].Edges() :: e in done
      decreases rows.Keys - visiting - done, 3
    {
      var edges := rows[key].Edges();
      for i := 0 to |edges|
        invariant Valid() && stack == old(stack) && visiting == old(visiting) && old(done) <= done
        invariant forall j | 0 <= j < i :: edges[j] in done
      {
        assert Edge(Links(rows), key, edges[i]);
        failure := Visit(edges[i]);
        if failure.Some? {
          return;
        }
      }
      return None;
    }

    method Leave(key: Key)
      requires Valid() && key in rows && key in visiting && stack != [] && stack[|stack| - 1] == key
      requires key !in stack[..|stack| - 1]
      requires forall e <- rows[key].Edges() :: e in done
      modifies this
      ensures Valid() && stack == old(stack)[..|old(stack)| - 1] && visiting == old(visiting) - {key} && done == old(done) + {key}
    {
      visiting, done := visiting - {key}, done + {key};
      rank := rank[key := |result|];
      result, stack := result + [rows[key]], stack[..|stack| - 1];
      forall a, b ensures Placed(a, b) {
        assert old(Placed(a, b)) && old(Placed(b, a));
      }
    }
  }

  datatype Ordering = Ordered(rows: seq<Row>) | Refused(failure: Failure)

  /**
   * Fails exactly on a cycle or an unknown key, naming which; otherwise every
   * key's row is placed once, behind everything it has an edge to.
   */
  method OrderedTasks(rows: seq<Row>) returns (r: Ordering)
    ensures r.Ordered? <==> AllKnown(ByKey(rows)) && !Cyclic(Links(ByKey(rows)))
    ensures r.Ordered? <==> Orderable(ByKey(rows))
    ensures r == Refused(CycleFound) ==> Cyclic(Links(ByKey(rows)))
    ensures r == Refused(UnknownKey) ==> !AllKnown(ByKey(rows))
    ensures r.Ordered? ==> InOrder(ByKey(rows), r.rows)
  {
    ByKeyIndexes(rows);
    var byKey := ByKey(rows);
    OrderableIsSound(byKey);
    var orderer := new Orderer(byKey);
    for i := 0 to |rows|
      invariant orderer.Valid() && orderer.rows == byKey && orderer.stack == [] && orderer.visiting == {}
      invariant forall j | 0 <= j < i :: rows[j].key in orderer.done
    {
      var failure := orderer.Visit(rows[i].key);
      if failure.Some? {
        assert failure.value.CycleFound? || failure.value.UnknownKey?;
        return Refused(failure.value);
      }
    }
    assert orderer.done == byKey.Keys;
    FinishedIsInOrder(orderer);
    r := Ordered(orderer.result);
  }

  lemma FinishedIsInOrder(o: Orderer)
    requires o.Valid() && o.done == o.rows.Keys
    ensures InOrder(o.rows, o.result) && Orderable(o.rows)
  {
    forall k | k in o.rows ensures exists i: nat :: PlacedAt(o.result, i, k) {
      assert o.Placed(k, k);
      assert PlacedAt(o.result, o.rank[k], k);
    }
    forall i | 0 <= i < |o.result| ensures o.rows[o.result[i].key] == o.result[i] {
      assert o.Placed(o.result[i].key, o.result[i].key);
    }
    forall i, e | 0 <= i < |o.result| && e in o.result[i].Edges() ensures exists j: nat :: j < i && PlacedAt(o.result, j, e) {
      assert o.Placed(o.result[i].key, e) && o.Placed(e, e);
      assert PlacedAt(o.result, o.rank[e], e);
    }
    forall a, b | Edge(Links(o.rows), a, b) ensures b in o.rank && o.rank[b] < o.rank[a] {
      assert o.Placed(a, b);
    }
    assert Ranks(Links(o.rows), o.rank);
  }

  predicate UniqueKeys(rows: seq<Row>) {
    forall i, j | 0 <= i < j < |rows| :: rows[i].key != rows[j].key
  }

  lemma {:induction false} UniqueOccursOnce(rows: seq<Row>, r: Row)
    requires UniqueKeys(rows)
    ensures multiset(rows)[r] == if r in rows then 1 else 0
  {
    if rows != [] {
      var before, last := rows[..|rows| - 1], rows[|rows| - 1];
      UniqueOccursOnce(before, r);
      assert rows == before + [last];
    }
  }

  lemma {:induction false} UniqueKeepsEveryRow(rows: seq<Row>)
    requires UniqueKeys(rows)
    ensures forall r <- rows :: r.key in ByKey(rows) && ByKey(rows)[r.key] == r
  {
    if rows != [] {
      var before, last := rows[..|rows| - 1], rows[|rows| - 1];
      UniqueKeepsEveryRow(before);
      assert rows == before + [last];
    }
  }

  /** With unique keys a row has to come after exactly what it depends on and what it reviews. */
  lemma LinksIff(rows: seq<Row>, a: Key, b: Key)
    requires UniqueKeys(rows)
    ensures Edge(Links(ByKey(rows)), a, b) <==> exists r <- rows :: r.key == a && (b in r.dependencies || r.reviewOf == Some(b))
  {
    ByKeyIndexes(rows);
    UniqueKeepsEveryRow(rows);
    forall r | r in rows ensures forall e :: e in r.Edges() <==> e in r.dependencies || r.reviewOf == Some(e) {}
  }

  /** With unique keys, as in every validated plan, the order is a permutation of the plan's rows. */
  lemma OrderIsPermutation(rows: seq<Row>, result: seq<Row>)
    requires UniqueKeys(rows) && InOrder(ByKey(rows), result)
    ensures multiset(result) == multiset(rows)
  {
    UniqueKeepsEveryRow(rows);
    ByKeyIndexes(rows);
    forall r ensures multiset(result)[r] == multiset(rows)[r] {
      UniqueOccursOnce(rows, r);
      UniqueOccursOnce(result, r);
      if r in rows {
        var i: nat :| PlacedAt(result, i, r.key);
        assert result[i] in result;
      }
    }
  }
}
