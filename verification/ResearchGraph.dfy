/** `ResearchTaskGraph`: the level-batched Kahn sort, the in-memory cycle check made before a graph
    is written, and the test whether a task may run. */
module ResearchGraph {
  import opened TaskDag
  import opened Sorting

  datatype Task = Task(id: Uuid, index: int)

  datatype Order =
    | Ordered(taskIndices: seq<int>, levels: seq<seq<int>>)
    | CycleDetected
    | ForeignTask  // a dependency leads out of the job: the index lookup raises KeyError

  datatype Verdict = Accepted | DuplicateIndex | CycleInSpec

  datatype Status = Pending | Running | Completed | Failed | Cancelled | Skipped | Blocked

  // ---------------------------------------------------------------- specification

  function Ids(tasks: seq<Task>): (ids: seq<Uuid>)
    ensures |ids| == |tasks| && forall i :: 0 <= i < |tasks| ==> ids[i] == tasks[i].id
  {
    seq(|tasks|, i requires 0 <= i < |tasks| => tasks[i].id)
  }

  /** The id-to-index dictionary; a later task with the same id would win. */
  function IndexOf(tasks: seq<Task>): (m: map<Uuid, int>)
    ensures m.Keys == Elems(Ids(tasks))
  {
    if tasks == [] then map[]
    else
      var n := |tasks| - 1;
      assert Ids(tasks) == Ids(tasks[..n]) + [tasks[n].id];
      IndexOf(tasks[..n])[tasks[n].id := tasks[n].index]
  }

  function Index(index: map<Uuid, int>, x: Uuid): int {
    if x in index then index[x] else 0
  }

  /** The sort key `lambda tid: id_to_index[tid]`. */
  function IndexKey(index: map<Uuid, int>): Uuid -> Key {
    x => Key(Index(index, x), 0)
  }

  /** The sort key of `sorted(level_indices)`. */
  function IntKey(i: int): Key {
    Key(i, 0)
  }

  ghost function IndicesOf(ids: seq<Uuid>, index: map<Uuid, int>): seq<int> {
    seq(|ids|, i requires 0 <= i < |ids| => Index(index, ids[i]))
  }

  /** Some task the sort reaches has a dependent outside the job. */
  ghost predicate LeavesJob(nodes: set<Uuid>, deps: seq<Edge>) {
    exists x :: x in Final(nodes, deps) && !(Downs(deps, x) <= nodes)
  }

  /** Every upstream of an entry stands before it. */
  ghost predicate UpstreamsFirst(deps: seq<Edge>, ids: seq<Uuid>) {
    forall j :: 0 <= j < |ids| ==> Ups(deps, ids[j]) <= Elems(ids[..j])
  }

  /** Position in `ids` of the last upstream of x, or -1. */
  ghost function LastUp(deps: seq<Edge>, ids: seq<Uuid>, x: Uuid): int {
    if ids == [] then -1
    else if ids[|ids| - 1] in Ups(deps, x) then |ids| - 1
    else LastUp(deps, ids[..|ids| - 1], x)
  }

  ghost predicate Before(deps: seq<Edge>, index: map<Uuid, int>, ids: seq<Uuid>, x: Uuid, y: Uuid) {
    || LastUp(deps, ids, x) < LastUp(deps, ids, y)
    || (LastUp(deps, ids, x) == LastUp(deps, ids, y) && Index(index, x) <= Index(index, y))
  }

  /** `all` is sorted by the position of the last upstream, then by task index. */
  ghost predicate ByLastUpstream(deps: seq<Edge>, index: map<Uuid, int>, ids: seq<Uuid>, all: seq<Uuid>) {
    forall a, b :: 0 <= a < b < |all| ==> Before(deps, index, ids, all[a], all[b])
  }

  /** `frontier` lists level k, and `level` holds its indices in ascending order. */
  ghost predicate IsLevel(nodes: set<Uuid>, deps: seq<Edge>, index: map<Uuid, int>,
                          k: nat, frontier: seq<Uuid>, level: seq<int>)
  {
    && NoDup(frontier) && frontier != []
    && Elems(frontier) == Stage(nodes, deps, k + 1) - Stage(nodes, deps, k)
    && SortedBy(level, IntKey) && multiset(level) == multiset(IndicesOf(frontier, index))
  }

  ghost function Flatten(fs: seq<seq<Uuid>>): seq<Uuid> {
    if fs == [] then [] else Flatten(fs[..|fs| - 1]) + fs[|fs| - 1]
  }

  // ---------------------------------------------------------------- Kahn state

  /** The in-degree of x once the edges out of `done` are gone. */
  ghost function Degree(deps: seq<Edge>, x: Uuid, done: set<Uuid>): int {
    InCount(deps, x) - |Ups(deps, x) * done|
  }

  ghost predicate Counted(nodes: set<Uuid>, deps: seq<Edge>, inDeg: map<Uuid, int>, done: set<Uuid>) {
    && nodes <= inDeg.Keys
    && (forall x :: x in inDeg ==> inDeg[x] == Degree(deps, x, done))
  }

  ghost predicate Waiting(nodes: set<Uuid>, deps: seq<Edge>, done: set<Uuid>, x: Uuid) {
    x in nodes && x !in done && Ready(deps, x, done)
  }

  /** What the counters and the queue mean once `done` has been visited. */
  ghost predicate Kahn(nodes: set<Uuid>, deps: seq<Edge>, inDeg: map<Uuid, int>, done: set<Uuid>, queue: seq<Uuid>) {
    && done <= nodes
    && Counted(nodes, deps, inDeg, done)
    && (forall x :: x in done ==> Ready(deps, x, done))
    && NoDup(queue)
    && (forall x :: x in queue <==> Waiting(nodes, deps, done, x))
  }

  ghost function NewlyReady(deps: seq<Edge>, downs: seq<Uuid>, done: set<Uuid>): seq<Uuid> {
    if downs == [] then []
    else (if Ready(deps, downs[0], done) then [downs[0]] else []) + NewlyReady(deps, downs[1..], done)
  }

  lemma {:induction false} NewlyReadyElems(deps: seq<Edge>, downs: seq<Uuid>, done: set<Uuid>)
    requires NoDup(downs)
    ensures NoDup(NewlyReady(deps, downs, done))
    ensures forall x :: x in NewlyReady(deps, downs, done) <==> x in downs && Ready(deps, x, done)
  {
    if downs != [] {
      NewlyReadyElems(deps, downs[1..], done);
      assert downs == [downs[0]] + downs[1..];
    }
  }

  /** Visiting `node` lowers the degree of exactly its dependents, by one. */
  lemma DegreeStep(deps: seq<Edge>, x: Uuid, node: Uuid, done: set<Uuid>)
    requires node !in done
    ensures Degree(deps, x, done + {node}) == Degree(deps, x, done) - if x in Downs(deps, node) then 1 else 0
    ensures Degree(deps, x, done) == 0 <==> Ready(deps, x, done)
  {
    ZeroIffReady(deps, x, done);
    if x in Downs(deps, node) {
      assert Ups(deps, x) * (done + {node}) == Ups(deps, x) * done + {node};
    } else {
      assert Edge(node, x) !in deps;
      assert Ups(deps, x) * (done + {node}) == Ups(deps, x) * done;
    }
  }

  /** `inDeg` is `inDeg0` with the counters of `lowered` one lower. */
  ghost predicate Lowered(inDeg0: map<Uuid, int>, inDeg: map<Uuid, int>, lowered: set<Uuid>) {
    && inDeg.Keys == inDeg0.Keys
    && forall x :: x in inDeg ==> inDeg[x] == inDeg0[x] - if x in lowered then 1 else 0
  }

  /** The entries of `downs` whose counter stands at 1. */
  ghost function Ones(inDeg: map<Uuid, int>, downs: seq<Uuid>): seq<Uuid> {
    if downs == [] then []
    else (if Index(inDeg, downs[0]) == 1 then [downs[0]] else []) + Ones(inDeg, downs[1..])
  }

  /** The inner loop both sorts share: decrement every dependent of the visited node and enqueue
      the ones whose count reaches 0, in the order given. */
  method Decrement(downs: seq<Uuid>, inDeg0: map<Uuid, int>, queue0: seq<Uuid>)
    returns (inDeg: map<Uuid, int>, queue: seq<Uuid>)
    requires NoDup(downs) && forall x :: x in downs ==> x in inDeg0
    ensures Lowered(inDeg0, inDeg, Elems(downs))
    ensures queue == queue0 + Ones(inDeg0, downs)
  {
    inDeg, queue := inDeg0, queue0;
    ghost var seen := {};
    for i := 0 to |downs|
      invariant forall j :: 0 <= j < |downs| ==> (downs[j] in seen <==> j < i)
      invariant seen <= Elems(downs)
      invariant Lowered(inDeg0, inDeg, seen)
      invariant queue0 + Ones(inDeg0, downs) == queue + Ones(inDeg0, downs[i..])
    {
      var d := downs[i];
      assert downs[i..][0] == d && downs[i..][1..] == downs[i + 1..];
      inDeg := inDeg[d := inDeg[d] - 1];
      seen := seen + {d};
      if inDeg[d] == 0 {
        queue := queue + [d];
      }
    }
    assert seen == Elems(downs);
  }

  lemma DependentDegree(nodes: set<Uuid>, deps: seq<Edge>, done: set<Uuid>, node: Uuid, inDeg0: map<Uuid, int>, d: Uuid)
    requires Counted(nodes, deps, inDeg0, done) && node !in done
    requires d in Downs(deps, node) && d in nodes
    ensures d in inDeg0
    ensures Index(inDeg0, d) == 1 <==> Ready(deps, d, done + {node})
  {
    DegreeStep(deps, d, node, done);
    ZeroIffReady(deps, d, done + {node});
  }

  lemma {:induction false} OnesAreNewlyReady(nodes: set<Uuid>, deps: seq<Edge>, done: set<Uuid>, node: Uuid,
                                             downs: seq<Uuid>, inDeg0: map<Uuid, int>)
    requires Counted(nodes, deps, inDeg0, done) && node !in done
    requires Elems(downs) <= Downs(deps, node) && Elems(downs) <= nodes
    ensures Ones(inDeg0, downs) == NewlyReady(deps, downs, done + {node})
  {
    if downs != [] {
      assert downs[0] in Elems(downs);
      assert Elems(downs[1..]) <= Elems(downs);
      OnesAreNewlyReady(nodes, deps, done, node, downs[1..], inDeg0);
      DependentDegree(nodes, deps, done, node, inDeg0, downs[0]);
    }
  }

  lemma VisitKeepsKahn(nodes: set<Uuid>, deps: seq<Edge>, done: set<Uuid>, node: Uuid, downs: seq<Uuid>,
                       inDeg0: map<Uuid, int>, queue0: seq<Uuid>, inDeg: map<Uuid, int>)
    requires Kahn(nodes, deps, inDeg0, done, [node] + queue0)
    requires NoDup(downs) && Elems(downs) == Downs(deps, node) && Elems(downs) <= nodes
    requires Lowered(inDeg0, inDeg, Elems(downs))
    ensures Ones(inDeg0, downs) == NewlyReady(deps, downs, done + {node})
    ensures Kahn(nodes, deps, inDeg, done + {node}, queue0 + Ones(inDeg0, downs))
  {
    assert ([node] + queue0)[0] == node;
    assert Waiting(nodes, deps, done, node);
    OnesAreNewlyReady(nodes, deps, done, node, downs, inDeg0);
    forall x | x in inDeg ensures inDeg[x] == Degree(deps, x, done + {node}) {
      DegreeStep(deps, x, node, done);
    }
    VisitedStaysReady(nodes, deps, done, node);
    QueueStep(nodes, deps, done, node, downs, queue0);
  }

  lemma VisitedStaysReady(nodes: set<Uuid>, deps: seq<Edge>, done: set<Uuid>, node: Uuid)
    requires forall x :: x in done ==> Ready(deps, x, done)
    requires Ready(deps, node, done)
    ensures forall x :: x in done + {node} ==> Ready(deps, x, done + {node})
  {
  }

  /** The queue afterwards: what waited before, minus `node`, plus the dependents just released. */
  lemma WaitingStep(nodes: set<Uuid>, deps: seq<Edge>, done: set<Uuid>, node: Uuid, x: Uuid)
    requires Waiting(nodes, deps, done, node) && Downs(deps, node) <= nodes
    requires forall y :: y in done ==> Ready(deps, y, done)
    ensures Waiting(nodes, deps, done + {node}, x)
            <==> (x != node && Waiting(nodes, deps, done, x)) || (x in Downs(deps, node) && Ready(deps, x, done + {node}))
    ensures x in Downs(deps, node) ==> !Waiting(nodes, deps, done, x)
  {
    if x in Downs(deps, node) {
      assert node in Ups(deps, x);
    } else {
      assert Edge(node, x) !in deps;
      assert node !in Ups(deps, x);
    }
  }

  lemma QueueStep(nodes: set<Uuid>, deps: seq<Edge>, done: set<Uuid>, node: Uuid, downs: seq<Uuid>, queue0: seq<Uuid>)
    requires NoDup([node] + queue0) && forall x :: x in [node] + queue0 <==> Waiting(nodes, deps, done, x)
    requires forall y :: y in done ==> Ready(deps, y, done)
    requires NoDup(downs) && Elems(downs) == Downs(deps, node) && Elems(downs) <= nodes
    ensures NoDup(queue0 + NewlyReady(deps, downs, done + {node}))
    ensures forall x :: x in queue0 + NewlyReady(deps, downs, done + {node}) <==> Waiting(nodes, deps, done + {node}, x)
  {
    var queue1 := [node] + queue0;
    assert queue1[0] == node;
    var added := NewlyReady(deps, downs, done + {node});
    NewlyReadyElems(deps, downs, done + {node});
    forall x
      ensures x in queue0 <==> x != node && Waiting(nodes, deps, done, x)
      ensures x in added ==> !Waiting(nodes, deps, done, x)
      ensures x in queue0 + added <==> Waiting(nodes, deps, done + {node}, x)
    {
      WaitingStep(nodes, deps, done, node, x);
      assert x in downs <==> x in Elems(downs);
      if x in queue0 {
        var i :| 0 <= i < |queue0| && queue0[i] == x;
        assert queue1[i + 1] == x;
      }
    }
    assert forall i :: 0 <= i < |queue0| ==> queue0[i] == queue1[i + 1];
    assert NoDup(queue0);
    NoDupConcat(queue0, added);
  }

  lemma NoDupConcat(a: seq<Uuid>, b: seq<Uuid>)
    requires NoDup(a) && NoDup(b) && forall x :: x in a ==> x !in b
    ensures NoDup(a + b)
  {
    forall i, j | 0 <= i < j < |a + b| ensures (a + b)[i] != (a + b)[j] {
      if i < |a| && j >= |a| {
        assert a[i] in a && b[j - |a|] in b;
      }
    }
  }

  // ---------------------------------------------------------------- iterating over sets

  /** Iterating over a set yields its elements once each, in no particular order. */
  method Enumerate(s: set<Uuid>) returns (q: seq<Uuid>)
    ensures Elems(q) == s && NoDup(q)
  {
    q := [];
    var rest := s;
    while rest != {}
      invariant Elems(q) + rest == s && Elems(q) !! rest && NoDup(q)
      decreases rest
    {
      ghost var some := NonEmpty(rest);
      var x :| x in rest;
      assert x !in Elems(q);
      q := q + [x];
      rest := rest - {x};
    }
  }

  lemma PermutationElems(p: seq<Uuid>, q: seq<Uuid>)
    requires multiset(p) == multiset(q) && NoDup(p)
    ensures Elems(q) == Elems(p) && NoDup(q)
  {
    forall x ensures x in p <==> x in q {
      assert x in p <==> x in multiset(p);
      assert x in q <==> x in multiset(q);
    }
    assert |p| == |multiset(p)| == |multiset(q)| == |q|;
    NoDupSize(p);
    SizeNoDup(q);
  }

  /** With as many distinct entries as entries, nothing repeats. */
  lemma {:induction false} SizeNoDup(q: seq<Uuid>)
    ensures |Elems(q)| <= |q|
    ensures |Elems(q)| == |q| ==> NoDup(q)
  {
    if q != [] {
      var n := |q| - 1;
      SizeNoDup(q[..n]);
      assert q == q[..n] + [q[n]];
      assert Elems(q) == Elems(q[..n]) + {q[n]};
      if q[n] in Elems(q[..n]) {
        assert Elems(q) == Elems(q[..n]);
      }
    }
  }

  /** `sorted(ids, key=index)`: ties come out in whatever order the set yields them. */
  method SortByIndex(ids: set<Uuid>, index: map<Uuid, int>) returns (sorted: seq<Uuid>)
    ensures Elems(sorted) == ids && NoDup(sorted) && SortedBy(sorted, IndexKey(index))
  {
    var q := Enumerate(ids);
    sorted := SortBy(q, IndexKey(index));
    SortIsSorted(q, IndexKey(index));
    PermutationElems(q, sorted);
  }

  // ---------------------------------------------------------------- degrees

  lemma AddEdge(deps: seq<Edge>, e: Edge)
    ensures forall x :: InCount(deps + [e], x) == InCount(deps, x) + if e.down == x then 1 else 0
    ensures forall x :: Downs(deps + [e], x) == Downs(deps, x) + if e.up == x then {e.down} else {}
    ensures (set d | d in deps + [e] :: d.down) == (set d | d in deps :: d.down) + {e.down}
  {
    assert (deps + [e])[..|deps|] == deps;
    forall x ensures Downs(deps + [e], x) == Downs(deps, x) + if e.up == x then {e.down} else {} {
      assert forall d :: d in deps + [e] <==> d in deps || d == e;
    }
  }

  /** `inDeg` holds the in-degrees of `deps`, 0 where it has no entry. */
  ghost predicate Degrees(inDeg: map<Uuid, int>, deps: seq<Edge>) {
    forall x :: Index(inDeg, x) == InCount(deps, x)
  }

  ghost predicate Dependents(adjacency: map<Uuid, set<Uuid>>, deps: seq<Edge>) {
    forall x :: Neighbours(adjacency, x) == Downs(deps, x)
  }

  function Neighbours(adjacency: map<Uuid, set<Uuid>>, x: Uuid): set<Uuid> {
    if x in adjacency then adjacency[x] else {}
  }

  lemma DegreesSnoc(inDeg: map<Uuid, int>, deps: seq<Edge>, e: Edge)
    requires Degrees(inDeg, deps)
    ensures Degrees(inDeg[e.down := Index(inDeg, e.down) + 1], deps + [e])
  {
    AddEdge(deps, e);
  }

  lemma DependentsSnoc(adjacency: map<Uuid, set<Uuid>>, deps: seq<Edge>, e: Edge)
    requires Dependents(adjacency, deps)
    ensures Dependents(adjacency[e.up := Neighbours(adjacency, e.up) + {e.down}], deps + [e])
  {
    AddEdge(deps, e);
  }

  /** Count in-degrees and collect dependents, one edge at a time; `ids` start at degree 0. */
  method CountEdges(ids: seq<Uuid>, deps: seq<Edge>) returns (adjacency: map<Uuid, set<Uuid>>, inDeg: map<Uuid, int>)
    ensures Degrees(inDeg, deps) && Dependents(adjacency, deps)
    ensures inDeg.Keys == Elems(ids) + set e | e in deps :: e.down
  {
    adjacency := map[];
    inDeg := map x | x in ids :: 0;
    for i := 0 to |deps|
      invariant Degrees(inDeg, deps[..i]) && Dependents(adjacency, deps[..i])
      invariant inDeg.Keys == Elems(ids) + set e | e in deps[..i] :: e.down
    {
      var e := deps[i];
      assert deps[..i + 1] == deps[..i] + [e];
      DegreesSnoc(inDeg, deps[..i], e);
      DependentsSnoc(adjacency, deps[..i], e);
      AddEdge(deps[..i], e);
      adjacency := adjacency[e.up := Neighbours(adjacency, e.up) + {e.down}];
      inDeg := inDeg[e.down := Index(inDeg, e.down) + 1];
    }
    assert deps[..|deps|] == deps;
  }

  // ---------------------------------------------------------------- the queue's order

  lemma LastUpSnoc(deps: seq<Edge>, ids: seq<Uuid>, node: Uuid, x: Uuid)
    ensures LastUp(deps, ids + [node], x) == if node in Ups(deps, x) then |ids| else LastUp(deps, ids, x)
  {
    assert (ids + [node])[..|ids|] == ids;
  }

  lemma {:induction false} LastUpBound(deps: seq<Edge>, ids: seq<Uuid>, x: Uuid)
    ensures -1 <= LastUp(deps, ids, x) < |ids|
  {
    if ids != [] && ids[|ids| - 1] !in Ups(deps, x) {
      LastUpBound(deps, ids[..|ids| - 1], x);
    }
  }

  lemma {:induction false} NewlyReadySorted(deps: seq<Edge>, downs: seq<Uuid>, done: set<Uuid>, key: Uuid -> Key)
    requires SortedBy(downs, key)
    ensures SortedBy(NewlyReady(deps, downs, done), key)
    ensures forall x :: x in NewlyReady(deps, downs, done) ==> x in downs
  {
    if downs != [] {
      TailSorted(downs, key);
      NewlyReadySorted(deps, downs[1..], done, key);
      var r := NewlyReady(deps, downs[1..], done);
      forall y | y in r ensures key(downs[0]).Leq(key(y)) {
        assert y in downs[1..];
      }
      ConsSorted(downs[0], r, key);
    }
  }

  /** Appending the dependents a visit releases keeps the whole order sorted by last upstream. */
  lemma OrderStep(deps: seq<Edge>, index: map<Uuid, int>, ids: seq<Uuid>, node: Uuid, all: seq<Uuid>, added: seq<Uuid>)
    requires ByLastUpstream(deps, index, ids, all)
    requires forall x :: x in all ==> node !in Ups(deps, x)
    requires forall x :: x in added ==> node in Ups(deps, x)
    requires SortedBy(added, IndexKey(index))
    ensures ByLastUpstream(deps, index, ids + [node], all + added)
  {
    forall a, b | 0 <= a < b < |all + added|
      ensures Before(deps, index, ids + [node], (all + added)[a], (all + added)[b])
    {
      var x, y := (all + added)[a], (all + added)[b];
      LastUpSnoc(deps, ids, node, x);
      LastUpSnoc(deps, ids, node, y);
      LastUpBound(deps, ids, x);
      if b < |all| {
        assert x in all && y in all;
        assert Before(deps, index, ids, all[a], all[b]);
      } else {
        assert added[b - |all|] == y && y in added;
        if a < |all| {
          assert x in all;
        } else {
          assert added[a - |all|] == x && x in added;
          assert IndexKey(index)(x).Leq(IndexKey(index)(y));
        }
      }
    }
  }

  // ---------------------------------------------------------------- the sort

  /** The state of the sort after the tasks in `ids` have been visited, in that order. */
  ghost predicate SortState(nodes: set<Uuid>, deps: seq<Edge>, index: map<Uuid, int>,
                          inDeg: map<Uuid, int>, ids: seq<Uuid>, queue: seq<Uuid>)
  {
    && NoDup(ids)
    && Kahn(nodes, deps, inDeg, Elems(ids), queue)
    && UpstreamsFirst(deps, ids)
    && (forall x :: x in ids ==> Downs(deps, x) <= nodes)
    && ByLastUpstream(deps, index, ids, ids + queue)
  }

  lemma FrontIsWaiting(nodes: set<Uuid>, deps: seq<Edge>, inDeg: map<Uuid, int>, done: set<Uuid>, queue: seq<Uuid>)
    requires Kahn(nodes, deps, inDeg, done, queue) && queue != []
    ensures queue[0] in nodes && queue[0] !in done && Ups(deps, queue[0]) <= done
    ensures queue == [queue[0]] + queue[1..]
  {
    assert Waiting(nodes, deps, done, queue[0]);
  }

  lemma UpstreamsFirstSnoc(deps: seq<Edge>, ids: seq<Uuid>, node: Uuid)
    requires UpstreamsFirst(deps, ids) && Ups(deps, node) <= Elems(ids)
    ensures UpstreamsFirst(deps, ids + [node])
    ensures Elems(ids + [node]) == Elems(ids) + {node}
  {
    forall j | 0 <= j < |ids + [node]| ensures Ups(deps, (ids + [node])[j]) <= Elems((ids + [node])[..j]) {
      if j < |ids| {
        assert (ids + [node])[..j] == ids[..j];
      } else {
        assert (ids + [node])[..j] == ids;
      }
    }
  }

  lemma NotYetUpstream(nodes: set<Uuid>, deps: seq<Edge>, inDeg: map<Uuid, int>, ids: seq<Uuid>, queue: seq<Uuid>, node: Uuid)
    requires Kahn(nodes, deps, inDeg, Elems(ids), queue) && node !in ids
    ensures forall x :: x in ids + queue ==> node !in Ups(deps, x)
  {
    forall x | x in ids + queue ensures node !in Ups(deps, x) {
      if x in ids {
        assert x in Elems(ids);
      } else {
        assert x in queue && Waiting(nodes, deps, Elems(ids), x);
      }
    }
  }

  lemma ReleasedOrder(nodes: set<Uuid>, deps: seq<Edge>, index: map<Uuid, int>, inDeg: map<Uuid, int>,
                      ids: seq<Uuid>, node: Uuid, queue0: seq<Uuid>, downs: seq<Uuid>, done: set<Uuid>)
    requires Kahn(nodes, deps, inDeg, Elems(ids), [node] + queue0) && node !in ids
    requires ByLastUpstream(deps, index, ids, ids + ([node] + queue0))
    requires Elems(downs) == Downs(deps, node) && SortedBy(downs, IndexKey(index))
    ensures ByLastUpstream(deps, index, ids + [node], (ids + [node]) + (queue0 + NewlyReady(deps, downs, done)))
  {
    var added := NewlyReady(deps, downs, done);
    NewlyReadySorted(deps, downs, done, IndexKey(index));
    NotYetUpstream(nodes, deps, inDeg, ids, [node] + queue0, node);
    forall x | x in added ensures node in Ups(deps, x) {
      assert x in Elems(downs);
    }
    OrderStep(deps, index, ids, node, ids + ([node] + queue0), added);
    assert ids + ([node] + queue0) + added == (ids + [node]) + (queue0 + added);
  }

  lemma SortStep(nodes: set<Uuid>, deps: seq<Edge>, index: map<Uuid, int>, inDeg0: map<Uuid, int>,
                 ids: seq<Uuid>, node: Uuid, queue0: seq<Uuid>, downs: seq<Uuid>, inDeg: map<Uuid, int>)
    requires SortState(nodes, deps, index, inDeg0, ids, [node] + queue0)
    requires NoDup(downs) && Elems(downs) == Downs(deps, node) && Elems(downs) <= nodes
    requires SortedBy(downs, IndexKey(index))
    requires Lowered(inDeg0, inDeg, Elems(downs))
    ensures SortState(nodes, deps, index, inDeg, ids + [node], queue0 + Ones(inDeg0, downs))
  {
    FrontIsWaiting(nodes, deps, inDeg0, Elems(ids), [node] + queue0);
    VisitKeepsKahn(nodes, deps, Elems(ids), node, downs, inDeg0, queue0, inDeg);
    UpstreamsFirstSnoc(deps, ids, node);
    ReleasedOrder(nodes, deps, index, inDeg0, ids, node, queue0, downs, Elems(ids) + {node});
    NoDupConcat(ids, [node]);
  }

  lemma StartIsWaiting(nodes: set<Uuid>, deps: seq<Edge>, inDeg: map<Uuid, int>, x: Uuid)
    requires Degrees(inDeg, deps) && x in inDeg
    ensures inDeg[x] == Degree(deps, x, {})
    ensures inDeg[x] == 0 && x in nodes <==> Waiting(nodes, deps, {}, x)
  {
    ZeroIffReady(deps, x, {});
    assert Ups(deps, x) * {} == {};
    assert Index(inDeg, x) == inDeg[x];
  }

  lemma SortStart(nodes: set<Uuid>, deps: seq<Edge>, index: map<Uuid, int>, inDeg: map<Uuid, int>, queue: seq<Uuid>)
    requires nodes <= inDeg.Keys && Degrees(inDeg, deps)
    requires NoDup(queue) && SortedBy(queue, IndexKey(index))
    requires forall x :: x in queue <==> x in nodes && inDeg[x] == 0
    ensures SortState(nodes, deps, index, inDeg, [], queue)
  {
    assert Elems([]) == {};
    forall x ensures x in queue <==> Waiting(nodes, deps, {}, x) {
      if x in nodes {
        StartIsWaiting(nodes, deps, inDeg, x);
      }
    }
    forall x | x in inDeg ensures inDeg[x] == Degree(deps, x, {}) {
      StartIsWaiting(nodes, deps, inDeg, x);
    }
    forall a, b | 0 <= a < b < |[] + queue| ensures Before(deps, index, [], ([] + queue)[a], ([] + queue)[b]) {
      assert IndexKey(index)(queue[a]).Leq(IndexKey(index)(queue[b]));
    }
  }

  lemma ZeroDegreeIsTask(nodes: set<Uuid>, deps: seq<Edge>, inDeg: map<Uuid, int>, x: Uuid)
    requires Degrees(inDeg, deps) && inDeg.Keys == nodes + set e | e in deps :: e.down
    requires x in inDeg && inDeg[x] == 0
    ensures x in nodes
  {
    if x !in nodes {
      var e :| e in deps && e.down == x;
      assert e.up in Ups(deps, x);
      CountUps(deps, x);
      assert false;
    }
  }

  lemma LevelStart(nodes: set<Uuid>, deps: seq<Edge>, inDeg: map<Uuid, int>, k: nat, frontier: seq<Uuid>)
    requires Kahn(nodes, deps, inDeg, Stage(nodes, deps, k), frontier)
    ensures Elems(frontier) == Stage(nodes, deps, k + 1) - Stage(nodes, deps, k)
    ensures Stage(nodes, deps, k) + Elems(frontier) == Stage(nodes, deps, k + 1)
    ensures frontier == [] ==> Stage(nodes, deps, k) == Final(nodes, deps)
  {
    StageMonotone(nodes, deps, k);
    FinalIsLimit(nodes, deps, k);
    forall x ensures x in frontier <==> x in Stage(nodes, deps, k + 1) && x !in Stage(nodes, deps, k) {
      assert x in frontier <==> Waiting(nodes, deps, Stage(nodes, deps, k), x);
    }
  }

  /** One finished run of the sort. */
  ghost predicate IsTopologicalOrder(tasks: seq<Task>, deps: seq<Edge>, ids: seq<Uuid>, frontiers: seq<seq<Uuid>>, r: Order)
    requires r.Ordered?
  {
    var nodes, index := Elems(Ids(tasks)), IndexOf(tasks);
    && NoDup(ids) && Elems(ids) == nodes
    && UpstreamsFirst(deps, ids)
    && ByLastUpstream(deps, index, ids, ids)
    && r.taskIndices == IndicesOf(ids, index)
    && IsLayering(nodes, deps, index, ids, frontiers, r.levels)
  }

  ghost predicate IsLayering(nodes: set<Uuid>, deps: seq<Edge>, index: map<Uuid, int>,
                             ids: seq<Uuid>, frontiers: seq<seq<Uuid>>, levels: seq<seq<int>>)
  {
    && Flatten(frontiers) == ids
    && Elems(ids) == Stage(nodes, deps, |levels|)
    && |frontiers| == |levels|
    && forall k :: 0 <= k < |levels| ==> IsLevel(nodes, deps, index, k, frontiers[k], levels[k])
  }

  lemma LayeringSnoc(nodes: set<Uuid>, deps: seq<Edge>, index: map<Uuid, int>, ids: seq<Uuid>,
                     frontiers: seq<seq<Uuid>>, levels: seq<seq<int>>, frontier: seq<Uuid>, level: seq<int>)
    requires IsLayering(nodes, deps, index, ids, frontiers, levels)
    requires IsLevel(nodes, deps, index, |levels|, frontier, level)
    requires Elems(ids + frontier) == Stage(nodes, deps, |levels| + 1)
    ensures IsLayering(nodes, deps, index, ids + frontier, frontiers + [frontier], levels + [level])
  {
    assert (frontiers + [frontier])[..|frontiers|] == frontiers;
    var fs, ls := frontiers + [frontier], levels + [level];
    forall k | 0 <= k < |ls| ensures IsLevel(nodes, deps, index, k, fs[k], ls[k]) {
      if k < |levels| {
        assert fs[k] == frontiers[k] && ls[k] == levels[k];
      }
    }
  }

  lemma IndicesSnoc(ids: seq<Uuid>, x: Uuid, index: map<Uuid, int>)
    ensures IndicesOf(ids + [x], index) == IndicesOf(ids, index) + [Index(index, x)]
  {
  }

  /** Pop one task and release its dependents; `false` is the KeyError of a dependent outside the job. */
  method Visit(ghost nodes: set<Uuid>, ghost deps: seq<Edge>, index: map<Uuid, int>, adjacency: map<Uuid, set<Uuid>>,
               ghost ids: seq<Uuid>, node: Uuid, inDeg0: map<Uuid, int>, queue0: seq<Uuid>)
    returns (found: bool, inDeg: map<Uuid, int>, queue: seq<Uuid>)
    requires nodes == index.Keys && Dependents(adjacency, deps)
    requires SortState(nodes, deps, index, inDeg0, ids, [node] + queue0)
    ensures found <==> Downs(deps, node) <= nodes
    ensures found ==> SortState(nodes, deps, index, inDeg, ids + [node], queue) && queue0 <= queue
  {
    found, inDeg, queue := Neighbours(adjacency, node) <= index.Keys, inDeg0, queue0;
    if found {
      var downs := SortByIndex(Neighbours(adjacency, node), index);
      forall x | x in downs ensures x in inDeg0 {
        assert x in Elems(downs);
      }
      inDeg, queue := Decrement(downs, inDeg0, queue0);
      SortStep(nodes, deps, index, inDeg0, ids, node, queue0, downs, inDeg);
    }
  }

  /** Everything that is in the queue when the level starts, in order. */
  method RunLevel(ghost nodes: set<Uuid>, ghost deps: seq<Edge>, index: map<Uuid, int>, adjacency: map<Uuid, set<Uuid>>,
                  ghost ids: seq<Uuid>, inDeg0: map<Uuid, int>, frontier: seq<Uuid>)
    returns (found: bool, inDeg: map<Uuid, int>, queue: seq<Uuid>, levelIndices: seq<int>)
    requires nodes == index.Keys && Dependents(adjacency, deps)
    requires SortState(nodes, deps, index, inDeg0, ids, frontier)
    ensures !found ==> exists x :: x in frontier && !(Downs(deps, x) <= nodes)
    ensures found ==> SortState(nodes, deps, index, inDeg, ids + frontier, queue)
    ensures found ==> levelIndices == IndicesOf(frontier, index)
  {
    inDeg, queue, levelIndices := inDeg0, frontier, [];
    assert ids + frontier[..0] == ids;
    for j := 0 to |frontier|
      invariant SortState(nodes, deps, index, inDeg, ids + frontier[..j], queue)
      invariant frontier[j..] <= queue
      invariant levelIndices == IndicesOf(frontier[..j], index)
    {
      var node := queue[0];
      assert node == frontier[j..][0] && queue == [node] + queue[1..];
      assert frontier[..j + 1] == frontier[..j] + [node];
      assert (ids + frontier[..j]) + [node] == ids + frontier[..j + 1];
      assert frontier[j + 1..] == frontier[j..][1..] <= queue[1..];
      found, inDeg, queue := Visit(nodes, deps, index, adjacency, ids + frontier[..j], node, inDeg, queue[1..]);
      if !found {
        return;
      }
      IndicesSnoc(frontier[..j], node, index);
      levelIndices := levelIndices + [Index(index, node)];
    }
    assert frontier[..|frontier|] == frontier;
    found := true;
  }

  /** The loop of `topological_order`: level after level until the queue is empty. */
  method RunLevels(ghost nodes: set<Uuid>, ghost deps: seq<Edge>, index: map<Uuid, int>, adjacency: map<Uuid, set<Uuid>>,
                   inDeg0: map<Uuid, int>, queue0: seq<Uuid>)
    returns (found: bool, orderedIndices: seq<int>, levels: seq<seq<int>>, visited: nat,
             ghost ids: seq<Uuid>, ghost frontiers: seq<seq<Uuid>>, ghost last: map<Uuid, int>)
    requires nodes == index.Keys && Dependents(adjacency, deps)
    requires SortState(nodes, deps, index, inDeg0, [], queue0)
    ensures !found ==> LeavesJob(nodes, deps)
    ensures found ==> SortState(nodes, deps, index, last, ids, []) && IsLayering(nodes, deps, index, ids, frontiers, levels)
    ensures found ==> orderedIndices == IndicesOf(ids, index) && visited == |ids|
  {
    var inDeg, queue := inDeg0, queue0;
    found, orderedIndices, levels, visited := true, [], [], 0;
    ids, frontiers, last := [], [], inDeg0;
    while |queue| > 0
      invariant SortState(nodes, deps, index, inDeg, ids, queue)
      invariant IsLayering(nodes, deps, index, ids, frontiers, levels)
      invariant orderedIndices == IndicesOf(ids, index) && visited == |ids|
      decreases nodes - Elems(ids)
    {
      ghost var frontier := queue;
      LevelStart(nodes, deps, inDeg, |levels|, frontier);
      var levelIndices;
      found, inDeg, queue, levelIndices := RunLevel(nodes, deps, index, adjacency, ids, inDeg, queue);
      if !found {
        LeavingNode(nodes, deps, |levels|, frontier);
        return;
      }
      LayeringStep(nodes, deps, index, ids, frontiers, levels, frontier, levelIndices);
      orderedIndices := orderedIndices + levelIndices;
      visited := visited + |levelIndices|;
      levels := levels + [SortBy(levelIndices, IntKey)];
      frontiers := frontiers + [frontier];
      ids := ids + frontier;
    }
    found, last := true, inDeg;
  }

  /** `topological_order`: Kahn's algorithm in batches of one level.  `ids` and `frontiers` name the
      tasks whose indices the result lists. */
  method TopologicalOrder(tasks: seq<Task>, deps: seq<Edge>)
    returns (r: Order, ghost ids: seq<Uuid>, ghost frontiers: seq<seq<Uuid>>)
    requires NoDup(Ids(tasks))  // the primary key
    ensures r.ForeignTask? <==> LeavesJob(Elems(Ids(tasks)), deps)
    ensures r.Ordered? <==> !LeavesJob(Elems(Ids(tasks)), deps) && Final(Elems(Ids(tasks)), deps) == Elems(Ids(tasks))
    ensures r.Ordered? ==> IsTopologicalOrder(tasks, deps, ids, frontiers, r)
  {
    ghost var nodes := Elems(Ids(tasks));
    var index := IndexOf(tasks);
    var adjacency, inDeg := CountEdges(Ids(tasks), deps);
    var queue := SortByIndex((set x | x in inDeg && inDeg[x] == 0), index);
    StartState(nodes, deps, index, inDeg, queue);
    ghost var last;
    var found, orderedIndices, levels, visited;
    found, orderedIndices, levels, visited, ids, frontiers, last := RunLevels(nodes, deps, index, adjacency, inDeg, queue);
    if !found {
      return ForeignTask, ids, frontiers;
    }
    SortEnd(nodes, deps, index, last, ids, |levels|, tasks);
    r := if visited != |tasks| then CycleDetected else Ordered(orderedIndices, levels);
  }

  lemma StartState(nodes: set<Uuid>, deps: seq<Edge>, index: map<Uuid, int>, inDeg: map<Uuid, int>, queue: seq<Uuid>)
    requires Degrees(inDeg, deps) && inDeg.Keys == nodes + set e | e in deps :: e.down
    requires Elems(queue) == set x | x in inDeg && inDeg[x] == 0
    requires NoDup(queue) && SortedBy(queue, IndexKey(index))
    ensures SortState(nodes, deps, index, inDeg, [], queue)
  {
    forall x ensures x in queue <==> x in nodes && inDeg[x] == 0 {
      assert x in queue <==> x in Elems(queue);
      if x in queue {
        ZeroDegreeIsTask(nodes, deps, inDeg, x);
      }
    }
    SortStart(nodes, deps, index, inDeg, queue);
  }

  lemma IndicesConcat(a: seq<Uuid>, b: seq<Uuid>, index: map<Uuid, int>)
    ensures IndicesOf(a + b, index) == IndicesOf(a, index) + IndicesOf(b, index)
  {
  }

  lemma ElemsConcat(a: seq<Uuid>, b: seq<Uuid>)
    ensures Elems(a + b) == Elems(a) + Elems(b)
    ensures b != [] && Elems(a) !! Elems(b) ==> Elems(a) < Elems(a + b)
  {
    if b != [] {
      assert b[0] in Elems(b);
    }
  }

  lemma LayeringStep(nodes: set<Uuid>, deps: seq<Edge>, index: map<Uuid, int>, ids: seq<Uuid>,
                     frontiers: seq<seq<Uuid>>, levels: seq<seq<int>>, frontier: seq<Uuid>, levelIndices: seq<int>)
    requires IsLayering(nodes, deps, index, ids, frontiers, levels)
    requires NoDup(frontier) && frontier != [] && levelIndices == IndicesOf(frontier, index)
    requires Elems(frontier) == Stage(nodes, deps, |levels| + 1) - Stage(nodes, deps, |levels|)
    requires Stage(nodes, deps, |levels|) + Elems(frontier) == Stage(nodes, deps, |levels| + 1)
    ensures IsLayering(nodes, deps, index, ids + frontier, frontiers + [frontier], levels + [SortBy(levelIndices, IntKey)])
    ensures IndicesOf(ids + frontier, index) == IndicesOf(ids, index) + levelIndices
    ensures Elems(ids) < Elems(ids + frontier)
  {
    SortIsSorted(levelIndices, IntKey);
    ElemsConcat(ids, frontier);
    IndicesConcat(ids, frontier, index);
    LayeringSnoc(nodes, deps, index, ids, frontiers, levels, frontier, SortBy(levelIndices, IntKey));
  }

  lemma SortEnd(nodes: set<Uuid>, deps: seq<Edge>, index: map<Uuid, int>, inDeg: map<Uuid, int>, ids: seq<Uuid>,
                k: nat, tasks: seq<Task>)
    requires SortState(nodes, deps, index, inDeg, ids, []) && Elems(ids) == Stage(nodes, deps, k)
    requires NoDup(Ids(tasks)) && nodes == Elems(Ids(tasks))
    ensures Elems(ids) == Final(nodes, deps) && !LeavesJob(nodes, deps)
    ensures |ids| == |tasks| <==> Elems(ids) == nodes
    ensures ids + [] == ids
  {
    LevelStart(nodes, deps, inDeg, k, []);
    NoDupSize(ids);
    NoDupSize(Ids(tasks));
    SubsetSize(Elems(ids), nodes);
  }

  lemma LeavingNode(nodes: set<Uuid>, deps: seq<Edge>, k: nat, frontier: seq<Uuid>)
    requires Elems(frontier) == Stage(nodes, deps, k + 1) - Stage(nodes, deps, k)
    requires exists x :: x in frontier && !(Downs(deps, x) <= nodes)
    ensures LeavesJob(nodes, deps)
  {
    FinalIsLimit(nodes, deps, k + 1);
    var x :| x in frontier && !(Downs(deps, x) <= nodes);
    assert x in Elems(frontier);
  }

  // ---------------------------------------------------------------- what the outcome means

  /** The level-batched sort succeeds exactly on the jobs whose edges stay inside the job, are
      listed once, and form no cycle. */
  lemma SortSucceedsIffAcyclic(nodes: set<Uuid>, deps: seq<Edge>)
    ensures !LeavesJob(nodes, deps) && Final(nodes, deps) == nodes
            <==> && (forall x :: x in nodes ==> Downs(deps, x) <= nodes)
                 && SelfContained(nodes, deps) && !Cyclic(nodes, deps)
  {
    VisitsAllIffAcyclic(nodes, deps);
  }

  /** On the tables the database constraints allow (edges unique, both ends tasks of the job) the
      sort raises exactly when there is a cycle. */
  lemma SortFailsIffCyclic(nodes: set<Uuid>, deps: seq<Edge>)
    requires DistinctEdges(deps)
    requires forall e :: e in deps ==> e.up in nodes && e.down in nodes
    ensures !LeavesJob(nodes, deps)
    ensures Final(nodes, deps) != nodes <==> Cyclic(nodes, deps)
  {
    FinalIsLimit(nodes, deps, 0);
    assert SelfContained(nodes, deps);
    VisitsAllIffAcyclic(nodes, deps);
  }

  lemma LastUpLocal(deps: seq<Edge>, ids: seq<Uuid>, m: nat, x: Uuid)
    requires NoDup(ids) && m <= |ids| && Ups(deps, x) <= Elems(ids[..m])
    ensures LastUp(deps, ids, x) == LastUp(deps, ids[..m], x)
    decreases |ids|
  {
    if m < |ids| {
      var n := |ids| - 1;
      assert ids[n] !in Elems(ids[..m]);
      assert ids[..n][..m] == ids[..m];
      LastUpLocal(deps, ids[..n], m, x);
    } else {
      assert ids[..m] == ids;
    }
  }

  /** What one order says about the task at position n and any task further on. */
  lemma NextIsBefore(deps: seq<Edge>, index: map<Uuid, int>, p: seq<Uuid>, n: nat, y: Uuid)
    requires NoDup(p) && UpstreamsFirst(deps, p) && ByLastUpstream(deps, index, p, p)
    requires n < |p| && y in p && y !in p[..n] && y != p[n]
    requires Ups(deps, y) <= Elems(p[..n])
    ensures Before(deps, index, p[..n], p[n], y)
  {
    assert forall i :: 0 <= i < n ==> p[i] in p[..n];
    var j :| 0 <= j < |p| && p[j] == y;
    assert Before(deps, index, p, p[n], p[j]);
    LastUpLocal(deps, p, n, p[n]);
    LastUpLocal(deps, p, n, y);
  }

  /** With distinct task indices the flat order is a function of the graph alone: the order in which
      sets and dictionaries happen to be iterated never shows. */
  lemma {:induction false} OrderIsDeterministic(deps: seq<Edge>, index: map<Uuid, int>, p: seq<Uuid>, q: seq<Uuid>, n: nat)
    requires Elems(p) == Elems(q) && |p| == |q| && NoDup(p) && NoDup(q)
    requires UpstreamsFirst(deps, p) && UpstreamsFirst(deps, q)
    requires ByLastUpstream(deps, index, p, p) && ByLastUpstream(deps, index, q, q)
    requires forall x, y :: x in p && y in p && Index(index, x) == Index(index, y) ==> x == y
    requires n <= |p|
    ensures p[..n] == q[..n]
  {
    if n > 0 {
      var m := n - 1;
      OrderIsDeterministic(deps, index, p, q, m);
      var x, y := p[m], q[m];
      assert x in Elems(q) && y in Elems(p);
      if x != y {
        assert y !in q[..m] && x !in p[..m];
        NextIsBefore(deps, index, p, m, y);
        NextIsBefore(deps, index, q, m, x);
        assert false;
      }
      assert p[..n] == p[..m] + [x] && q[..n] == q[..m] + [y];
    }
  }

  ghost function WithIndex(nodes: set<Uuid>, index: map<Uuid, int>, v: int): set<Uuid> {
    set x | x in nodes && Index(index, x) == v
  }

  lemma WithIndexSnoc(init: seq<Uuid>, last: Uuid, index: map<Uuid, int>, v: int)
    requires last !in init
    ensures |WithIndex(Elems(init + [last]), index, v)|
            == |WithIndex(Elems(init), index, v)| + if Index(index, last) == v then 1 else 0
  {
    ElemsConcat(init, [last]);
    var before, after := WithIndex(Elems(init), index, v), WithIndex(Elems(init + [last]), index, v);
    assert last !in before;
    if Index(index, last) == v {
      assert after == before + {last};
    } else {
      assert after == before;
    }
  }

  lemma {:induction false} IndexCount(p: seq<Uuid>, index: map<Uuid, int>, v: int)
    requires NoDup(p)
    ensures multiset(IndicesOf(p, index))[v] == |WithIndex(Elems(p), index, v)|
  {
    if p == [] {
      assert WithIndex(Elems(p), index, v) == {};
    } else {
      var n := |p| - 1;
      assert p == p[..n] + [p[n]];
      IndexCount(p[..n], index, v);
      IndicesSnoc(p[..n], p[n], index);
      WithIndexSnoc(p[..n], p[n], index, v);
    }
  }

  lemma SameIndices(p: seq<Uuid>, q: seq<Uuid>, index: map<Uuid, int>)
    requires NoDup(p) && NoDup(q) && Elems(p) == Elems(q)
    ensures |p| == |q|
    ensures multiset(IndicesOf(p, index)) == multiset(IndicesOf(q, index))
  {
    forall v ensures multiset(IndicesOf(p, index))[v] == multiset(IndicesOf(q, index))[v] {
      IndexCount(p, index, v);
      IndexCount(q, index, v);
    }
    NoDupSize(p);
    NoDupSize(q);
  }

  lemma {:induction false} TaskIndices(tasks: seq<Task>, i: nat)
    requires NoDup(Ids(tasks)) && i < |tasks|
    ensures Index(IndexOf(tasks), tasks[i].id) == tasks[i].index
    decreases |tasks|
  {
    var n := |tasks| - 1;
    assert Ids(tasks)[..n] == Ids(tasks[..n]);
    if i < n {
      assert Ids(tasks)[i] != Ids(tasks)[n];
      TaskIndices(tasks[..n], i);
      assert tasks[..n][i].id in Elems(Ids(tasks[..n]));
    }
  }

  function TaskIndexList(tasks: seq<Task>): seq<int> {
    seq(|tasks|, i requires 0 <= i < |tasks| => tasks[i].index)
  }

  lemma PointwiseIndices(ids: seq<Uuid>, index: map<Uuid, int>, tasks: seq<Task>)
    requires |ids| == |tasks| && forall i :: 0 <= i < |tasks| ==> Index(index, ids[i]) == tasks[i].index
    ensures IndicesOf(ids, index) == TaskIndexList(tasks)
  {
  }

  lemma IndicesOfTasks(tasks: seq<Task>)
    requires NoDup(Ids(tasks))
    ensures IndicesOf(Ids(tasks), IndexOf(tasks)) == TaskIndexList(tasks)
  {
    var ids, index := Ids(tasks), IndexOf(tasks);
    forall i | 0 <= i < |tasks| ensures Index(index, ids[i]) == tasks[i].index {
      TaskIndices(tasks, i);
    }
    PointwiseIndices(ids, index, tasks);
  }

  /** The flat result lists the index of every task once. */
  lemma OrderIsPermutation(tasks: seq<Task>, deps: seq<Edge>, ids: seq<Uuid>, frontiers: seq<seq<Uuid>>, r: Order)
    requires NoDup(Ids(tasks)) && r.Ordered? && IsTopologicalOrder(tasks, deps, ids, frontiers, r)
    ensures |r.taskIndices| == |tasks|
    ensures multiset(r.taskIndices) == multiset(TaskIndexList(tasks))
  {
    SameIndices(ids, Ids(tasks), IndexOf(tasks));
    IndicesOfTasks(tasks);
  }

  /** In the flat order every upstream comes before its downstream. */
  lemma OrderRespectsEdges(tasks: seq<Task>, deps: seq<Edge>, ids: seq<Uuid>, frontiers: seq<seq<Uuid>>, r: Order,
                           i: nat, j: nat)
    requires r.Ordered? && IsTopologicalOrder(tasks, deps, ids, frontiers, r)
    requires i < |ids| && j < |ids| && Edge(ids[i], ids[j]) in deps
    ensures i < j
  {
    assert ids[i] in Ups(deps, ids[j]);
    assert ids[i] in Elems(ids[..j]);
    var a :| 0 <= a < j && ids[a] == ids[i];
  }

  /** The levels of a result are the depths of the graph: a task is in level k exactly when its
      longest dependency path has k edges; every task is in one level. */
  lemma LevelsAreDepths(tasks: seq<Task>, deps: seq<Edge>, ids: seq<Uuid>, frontiers: seq<seq<Uuid>>, r: Order, x: Uuid)
    requires r.Ordered? && IsTopologicalOrder(tasks, deps, ids, frontiers, r)
    requires x in ids
    ensures forall k :: 0 <= k < |r.levels| ==> (x in frontiers[k] <==> LongestPath(Elems(Ids(tasks)), deps, x, k))
    ensures exists k :: 0 <= k < |r.levels| && x in frontiers[k]
  {
    var nodes := Elems(Ids(tasks));
    assert x in Elems(ids);
    FinalIsLimit(nodes, deps, |r.levels|);
    forall k | 0 <= k < |r.levels| ensures x in frontiers[k] <==> LongestPath(nodes, deps, x, k) {
      assert IsLevel(nodes, deps, IndexOf(tasks), k, frontiers[k], r.levels[k]);
      assert x in frontiers[k] <==> x in Elems(frontiers[k]);
      LevelIsLongestPath(nodes, deps, x, k);
    }
    var k := SomeLevel(nodes, deps, |r.levels|, x);
    assert IsLevel(nodes, deps, IndexOf(tasks), k, frontiers[k], r.levels[k]);
    assert x in Elems(frontiers[k]);
  }

  lemma {:induction false} FlattenIndices(frontiers: seq<seq<Uuid>>, levels: seq<seq<int>>, index: map<Uuid, int>)
    requires |frontiers| == |levels|
    requires forall k :: 0 <= k < |levels| ==> multiset(levels[k]) == multiset(IndicesOf(frontiers[k], index))
    ensures multiset(Flatten(levels)) == multiset(IndicesOf(Flatten(frontiers), index))
    decreases |levels|
  {
    if levels != [] {
      var n := |levels| - 1;
      FlattenIndices(frontiers[..n], levels[..n], index);
      IndicesConcat(Flatten(frontiers[..n]), frontiers[n], index);
    }
  }

  /** The levels one after the other hold exactly what the flat order holds. */
  lemma LevelsHoldTheFlatOrder(tasks: seq<Task>, deps: seq<Edge>, ids: seq<Uuid>, frontiers: seq<seq<Uuid>>, r: Order)
    requires r.Ordered? && IsTopologicalOrder(tasks, deps, ids, frontiers, r)
    ensures multiset(Flatten(r.levels)) == multiset(r.taskIndices)
  {
    var index := IndexOf(tasks);
    forall k | 0 <= k < |r.levels| ensures multiset(r.levels[k]) == multiset(IndicesOf(frontiers[k], index)) {
      assert IsLevel(Elems(Ids(tasks)), deps, index, k, frontiers[k], r.levels[k]);
    }
    FlattenIndices(frontiers, r.levels, index);
  }

  lemma {:induction false} SomeLevel(nodes: set<Uuid>, deps: seq<Edge>, m: nat, x: Uuid) returns (k: nat)
    requires x in Stage(nodes, deps, m)
    ensures k < m && x in Stage(nodes, deps, k + 1) - Stage(nodes, deps, k)
  {
    if x in Stage(nodes, deps, m - 1) {
      k := SomeLevel(nodes, deps, m - 1, x);
    } else {
      k := m - 1;
    }
  }

  // ---------------------------------------------------------------- validation before writing

  ghost function Endpoints(deps: seq<Edge>): set<Uuid> {
    (set e | e in deps :: e.up) + (set e | e in deps :: e.down)
  }

  lemma {:induction false} ClosedHoldsStages(nodes: set<Uuid>, deps: seq<Edge>, done: set<Uuid>, k: nat)
    requires forall x :: !Waiting(nodes, deps, done, x)
    ensures Stage(nodes, deps, k) <= done
  {
    if k > 0 {
      ClosedHoldsStages(nodes, deps, done, k - 1);
      forall x | x in Stage(nodes, deps, k) ensures x in done {
        assert !Waiting(nodes, deps, done, x);
      }
    }
  }

  lemma WaitingIsFinal(nodes: set<Uuid>, deps: seq<Edge>, done: set<Uuid>, x: Uuid)
    requires Waiting(nodes, deps, done, x) && done <= Final(nodes, deps)
    ensures x in Final(nodes, deps)
  {
    FinalIsLimit(nodes, deps, 0);
  }

  /** Unvisited endpoints that no edge points at get degree 0. */
  method FillZeros(all: set<Uuid>, inDeg0: map<Uuid, int>) returns (inDeg: map<Uuid, int>)
    requires inDeg0.Keys <= all
    ensures inDeg.Keys == all
    ensures forall x :: Index(inDeg, x) == Index(inDeg0, x)
  {
    inDeg := inDeg0;
    var uids := Enumerate(all);
    for i := 0 to |uids|
      invariant inDeg.Keys == inDeg0.Keys + Elems(uids[..i])
      invariant forall x :: Index(inDeg, x) == Index(inDeg0, x)
    {
      assert uids[..i + 1] == uids[..i] + [uids[i]];
      if uids[i] !in inDeg {
        inDeg := inDeg[uids[i] := 0];
      }
    }
    assert uids[..|uids|] == uids;
  }

  lemma KahnStart(nodes: set<Uuid>, deps: seq<Edge>, inDeg: map<Uuid, int>, queue: seq<Uuid>)
    requires Degrees(inDeg, deps) && nodes == inDeg.Keys
    requires NoDup(queue) && Elems(queue) == set x | x in inDeg && inDeg[x] == 0
    ensures Kahn(nodes, deps, inDeg, {}, queue)
  {
    forall x ensures x in queue <==> Waiting(nodes, deps, {}, x) {
      assert x in queue <==> x in Elems(queue);
      if x in inDeg {
        StartIsWaiting(nodes, deps, inDeg, x);
      }
    }
    forall x | x in inDeg ensures inDeg[x] == Degree(deps, x, {}) {
      StartIsWaiting(nodes, deps, inDeg, x);
    }
  }

  lemma KahnEnd(nodes: set<Uuid>, deps: seq<Edge>, inDeg: map<Uuid, int>, done: set<Uuid>)
    requires Kahn(nodes, deps, inDeg, done, []) && done <= Final(nodes, deps)
    ensures done == Final(nodes, deps)
  {
    assert forall x :: x !in [] ==> !Waiting(nodes, deps, done, x);
    ClosedHoldsStages(nodes, deps, done, |nodes|);
  }

  method StartCheck(nodes: set<Uuid>, deps: seq<Edge>)
    returns (adjacency: map<Uuid, set<Uuid>>, inDeg: map<Uuid, int>, queue: seq<Uuid>)
    requires nodes == Endpoints(deps)
    ensures Dependents(adjacency, deps) && Kahn(nodes, deps, inDeg, {}, queue)
  {
    adjacency, inDeg := CountEdges([], deps);
    inDeg := FillZeros(nodes, inDeg);
    queue := Enumerate(set x | x in inDeg && inDeg[x] == 0);
    KahnStart(nodes, deps, inDeg, queue);
  }

  method PopAndRelease(ghost nodes: set<Uuid>, ghost deps: seq<Edge>, adjacency: map<Uuid, set<Uuid>>,
                       ghost done: set<Uuid>, inDeg0: map<Uuid, int>, queue0: seq<Uuid>)
    returns (inDeg: map<Uuid, int>, queue: seq<Uuid>)
    requires nodes == Endpoints(deps) && Dependents(adjacency, deps)
    requires queue0 != [] && Kahn(nodes, deps, inDeg0, done, queue0)
    ensures Waiting(nodes, deps, done, queue0[0])
    ensures Kahn(nodes, deps, inDeg, done + {queue0[0]}, queue)
  {
    var node := queue0[0];
    FrontIsWaiting(nodes, deps, inDeg0, done, queue0);
    var downs := Enumerate(Neighbours(adjacency, node));
    forall x | x in downs ensures x in nodes && x in inDeg0 {
      assert x in Elems(downs) && Edge(node, x) in deps;
    }
    inDeg, queue := Decrement(downs, inDeg0, queue0[1..]);
    VisitKeepsKahn(nodes, deps, done, node, downs, inDeg0, queue0[1..], inDeg);
  }

  /** The check's own Kahn loop, in whatever order sets and dictionaries are iterated. */
  method CountVisited(nodes: set<Uuid>, deps: seq<Edge>) returns (visited: nat)
    requires nodes == Endpoints(deps)
    ensures visited == |Final(nodes, deps)|
  {
    var adjacency, inDeg, queue := StartCheck(nodes, deps);
    visited := 0;
    ghost var done := {};
    while |queue| > 0
      invariant Kahn(nodes, deps, inDeg, done, queue)
      invariant visited == |done| && done <= Final(nodes, deps)
      decreases nodes - done
    {
      ghost var node := queue[0];
      inDeg, queue := PopAndRelease(nodes, deps, adjacency, done, inDeg, queue);
      WaitingIsFinal(nodes, deps, done, node);
      visited := visited + 1;
      done := done + {node};
    }
    KahnEnd(nodes, deps, inDeg, done);
  }

  lemma EndpointsSelfContained(deps: seq<Edge>)
    ensures SelfContained(Endpoints(deps), deps) <==> DistinctEdges(deps)
  {
    if SelfContained(Endpoints(deps), deps) {
      forall i, j | 0 <= i < j < |deps| ensures deps[i] != deps[j] {
        assert deps[i] in deps && deps[i].down in Endpoints(deps);
      }
    }
  }

  /** `_validate_spec`: distinct task indices, then a cycle check on the edges alone. */
  method ValidateSpec(taskIndices: seq<int>, deps: seq<Edge>) returns (v: Verdict)
    ensures v.DuplicateIndex? <==> exists i, j :: 0 <= i < j < |taskIndices| && taskIndices[i] == taskIndices[j]
    ensures !v.DuplicateIndex? ==> (v.Accepted? <==> DistinctEdges(deps) && !Cyclic(Endpoints(deps), deps))
  {
    SizeNoDup(taskIndices);
    if NoDup(taskIndices) {
      NoDupSize(taskIndices);
    }
    if |set i | i in taskIndices| != |taskIndices| {
      return DuplicateIndex;
    }
    var all := (set e | e in deps :: e.up) + (set e | e in deps :: e.down);
    var visited := CountVisited(all, deps);
    FinalIsLimit(all, deps, 0);
    SubsetSize(Final(all, deps), all);
    VisitsAllIffAcyclic(all, deps);
    EndpointsSelfContained(deps);
    v := if visited < |all| then CycleInSpec else Accepted;
  }

  /** A listed-twice edge makes the check report a cycle although there is none. */
  lemma DuplicateEdgeIsRejected()
    ensures var deps := [Edge(1, 2), Edge(1, 2)];
            !DistinctEdges(deps) && !Cyclic(Endpoints(deps), deps)
  {
    var deps := [Edge(1, 2), Edge(1, 2)];
    assert deps[0] == deps[1];
    forall p | IsPath(Endpoints(deps), deps, p) && |p| >= 2 ensures p[0] != p[|p| - 1] {
      assert Edge(p[0], p[0 + 1]) in deps;
      assert Edge(p[|p| - 2], p[|p| - 2 + 1]) in deps;
    }
  }

  /** Cycles only run through edge endpoints, so the two checks look for the same thing. */
  lemma CyclesLieInEndpoints(nodes: set<Uuid>, deps: seq<Edge>)
    requires Endpoints(deps) <= nodes
    ensures Cyclic(Endpoints(deps), deps) <==> Cyclic(nodes, deps)
  {
    if Cyclic(Endpoints(deps), deps) {
      var p :| IsCycle(Endpoints(deps), deps, p);
      assert IsCycle(nodes, deps, p);
    }
    if Cyclic(nodes, deps) {
      var p :| IsCycle(nodes, deps, p);
      forall i | 0 <= i < |p| ensures p[i] in Endpoints(deps) {
        if i < |p| - 1 {
          assert Edge(p[i], p[i + 1]) in deps;
        } else {
          assert Edge(p[i - 1], p[i - 1 + 1]) in deps;
        }
      }
      assert IsCycle(Endpoints(deps), deps, p);
    }
  }

  /** The check before writing and the sort after writing agree: an edge list between tasks of the
      job passes `_validate_spec` exactly when the stored job sorts. */
  lemma ValidationMatchesSort(nodes: set<Uuid>, deps: seq<Edge>)
    requires Endpoints(deps) <= nodes
    ensures DistinctEdges(deps) && !Cyclic(Endpoints(deps), deps)
            <==> !LeavesJob(nodes, deps) && Final(nodes, deps) == nodes
  {
    CyclesLieInEndpoints(nodes, deps);
    forall x | x in nodes ensures Downs(deps, x) <= nodes && Ups(deps, x) <= nodes {}
    SortSucceedsIffAcyclic(nodes, deps);
    EndpointsSelfContained(deps);
    if SelfContained(nodes, deps) {
      assert SelfContained(Endpoints(deps), deps);
    }
    if DistinctEdges(deps) {
      assert forall x :: x in nodes ==> DistinctInto(deps, x);
    }
  }

  // ---------------------------------------------------------------- running the tasks

  ghost function CompletedIds(status: map<Uuid, Status>): set<Uuid> {
    set x | x in status && status[x] == Completed
  }

  /** All upstreams are completed. */
  ghost predicate Unblocked(deps: seq<Edge>, status: map<Uuid, Status>, x: Uuid) {
    Ups(deps, x) <= CompletedIds(status)
  }

  /** `is_unblocked`: a missing upstream counts as not completed. */
  method IsUnblocked(deps: seq<Edge>, status: map<Uuid, Status>, task: Uuid) returns (yes: bool)
    ensures yes <==> Unblocked(deps, status, task)
  {
    for i := 0 to |deps|
      invariant forall e :: e in deps[..i] && e.down == task ==> e.up in CompletedIds(status)
    {
      var e := deps[i];
      assert deps[..i + 1] == deps[..i] + [e];
      if e.down == task && (e.up !in status || status[e.up] != Completed) {
        assert e in deps && e.up in Ups(deps, task);
        return false;
      }
    }
    assert deps[..|deps|] == deps;
    yes := true;
  }

  /** Once levels 0..k-1 are completed, every task of level k may run. */
  lemma LevelsRunInOrder(nodes: set<Uuid>, deps: seq<Edge>, status: map<Uuid, Status>, k: nat, x: Uuid)
    requires Stage(nodes, deps, k) <= CompletedIds(status)
    requires x in Stage(nodes, deps, k + 1)
    ensures Unblocked(deps, status, x)
  {
  }

  /** A job that sorts is never stuck: while some task is not completed, some such task may run. */
  lemma {:induction false} NeverStuck(nodes: set<Uuid>, deps: seq<Edge>, status: map<Uuid, Status>, k: nat) returns (x: Uuid)
    requires !(Stage(nodes, deps, k) <= CompletedIds(status))
    ensures x in nodes && x !in CompletedIds(status) && Unblocked(deps, status, x)
  {
    if Stage(nodes, deps, k - 1) <= CompletedIds(status) {
      x :| x in Stage(nodes, deps, k) && x !in CompletedIds(status);
    } else {
      x := NeverStuck(nodes, deps, status, k - 1);
    }
  }

  lemma AcyclicJobNeverStuck(nodes: set<Uuid>, deps: seq<Edge>, status: map<Uuid, Status>)
    requires SelfContained(nodes, deps) && !Cyclic(nodes, deps)
    requires exists y :: y in nodes && y !in CompletedIds(status)
    ensures exists x :: x in nodes && x !in CompletedIds(status) && Unblocked(deps, status, x)
  {
    VisitsAllIffAcyclic(nodes, deps);
    var x := NeverStuck(nodes, deps, status, |nodes|);
  }
}
