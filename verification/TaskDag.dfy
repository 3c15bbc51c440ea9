/** Dependency graphs of research tasks: in-degree counts, the stages a Kahn sort reaches,
    dependency paths, and the theorems that tie the three together.  Nothing here mentions the
    imperative code; ResearchGraph.dfy proves that code against `Stage`. */
module TaskDag {

  // Identifiers (UUIDs in the database); only equality is ever used.
  type Uuid = int

  datatype Edge = Edge(up: Uuid, down: Uuid)

  ghost function Elems(s: seq<Uuid>): set<Uuid> {
    set x | x in s
  }

  ghost predicate NoDup(s: seq<Uuid>) {
    forall i, j :: 0 <= i < j < |s| ==> s[i] != s[j]
  }

  ghost function Ups(deps: seq<Edge>, x: Uuid): set<Uuid> {
    set e | e in deps && e.down == x :: e.up
  }

  ghost function Downs(deps: seq<Edge>, x: Uuid): set<Uuid> {
    set e | e in deps && e.up == x :: e.down
  }

  /** How many entries of the edge list point at x, duplicates included. */
  ghost function InCount(deps: seq<Edge>, x: Uuid): nat {
    if deps == [] then 0
    else InCount(deps[..|deps| - 1], x) + if deps[|deps| - 1].down == x then 1 else 0
  }

  /** No edge into x is listed twice. */
  ghost predicate DistinctInto(deps: seq<Edge>, x: Uuid) {
    forall i, j :: 0 <= i < j < |deps| && deps[i].down == x && deps[j].down == x ==> deps[i] != deps[j]
  }

  ghost predicate DistinctEdges(deps: seq<Edge>) {
    forall i, j :: 0 <= i < j < |deps| ==> deps[i] != deps[j]
  }

  /** What it takes for the in-degree of x to have reached 0 once `done` has been visited. */
  ghost predicate Ready(deps: seq<Edge>, x: Uuid, done: set<Uuid>) {
    InCount(deps, x) == |Ups(deps, x)| && Ups(deps, x) <= done
  }

  /** The nodes visited once k levels have been processed. */
  ghost function Stage(nodes: set<Uuid>, deps: seq<Edge>, k: nat): set<Uuid> {
    if k == 0 then {} else set x | x in nodes && Ready(deps, x, Stage(nodes, deps, k - 1))
  }

  /** Everything Kahn's algorithm ever visits. */
  ghost function Final(nodes: set<Uuid>, deps: seq<Edge>): set<Uuid> {
    Stage(nodes, deps, |nodes|)
  }

  // ---------------------------------------------------------------- counting

  lemma UpsSnoc(deps: seq<Edge>, e: Edge, x: Uuid)
    ensures Ups(deps + [e], x) == Ups(deps, x) + if e.down == x then {e.up} else {}
    ensures InCount(deps + [e], x) == InCount(deps, x) + if e.down == x then 1 else 0
  {
    assert (deps + [e])[..|deps|] == deps;
    assert forall d :: d in deps + [e] <==> d in deps || d == e;
  }

  lemma DistinctSnoc(deps: seq<Edge>, e: Edge, x: Uuid)
    ensures DistinctInto(deps + [e], x) <==> DistinctInto(deps, x) && !(e.down == x && e in deps)
  {
    var all := deps + [e];
    assert all[|deps|] == e;
    assert forall i :: 0 <= i < |deps| ==> all[i] == deps[i];
    if e.down == x && e in deps {
      var i :| 0 <= i < |deps| && deps[i] == e;
      assert all[i] == all[|deps|];
    } else if DistinctInto(deps, x) {
      forall i, j | 0 <= i < j < |all| && all[i].down == x && all[j].down == x ensures all[i] != all[j] {
        if j == |deps| {
          assert deps[i] in deps;
        }
      }
    } else {
      var i, j :| 0 <= i < j < |deps| && deps[i].down == x && deps[j].down == x && deps[i] == deps[j];
      assert all[i] == all[j];
    }
  }

  lemma {:induction false} CountUps(deps: seq<Edge>, x: Uuid)
    ensures |Ups(deps, x)| <= InCount(deps, x)
    ensures |Ups(deps, x)| == InCount(deps, x) <==> DistinctInto(deps, x)
  {
    if deps != [] {
      var n := |deps| - 1;
      var e := deps[n];
      assert deps == deps[..n] + [e];
      CountUps(deps[..n], x);
      UpsSnoc(deps[..n], e, x);
      DistinctSnoc(deps[..n], e, x);
      assert e.down == x ==> (e.up in Ups(deps[..n], x) <==> e in deps[..n]);
    }
  }

  lemma NonEmpty<T>(s: set<T>) returns (x: T)
    requires s != {}
    ensures x in s
  {
    x :| x in s;
  }

  lemma SubsetSize(a: set<Uuid>, b: set<Uuid>)
    requires a <= b
    ensures |a| <= |b|
    ensures |a| == |b| ==> a == b
  {
    assert b == a + (b - a);
  }

  /** The counter the code keeps is 0 exactly when the node is ready. */
  lemma ZeroIffReady(deps: seq<Edge>, x: Uuid, done: set<Uuid>)
    ensures |Ups(deps, x) * done| <= InCount(deps, x)
    ensures InCount(deps, x) - |Ups(deps, x) * done| == 0 <==> Ready(deps, x, done)
  {
    CountUps(deps, x);
    SubsetSize(Ups(deps, x) * done, Ups(deps, x));
    if Ups(deps, x) <= done {
      assert Ups(deps, x) * done == Ups(deps, x);
    }
  }

  lemma {:induction false} NoDupSize(s: seq<Uuid>)
    requires NoDup(s)
    ensures |Elems(s)| == |s|
  {
    if s == [] {
    } else {
      var n := |s| - 1;
      NoDupSize(s[..n]);
      assert s == s[..n] + [s[n]];
      assert Elems(s) == Elems(s[..n]) + {s[n]};
      assert s[n] !in s[..n];
    }
  }

  // ---------------------------------------------------------------- stages

  lemma {:induction false} StageMonotone(nodes: set<Uuid>, deps: seq<Edge>, k: nat)
    ensures Stage(nodes, deps, k) <= Stage(nodes, deps, k + 1) <= nodes
  {
    if k > 0 {
      StageMonotone(nodes, deps, k - 1);
    }
  }

  lemma {:induction false} StageMonotoneTo(nodes: set<Uuid>, deps: seq<Edge>, k: nat, m: nat)
    requires k <= m
    ensures Stage(nodes, deps, k) <= Stage(nodes, deps, m) <= nodes
    decreases m
  {
    if k < m {
      StageMonotoneTo(nodes, deps, k, m - 1);
      StageMonotone(nodes, deps, m - 1);
    }
  }

  lemma {:induction false} StageFixed(nodes: set<Uuid>, deps: seq<Edge>, k: nat, m: nat)
    requires k <= m && Stage(nodes, deps, k) == Stage(nodes, deps, k + 1)
    ensures Stage(nodes, deps, m) == Stage(nodes, deps, k)
    decreases m
  {
    if k < m {
      StageFixed(nodes, deps, k, m - 1);
      assert Stage(nodes, deps, m) == Stage(nodes, deps, k + 1);
    }
  }

  /** Either k stages hold at least k nodes, or the stages have stopped growing by then. */
  lemma {:induction false} StageGrowth(nodes: set<Uuid>, deps: seq<Edge>, k: nat)
    ensures |Stage(nodes, deps, k)| >= k || Stage(nodes, deps, k) == Stage(nodes, deps, k + 1)
  {
    if k > 0 {
      StageGrowth(nodes, deps, k - 1);
      StageMonotone(nodes, deps, k - 1);
      if Stage(nodes, deps, k - 1) == Stage(nodes, deps, k) {
        StageFixed(nodes, deps, k - 1, k + 1);
      } else {
        SubsetSize(Stage(nodes, deps, k - 1), Stage(nodes, deps, k));
      }
    }
  }

  /** `Final` is the limit: a fixed point that contains every stage. */
  lemma FinalIsLimit(nodes: set<Uuid>, deps: seq<Edge>, k: nat)
    ensures Stage(nodes, deps, k) <= Final(nodes, deps) <= nodes
    ensures forall x :: x in Final(nodes, deps) <==> x in nodes && Ready(deps, x, Final(nodes, deps))
    ensures Stage(nodes, deps, k) == Stage(nodes, deps, k + 1) ==> Stage(nodes, deps, k) == Final(nodes, deps)
  {
    var n := |nodes|;
    StageGrowth(nodes, deps, n);
    StageMonotone(nodes, deps, n);
    if |Stage(nodes, deps, n)| >= n {
      SubsetSize(Stage(nodes, deps, n), nodes);
      SubsetSize(Stage(nodes, deps, n + 1), nodes);
    }
    assert Stage(nodes, deps, n) == Stage(nodes, deps, n + 1);
    if k <= n {
      StageMonotoneTo(nodes, deps, k, n);
      if Stage(nodes, deps, k) == Stage(nodes, deps, k + 1) {
        StageFixed(nodes, deps, k, n);
      }
    } else {
      StageFixed(nodes, deps, n, k);
    }
  }

  // ---------------------------------------------------------------- paths

  /** A dependency path through tasks: each entry is an upstream of the next. */
  ghost predicate IsPath(nodes: set<Uuid>, deps: seq<Edge>, p: seq<Uuid>) {
    && |p| > 0
    && (forall i :: 0 <= i < |p| ==> p[i] in nodes)
    && (forall i :: 0 <= i < |p| - 1 ==> Edge(p[i], p[i + 1]) in deps)
  }

  ghost predicate EndsAt(nodes: set<Uuid>, deps: seq<Edge>, p: seq<Uuid>, x: Uuid) {
    IsPath(nodes, deps, p) && p[|p| - 1] == x
  }

  ghost predicate IsCycle(nodes: set<Uuid>, deps: seq<Edge>, p: seq<Uuid>) {
    IsPath(nodes, deps, p) && |p| >= 2 && p[0] == p[|p| - 1]
  }

  ghost predicate Cyclic(nodes: set<Uuid>, deps: seq<Edge>) {
    exists p :: IsCycle(nodes, deps, p)
  }

  /** The longest dependency path ending at x has exactly k edges. */
  ghost predicate LongestPath(nodes: set<Uuid>, deps: seq<Edge>, x: Uuid, k: nat) {
    && (exists p :: EndsAt(nodes, deps, p, x) && |p| == k + 1)
    && (forall p :: EndsAt(nodes, deps, p, x) ==> |p| <= k + 1)
  }

  lemma {:induction false} PathBound(nodes: set<Uuid>, deps: seq<Edge>, k: nat, p: seq<Uuid>, x: Uuid)
    requires x in Stage(nodes, deps, k) && EndsAt(nodes, deps, p, x)
    ensures |p| <= k
    decreases k
  {
    if |p| > 1 {
      var u := p[|p| - 2];
      assert Edge(u, p[|p| - 2 + 1]) in deps;
      assert u in Ups(deps, x);
      PathBound(nodes, deps, k - 1, p[..|p| - 1], u);
    }
  }

  lemma {:induction false} PathExists(nodes: set<Uuid>, deps: seq<Edge>, k: nat, m: nat, x: Uuid) returns (p: seq<Uuid>)
    requires x in Stage(nodes, deps, m) && x !in Stage(nodes, deps, k)
    ensures EndsAt(nodes, deps, p, x) && |p| == k + 1
    decreases k
  {
    if k == 0 {
      p := [x];
    } else {
      var u :| u in Ups(deps, x) && u !in Stage(nodes, deps, k - 1);
      p := PathExists(nodes, deps, k - 1, m - 1, u);
      p := p + [x];
    }
  }

  /** A visited task is in level k exactly when its longest dependency path has k edges. */
  lemma LevelIsLongestPath(nodes: set<Uuid>, deps: seq<Edge>, x: Uuid, k: nat)
    requires x in Final(nodes, deps)
    ensures x in Stage(nodes, deps, k + 1) - Stage(nodes, deps, k) <==> LongestPath(nodes, deps, x, k)
  {
    if x in Stage(nodes, deps, k + 1) {
      forall p | EndsAt(nodes, deps, p, x) ensures |p| <= k + 1 {
        PathBound(nodes, deps, k + 1, p, x);
      }
    } else {
      var p := PathExists(nodes, deps, k + 1, |nodes|, x);
      assert |p| > k + 1;
    }
    if x in Stage(nodes, deps, k) {
      forall p | EndsAt(nodes, deps, p, x) ensures |p| <= k {
        PathBound(nodes, deps, k, p, x);
      }
    } else {
      var p := PathExists(nodes, deps, k, |nodes|, x);
    }
  }

  /** Two tasks of one level are never connected by a dependency path. */
  lemma LevelIsIndependent(nodes: set<Uuid>, deps: seq<Edge>, k: nat, p: seq<Uuid>)
    requires IsPath(nodes, deps, p) && |p| >= 2
    requires p[0] in Stage(nodes, deps, k + 1) - Stage(nodes, deps, k)
    ensures p[|p| - 1] !in Stage(nodes, deps, k + 1)
  {
    var q := PathExists(nodes, deps, k, k + 1, p[0]);
    var joined := q + p[1..];
    forall i | 0 <= i < |joined| - 1 ensures Edge(joined[i], joined[i + 1]) in deps {
      if i >= |q| - 1 {
        var j := i - (|q| - 1);
        assert joined[i] == p[j] && joined[i + 1] == p[j + 1];
      }
    }
    assert EndsAt(nodes, deps, joined, p[|p| - 1]);
    if p[|p| - 1] in Stage(nodes, deps, k + 1) {
      PathBound(nodes, deps, k + 1, joined, p[|p| - 1]);
    }
  }

  // ---------------------------------------------------------------- cycles

  lemma {:induction false} CycleNeverReady(nodes: set<Uuid>, deps: seq<Edge>, p: seq<Uuid>, i: nat, k: nat)
    requires IsCycle(nodes, deps, p) && i < |p|
    ensures p[i] !in Stage(nodes, deps, k)
    decreases k
  {
    if k > 0 {
      var j := if i == 0 then |p| - 2 else i - 1;
      CycleNeverReady(nodes, deps, p, j, k - 1);
      assert Edge(p[j], p[j + 1]) in deps;
      assert p[j] in Ups(deps, p[i]);
    }
  }

  /** Every node's edges are listed once and come from inside the graph. */
  ghost predicate SelfContained(nodes: set<Uuid>, deps: seq<Edge>) {
    forall x :: x in nodes ==> DistinctInto(deps, x) && Ups(deps, x) <= nodes
  }

  lemma UnvisitedUpstream(nodes: set<Uuid>, deps: seq<Edge>, x: Uuid) returns (u: Uuid)
    requires x in nodes - Final(nodes, deps) && SelfContained(nodes, deps)
    ensures u in nodes - Final(nodes, deps) && Edge(u, x) in deps
  {
    FinalIsLimit(nodes, deps, 0);
    CountUps(deps, x);
    assert !Ready(deps, x, Final(nodes, deps));
    u :| u in Ups(deps, x) && u !in Final(nodes, deps);
  }

  /** Walking upstream through nodes that are never visited. */
  lemma {:induction false} UnvisitedWalk(nodes: set<Uuid>, deps: seq<Edge>, x: Uuid, n: nat) returns (p: seq<Uuid>)
    requires x in nodes - Final(nodes, deps) && SelfContained(nodes, deps)
    ensures EndsAt(nodes, deps, p, x) && |p| == n + 1
    decreases n
  {
    if n == 0 {
      p := [x];
    } else {
      var u := UnvisitedUpstream(nodes, deps, x);
      p := UnvisitedWalk(nodes, deps, u, n - 1);
      p := p + [x];
    }
  }

  /** A path with more entries than there are nodes repeats one, and so contains a cycle. */
  lemma LongPathHasCycle(nodes: set<Uuid>, deps: seq<Edge>, p: seq<Uuid>) returns (c: seq<Uuid>)
    requires IsPath(nodes, deps, p) && |p| > |nodes|
    ensures IsCycle(nodes, deps, c)
  {
    if NoDup(p) {
      NoDupSize(p);
      SubsetSize(Elems(p), nodes);
      assert false;
    }
    var i, j :| 0 <= i < j < |p| && p[i] == p[j];
    c := p[i..j + 1];
    forall a | 0 <= a < |c| - 1 ensures Edge(c[a], c[a + 1]) in deps {
      assert c[a] == p[i + a] && c[a + 1] == p[i + a + 1];
    }
  }

  lemma VisitedIsSelfContained(nodes: set<Uuid>, deps: seq<Edge>)
    requires Final(nodes, deps) == nodes
    ensures SelfContained(nodes, deps)
  {
    FinalIsLimit(nodes, deps, 0);
    forall x | x in nodes ensures DistinctInto(deps, x) && Ups(deps, x) <= nodes {
      assert Ready(deps, x, Final(nodes, deps));
      CountUps(deps, x);
    }
  }

  lemma CycleIsUnvisited(nodes: set<Uuid>, deps: seq<Edge>, p: seq<Uuid>)
    requires IsCycle(nodes, deps, p)
    ensures Final(nodes, deps) != nodes
  {
    CycleNeverReady(nodes, deps, p, 0, |nodes|);
  }

  lemma UnvisitedHasCycle(nodes: set<Uuid>, deps: seq<Edge>)
    requires Final(nodes, deps) != nodes && SelfContained(nodes, deps)
    ensures Cyclic(nodes, deps)
  {
    FinalIsLimit(nodes, deps, 0);
    assert exists x :: x in nodes && x !in Final(nodes, deps);
    var x :| x in nodes && x !in Final(nodes, deps);
    var p := UnvisitedWalk(nodes, deps, x, |nodes|);
    var c := LongPathHasCycle(nodes, deps, p);
  }

  /** Kahn's algorithm visits every node exactly when no edge is listed twice, no node waits for
      something outside the graph, and there is no cycle. */
  lemma VisitsAllIffAcyclic(nodes: set<Uuid>, deps: seq<Edge>)
    ensures Final(nodes, deps) == nodes <==> SelfContained(nodes, deps) && !Cyclic(nodes, deps)
  {
    if Cyclic(nodes, deps) {
      var p :| IsCycle(nodes, deps, p);
      CycleIsUnvisited(nodes, deps, p);
    } else if Final(nodes, deps) == nodes {
      VisitedIsSelfContained(nodes, deps);
    } else if SelfContained(nodes, deps) {
      UnvisitedHasCycle(nodes, deps);
    }
  }
}
