/** The dependency graph of conditionals and the search for circular dependencies. */
module ConditionalGraph {
  import opened Common

  /** A conditional by what it needs: a sensor reading, or other conditionals by identifier. */
  datatype Conditional =
    | Leaf
    | ConstraintViolated(constraint: Guid)
    | LogicalNOT(negated: Guid)
    | LogicalAND(first: Guid, second: Guid)
    | LogicalOR(first: Guid, second: Guid)

  type Graph = map<Guid, Conditional>

  datatype Dependencies = Dependencies(first: Option<Guid>, second: Option<Guid>)

  function GetDependencies(c: Conditional): Dependencies {
    match c
    case Leaf => Dependencies(None, None)
    case ConstraintViolated(a) => Dependencies(Some(a), None)
    case LogicalNOT(a) => Dependencies(Some(a), None)
    case LogicalAND(a, b) => Dependencies(Some(a), Some(b))
    case LogicalOR(a, b) => Dependencies(Some(a), Some(b))
  }

  predicate DependsOn(c: Conditional, g: Guid) {
    GetDependencies(c).first == Some(g) || GetDependencies(c).second == Some(g)
  }

  /** Every dependency is in the graph. */
  ghost predicate Closed(nodes: Graph) {
    forall n, d :: n in nodes && DependsOn(nodes[n], d) ==> d in nodes
  }

  // ---- paths ----

  ghost predicate IsPath(nodes: Graph, path: seq<Guid>) {
    && path != []
    && (forall i :: 0 <= i < |path| ==> path[i] in nodes)
    && forall i, j {:trigger path[i], path[j]} :: 0 <= i && j == i + 1 < |path| ==> DependsOn(nodes[path[i]], path[j])
  }

  ghost predicate Reaches(nodes: Graph, n: Guid, m: Guid) {
    exists path :: IsPath(nodes, path) && path[0] == n && path[|path| - 1] == m
  }

  /** A path from n that meets a node twice. */
  ghost predicate CycleFrom(nodes: Graph, n: Guid) {
    exists path :: IsPath(nodes, path) && path[0] == n && !NoDuplicates(path)
  }

  /** No path from n is longer than k. */
  ghost predicate Grounded(nodes: Graph, n: Guid, k: nat)
    requires Closed(nodes) && n in nodes
    decreases k
  {
    k > 0 && forall d :: DependsOn(nodes[n], d) ==> Grounded(nodes, d, k - 1)
  }

  lemma {:induction false} GroundedBoundsPaths(nodes: Graph, n: Guid, k: nat, path: seq<Guid>)
    requires Closed(nodes) && n in nodes && Grounded(nodes, n, k)
    requires IsPath(nodes, path) && path[0] == n
    ensures |path| <= k
    decreases k
  {
    if |path| > 1 {
      assert DependsOn(nodes[path[0]], path[1]);
      forall i | 0 < i < |path| - 1 ensures DependsOn(nodes[path[1..][i - 1]], path[1..][i]) {
        assert path[1..][i - 1] == path[i] && path[1..][i] == path[i + 1];
      }
      GroundedBoundsPaths(nodes, path[1], k - 1, path[1..]);
    }
  }

  lemma {:induction false} BoundedPathsGround(nodes: Graph, n: Guid, k: nat)
    requires Closed(nodes) && n in nodes
    requires forall path :: IsPath(nodes, path) && path[0] == n ==> |path| <= k
    ensures Grounded(nodes, n, k)
    decreases k
  {
    assert IsPath(nodes, [n]);
    forall d | DependsOn(nodes[n], d) ensures Grounded(nodes, d, k - 1) {
      forall path | IsPath(nodes, path) && path[0] == d ensures |path| <= k - 1 { ExtendFront(nodes, n, path); }
      BoundedPathsGround(nodes, d, k - 1);
    }
  }

  lemma ExtendFront(nodes: Graph, n: Guid, path: seq<Guid>)
    requires IsPath(nodes, path) && n in nodes && DependsOn(nodes[n], path[0])
    ensures IsPath(nodes, [n] + path)
  {
    var longer := [n] + path;
    forall i | 0 < i < |longer| ensures DependsOn(nodes[longer[i - 1]], longer[i]) {
      if i > 1 { assert longer[i] == path[i - 1] && longer[i - 1] == path[i - 2]; }
    }
  }

  lemma Joined(nodes: Graph, p: seq<Guid>, q: seq<Guid>)
    requires IsPath(nodes, p) && IsPath(nodes, q) && DependsOn(nodes[p[|p| - 1]], q[0])
    ensures IsPath(nodes, p + q)
  {
    var s := p + q;
    forall i | 0 < i < |s| ensures DependsOn(nodes[s[i - 1]], s[i]) {
      if i < |p| { assert s[i] == p[i] && s[i - 1] == p[i - 1]; }
      else if i > |p| { assert s[i] == q[i - |p|] && s[i - 1] == q[i - |p| - 1]; }
    }
  }

  lemma PathPart(nodes: Graph, path: seq<Guid>, i: nat, j: nat)
    requires IsPath(nodes, path) && i < j <= |path|
    ensures IsPath(nodes, path[i..j])
  {
    var part := path[i..j];
    forall k | 0 < k < |part| ensures DependsOn(nodes[part[k - 1]], part[k]) {
      assert part[k] == path[i + k] && part[k - 1] == path[i + k - 1];
    }
  }

  /** Going round a cycle once more gives a longer path to the same node. */
  lemma {:induction false} LongPaths(nodes: Graph, path: seq<Guid>, i: nat, j: nat, k: nat) returns (longer: seq<Guid>)
    requires IsPath(nodes, path) && i < j < |path| && path[i] == path[j]
    ensures IsPath(nodes, longer) && |longer| >= k && longer[0] == path[0] && longer[|longer| - 1] == path[j]
    decreases k
  {
    if k == 0 {
      PathPart(nodes, path, 0, j + 1);
      longer := path[..j + 1];
    } else {
      var before := LongPaths(nodes, path, i, j, k - 1);
      PathPart(nodes, path, i + 1, j + 1);
      assert DependsOn(nodes[path[i + 1 - 1]], path[i + 1]);
      Joined(nodes, before, path[i + 1..j + 1]);
      longer := before + path[i + 1..j + 1];
    }
  }

  /** A node from which a cycle can be reached has paths of every length. */
  lemma CycleIsNotGrounded(nodes: Graph, n: Guid, k: nat)
    requires Closed(nodes) && n in nodes && CycleFrom(nodes, n)
    ensures !Grounded(nodes, n, k)
  {
    var path :| IsPath(nodes, path) && path[0] == n && !NoDuplicates(path);
    var i, j :| 0 <= i < j < |path| && path[i] == path[j];
    var longer := LongPaths(nodes, path, i, j, k + 1);
    if Grounded(nodes, n, k) { GroundedBoundsPaths(nodes, n, k, longer); }
  }

  lemma {:induction false} DistinctFit<T>(s: seq<T>, all: set<T>)
    requires NoDuplicates(s) && forall i :: 0 <= i < |s| ==> s[i] in all
    ensures |s| <= |all|
  {
    if s != [] {
      var n := |s| - 1;
      FewerMembers(all, s[n]);
      DistinctFit(s[..n], all - {s[n]});
    }
  }

  /** Without a cycle, no path is longer than the number of nodes. */
  lemma AcyclicIsGrounded(nodes: Graph, n: Guid)
    requires Closed(nodes) && n in nodes && !CycleFrom(nodes, n)
    ensures Grounded(nodes, n, |nodes|)
  {
    forall path | IsPath(nodes, path) && path[0] == n ensures |path| <= |nodes| {
      DistinctFit(path, nodes.Keys);
    }
    BoundedPathsGround(nodes, n, |nodes|);
  }

  lemma ReachesVia(nodes: Graph, n: Guid, d: Guid, m: Guid)
    requires Closed(nodes) && n in nodes && DependsOn(nodes[n], d) && Reaches(nodes, d, m)
    ensures Reaches(nodes, n, m)
  {
    var path :| IsPath(nodes, path) && path[0] == d && path[|path| - 1] == m;
    ExtendFront(nodes, n, path);
    var longer := [n] + path;
    assert longer[0] == n && longer[|longer| - 1] == m;
  }

  // ---- the search for circular dependencies ----

  /** Whether a conflict was found, and the nodes still marked. */
  datatype Found = Found(conflict: bool, lookup: set<Guid>)

  /**
   The depth-first search with marks. A marked node that is met again is unmarked at once. The search may go on without
   end, so it is given a depth at which it is cut off.
   */
  function HasConflict(nodes: Graph, node: Guid, lookup: set<Guid>, depth: nat): (r: Option<Found>)
    requires Closed(nodes) && node in nodes
    ensures r.Some? ==> r.value.lookup <= lookup
    decreases depth
  {
    if depth == 0 then None
    else if node in lookup then Some(Found(true, lookup - {node}))
    else
      var deps := GetDependencies(nodes[node]);
      var first := if deps.first == None then Some(Found(false, lookup + {node}))
                   else HasConflict(nodes, deps.first.value, lookup + {node}, depth - 1);
      if first == None then None
      else
        var second := if deps.second == None then Some(Found(false, first.value.lookup))
                      else HasConflict(nodes, deps.second.value, first.value.lookup, depth - 1);
        if second == None then None
        else Some(Found(first.value.conflict || second.value.conflict, second.value.lookup - {node}))
  }

  /** A search cut off at a depth gives the same answer at every greater depth. */
  lemma {:induction false} DeeperIsSame(nodes: Graph, n: Guid, lookup: set<Guid>, depth: nat, more: nat)
    requires Closed(nodes) && n in nodes && depth <= more && HasConflict(nodes, n, lookup, depth).Some?
    ensures HasConflict(nodes, n, lookup, more) == HasConflict(nodes, n, lookup, depth)
    decreases depth
  {
    if n !in lookup {
      var deps := GetDependencies(nodes[n]);
      if deps.first.Some? { DeeperIsSame(nodes, deps.first.value, lookup + {n}, depth - 1, more - 1); }
      var first := if deps.first == None then Some(Found(false, lookup + {n}))
                   else HasConflict(nodes, deps.first.value, lookup + {n}, depth - 1);
      if deps.second.Some? { DeeperIsSame(nodes, deps.second.value, first.value.lookup, depth - 1, more - 1); }
    }
  }

  /** Whatever is marked, a search that finds no conflict has followed every path to its end. */
  lemma {:induction false} NoConflictGrounds(nodes: Graph, n: Guid, lookup: set<Guid>, depth: nat)
    requires Closed(nodes) && n in nodes
    requires var r := HasConflict(nodes, n, lookup, depth); r.Some? && !r.value.conflict
    ensures Grounded(nodes, n, depth)
    decreases depth
  {
    var deps := GetDependencies(nodes[n]);
    var first := if deps.first == None then Some(Found(false, lookup + {n}))
                 else HasConflict(nodes, deps.first.value, lookup + {n}, depth - 1);
    if deps.first.Some? { NoConflictGrounds(nodes, deps.first.value, lookup + {n}, depth - 1); }
    if deps.second.Some? { NoConflictGrounds(nodes, deps.second.value, first.value.lookup, depth - 1); }
  }

  /** No path from n leads to a marked node. */
  ghost predicate Avoids(nodes: Graph, n: Guid, marked: set<Guid>) {
    forall path :: IsPath(nodes, path) && path[0] == n ==> path[|path| - 1] !in marked
  }

  lemma DependencyAvoids(nodes: Graph, n: Guid, marked: set<Guid>, d: Guid)
    requires Closed(nodes) && n in nodes && Avoids(nodes, n, marked) && !CycleFrom(nodes, n) && DependsOn(nodes[n], d)
    ensures Avoids(nodes, d, marked + {n})
  {
    forall path | IsPath(nodes, path) && path[0] == d ensures path[|path| - 1] !in marked + {n} {
      ExtendFront(nodes, n, path);
      var longer := [n] + path;
      assert longer[0] == n && longer[|path|] == path[|path| - 1];
      assert NoDuplicates(longer);
    }
  }

  lemma DependencyAcyclic(nodes: Graph, n: Guid, d: Guid)
    requires Closed(nodes) && n in nodes && !CycleFrom(nodes, n) && DependsOn(nodes[n], d)
    ensures !CycleFrom(nodes, d)
  {
    forall path | IsPath(nodes, path) && path[0] == d ensures NoDuplicates(path) {
      ExtendFront(nodes, n, path);
      assert ([n] + path)[0] == n;
      TailIsDistinct(n, path);
    }
  }

  lemma TailIsDistinct<T>(x: T, s: seq<T>)
    requires NoDuplicates([x] + s)
    ensures NoDuplicates(s)
  {
    forall i, j | 0 <= i < j < |s| ensures s[i] != s[j] {
      assert ([x] + s)[i + 1] == s[i] && ([x] + s)[j + 1] == s[j];
    }
  }

  /** Without a cycle the search ends, finds nothing, and leaves the marks as it found them. */
  lemma {:induction false} AcyclicSearch(nodes: Graph, n: Guid, lookup: set<Guid>, k: nat)
    requires Closed(nodes) && n in nodes && Grounded(nodes, n, k)
    requires !CycleFrom(nodes, n) && Avoids(nodes, n, lookup)
    ensures HasConflict(nodes, n, lookup, k) == Some(Found(false, lookup))
    decreases k
  {
    assert IsPath(nodes, [n]);
    var here := [n];
    assert here[0] == n && here[|here| - 1] !in lookup;
    forall d | DependsOn(nodes[n], d)
      ensures HasConflict(nodes, d, lookup + {n}, k - 1) == Some(Found(false, lookup + {n}))
    {
      DependencyAvoids(nodes, n, lookup, d);
      DependencyAcyclic(nodes, n, d);
      AcyclicSearch(nodes, d, lookup + {n}, k - 1);
    }
    SameSet(lookup + {n} - {n}, lookup);
    var deps := GetDependencies(nodes[n]);
    if deps.first.Some? { assert DependsOn(nodes[n], deps.first.value); }
    if deps.second.Some? { assert DependsOn(nodes[n], deps.second.value); }
  }

  /**
   Started with nothing marked, the search ends without a conflict exactly when no cycle can be reached, and then a
   depth of the number of nodes is enough; and it reports a conflict only if there is one.
   */
  lemma ConflictExact(nodes: Graph, n: Guid)
    requires Closed(nodes) && n in nodes
    ensures (exists k: nat :: HasConflict(nodes, n, {}, k) == Some(Found(false, {}))) <==> !CycleFrom(nodes, n)
    ensures !CycleFrom(nodes, n) ==> HasConflict(nodes, n, {}, |nodes|) == Some(Found(false, {}))
    ensures forall k: nat, r :: HasConflict(nodes, n, {}, k) == Some(r) ==> (r.conflict <==> CycleFrom(nodes, n))
  {
    if !CycleFrom(nodes, n) {
      AcyclicIsGrounded(nodes, n);
      AcyclicSearch(nodes, n, {}, |nodes|);
    }
    forall k: nat, r | HasConflict(nodes, n, {}, k) == Some(r) ensures r.conflict <==> CycleFrom(nodes, n) {
      if !r.conflict {
        NoConflictGrounds(nodes, n, {}, k);
        if CycleFrom(nodes, n) { CycleIsNotGrounded(nodes, n, k); }
      } else if !CycleFrom(nodes, n) {
        DeeperIsSame(nodes, n, {}, k, k + |nodes|);
        DeeperIsSame(nodes, n, {}, |nodes|, k + |nodes|);
      }
    }
  }

  /** What the search gives at a depth: nothing yet, or the right answer and no marks. */
  lemma SearchedRight(nodes: Graph, n: Guid, depth: nat)
    requires Closed(nodes) && n in nodes
    ensures var r := HasConflict(nodes, n, {}, depth);
      && (r.Some? ==> (r.value.conflict <==> CycleFrom(nodes, n)) && r.value.lookup == {})
      && (!CycleFrom(nodes, n) && depth >= |nodes| ==> r == Some(Found(false, {})))
  {
    ConflictExact(nodes, n);
    if !CycleFrom(nodes, n) && depth >= |nodes| { DeeperIsSame(nodes, n, {}, |nodes|, depth); }
  }

  /** A conditional whose operands are both itself sends the search round without end. */
  lemma {:induction false} BothOperandsItself(n: Guid, depth: nat)
    ensures var nodes := map[n := LogicalAND(n, n)];
      Closed(nodes) && HasConflict(nodes, n, {}, depth) == None && CycleFrom(nodes, n)
  {
    var nodes := map[n := LogicalAND(n, n)];
    var loop := [n, n];
    assert IsPath(nodes, loop) && loop[0] == n && loop[0] == loop[1];
    if depth > 0 {
      BothOperandsItself(n, depth - 1);
      SameSet({} + {n} - {n}, {});
      if depth > 1 { assert HasConflict(nodes, n, {} + {n}, depth - 1) == Some(Found(true, {})); }
    }
  }
}
