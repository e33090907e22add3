/** Building conditionals that can be evaluated, and what evaluating them gives. */
module ConditionalBuilding {
  import opened Common
  import opened ConditionalGraph

  // ---- evaluation ----

  lemma OperandsGrounded(nodes: Graph, n: Guid, k: nat)
    requires Closed(nodes) && n in nodes && Grounded(nodes, n, k)
    ensures k > 0
    ensures forall d :: GetDependencies(nodes[n]).first == Some(d) ==> d in nodes && Grounded(nodes, d, k - 1)
    ensures forall d :: GetDependencies(nodes[n]).second == Some(d) ==> d in nodes && Grounded(nodes, d, k - 1)
  {
    var deps := GetDependencies(nodes[n]);
    if deps.first.Some? { assert DependsOn(nodes[n], deps.first.value); }
    if deps.second.Some? { assert DependsOn(nodes[n], deps.second.value); }
  }

  /** Evaluation by recursion on the operands; both are evaluated before either is looked at. */
  function Evaluate(nodes: Graph, readings: Guid -> Option<bool>, n: Guid, k: nat): Option<bool>
    requires Closed(nodes) && n in nodes && Grounded(nodes, n, k)
    decreases k
  {
    OperandsGrounded(nodes, n, k);
    match nodes[n]
    case Leaf => readings(n)
    case ConstraintViolated(a) =>
      var c := Evaluate(nodes, readings, a, k - 1);
      if c == None then None else Some(!c.value)
    case LogicalNOT(a) =>
      var c := Evaluate(nodes, readings, a, k - 1);
      if c == None then None else Some(!c.value)
    case LogicalAND(a, b) =>
      var c, d := Evaluate(nodes, readings, a, k - 1), Evaluate(nodes, readings, b, k - 1);
      if c == None || d == None then None else Some(c.value && d.value)
    case LogicalOR(a, b) =>
      var c, d := Evaluate(nodes, readings, a, k - 1), Evaluate(nodes, readings, b, k - 1);
      if c == None || d == None then None else Some(c.value || d.value)
  }

  /** The Boolean formula a conditional stands for. */
  function Truth(nodes: Graph, holds: Guid -> bool, n: Guid, k: nat): bool
    requires Closed(nodes) && n in nodes && Grounded(nodes, n, k)
    decreases k
  {
    OperandsGrounded(nodes, n, k);
    match nodes[n]
    case Leaf => holds(n)
    case ConstraintViolated(a) => !Truth(nodes, holds, a, k - 1)
    case LogicalNOT(a) => !Truth(nodes, holds, a, k - 1)
    case LogicalAND(a, b) => Truth(nodes, holds, a, k - 1) && Truth(nodes, holds, b, k - 1)
    case LogicalOR(a, b) => Truth(nodes, holds, a, k - 1) || Truth(nodes, holds, b, k - 1)
  }

  function Holding(readings: Guid -> Option<bool>): Guid -> bool { m => readings(m).Some? && readings(m).value }

  /** Some sensor the conditional depends on has no reading. */
  ghost predicate Silent(nodes: Graph, readings: Guid -> Option<bool>, n: Guid) {
    exists m :: m in nodes && nodes[m] == Leaf && readings(m) == None && Reaches(nodes, n, m)
  }

  lemma ReachesBy(nodes: Graph, n: Guid, m: Guid)
    requires Closed(nodes) && n in nodes
    ensures Reaches(nodes, n, m) <==> n == m || exists d :: DependsOn(nodes[n], d) && Reaches(nodes, d, m)
  {
    if n == m {
      assert IsPath(nodes, [n]);
      assert [n][0] == n && [n][|[n]| - 1] == m;
    } else if Reaches(nodes, n, m) {
      var path :| IsPath(nodes, path) && path[0] == n && path[|path| - 1] == m;
      PathPart(nodes, path, 1, |path|);
      assert DependsOn(nodes[path[1 - 1]], path[1]);
      assert path[1..][0] == path[1] && path[1..][|path| - 2] == m;
    }
    forall d | DependsOn(nodes[n], d) && Reaches(nodes, d, m) ensures Reaches(nodes, n, m) {
      ReachesVia(nodes, n, d, m);
    }
  }

  lemma SilentBy(nodes: Graph, readings: Guid -> Option<bool>, n: Guid)
    requires Closed(nodes) && n in nodes
    ensures Silent(nodes, readings, n) <==>
      var deps := GetDependencies(nodes[n]);
      || (nodes[n] == Leaf && readings(n) == None)
      || (deps.first.Some? && Silent(nodes, readings, deps.first.value))
      || (deps.second.Some? && Silent(nodes, readings, deps.second.value))
  {
    var deps := GetDependencies(nodes[n]);
    if deps.first.Some? { assert DependsOn(nodes[n], deps.first.value); }
    if deps.second.Some? { assert DependsOn(nodes[n], deps.second.value); }
    forall m
      ensures Reaches(nodes, n, m) <==> n == m || exists d :: DependsOn(nodes[n], d) && Reaches(nodes, d, m)
    {
      ReachesBy(nodes, n, m);
    }
  }

  /** Evaluation is the strict reading: no value if and only if a reading is missing, else the formula's truth. */
  lemma {:induction false} StrictReading(nodes: Graph, readings: Guid -> Option<bool>, n: Guid, k: nat)
    requires Closed(nodes) && n in nodes && Grounded(nodes, n, k)
    ensures Evaluate(nodes, readings, n, k) ==
      if Silent(nodes, readings, n) then None else Some(Truth(nodes, Holding(readings), n, k))
    decreases k
  {
    OperandsGrounded(nodes, n, k);
    var deps := GetDependencies(nodes[n]);
    if deps.first.Some? { StrictReading(nodes, readings, deps.first.value, k - 1); }
    if deps.second.Some? { StrictReading(nodes, readings, deps.second.value, k - 1); }
    StrictStep(nodes, readings, n, k);
  }

  ghost predicate IsStrict(nodes: Graph, readings: Guid -> Option<bool>, n: Guid, k: nat)
    requires Closed(nodes) && n in nodes && Grounded(nodes, n, k)
  {
    Evaluate(nodes, readings, n, k) ==
      if Silent(nodes, readings, n) then None else Some(Truth(nodes, Holding(readings), n, k))
  }

  lemma StrictStep(nodes: Graph, readings: Guid -> Option<bool>, n: Guid, k: nat)
    requires Closed(nodes) && n in nodes && Grounded(nodes, n, k)
    requires forall d :: DependsOn(nodes[n], d) ==> IsStrict(nodes, readings, d, k - 1)
    ensures IsStrict(nodes, readings, n, k)
  {
    SilentBy(nodes, readings, n);
    OperandsGrounded(nodes, n, k);
    var deps := GetDependencies(nodes[n]);
    if deps.first.Some? { assert DependsOn(nodes[n], deps.first.value); }
    if deps.second.Some? { assert DependsOn(nodes[n], deps.second.value); }
    if nodes[n] == Leaf { assert readings(n).Some? ==> readings(n) == Some(Holding(readings)(n)); }
  }

  // ---- creation ----

  /** A conditional as received: its identifier, and what its topic and payload make of it, if they are known. */
  datatype Entry = Entry(id: Guid, made: Option<Conditional>)

  /** Refused, lost in an endless search, or built: the conditionals in the order of their identifiers. */
  datatype Creation = Refused | Endless | Built(conditionals: seq<(Guid, Conditional)>)

  predicate HasDependencies(c: Conditional) { c != Leaf }

  predicate AllMade(entries: seq<Entry>) { forall i :: 0 <= i < |entries| ==> entries[i].made.Some? }

  /** The first conditional made under an identifier is the one that counts. */
  function Collected(entries: seq<Entry>): (nodes: Graph)
    requires AllMade(entries)
  {
    if entries == [] then map[]
    else
      var n := |entries| - 1;
      var before := Collected(entries[..n]);
      if entries[n].id in before then before else before[entries[n].id := entries[n].made.value]
  }

  lemma {:induction false} CollectedIds(entries: seq<Entry>, g: Guid)
    requires AllMade(entries)
    ensures g in Collected(entries) <==> exists i :: 0 <= i < |entries| && entries[i].id == g
  {
    if entries != [] {
      var n := |entries| - 1;
      var before := entries[..n];
      CollectedIds(before, g);
      forall i | 0 <= i < n && entries[i].id == g ensures g in Collected(before) { assert before[i].id == g; }
    }
  }

  lemma {:induction false} CollectedIsFirst(entries: seq<Entry>, i: nat)
    requires AllMade(entries) && i < |entries| && forall j :: 0 <= j < i ==> entries[j].id != entries[i].id
    ensures entries[i].id in Collected(entries) && Collected(entries)[entries[i].id] == entries[i].made.value
  {
    var n := |entries| - 1;
    CollectedIds(entries[..n], entries[i].id);
    if i < n { CollectedIsFirst(entries[..n], i); }
  }

  ghost predicate Acyclic(nodes: Graph) { forall n :: n in nodes ==> !CycleFrom(nodes, n) }

  function Listed(nodes: Graph): (conditionals: seq<(Guid, Conditional)>) {
    var ids := Ascending(nodes.Keys);
    seq(|ids|, i requires 0 <= i < |ids| => assert ids[i] in ids; (ids[i], nodes[ids[i]]))
  }

  /** The list has each conditional once, under its identifier and in ascending order of those, and nothing else. */
  ghost predicate Lists(conditionals: seq<(Guid, Conditional)>, nodes: Graph) {
    && |conditionals| == |nodes|
    && (forall i, j :: 0 <= i < j < |conditionals| ==> conditionals[i].0 < conditionals[j].0)
    && forall g, c :: (g, c) in conditionals <==> g in nodes && nodes[g] == c
  }

  lemma {:induction false} AscendingHasAll(s: set<Guid>)
    ensures |Ascending(s)| == |s|
    decreases |s|
  {
    if s != {} {
      var m := Smallest(s);
      FewerMembers(s, m);
      AscendingHasAll(s - {m});
    }
  }

  lemma ListedIsList(nodes: Graph)
    ensures Lists(Listed(nodes), nodes)
  {
    var ids, all := Ascending(nodes.Keys), Listed(nodes);
    AscendingHasAll(nodes.Keys);
    assert |nodes| == |nodes.Keys|;
    forall g, c ensures (g, c) in all <==> g in nodes && nodes[g] == c {
      if g in nodes && nodes[g] == c {
        assert g in ids;
        var i :| 0 <= i < |ids| && ids[i] == g;
        assert all[i] == (g, c);
      }
      if (g, c) in all {
        var i :| 0 <= i < |all| && all[i] == (g, c);
        assert ids[i] in ids;
      }
    }
  }

  /** Every conditional with dependencies is among the deferred ones, and what is deferred is there. */
  ghost predicate Defers(nodes: Graph, deferred: seq<Guid>) {
    && (forall i :: 0 <= i < |deferred| ==> deferred[i] in nodes)
    && (forall g :: g in nodes && HasDependencies(nodes[g]) ==> g in deferred)
  }

  /** All conditionals can be made, all references resolve, and there is no circular dependency. */
  ghost predicate Sound(entries: seq<Entry>) {
    AllMade(entries) && Closed(Collected(entries)) && Acyclic(Collected(entries))
  }

  lemma MissingReference(nodes: Graph, n: Guid, d: Guid)
    requires n in nodes && DependsOn(nodes[n], d) && d !in nodes
    ensures !Closed(nodes)
  {
  }

  class ConditionalFactory {
    /** The marks of the search, shared by all searches ever made. */
    var lookup: set<Guid>

    constructor ()
      ensures lookup == {}
    {
      lookup := {};
    }

    method SearchConflict(nodes: Graph, node: Guid, depth: nat) returns (conflict: Option<bool>)
      requires Closed(nodes) && node in nodes
      modifies this
      ensures var r := HasConflict(nodes, node, old(lookup), depth);
        if r == None then conflict == None else conflict == Some(r.value.conflict) && lookup == r.value.lookup
      decreases depth
    {
      if depth == 0 { return None; }
      if node in lookup {
        lookup := lookup - {node};
        return Some(true);
      }
      lookup := lookup + {node};
      var deps := GetDependencies(nodes[node]);
      var first, second := Some(false), Some(false);
      if deps.first.Some? {
        first := SearchConflict(nodes, deps.first.value, depth - 1);
        if first == None { return None; }
      }
      if deps.second.Some? {
        second := SearchConflict(nodes, deps.second.value, depth - 1);
        if second == None { return None; }
      }
      lookup := lookup - {node};
      conflict := Some(first.value || second.value);
    }

    /** Makes the conditionals, first come first served, and notes those with dependencies. */
    method Collect(entries: seq<Entry>) returns (ok: bool, nodes: Graph, deferred: seq<Guid>)
      ensures ok <==> AllMade(entries)
      ensures ok ==> nodes == Collected(entries) && Defers(nodes, deferred)
    {
      nodes, deferred := map[], [];
      var i := 0;
      while i < |entries|
        invariant 0 <= i <= |entries| && AllMade(entries[..i])
        invariant nodes == Collected(entries[..i]) && Defers(nodes, deferred)
      {
        var entry := entries[i];
        if entry.made == None {
          assert !AllMade(entries);
          return false, nodes, deferred;
        }
        assert entries[..i + 1][..i] == entries[..i];
        if HasDependencies(entry.made.value) { deferred := deferred + [entry.id]; }
        if entry.id !in nodes { nodes := nodes[entry.id := entry.made.value]; }
        i := i + 1;
      }
      assert entries[..i] == entries;
      ok := true;
    }

    /** Finds the conditionals the deferred ones refer to. */
    method Link(nodes: Graph, deferred: seq<Guid>) returns (ok: bool)
      requires Defers(nodes, deferred)
      ensures ok <==> Closed(nodes)
    {
      var i := 0;
      while i < |deferred|
        invariant 0 <= i <= |deferred|
        invariant forall j, d :: 0 <= j < i && DependsOn(nodes[deferred[j]], d) ==> d in nodes
      {
        var deps := GetDependencies(nodes[deferred[i]]);
        if deps.first.Some? && deps.first.value !in nodes {
          MissingReference(nodes, deferred[i], deps.first.value);
          return false;
        }
        if deps.second.Some? && deps.second.value !in nodes {
          MissingReference(nodes, deferred[i], deps.second.value);
          return false;
        }
        i := i + 1;
      }
      ok := true;
    }

    /** Searches from every deferred conditional, with the marks of earlier searches still in place. */
    method SearchAll(nodes: Graph, deferred: seq<Guid>, depth: nat) returns (conflict: Option<bool>)
      requires Closed(nodes) && Defers(nodes, deferred) && lookup == {}
      modifies this
      ensures conflict.Some? ==> lookup == {} && (conflict.value <==> !Acyclic(nodes))
      ensures Acyclic(nodes) && depth >= |nodes| ==> conflict == Some(false)
    {
      var i := 0;
      while i < |deferred|
        invariant 0 <= i <= |deferred| && lookup == {}
        invariant forall j :: 0 <= j < i ==> !CycleFrom(nodes, deferred[j])
      {
        SearchedRight(nodes, deferred[i], depth);
        conflict := SearchConflict(nodes, deferred[i], depth);
        if conflict != Some(false) { return; }
        i := i + 1;
      }
      LeavesAreAcyclic(nodes, deferred);
      conflict := Some(false);
    }

    /**
     Builds the conditionals if and only if all of them can be made, every reference is among them and no conditional
     depends on itself; only a circular dependency can keep the search from ending. The marks never accumulate.
     */
    method CreateConditionals(entries: seq<Entry>, depth: nat) returns (r: Creation)
      requires lookup == {}
      modifies this
      ensures r.Built? ==> Sound(entries) && Lists(r.conditionals, Collected(entries))
      ensures r.Refused? ==> !Sound(entries)
      ensures r.Endless? ==> AllMade(entries) && Closed(Collected(entries))
      ensures r.Endless? ==> !Acyclic(Collected(entries)) || depth < |Collected(entries)|
      ensures !r.Endless? ==> lookup == {}
    {
      var made, nodes, deferred := Collect(entries);
      if !made { return Refused; }
      var linked := Link(nodes, deferred);
      if !linked { return Refused; }
      var conflict := SearchAll(nodes, deferred, depth);
      if conflict == None { return Endless; }
      if conflict.value { return Refused; }
      ListedIsList(nodes);
      r := Built(Listed(nodes));
    }
  }

  /** A conditional without dependencies begins no cycle. */
  lemma LeavesAreAcyclic(nodes: Graph, deferred: seq<Guid>)
    requires Closed(nodes) && Defers(nodes, deferred)
    requires forall j :: 0 <= j < |deferred| ==> !CycleFrom(nodes, deferred[j])
    ensures Acyclic(nodes)
  {
    forall n | n in nodes ensures !CycleFrom(nodes, n) {
      if !HasDependencies(nodes[n]) {
        forall path | IsPath(nodes, path) && path[0] == n ensures NoDuplicates(path) {
          assert |path| == 1 || DependsOn(nodes[path[0]], path[1]);
        }
      }
    }
  }

  /** Each conditional built can be evaluated, to the strict reading, at a depth of the number of conditionals. */
  lemma BuiltCanBeEvaluated(
    entries: seq<Entry>, built: seq<(Guid, Conditional)>, readings: Guid -> Option<bool>, n: Guid, c: Conditional)
    requires Sound(entries) && Lists(built, Collected(entries)) && (n, c) in built
    ensures var nodes := Collected(entries);
      && n in nodes && nodes[n] == c && |nodes| == |built|
      && Grounded(nodes, n, |nodes|)
      && Evaluate(nodes, readings, n, |nodes|) ==
           if Silent(nodes, readings, n) then None else Some(Truth(nodes, Holding(readings), n, |nodes|))
  {
    var nodes := Collected(entries);
    AcyclicIsGrounded(nodes, n);
    StrictReading(nodes, readings, n, |nodes|);
  }
}
