/** On which graphs the search for circular dependencies ends. */
module ConditionalSearch {
  import opened Common
  import opened ConditionalGraph

  /** Some depth is enough for the search to end. */
  ghost predicate Ends(nodes: Graph, n: Guid, lookup: set<Guid>)
    requires Closed(nodes) && n in nodes
  {
    exists depth: nat :: HasConflict(nodes, n, lookup, depth).Some?
  }

  // ---- what can be reached ----

  lemma Fewer(s: set<Guid>, t: set<Guid>)
    requires forall x :: x in s ==> x in t
    ensures |s| <= |t|
  {
    if s != {} {
      var x := SomeMember(s);
      FewerMembers(s, x);
      Fewer(s - {x}, t - {x});
    }
  }

  ghost function ReachSet(nodes: Graph, n: Guid): set<Guid> { set m | m in nodes && Reaches(nodes, n, m) }

  lemma ReachesItself(nodes: Graph, n: Guid)
    requires n in nodes
    ensures Reaches(nodes, n, n)
  {
    var path := [n];
    assert IsPath(nodes, path) && path[0] == n && path[|path| - 1] == n;
  }

  lemma ReachesOn(nodes: Graph, a: Guid, m: Guid, n: Guid)
    requires Reaches(nodes, a, m) && Reaches(nodes, m, n)
    ensures Reaches(nodes, a, n)
  {
    var there :| IsPath(nodes, there) && there[0] == a && there[|there| - 1] == m;
    var further :| IsPath(nodes, further) && further[0] == m && further[|further| - 1] == n;
    if |further| > 1 {
      PathPart(nodes, further, 1, |further|);
      assert DependsOn(nodes[further[1 - 1]], further[1]);
      Joined(nodes, there, further[1..]);
      var path := there + further[1..];
      assert path[0] == a && path[|path| - 1] == n;
    }
  }

  /** A dependency reaches no more than the conditional does, and less if it does not lead back. */
  lemma DependencyReaches(nodes: Graph, n: Guid, d: Guid)
    requires Closed(nodes) && n in nodes && DependsOn(nodes[n], d)
    ensures |ReachSet(nodes, d)| <= |ReachSet(nodes, n)|
    ensures !Reaches(nodes, d, n) ==> |ReachSet(nodes, d)| < |ReachSet(nodes, n)|
  {
    var all, fewer := ReachSet(nodes, n), ReachSet(nodes, d);
    forall m | m in fewer ensures m in all { ReachesVia(nodes, n, d, m); }
    Fewer(fewer, all);
    if !Reaches(nodes, d, n) {
      ReachesItself(nodes, n);
      FewerMembers(all, n);
      Fewer(fewer, all - {n});
    }
  }

  // ---- marks out of reach ----

  lemma StillAvoids(nodes: Graph, n: Guid, d: Guid, marked: set<Guid>)
    requires Closed(nodes) && n in nodes && DependsOn(nodes[n], d) && Avoids(nodes, n, marked)
    ensures Avoids(nodes, d, marked)
  {
    forall path | IsPath(nodes, path) && path[0] == d ensures path[|path| - 1] !in marked {
      ExtendFront(nodes, n, path);
      var longer := [n] + path;
      assert longer[0] == n && longer[|longer| - 1] == path[|path| - 1];
    }
  }

  function With(r: Option<Found>, marked: set<Guid>): Option<Found> {
    if r == None then None else Some(Found(r.value.conflict, r.value.lookup + marked))
  }

  lemma Reordered(s: set<Guid>, marked: set<Guid>, n: Guid)
    requires n !in marked
    ensures s + marked - {n} == s - {n} + marked && s + marked + {n} == s + {n} + marked
  {
    SameSet(s + marked - {n}, s - {n} + marked);
    SameSet(s + marked + {n}, s + {n} + marked);
  }

  /** Marks that the search cannot reach change nothing and stay. */
  lemma {:induction false} MarksApart(nodes: Graph, n: Guid, lookup: set<Guid>, marked: set<Guid>, depth: nat)
    requires Closed(nodes) && n in nodes && Avoids(nodes, n, marked)
    ensures HasConflict(nodes, n, lookup + marked, depth) == With(HasConflict(nodes, n, lookup, depth), marked)
    decreases depth
  {
    AvoidsItself(nodes, n, marked);
    Reordered(lookup, marked, n);
    if depth > 0 && n !in lookup {
      var deps := GetDependencies(nodes[n]);
      var first := Some(Found(false, lookup + {n}));
      if deps.first.Some? {
        StillAvoids(nodes, n, deps.first.value, marked);
        MarksApart(nodes, deps.first.value, lookup + {n}, marked, depth - 1);
        first := HasConflict(nodes, deps.first.value, lookup + {n}, depth - 1);
      }
      if first.Some? {
        var second := Some(Found(false, first.value.lookup));
        if deps.second.Some? {
          StillAvoids(nodes, n, deps.second.value, marked);
          MarksApart(nodes, deps.second.value, first.value.lookup, marked, depth - 1);
          second := HasConflict(nodes, deps.second.value, first.value.lookup, depth - 1);
        }
        if second.Some? { Reordered(second.value.lookup, marked, n); }
      }
    }
  }

  lemma AvoidsItself(nodes: Graph, n: Guid, marked: set<Guid>)
    requires n in nodes && Avoids(nodes, n, marked)
    ensures n !in marked
  {
    var path := [n];
    assert IsPath(nodes, path) && path[0] == n && path[|path| - 1] == n;
  }

  /** Without marks of its own, a search is the same among marks it cannot reach. */
  lemma ApartFromNone(nodes: Graph, n: Guid, marked: set<Guid>, depth: nat)
    requires Closed(nodes) && n in nodes && Avoids(nodes, n, marked)
    ensures var r := HasConflict(nodes, n, {}, depth);
      HasConflict(nodes, n, marked, depth) == if r == None then None else Some(Found(r.value.conflict, marked))
  {
    MarksApart(nodes, n, {}, marked, depth);
    SameSet({} + marked, marked);
    var r := HasConflict(nodes, n, {}, depth);
    if r.Some? { SameSet(r.value.lookup + marked, marked); }
  }

  // ---- where it ends ----

  /** No conjunction or disjunction that can be reached has two operands that both lead back to it. */
  ghost predicate Untangled(nodes: Graph, n: Guid) {
    forall m :: m in nodes && Reaches(nodes, n, m) && GetDependencies(nodes[m]).second.Some? ==>
      var deps := GetDependencies(nodes[m]);
      !(Reaches(nodes, deps.first.value, m) && Reaches(nodes, deps.second.value, m))
  }

  /** Whatever is marked leads to the node being searched. */
  ghost predicate OnTheWay(nodes: Graph, n: Guid, lookup: set<Guid>) {
    forall m :: m in lookup ==> m in nodes && Reaches(nodes, m, n)
  }

  lemma Further(nodes: Graph, n: Guid, lookup: set<Guid>, d: Guid)
    requires Closed(nodes) && n in nodes && DependsOn(nodes[n], d) && OnTheWay(nodes, n, lookup) && Untangled(nodes, n)
    ensures OnTheWay(nodes, d, lookup + {n}) && Untangled(nodes, d)
  {
    ReachesItself(nodes, d);
    ReachesVia(nodes, n, d, d);
    forall m | m in lookup + {n} ensures m in nodes && Reaches(nodes, m, d) {
      if m != n { ReachesOn(nodes, m, n, d); }
    }
    forall m | m in nodes && Reaches(nodes, d, m) ensures Reaches(nodes, n, m) { ReachesVia(nodes, n, d, m); }
  }

  /** An operand that does not lead back meets no mark. */
  lemma NoWayBack(nodes: Graph, n: Guid, d: Guid, marked: set<Guid>)
    requires !Reaches(nodes, d, n) && OnTheWay(nodes, n, marked)
    ensures Avoids(nodes, d, marked)
  {
    forall path | IsPath(nodes, path) && path[0] == d ensures path[|path| - 1] !in marked {
      var m := path[|path| - 1];
      assert Reaches(nodes, d, m);
      if m in marked { ReachesOn(nodes, d, m, n); }
    }
  }

  /** The search ends if the searches of the operands do, one after the other. */
  lemma EndsByOperands(nodes: Graph, n: Guid, lookup: set<Guid>, one: nat, two: nat)
    requires Closed(nodes) && n in nodes && n !in lookup
    requires var deps := GetDependencies(nodes[n]);
      deps.first.Some? ==>
        var first := HasConflict(nodes, deps.first.value, lookup + {n}, one);
        first.Some? && (deps.second.Some? ==> HasConflict(nodes, deps.second.value, first.value.lookup, two).Some?)
    ensures Ends(nodes, n, lookup)
  {
    var deps := GetDependencies(nodes[n]);
    var depth := one + two;
    if deps.first.Some? {
      DeeperIsSame(nodes, deps.first.value, lookup + {n}, one, depth);
      var first := HasConflict(nodes, deps.first.value, lookup + {n}, one);
      if deps.second.Some? { DeeperIsSame(nodes, deps.second.value, first.value.lookup, two, depth); }
    }
    assert HasConflict(nodes, n, lookup, depth + 1).Some?;
  }

  /** Each step of the search marks another node or leaves some node behind for good. */
  lemma {:induction false} UntangledEnds(nodes: Graph, n: Guid, lookup: set<Guid>)
    requires Closed(nodes) && n in nodes && Untangled(nodes, n) && OnTheWay(nodes, n, lookup)
    ensures Ends(nodes, n, lookup)
    decreases |ReachSet(nodes, n)|, |nodes.Keys - lookup|, 1
  {
    var deps := GetDependencies(nodes[n]);
    if n in lookup {
      assert HasConflict(nodes, n, lookup, 1).Some?;
    } else if deps.first == None {
      EndsByOperands(nodes, n, lookup, 0, 0);
    } else if deps.second == None {
      var one := OperandEnds(nodes, n, lookup, deps.first.value);
      EndsByOperands(nodes, n, lookup, one, 0);
    } else if !Reaches(nodes, deps.first.value, n) {
      var one := ApartEnds(nodes, n, lookup, deps.first.value, lookup + {n});
      var two := OperandEnds(nodes, n, lookup, deps.second.value);
      EndsByOperands(nodes, n, lookup, one, two);
    } else {
      ReachesItself(nodes, n);
      var one := OperandEnds(nodes, n, lookup, deps.first.value);
      var first := HasConflict(nodes, deps.first.value, lookup + {n}, one);
      var two := ApartEnds(nodes, n, lookup, deps.second.value, first.value.lookup);
      EndsByOperands(nodes, n, lookup, one, two);
    }
  }

  /** An operand searched with the conditional marked. */
  lemma {:induction false} OperandEnds(nodes: Graph, n: Guid, lookup: set<Guid>, d: Guid) returns (depth: nat)
    requires Closed(nodes) && n in nodes && Untangled(nodes, n) && OnTheWay(nodes, n, lookup)
    requires n !in lookup && DependsOn(nodes[n], d)
    ensures HasConflict(nodes, d, lookup + {n}, depth).Some?
    decreases |ReachSet(nodes, n)|, |nodes.Keys - lookup|, 0
  {
    Further(nodes, n, lookup, d);
    DependencyReaches(nodes, n, d);
    OneMoreMarked(nodes.Keys, lookup, n);
    UntangledEnds(nodes, d, lookup + {n});
    depth :| HasConflict(nodes, d, lookup + {n}, depth).Some?;
  }

  lemma OneMoreMarked(all: set<Guid>, lookup: set<Guid>, n: Guid)
    requires n in all && n !in lookup
    ensures |all - (lookup + {n})| < |all - lookup|
  {
    FewerMembers(all - lookup, n);
    Fewer(all - (lookup + {n}), all - lookup - {n});
  }

  /** An operand that does not lead back, searched among marks on the way to the conditional. */
  lemma {:induction false} ApartEnds(nodes: Graph, n: Guid, lookup: set<Guid>, d: Guid, marked: set<Guid>)
    returns (depth: nat)
    requires Closed(nodes) && n in nodes && Untangled(nodes, n) && OnTheWay(nodes, n, lookup)
    requires DependsOn(nodes[n], d) && !Reaches(nodes, d, n) && forall m :: m in marked ==> m in lookup + {n}
    ensures var r := HasConflict(nodes, d, marked, depth); r.Some? && r.value.lookup == marked
    decreases |ReachSet(nodes, n)|, |nodes.Keys - lookup|, 0
  {
    Further(nodes, n, {}, d);
    DependencyReaches(nodes, n, d);
    UntangledEnds(nodes, d, {});
    depth :| HasConflict(nodes, d, {}, depth).Some?;
    ReachesItself(nodes, n);
    NoWayBack(nodes, n, d, marked);
    ApartFromNone(nodes, d, marked, depth);
  }

  /**
   If no conjunction or disjunction that can be reached has two operands leading back to it, the search ends and its
   answer is exact: a conflict is reported if and only if a cycle can be reached.
   */
  lemma ConflictDecided(nodes: Graph, n: Guid)
    requires Closed(nodes) && n in nodes && Untangled(nodes, n)
    ensures exists depth: nat, r :: HasConflict(nodes, n, {}, depth) == Some(r) && (r.conflict <==> CycleFrom(nodes, n))
  {
    UntangledEnds(nodes, n, {});
    ConflictExact(nodes, n);
    var depth: nat :| HasConflict(nodes, n, {}, depth).Some?;
    var r := HasConflict(nodes, n, {}, depth).value;
    assert HasConflict(nodes, n, {}, depth) == Some(r);
  }

  // ---- where it does not ----

  lemma CutLoop(nodes: Graph, path: seq<Guid>, i: nat, j: nat) returns (shorter: seq<Guid>)
    requires IsPath(nodes, path) && i < j < |path| && path[i] == path[j]
    ensures IsPath(nodes, shorter) && |shorter| < |path|
    ensures shorter[0] == path[0] && shorter[|shorter| - 1] == path[|path| - 1]
  {
    shorter := seq(|path| - (j - i), k requires 0 <= k < |path| - (j - i) => path[if k < i then k else k + (j - i)]);
    forall k | 0 < k < |shorter| ensures DependsOn(nodes[shorter[k - 1]], shorter[k]) {
      var at := if k <= i then k else k + (j - i);
      assert DependsOn(nodes[path[at - 1]], path[at]);
    }
  }

  /** A path that meets no node twice leads wherever a path does. */
  lemma {:induction false} SimplePath(nodes: Graph, path: seq<Guid>) returns (simple: seq<Guid>)
    requires IsPath(nodes, path)
    ensures IsPath(nodes, simple) && NoDuplicates(simple)
    ensures simple[0] == path[0] && simple[|simple| - 1] == path[|path| - 1]
    decreases |path|
  {
    if NoDuplicates(path) {
      simple := path;
    } else {
      var i, j :| 0 <= i < j < |path| && path[i] == path[j];
      var shorter := CutLoop(nodes, path, i, j);
      simple := SimplePath(nodes, shorter);
    }
  }

  /** A path without repetition and free of marks up to its end. */
  ghost predicate Free(nodes: Graph, path: seq<Guid>, lookup: set<Guid>) {
    var free := IsPath(nodes, path) && NoDuplicates(path) && forall i :: 0 <= i < |path| - 1 ==> path[i] !in lookup;
    free
  }

  lemma RestIsFree(nodes: Graph, path: seq<Guid>, lookup: set<Guid>)
    requires Free(nodes, path, lookup) && |path| > 1
    ensures Free(nodes, path[1..], lookup + {path[0]}) && DependsOn(nodes[path[0]], path[1]) && path[0] !in lookup
  {
    var n, rest := path[0], path[1..];
    assert DependsOn(nodes[path[1 - 1]], path[1]);
    PathPart(nodes, path, 1, |path|);
    assert path == [n] + rest;
    TailIsDistinct(n, rest);
    forall i | 0 <= i < |rest| - 1 ensures rest[i] !in lookup + {n} { assert rest[i] == path[i + 1]; }
  }

  /** What an operand's search has unmarked stays unmarked, and so does the conditional itself. */
  lemma StaysUnmarked(nodes: Graph, n: Guid, lookup: set<Guid>, depth: nat, x: Guid)
    requires Closed(nodes) && n in nodes && n !in lookup && HasConflict(nodes, n, lookup, depth).Some?
    ensures depth > 0 && n !in HasConflict(nodes, n, lookup, depth).value.lookup
    ensures var deps := GetDependencies(nodes[n]);
      deps.first.Some? ==>
        var first := HasConflict(nodes, deps.first.value, lookup + {n}, depth - 1);
        && first.Some?
        && (x !in first.value.lookup ==> x !in HasConflict(nodes, n, lookup, depth).value.lookup)
        && (deps.second.Some? ==>
              var second := HasConflict(nodes, deps.second.value, first.value.lookup, depth - 1);
              && second.Some?
              && (x !in second.value.lookup ==> x !in HasConflict(nodes, n, lookup, depth).value.lookup))
  {
  }

  /** A search that ends has unmarked every node to which a path free of other marks led. */
  lemma {:induction false} Unmarks(nodes: Graph, path: seq<Guid>, lookup: set<Guid>, depth: nat)
    requires Closed(nodes) && Free(nodes, path, lookup) && HasConflict(nodes, path[0], lookup, depth).Some?
    ensures path[|path| - 1] !in HasConflict(nodes, path[0], lookup, depth).value.lookup
    decreases depth
  {
    var n := path[0];
    if n !in lookup { StaysUnmarked(nodes, n, lookup, depth, path[|path| - 1]); }
    if |path| > 1 {
      RestIsFree(nodes, path, lookup);
      var deps := GetDependencies(nodes[n]);
      var first := HasConflict(nodes, deps.first.value, lookup + {n}, depth - 1);
      if deps.first == Some(path[1]) {
        Unmarks(nodes, path[1..], lookup + {n}, depth - 1);
      } else {
        assert Free(nodes, path[1..], first.value.lookup);
        Unmarks(nodes, path[1..], first.value.lookup, depth - 1);
      }
    }
  }

  lemma {:induction false} NeverEnds(nodes: Graph, n: Guid, depth: nat)
    requires Closed(nodes) && n in nodes && GetDependencies(nodes[n]).second == Some(n)
    requires Reaches(nodes, GetDependencies(nodes[n]).first.value, n)
    ensures HasConflict(nodes, n, {}, depth) == None
    decreases depth
  {
    if depth > 0 {
      var a := GetDependencies(nodes[n]).first.value;
      var first := HasConflict(nodes, a, {} + {n}, depth - 1);
      if first.Some? {
        var path :| IsPath(nodes, path) && path[0] == a && path[|path| - 1] == n;
        var simple := SimplePath(nodes, path);
        Unmarks(nodes, simple, {} + {n}, depth - 1);
        SameSet(first.value.lookup, {});
        NeverEnds(nodes, n, depth - 1);
      }
    }
  }

  /**
   A conjunction or disjunction whose second operand is itself: the search from it ends if and only if the first operand
   does not lead back to it and the search from that operand ends.
   */
  lemma SecondItselfExact(nodes: Graph, n: Guid)
    requires Closed(nodes) && n in nodes && GetDependencies(nodes[n]).second == Some(n)
    ensures var a := GetDependencies(nodes[n]).first.value;
      a in nodes && (Ends(nodes, n, {}) <==> !Reaches(nodes, a, n) && Ends(nodes, a, {}))
  {
    var a := GetDependencies(nodes[n]).first.value;
    assert DependsOn(nodes[n], a);
    if Reaches(nodes, a, n) {
      forall depth: nat ensures HasConflict(nodes, n, {}, depth) == None { NeverEnds(nodes, n, depth); }
    } else {
      ReachesItself(nodes, n);
      NoWayBack(nodes, n, a, {} + {n});
      if depth: nat :| HasConflict(nodes, n, {}, depth).Some? {
        ApartFromNone(nodes, a, {} + {n}, depth - 1);
        assert HasConflict(nodes, a, {}, depth - 1).Some?;
      }
      if depth: nat :| HasConflict(nodes, a, {}, depth).Some? {
        ApartFromNone(nodes, a, {} + {n}, depth);
        assert HasConflict(nodes, n, {} + {n}, 1).Some?;
        EndsByOperands(nodes, n, {}, depth, 1);
      }
    }
  }

  /**
   Which operands lead back does not decide it: with the same two operands, both leading back, the search ends in one
   order and not in the other; and it may end when both operands are the same.
   */
  lemma OrderDecides(n: Guid, b: Guid)
    requires n != b
    ensures var itselfFirst := map[n := LogicalAND(n, b), b := LogicalNOT(n)];
      var itselfSecond := map[n := LogicalAND(b, n), b := LogicalNOT(n)];
      var neither := map[n := LogicalAND(b, b), b := LogicalNOT(n)];
      && Closed(itselfFirst) && Closed(itselfSecond) && Closed(neither)
      && Ends(itselfFirst, n, {}) && !Ends(itselfSecond, n, {}) && Ends(neither, n, {})
  {
    var itselfFirst := map[n := LogicalAND(n, b), b := LogicalNOT(n)];
    var itselfSecond := map[n := LogicalAND(b, n), b := LogicalNOT(n)];
    var neither := map[n := LogicalAND(b, b), b := LogicalNOT(n)];
    var path := [b, n];
    assert IsPath(itselfSecond, path) && path[0] == b && path[|path| - 1] == n;
    SecondItselfExact(itselfSecond, n);
    ItselfFirstEnds(n, b);
    NeitherEnds(n, b);
  }

  lemma ItselfFirstEnds(n: Guid, b: Guid)
    requires n != b
    ensures var nodes := map[n := LogicalAND(n, b), b := LogicalNOT(n)]; Closed(nodes) && Ends(nodes, n, {})
  {
    var nodes := map[n := LogicalAND(n, b), b := LogicalNOT(n)];
    EndsByOperands(nodes, n, {} + {b}, 1, 1);
    var depth: nat :| HasConflict(nodes, n, {} + {b}, depth).Some?;
    EndsByOperands(nodes, b, {}, depth, 0);
    var two: nat :| HasConflict(nodes, b, {}, two).Some?;
    SameSet({} + {n} - {n}, {});
    EndsByOperands(nodes, n, {}, 1, two);
  }

  lemma NeitherEnds(n: Guid, b: Guid)
    requires n != b
    ensures var nodes := map[n := LogicalAND(b, b), b := LogicalNOT(n)]; Closed(nodes) && Ends(nodes, n, {})
  {
    var nodes := map[n := LogicalAND(b, b), b := LogicalNOT(n)];
    HitsAtOnce(nodes, n, b, {} + {b} + {n} - {b});
    EndsByOperands(nodes, n, {} + {b}, 1, 2);
    var depth: nat :| HasConflict(nodes, n, {} + {b}, depth).Some?;
    EndsByOperands(nodes, b, {}, depth, 0);
    var two: nat :| HasConflict(nodes, b, {}, two).Some?;
    HitsAtOnce(nodes, n, b, {} + {n});
    SameSet({} + {n} + {b} - {n} - {b}, {});
    EndsByOperands(nodes, n, {}, 2, two);
  }

  lemma HitsAtOnce(nodes: Graph, n: Guid, b: Guid, lookup: set<Guid>)
    requires Closed(nodes) && b in nodes && nodes[b] == LogicalNOT(n) && n in lookup && b !in lookup
    ensures HasConflict(nodes, b, lookup, 2) == Some(Found(true, lookup + {b} - {n} - {b}))
  {
    assert DependsOn(nodes[b], n);
    assert HasConflict(nodes, n, lookup + {b}, 1) == Some(Found(true, lookup + {b} - {n}));
  }
}
