/** `ITCentral.Common.AppCommon`: the program's name and version, and the
    depth-first `TopologicalSort` that orders the metadata tables so that
    every table is created after the tables it refers to. */
module AppCommon {

  const Success: bool := true
  const Fail: bool := false
  const ProgramVersion: string := "0.0.3"
  const ProgramName: string := "ITCentral"

  function VersionHeader(): (h: string)
    ensures h == "ITCentral - Version: 0.0.3"
  {
    ProgramName + " - Version: " + ProgramVersion
  }

  // -------------------------------------------------------------------
  // Dependency graphs.

  /** `dependencies.TryGetValue(type, out var dependentTypes)`: the listed
      dependencies of a type, none when it has no entry. */
  function DepsOf<T>(dependencies: map<T, seq<T>>, t: T): seq<T> {
    if t in dependencies then dependencies[t] else []
  }

  /** Some type lists x among its dependencies. */
  ghost predicate IsDependency<T>(dependencies: map<T, seq<T>>, x: T) {
    exists k :: k in dependencies && x in dependencies[k]
  }

  /** Every listed dependency lies in `universe`. */
  ghost predicate Closed<T>(dependencies: map<T, seq<T>>, universe: set<T>) {
    forall k, j :: k in dependencies && 0 <= j < |dependencies[k]| ==> dependencies[k][j] in universe
  }

  /** The input types, the types with an entry, and every type listed as a
      dependency. */
  ghost function Nodes<T>(types: seq<T>, dependencies: map<T, seq<T>>): (u: set<T>)
    ensures Closed(dependencies, u)
    ensures forall x :: x in types ==> x in u
  {
    (set x | x in types) + dependencies.Keys
      + (set k, j | k in dependencies.Keys && 0 <= j < |dependencies[k]| :: dependencies[k][j])
  }

  /** `rank` strictly decreases along every dependency: the graph is
      acyclic, and `rank` witnesses it. */
  ghost predicate Ranked<T>(dependencies: map<T, seq<T>>, rank: T -> nat) {
    forall k, j :: k in dependencies && 0 <= j < |dependencies[k]| ==>
      rank(dependencies[k][j]) < rank(k)
  }

  predicate NoDup<T(==)>(s: seq<T>) {
    forall i, j :: 0 <= i < j < |s| ==> s[i] != s[j]
  }

  /** Every type comes after all of its dependencies. */
  ghost predicate DepsBefore<T>(sorted: seq<T>, dependencies: map<T, seq<T>>) {
    forall i, d :: 0 <= i < |sorted| && d in DepsOf(dependencies, sorted[i]) ==> d in sorted[..i]
  }

  /** A type with no dependencies that no type depends on. */
  ghost predicate Isolated<T>(dependencies: map<T, seq<T>>, x: T) {
    DepsOf(dependencies, x) == [] && !IsDependency(dependencies, x)
  }

  /** The isolated types of s, in order. */
  ghost function KeepIsolated<T>(dependencies: map<T, seq<T>>, s: seq<T>): (r: seq<T>)
    ensures forall x :: x in r ==> x in s && Isolated(dependencies, x)
  {
    if s == [] then []
    else
      var front := KeepIsolated(dependencies, s[..|s| - 1]);
      if Isolated(dependencies, s[|s| - 1]) then front + [s[|s| - 1]] else front
  }

  /** LINQ `Distinct`: s without repetitions, each element where it first
      occurs. */
  function Distinct<T(==)>(s: seq<T>): (r: seq<T>)
    ensures NoDup(r)
    ensures forall i :: 0 <= i < |r| ==> r[i] in s
    ensures forall j :: 0 <= j < |s| ==> s[j] in r
  {
    if s == [] then []
    else
      var front := Distinct(s[..|s| - 1]);
      if s[|s| - 1] in s[..|s| - 1] then front else front + [s[|s| - 1]]
  }

  lemma {:induction false} KeepIsolatedAppend<T>(dependencies: map<T, seq<T>>, s: seq<T>, added: seq<T>)
    ensures KeepIsolated(dependencies, s + added)
      == KeepIsolated(dependencies, s) + KeepIsolated(dependencies, added)
    decreases |added|
  {
    if added == [] {
      assert s + added == s;
    } else {
      var last := added[|added| - 1];
      assert (s + added)[..|s + added| - 1] == s + added[..|added| - 1];
      KeepIsolatedAppend(dependencies, s, added[..|added| - 1]);
    }
  }

  /** A sequence none of whose elements is isolated has none to keep. */
  lemma {:induction false} KeepNoneIsolated<T>(dependencies: map<T, seq<T>>, s: seq<T>)
    requires forall x :: x in s ==> !Isolated(dependencies, x)
    ensures KeepIsolated(dependencies, s) == []
  {
    if s != [] {
      assert s[|s| - 1] in s;
      forall x | x in s[..|s| - 1]
        ensures !Isolated(dependencies, x)
      {
        assert x in s;
      }
      KeepNoneIsolated(dependencies, s[..|s| - 1]);
    }
  }

  // -------------------------------------------------------------------
  // The sort.

  /** The state the local function `Visit` shares with `TopologicalSort`:
      the `sorted` list and the `visited` set. */
  class Sorter<T(==)> {
    const dependencies: map<T, seq<T>>
    ghost const universe: set<T>
    var sorted: seq<T>
    var visited: set<T>

    /** Every emitted type is visited and emitted once; the visited types
        lie in the graph. */
    ghost predicate Valid()
      reads this
    {
      NoDup(sorted) && (forall x :: x in sorted ==> x in visited) && visited <= universe
      && Closed(dependencies, universe)
    }

    constructor(dependencies: map<T, seq<T>>, ghost universe: set<T>)
      requires Closed(dependencies, universe)
      ensures Valid()
      ensures this.dependencies == dependencies && this.universe == universe
      ensures sorted == [] && visited == {}
    {
      this.dependencies := dependencies;
      this.universe := universe;
      sorted := [];
      visited := {};
    }

    /** Marks t visited before visiting its dependencies, so a cycle ends
        at the first type met again; emits t after them. When `rank` ranks
        the graph, every type still on the visiting path outranks t. */
    method Visit(t: T, ghost rank: T -> nat)
      requires Valid() && t in universe
      requires Ranked(dependencies, rank) ==>
        DepsBefore(sorted, dependencies) &&
        forall g :: g in visited && g !in sorted ==> rank(t) < rank(g)
      modifies this
      decreases universe - visited, 2
      ensures Valid()
      ensures old(sorted) <= sorted && t in visited
      ensures forall x :: x in visited <==> x in old(visited) || x in sorted[|old(sorted)|..]
      ensures forall x :: x in sorted[|old(sorted)|..] ==> x !in old(visited)
      ensures forall x :: x in sorted[|old(sorted)|..] ==> x == t || IsDependency(dependencies, x)
      ensures DepsOf(dependencies, t) == [] ==>
        sorted == old(sorted) + (if t in old(visited) then [] else [t])
      ensures Ranked(dependencies, rank) ==> DepsBefore(sorted, dependencies) && t in sorted
    {
      if t in visited {
        return;
      }
      visited := visited + {t};
      VisitDependencies(t, rank);
      ghost var before := sorted;
      EmitVisited(t, rank);
      assert sorted[|old(sorted)|..] == before[|old(sorted)|..] + [t];
    }

    /** The `foreach` over the dependencies of t, once t is marked. */
    method VisitDependencies(t: T, ghost rank: T -> nat)
      requires Valid() && t in universe && t in visited && t !in sorted
      requires Ranked(dependencies, rank) ==>
        DepsBefore(sorted, dependencies) &&
        forall g :: g in visited && g !in sorted ==> g == t || rank(t) < rank(g)
      modifies this
      decreases universe - visited + {t}, 1
      ensures Valid() && old(sorted) <= sorted && t in visited && t !in sorted
      ensures DepsOf(dependencies, t) == [] ==> sorted == old(sorted)
      ensures forall x :: x in visited <==> x in old(visited) || x in sorted[|old(sorted)|..]
      ensures forall x :: x in sorted[|old(sorted)|..] ==> x !in old(visited)
      ensures forall x :: x in sorted[|old(sorted)|..] ==> IsDependency(dependencies, x)
      ensures Ranked(dependencies, rank) ==>
        DepsBefore(sorted, dependencies) && forall d :: d in DepsOf(dependencies, t) ==> d in sorted
    {
      if t in dependencies {
        var dependentTypes := dependencies[t];
        var i := 0;
        while i < |dependentTypes|
          invariant 0 <= i <= |dependentTypes|
          invariant Valid() && old(sorted) <= sorted && t in visited && t !in sorted
          invariant i == 0 ==> sorted == old(sorted)
          invariant forall x :: x in visited <==> x in old(visited) || x in sorted[|old(sorted)|..]
          invariant forall x :: x in sorted[|old(sorted)|..] ==> x !in old(visited)
          invariant forall x :: x in sorted[|old(sorted)|..] ==> IsDependency(dependencies, x)
          invariant Ranked(dependencies, rank) ==>
            DepsBefore(sorted, dependencies) &&
            (forall j :: 0 <= j < i ==> dependentTypes[j] in sorted) &&
            (forall g :: g in visited && g !in sorted ==> g == t || rank(t) < rank(g))
        {
          var depType := dependentTypes[i];
          assert depType in universe;
          VisitDependency(t, depType, i, rank);
          i := i + 1;
        }
      }
    }

    /** One turn of the `foreach` over t's dependencies. */
    method VisitDependency(t: T, depType: T, ghost i: int, ghost rank: T -> nat)
      requires Valid() && t in dependencies && 0 <= i < |dependencies[t]| && depType == dependencies[t][i]
      requires t in visited && t !in sorted && depType in universe
      requires Ranked(dependencies, rank) ==>
        DepsBefore(sorted, dependencies) &&
        (forall j :: 0 <= j < i ==> dependencies[t][j] in sorted) &&
        (forall g :: g in visited && g !in sorted ==> g == t || rank(t) < rank(g))
      modifies this
      decreases universe - visited + {t}, 0
      ensures Valid() && old(sorted) <= sorted && t in visited && t !in sorted
      ensures forall x :: x in visited <==> x in old(visited) || x in sorted[|old(sorted)|..]
      ensures forall x :: x in sorted[|old(sorted)|..] ==> x !in old(visited)
      ensures forall x :: x in sorted[|old(sorted)|..] ==> IsDependency(dependencies, x)
      ensures Ranked(dependencies, rank) ==>
        DepsBefore(sorted, dependencies) &&
        (forall j :: 0 <= j <= i ==> dependencies[t][j] in sorted) &&
        (forall g :: g in visited && g !in sorted ==> g == t || rank(t) < rank(g))
    {
      assert IsDependency(dependencies, depType) by {
        assert depType in dependencies[t];
      }
      ghost var before := sorted;
      if Ranked(dependencies, rank) {
        assert rank(depType) < rank(t);
      }
      Visit(depType, rank);
      assert t !in sorted[|before|..];
      assert forall j :: 0 <= j < i ==> dependencies[t][j] in before ==> dependencies[t][j] in sorted;
    }

    /** `sorted.Add(type)` once the dependencies are done. */
    method EmitVisited(t: T, ghost rank: T -> nat)
      requires Valid() && t in visited && t !in sorted
      requires Ranked(dependencies, rank) ==>
        DepsBefore(sorted, dependencies) && (forall d :: d in DepsOf(dependencies, t) ==> d in sorted)
      modifies this
      ensures Valid() && sorted == old(sorted) + [t] && visited == old(visited)
      ensures Ranked(dependencies, rank) ==> DepsBefore(sorted, dependencies)
    {
      sorted := sorted + [t];
      if Ranked(dependencies, rank) {
        forall i, d | 0 <= i < |sorted| && d in DepsOf(dependencies, sorted[i])
          ensures d in sorted[..i]
        {
          if i < |sorted| - 1 {
            assert sorted[..i] == old(sorted)[..i];
          } else {
            assert sorted[..i] == old(sorted);
          }
        }
      }
    }
  }

  /** `TopologicalSort`: every input type is emitted, once; only input
      types and their dependencies are emitted; with an acyclic graph each
      type follows its dependencies; and the isolated types keep the order
      of their first occurrences. The recursion ends on any graph. */
  method TopologicalSort<T(==)>(types: seq<T>, dependencies: map<T, seq<T>>, ghost rank: T -> nat)
    returns (sorted: seq<T>)
    ensures forall x :: x in types ==> x in sorted
    ensures NoDup(sorted)
    ensures forall x :: x in sorted ==> x in types || IsDependency(dependencies, x)
    ensures Ranked(dependencies, rank) ==> DepsBefore(sorted, dependencies)
    ensures KeepIsolated(dependencies, sorted) == Distinct(KeepIsolated(dependencies, types))
  {
    var sorter := new Sorter(dependencies, Nodes(types, dependencies));
    var i := 0;
    while i < |types|
      invariant 0 <= i <= |types|
      invariant sorter.Valid() && sorter.dependencies == dependencies
      invariant sorter.universe == Nodes(types, dependencies)
      invariant forall x :: x in sorter.visited <==> x in sorter.sorted
      invariant forall x :: x in types[..i] ==> x in sorter.visited
      invariant forall x :: x in sorter.visited ==> x in types[..i] || IsDependency(dependencies, x)
      invariant Ranked(dependencies, rank) ==> DepsBefore(sorter.sorted, dependencies)
      invariant KeepIsolated(dependencies, sorter.sorted) == Distinct(KeepIsolated(dependencies, types[..i]))
    {
      VisitType(sorter, types, i, rank);
      i := i + 1;
    }
    assert types[..i] == types;
    sorted := sorter.sorted;
  }

  /** One turn of the outer `foreach`: visiting `types[i]`. */
  method VisitType<T(==)>(sorter: Sorter<T>, types: seq<T>, i: int, ghost rank: T -> nat)
    requires 0 <= i < |types|
    requires sorter.Valid() && sorter.universe == Nodes(types, sorter.dependencies)
    requires forall x :: x in sorter.visited <==> x in sorter.sorted
    requires forall x :: x in types[..i] ==> x in sorter.visited
    requires forall x :: x in sorter.visited ==> x in types[..i] || IsDependency(sorter.dependencies, x)
    requires Ranked(sorter.dependencies, rank) ==> DepsBefore(sorter.sorted, sorter.dependencies)
    requires KeepIsolated(sorter.dependencies, sorter.sorted)
      == Distinct(KeepIsolated(sorter.dependencies, types[..i]))
    modifies sorter
    ensures sorter.Valid()
    ensures forall x :: x in sorter.visited <==> x in sorter.sorted
    ensures forall x :: x in types[..i + 1] ==> x in sorter.visited
    ensures forall x :: x in sorter.visited ==> x in types[..i + 1] || IsDependency(sorter.dependencies, x)
    ensures Ranked(sorter.dependencies, rank) ==> DepsBefore(sorter.sorted, sorter.dependencies)
    ensures KeepIsolated(sorter.dependencies, sorter.sorted)
      == Distinct(KeepIsolated(sorter.dependencies, types[..i + 1]))
  {
    var t := types[i];
    ghost var before := sorter.sorted;
    ghost var seen := sorter.visited;
    sorter.Visit(t, rank);
    TakeOneMore(types, i);
    PrefixThenRest(before, sorter.sorted);
    IsolatedStep(sorter.dependencies, before, sorter.sorted[|before|..], types[..i], t, seen);
  }

  /** How visiting one more input type extends the isolated part of the
      result: an isolated type is emitted by its own visit unless it was
      met before, and every other emitted type is a dependency. */
  lemma IsolatedStep<T>(dependencies: map<T, seq<T>>, before: seq<T>, added: seq<T>,
                             prefix: seq<T>, t: T, seen: set<T>)
    requires KeepIsolated(dependencies, before) == Distinct(KeepIsolated(dependencies, prefix))
    requires forall x :: x in seen <==> x in before
    requires forall x :: x in prefix ==> x in seen
    requires forall x :: x in seen ==> x in prefix || IsDependency(dependencies, x)
    requires DepsOf(dependencies, t) == [] ==> added == (if t in seen then [] else [t])
    requires forall x :: x in added ==> x == t || IsDependency(dependencies, x)
    ensures KeepIsolated(dependencies, before + added)
      == Distinct(KeepIsolated(dependencies, prefix + [t]))
  {
    KeepIsolatedAppend(dependencies, before, added);
    KeepIsolatedLast(dependencies, prefix, t);
    var kept := KeepIsolated(dependencies, prefix);
    if Isolated(dependencies, t) {
      var longer := kept + [t];
      assert longer[..|longer| - 1] == kept;
      assert KeepIsolated(dependencies, [t]) == [t] by {
        assert [t][..0] == [];
      }
      if t in seen {
        KeepIsolatedHas(dependencies, prefix, t);
        assert KeepIsolated(dependencies, added) == [];
      } else {
        assert t !in kept;
      }
    } else {
      KeepNoneIsolated(dependencies, added);
    }
  }

  lemma TakeOneMore<T>(s: seq<T>, i: int)
    requires 0 <= i < |s|
    ensures s[..i + 1] == s[..i] + [s[i]]
  {
  }

  lemma PrefixThenRest<T>(front: seq<T>, s: seq<T>)
    requires front <= s
    ensures s == front + s[|front|..]
  {
  }

  lemma KeepIsolatedLast<T>(dependencies: map<T, seq<T>>, s: seq<T>, t: T)
    ensures KeepIsolated(dependencies, s + [t])
      == KeepIsolated(dependencies, s) + (if Isolated(dependencies, t) then [t] else [])
  {
    assert (s + [t])[..|s + [t]| - 1] == s;
  }

  lemma KeepIsolatedHas<T>(dependencies: map<T, seq<T>>, s: seq<T>, t: T)
    requires t in s && Isolated(dependencies, t)
    ensures t in KeepIsolated(dependencies, s)
  {
    var k :| 0 <= k < |s| && s[k] == t;
    KeepIsolatedAppend(dependencies, s[..k], s[k..]);
    assert s[..k] + s[k..] == s;
    KeepIsolatedFront(dependencies, s[k..]);
  }

  lemma KeepIsolatedFront<T>(dependencies: map<T, seq<T>>, s: seq<T>)
    requires s != [] && Isolated(dependencies, s[0])
    ensures s[0] in KeepIsolated(dependencies, s)
  {
    KeepIsolatedAppend(dependencies, [s[0]], s[1..]);
    assert [s[0]] + s[1..] == s;
    assert KeepIsolated(dependencies, [s[0]]) == [s[0]];
  }
}
