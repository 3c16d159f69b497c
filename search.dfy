/**
 * main2.py, path queries: the transport-type-constrained depth-first search (`dfs`, `find_paths`),
 * the shortest-path selector (`find_shortest_path`) and the common-neighbour finder
 * (`find_common_nodes`). All of them read the graph and change nothing.
 */
module Search {
  import opened Wrappers
  import opened Dicts
  import opened Nx

  /** One step of a path: the city reached and the attribute dict of the edge used to reach it. */
  type Step = (City, Attrs)
  type Path = seq<Step>

  /** The attribute key `dfs` reads an edge's label from. */
  const TypeKey: string := "type"

  /** `transport_type.get('type', None)`: the label `dfs` sees on an edge. */
  function Label(attrs: Attrs): Option<string>
  {
    if TypeKey in attrs then Some(attrs[TypeKey]) else None
  }

  /**
   * `dfs(current_node, path, remaining_types, destination, graph)`. An absent node yields nothing,
   * the destination yields the path so far, and any other node extends the path along each
   * neighbour whose label is still unused, in neighbour order, without that label.
   */
  function Dfs(current: City, path: Path, remaining: set<string>, destination: City, graph: Adjacency): seq<Path>
    decreases remaining, 1, 0
  {
    if current !in graph then []
    else if current == destination then [path]
    else Explore(graph[current], path, remaining, destination, graph)
  }

  /** The `for neighbor, transport_type in graph[current_node].items()` loop of `dfs`, over the entries left. */
  function Explore(row: Row, path: Path, remaining: set<string>, destination: City, graph: Adjacency): seq<Path>
    decreases remaining, 0, |row|
  {
    if row == [] then []
    else
      var (neighbor, attrs) := row[0];
      var found :=
        if Label(attrs).Some? && Label(attrs).value in remaining
        then Dfs(neighbor, path + [(neighbor, attrs)], remaining - {Label(attrs).value}, destination, graph)
        else [];
      found + Explore(row[1..], path, remaining, destination, graph)
  }

  /** The labels of a type list as a Python set; None is dropped, since `dfs` never follows a None label. */
  function LabelSet(transportTypes: seq<Option<string>>): set<string>
  {
    set t | t in transportTypes && t.Some? :: t.value
  }

  /** `find_paths(graph, source, destination, transport_types)` */
  function FindPaths(graph: Adjacency, source: City, destination: City, transportTypes: seq<Option<string>>): seq<Path>
  {
    Dfs(source, [], LabelSet(transportTypes), destination, graph)
  }

  // ---------------------------------------------------------------------------------------------
  // What `dfs` enumerates, stated without the search.

  /** The city a step starts from: the current node for the first step, the previous step's city after. */
  function From(current: City, steps: Path, k: nat): City
    requires k < |steps|
  {
    if k == 0 then current else steps[k - 1].0
  }

  /**
   * `steps` walks from `current` to `destination` in `graph`: every city on the way is a node, every
   * step follows an entry of the previous city's neighbour dict, every label is present, in
   * `remaining`, and used once, and the walk stops the first time it reaches the destination.
   */
  ghost predicate IsTypedWalk(graph: Adjacency, current: City, remaining: set<string>, destination: City, steps: Path)
  {
    && current in graph
    && EndsAt(current, destination, steps)
    && FollowsEdges(graph, current, remaining, steps)
    && DistinctLabels(steps)
  }

  /** The walk is empty exactly when it starts at the destination, and otherwise reaches it at its last step only. */
  ghost predicate EndsAt(current: City, destination: City, steps: Path)
  {
    && (steps == [] <==> current == destination)
    && (steps != [] ==> steps[|steps| - 1].0 == destination)
    && (forall k :: 0 <= k < |steps| - 1 ==> steps[k].0 != destination)
  }

  /** Every step follows an entry of the neighbour dict of the city it leaves, and its label is in `remaining`. */
  ghost predicate FollowsEdges(graph: Adjacency, current: City, remaining: set<string>, steps: Path)
  {
    forall k :: 0 <= k < |steps| ==>
      && steps[k].0 in graph
      && From(current, steps, k) in graph
      && steps[k] in graph[From(current, steps, k)]
      && Label(steps[k].1).Some?
      && Label(steps[k].1).value in remaining
  }

  /** No two steps carry the same label. */
  ghost predicate DistinctLabels(steps: Path)
  {
    forall k, l :: 0 <= k < l < |steps| ==> Label(steps[k].1) != Label(steps[l].1)
  }

  /** A walk that takes a first step and then walks on with that step's label used up. */
  lemma ConsWalk(graph: Adjacency, current: City, remaining: set<string>, destination: City,
                 first: Step, rest: Path)
    requires current in graph && current != destination
    requires first in graph[current]
    requires Label(first.1).Some? && Label(first.1).value in remaining
    requires IsTypedWalk(graph, first.0, remaining - {Label(first.1).value}, destination, rest)
    ensures IsTypedWalk(graph, current, remaining, destination, [first] + rest)
  {
    ConsEndsAt(current, destination, first, rest);
    ConsFollows(graph, current, remaining, first, rest);
    LabelsOutside(graph, first.0, remaining, Label(first.1).value, rest);
    ConsDistinct(first, rest);
  }

  lemma ConsEndsAt(current: City, destination: City, first: Step, rest: Path)
    requires current != destination
    requires EndsAt(first.0, destination, rest)
    ensures EndsAt(current, destination, [first] + rest)
  {
    var steps := [first] + rest;
    if rest != [] {
      assert steps[|steps| - 1] == rest[|rest| - 1];
    }
    forall k | 0 < k < |steps| - 1
      ensures steps[k].0 != destination
    {
      assert steps[k] == rest[k - 1];
    }
  }

  lemma ConsFollows(graph: Adjacency, current: City, remaining: set<string>, first: Step, rest: Path)
    requires current in graph && first in graph[current] && first.0 in graph
    requires Label(first.1).Some? && Label(first.1).value in remaining
    requires FollowsEdges(graph, first.0, remaining - {Label(first.1).value}, rest)
    ensures FollowsEdges(graph, current, remaining, [first] + rest)
  {
    var steps := [first] + rest;
    forall k | 0 < k < |steps|
      ensures steps[k] == rest[k - 1] && From(current, steps, k) == From(first.0, rest, k - 1)
    {
      ConsStepAt(current, first, rest, k);
    }
  }

  /** Step k of a walk with a first step prepended is step k - 1 of the rest, taken from the same city. */
  lemma ConsStepAt(current: City, first: Step, rest: Path, k: nat)
    requires 0 < k < 1 + |rest|
    ensures ([first] + rest)[k] == rest[k - 1]
    ensures From(current, [first] + rest, k) == From(first.0, rest, k - 1)
  {
  }

  /** A walk on which one label is no longer available never uses it. */
  lemma LabelsOutside(graph: Adjacency, current: City, remaining: set<string>, t: string, steps: Path)
    requires FollowsEdges(graph, current, remaining - {t}, steps)
    ensures forall k :: 0 <= k < |steps| ==> Label(steps[k].1) != Some(t)
  {
    forall k | 0 <= k < |steps|
      ensures Label(steps[k].1) != Some(t)
    {
      assert Label(steps[k].1).value in remaining - {t};
    }
  }

  lemma ConsDistinct(first: Step, rest: Path)
    requires forall k :: 0 <= k < |rest| ==> Label(rest[k].1) != Label(first.1)
    requires DistinctLabels(rest)
    ensures DistinctLabels([first] + rest)
  {
    var steps := [first] + rest;
    forall k, l | 0 <= k < l < |steps|
      ensures Label(steps[k].1) != Label(steps[l].1)
    {
      assert steps[l] == rest[l - 1];
      if k > 0 {
        assert steps[k] == rest[k - 1];
      }
    }
  }

  /** The first step of a walk, and the walk that follows it with that label used up. */
  lemma UnconsWalk(graph: Adjacency, current: City, remaining: set<string>, destination: City, steps: Path)
    requires IsTypedWalk(graph, current, remaining, destination, steps)
    requires current != destination
    ensures steps != [] && steps[0] in graph[current]
    ensures Label(steps[0].1).Some? && Label(steps[0].1).value in remaining
    ensures IsTypedWalk(graph, steps[0].0, remaining - {Label(steps[0].1).value}, destination, steps[1..])
  {
    UnconsEndsAt(current, destination, steps);
    UnconsFollows(graph, current, remaining, steps);
    UnconsDistinct(steps);
  }

  lemma UnconsEndsAt(current: City, destination: City, steps: Path)
    requires current != destination
    requires EndsAt(current, destination, steps)
    ensures steps != [] && EndsAt(steps[0].0, destination, steps[1..])
  {
    var rest := steps[1..];
    if rest != [] {
      assert steps[0].0 != destination;
    }
    forall k | 0 <= k < |rest| - 1
      ensures rest[k].0 != destination
    {
      assert rest[k] == steps[k + 1];
    }
  }

  lemma UnconsFollows(graph: Adjacency, current: City, remaining: set<string>, steps: Path)
    requires steps != [] && current in graph
    requires FollowsEdges(graph, current, remaining, steps)
    requires DistinctLabels(steps)
    ensures steps[0] in graph[current] && steps[0].0 in graph
    ensures Label(steps[0].1).Some? && Label(steps[0].1).value in remaining
    ensures FollowsEdges(graph, steps[0].0, remaining - {Label(steps[0].1).value}, steps[1..])
  {
    var rest := steps[1..];
    assert From(current, steps, 0) == current;
    forall k | 0 <= k < |rest|
      ensures rest[k] == steps[k + 1] && From(steps[0].0, rest, k) == From(current, steps, k + 1)
      ensures Label(rest[k].1) != Label(steps[0].1)
    {
    }
  }

  lemma UnconsDistinct(steps: Path)
    requires steps != []
    requires DistinctLabels(steps)
    ensures DistinctLabels(steps[1..])
  {
    var rest := steps[1..];
    forall k, l | 0 <= k < l < |rest|
      ensures Label(rest[k].1) != Label(rest[l].1)
    {
      assert rest[k] == steps[k + 1] && rest[l] == steps[l + 1];
    }
  }

  /** Every path `dfs` returns is the given path followed by a typed walk, and uses at most |remaining| labels. */
  lemma {:induction false} DfsSound(current: City, path: Path, remaining: set<string>, destination: City,
                                    graph: Adjacency, r: Path)
    requires r in Dfs(current, path, remaining, destination, graph)
    ensures |path| <= |r| && r[..|path|] == path
    ensures |r| - |path| <= |remaining|
    ensures IsTypedWalk(graph, current, remaining, destination, r[|path|..])
    decreases remaining, 1, 0
  {
    if current == destination {
      assert r == path;
    } else {
      ExploreSound(graph[current], current, path, remaining, destination, graph, r);
    }
  }

  lemma {:induction false} ExploreSound(row: Row, current: City, path: Path, remaining: set<string>,
                                        destination: City, graph: Adjacency, r: Path)
    requires current in graph && current != destination
    requires forall e :: e in row ==> e in graph[current]
    requires r in Explore(row, path, remaining, destination, graph)
    ensures |path| <= |r| && r[..|path|] == path
    ensures |r| - |path| <= |remaining|
    ensures IsTypedWalk(graph, current, remaining, destination, r[|path|..])
    decreases remaining, 0, |row|
  {
    var e := row[0];
    if Label(e.1).Some? && Label(e.1).value in remaining
       && r in Dfs(e.0, path + [e], remaining - {Label(e.1).value}, destination, graph) {
      DfsSound(e.0, path + [e], remaining - {Label(e.1).value}, destination, graph, r);
      ExtendSound(graph, current, remaining, destination, path, e, r);
    } else {
      ExploreSound(row[1..], current, path, remaining, destination, graph, r);
    }
  }

  /** A result found below neighbour `e` is the path, the step to `e`, and a typed walk on from `e`. */
  lemma ExtendSound(graph: Adjacency, current: City, remaining: set<string>, destination: City,
                    path: Path, e: Step, r: Path)
    requires current in graph && current != destination && e in graph[current]
    requires Label(e.1).Some? && Label(e.1).value in remaining
    requires var longer := path + [e];
      && |longer| <= |r| && r[..|longer|] == longer
      && |r| - |longer| <= |remaining - {Label(e.1).value}|
      && IsTypedWalk(graph, e.0, remaining - {Label(e.1).value}, destination, r[|longer|..])
    ensures |path| <= |r| && r[..|path|] == path
    ensures |r| - |path| <= |remaining|
    ensures IsTypedWalk(graph, current, remaining, destination, r[|path|..])
  {
    SplitAfter(path, e, r);
    ConsWalk(graph, current, remaining, destination, e, r[|path| + 1..]);
  }

  /** A path that starts with `path + [e]` is `path`, then `e`, then the rest. */
  lemma SplitAfter(path: Path, e: Step, r: Path)
    requires |path| + 1 <= |r| && r[..|path| + 1] == path + [e]
    ensures r[..|path|] == path && r[|path|..] == [e] + r[|path| + 1..]
  {
    assert r[..|path|] == (path + [e])[..|path|];
  }

  /** Every typed walk from the current node is found by `dfs`. */
  lemma {:induction false} DfsComplete(current: City, path: Path, remaining: set<string>, destination: City,
                                       graph: Adjacency, steps: Path)
    requires IsTypedWalk(graph, current, remaining, destination, steps)
    ensures path + steps in Dfs(current, path, remaining, destination, graph)
    decreases |steps|
  {
    if current == destination {
      assert steps == [];
      AppendNothing(path, steps);
    } else {
      UnconsWalk(graph, current, remaining, destination, steps);
      var first := steps[0];
      DfsComplete(first.0, path + [first], remaining - {Label(first.1).value}, destination, graph, steps[1..]);
      ExtendComplete(graph, current, remaining, destination, path, steps);
    }
  }

  /** What `dfs` finds below a neighbour it may step to, it finds from the current node. */
  lemma ExtendComplete(graph: Adjacency, current: City, remaining: set<string>, destination: City,
                       path: Path, steps: Path)
    requires current in graph && current != destination && steps != [] && steps[0] in graph[current]
    requires Label(steps[0].1).Some? && Label(steps[0].1).value in remaining
    requires path + [steps[0]] + steps[1..]
             in Dfs(steps[0].0, path + [steps[0]], remaining - {Label(steps[0].1).value}, destination, graph)
    ensures path + steps in Dfs(current, path, remaining, destination, graph)
  {
    ExploreContains(graph[current], path, remaining, destination, graph, steps[0]);
    assert path + [steps[0]] + steps[1..] == path + steps;
  }

  lemma AppendNothing(path: Path, steps: Path)
    requires steps == []
    ensures path + steps == path
  {
  }

  /** The loop of `dfs` collects the results of every neighbour whose label it may still use. */
  lemma {:induction false} ExploreContains(row: Row, path: Path, remaining: set<string>, destination: City,
                                           graph: Adjacency, e: Step)
    requires e in row
    requires Label(e.1).Some? && Label(e.1).value in remaining
    ensures forall r :: r in Dfs(e.0, path + [e], remaining - {Label(e.1).value}, destination, graph)
                        ==> r in Explore(row, path, remaining, destination, graph)
    decreases |row|
  {
    if row[0] != e {
      ExploreContains(row[1..], path, remaining, destination, graph, e);
    }
  }

  /** `find_paths` returns exactly the typed walks from the source, each at most |set(T)| steps long. */
  lemma FindPathsExactly(graph: Adjacency, source: City, destination: City, transportTypes: seq<Option<string>>, p: Path)
    ensures p in FindPaths(graph, source, destination, transportTypes)
        <==> IsTypedWalk(graph, source, LabelSet(transportTypes), destination, p)
    ensures p in FindPaths(graph, source, destination, transportTypes) ==> |p| <= |LabelSet(transportTypes)|
  {
    var remaining := LabelSet(transportTypes);
    if p in FindPaths(graph, source, destination, transportTypes) {
      DfsSound(source, [], remaining, destination, graph, p);
      assert p[0..] == p;
    }
    if IsTypedWalk(graph, source, remaining, destination, p) {
      DfsComplete(source, [], remaining, destination, graph, p);
      assert [] + p == p;
    }
  }

  // ---------------------------------------------------------------------------------------------
  // Graphs whose edges carry no "type" entry: what the network loader builds.

  ghost predicate NoTypeLabels(graph: Adjacency)
  {
    forall x, e :: x in graph && e in graph[x] ==> TypeKey !in e.1
  }

  lemma {:induction false} ExploreUnlabelled(row: Row, path: Path, remaining: set<string>, destination: City,
                                             graph: Adjacency)
    requires forall e :: e in row ==> TypeKey !in e.1
    ensures Explore(row, path, remaining, destination, graph) == []
    decreases |row|
  {
    if row != [] {
      ExploreUnlabelled(row[1..], path, remaining, destination, graph);
    }
  }

  /**
   * When no edge has a "type" entry, `find_paths` follows no edge: it gives `[[]]` when the source
   * is present and is the destination, and `[]` otherwise, whatever types are asked for.
   */
  lemma FindPathsUnlabelled(graph: Adjacency, source: City, destination: City, transportTypes: seq<Option<string>>)
    requires NoTypeLabels(graph)
    ensures FindPaths(graph, source, destination, transportTypes)
         == if source in graph && source == destination then [[]] else []
  {
    if source in graph && source != destination {
      ExploreUnlabelled(graph[source], [], LabelSet(transportTypes), destination, graph);
    }
  }

  // ---------------------------------------------------------------------------------------------
  // find_shortest_path

  /**
   * `edge[1] == transport_type` in the key of `find_shortest_path`: `edge[1]` is the edge's attribute
   * dict and `transport_type` a string or None, and a Python dict never equals either. It is kept
   * as a function only so that the key below reads like the source's expression.
   */
  function StepMatches(step: Step, transportType: Option<string>): bool
  {
    false
  }

  /** `sum(edge[1] == transport_type for edge in path)` */
  function MatchingSteps(path: Path, transportType: Option<string>): nat
  {
    if path == [] then 0
    else (if StepMatches(path[0], transportType) then 1 else 0) + MatchingSteps(path[1..], transportType)
  }

  /** `min(paths, key=...)`: the first path whose key is smallest. */
  function FirstMinimal(paths: seq<Path>, transportType: Option<string>): (best: nat)
    requires paths != []
    ensures best < |paths|
    ensures forall k :: 0 <= k < |paths| ==> MatchingSteps(paths[best], transportType) <= MatchingSteps(paths[k], transportType)
    ensures forall k :: 0 <= k < best ==> MatchingSteps(paths[k], transportType) > MatchingSteps(paths[best], transportType)
  {
    if |paths| == 1 then 0
    else
      var best := FirstMinimal(paths[..|paths| - 1], transportType);
      if MatchingSteps(paths[|paths| - 1], transportType) < MatchingSteps(paths[best], transportType)
      then |paths| - 1 else best
  }

  /** `find_shortest_path(graph, source, destination, transport_type)` */
  function FindShortestPath(graph: Adjacency, source: City, destination: City, transportType: Option<string>): (r: Option<Path>)
    ensures r.None? <==> FindPaths(graph, source, destination, [transportType]) == []
    ensures r.Some? ==> r.value in FindPaths(graph, source, destination, [transportType])
    ensures r.Some? ==> forall p :: p in FindPaths(graph, source, destination, [transportType])
                          ==> MatchingSteps(r.value, transportType) <= MatchingSteps(p, transportType)
  {
    var paths := FindPaths(graph, source, destination, [transportType]);
    if paths != [] then Some(paths[FirstMinimal(paths, transportType)]) else None
  }

  lemma {:induction false} NoStepMatches(path: Path, transportType: Option<string>)
    ensures MatchingSteps(path, transportType) == 0
  {
    if path != [] {
      NoStepMatches(path[1..], transportType);
    }
  }

  /**
   * Every key is 0, so `min` keeps the first path `dfs` found; with a single type that path has at
   * most one step.
   */
  lemma ShortestIsFirstFound(graph: Adjacency, source: City, destination: City, transportType: Option<string>)
    ensures var paths := FindPaths(graph, source, destination, [transportType]);
      FindShortestPath(graph, source, destination, transportType) == if paths == [] then None else Some(paths[0])
    ensures var r := FindShortestPath(graph, source, destination, transportType);
      r.Some? ==> |r.value| <= 1
  {
    var paths := FindPaths(graph, source, destination, [transportType]);
    if paths != [] {
      var best := FirstMinimal(paths, transportType);
      NoStepMatches(paths[0], transportType);
      NoStepMatches(paths[best], transportType);
      assert best == 0;
      FindPathsExactly(graph, source, destination, [transportType], paths[0]);
      if transportType.Some? {
        assert LabelSet([transportType]) == {transportType.value};
      } else {
        assert LabelSet([transportType]) == {};
      }
    }
  }

  // ---------------------------------------------------------------------------------------------
  // find_common_nodes

  /**
   * `find_common_nodes(graph, source1, source2)`: the cities adjacent to both, whatever the edges'
   * labels. networkx's `neighbors` raises for a city that is not in the graph, the first one first.
   */
  function FindCommonNodes(graph: Adjacency, source1: City, source2: City): (r: Result<set<City>, PyError>)
    ensures r.Err? <==> source1 !in graph || source2 !in graph
    ensures r.Err? ==> r.error == NetworkXError(if source1 !in graph then source1 else source2)
    ensures r.Ok? ==> forall x :: x in r.value <==> HasEdge(graph, source1, x) && HasEdge(graph, source2, x)
  {
    if source1 !in graph then Err(NetworkXError(source1))
    else if source2 !in graph then Err(NetworkXError(source2))
    else Ok(Keys(graph[source1]) * Keys(graph[source2]))
  }

  /**
   * Swapping the two cities gives the same common nodes; when both are absent, each order names
   * its own first city in the error.
   */
  lemma CommonNodesSymmetric(graph: Adjacency, a: City, b: City)
    ensures FindCommonNodes(graph, a, b).Ok? <==> FindCommonNodes(graph, b, a).Ok?
    ensures FindCommonNodes(graph, a, b).Ok? ==> FindCommonNodes(graph, a, b) == FindCommonNodes(graph, b, a)
    ensures a != b && a !in graph && b !in graph ==>
      FindCommonNodes(graph, a, b) == Err(NetworkXError(a)) && FindCommonNodes(graph, b, a) == Err(NetworkXError(b))
  {
    if a in graph && b in graph {
      assert Keys(graph[a]) * Keys(graph[b]) == Keys(graph[b]) * Keys(graph[a]);
    }
  }

  /** In an undirected graph each common node also has both cities among its own neighbours. */
  lemma CommonNodesAdjacentBothWays(graph: Adjacency, a: City, b: City, x: City)
    requires Valid(graph)
    requires FindCommonNodes(graph, a, b).Ok? && x in FindCommonNodes(graph, a, b).value
    ensures HasEdge(graph, x, a) && HasEdge(graph, x, b)
  {
    assert Get(graph[x], a) == Get(graph[a], x);
    assert Get(graph[x], b) == Get(graph[b], x);
  }
}
