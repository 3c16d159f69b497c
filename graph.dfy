/** graph.py: the wrapper object whose `graph` field is the networkx graph it mutates. */
module Graphs {
  import opened Wrappers
  import opened Dicts
  import opened Nx

  /** The only attribute key the wrapper ever stores on an edge. */
  const TransportKey: string := "transport_type"

  /** The keyword arguments `add_edge` passes on: `transport_type=transport_type`. */
  function TransportAttrs(transportType: string): (a: Attrs)
    ensures a.Keys == {TransportKey} && a[TransportKey] == transportType
  {
    map[TransportKey := transportType]
  }

  class Graph {
    var graph: Adjacency

    ghost predicate Valid()
      reads this
    {
      Nx.Valid(graph)
    }

    /** `Graph()`: an empty `nx.Graph`. */
    constructor ()
      ensures Valid() && graph == map[]
    {
      graph := map[];
    }

    /** `add_node(node)`: a city already present keeps its neighbours and edges. */
    method AddNode(node: City)
      requires Valid()
      modifies this
      ensures Valid()
      ensures graph == WithNode(old(graph), node)
      ensures node in old(graph) ==> graph == old(graph)
    {
      graph := WithNode(graph, node);
    }

    /**
     * `add_edge(source, dest, transport_type)`: creates the missing endpoints, links them both ways
     * and sets the edge's "transport_type" entry, leaving every other pair as it was.
     */
    method AddEdge(source: City, dest: City, transportType: string)
      requires Valid()
      modifies this
      ensures Valid()
      ensures graph == WithEdge(old(graph), source, dest, TransportAttrs(transportType))
      ensures graph.Keys == old(graph).Keys + {source, dest}
      ensures var data := EdgeData(old(graph), source, dest)[TransportKey := transportType];
        Get(graph[source], dest) == Some(data) && Get(graph[dest], source) == Some(data)
      ensures forall x, y ::
        x in old(graph) && !(x == source && y == dest) && !(x == dest && y == source)
        ==> Get(graph[x], y) == Get(old(graph)[x], y)
    {
      ghost var before := graph;
      WithEdgeValid(before, source, dest, TransportAttrs(transportType));
      LinksBothWays(before, source, dest, TransportAttrs(transportType));
      forall x, y | x in before && !(x == source && y == dest) && !(x == dest && y == source)
        ensures Get(WithEdge(before, source, dest, TransportAttrs(transportType))[x], y) == Get(before[x], y)
      {
        OtherPairsUnchanged(before, source, dest, TransportAttrs(transportType), x, y);
      }
      assert EdgeData(before, source, dest)[TransportKey := transportType]
          == EdgeData(before, source, dest) + TransportAttrs(transportType);
      graph := WithEdge(graph, source, dest, TransportAttrs(transportType));
    }
  }
}
