/**
 * The part of networkx's `Graph` the program uses: a simple undirected graph stored as an
 * adjacency dict. Each node maps to a dict from its neighbours, in the order they became
 * neighbours, to the edge's attribute dict. An edge {u, v} appears under u and under v with the
 * same attributes; a self-loop {u, u} appears once under u.
 */
module Nx {
  import opened Wrappers
  import opened Dicts

  type City = string
  type Attrs = map<string, string>
  type Row = Dict<City, Attrs>
  type Adjacency = map<City, Row>

  predicate HasEdge(graph: Adjacency, x: City, y: City)
  {
    x in graph && y in Keys(graph[x])
  }

  /** Simple and undirected: one entry per neighbour, and every edge is seen alike from both ends. */
  ghost predicate Valid(graph: Adjacency)
  {
    && (forall x :: x in graph ==> DistinctKeys(graph[x]))
    && (forall x, y :: HasEdge(graph, x, y) ==> y in graph && Get(graph[y], x) == Get(graph[x], y))
  }

  /** The attribute dict of edge {u, v}, or a fresh empty dict if there is no such edge. */
  function EdgeData(graph: Adjacency, u: City, v: City): Attrs
  {
    if u in graph && Get(graph[u], v).Some? then Get(graph[u], v).value else map[]
  }

  /** `G.add_node(n)`: adds n with no neighbours unless it is already there. */
  function WithNode(graph: Adjacency, n: City): (r: Adjacency)
    ensures r.Keys == graph.Keys + {n}
    ensures forall x :: x in graph ==> r[x] == graph[x]
    ensures n !in graph ==> r[n] == []
  {
    if n in graph then graph else graph[n := []]
  }

  /**
   * `G.add_edge(u, v, **attrs)`: adds the missing endpoints, then updates the edge's attribute dict
   * with `attrs` (creating it empty if the edge is new) and stores it under u and under v.
   */
  function WithEdge(graph: Adjacency, u: City, v: City, attrs: Attrs): (r: Adjacency)
    ensures r.Keys == graph.Keys + {u, v}
  {
    var withEnds := WithNode(WithNode(graph, u), v);
    var data := EdgeData(graph, u, v) + attrs;
    var linked := withEnds[u := Put(withEnds[u], v, data)];
    linked[v := Put(linked[v], u, data)]
  }

  /** After `add_edge(u, v, ...)` the two endpoints are neighbours of each other, holding the updated dict. */
  lemma LinksBothWays(graph: Adjacency, u: City, v: City, attrs: Attrs)
    ensures var r := WithEdge(graph, u, v, attrs);
      && Get(r[u], v) == Some(EdgeData(graph, u, v) + attrs)
      && Get(r[v], u) == Some(EdgeData(graph, u, v) + attrs)
  {
  }

  /** `add_edge(u, v, ...)` changes no other pair's entry. */
  lemma OtherPairsUnchanged(graph: Adjacency, u: City, v: City, attrs: Attrs, x: City, y: City)
    requires x in graph
    requires !(x == u && y == v) && !(x == v && y == u)
    ensures Get(WithEdge(graph, u, v, attrs)[x], y) == Get(graph[x], y)
  {
    var withEnds := WithNode(WithNode(graph, u), v);
    var data := EdgeData(graph, u, v) + attrs;
    var linked := withEnds[u := Put(withEnds[u], v, data)];
    if x == u {
      PutGetOther(withEnds[u], v, data, y);
    }
    if x == v {
      PutGetOther(linked[v], u, data, y);
    }
  }

  /** The edges after `add_edge(u, v, ...)` are the old ones plus {u, v}. */
  lemma EdgesAfterWithEdge(graph: Adjacency, u: City, v: City, attrs: Attrs, x: City, y: City)
    ensures HasEdge(WithEdge(graph, u, v, attrs), x, y)
        <==> HasEdge(graph, x, y) || (x == u && y == v) || (x == v && y == u)
  {
    var r := WithEdge(graph, u, v, attrs);
    if (x == u && y == v) || (x == v && y == u) {
      LinksBothWays(graph, u, v, attrs);
    } else if x in graph {
      OtherPairsUnchanged(graph, u, v, attrs, x, y);
    }
  }

  /** Re-adding an existing edge keeps one entry per endpoint, in its place, and only updates its dict. */
  lemma ReAddKeepsOneEdge(graph: Adjacency, u: City, v: City, attrs: Attrs)
    requires HasEdge(graph, u, v) && Valid(graph)
    ensures var r := WithEdge(graph, u, v, attrs);
      && |r[u]| == |graph[u]| && |r[v]| == |graph[v]|
      && (forall i :: 0 <= i < |r[u]| ==> r[u][i].0 == graph[u][i].0)
      && (forall i :: 0 <= i < |r[v]| ==> r[v][i].0 == graph[v][i].0)
      && DistinctKeys(r[u]) && DistinctKeys(r[v])
  {
    var r := WithEdge(graph, u, v, attrs);
    var data := EdgeData(graph, u, v) + attrs;
    assert WithNode(WithNode(graph, u), v) == graph;
    var linked := graph[u := Put(graph[u], v, data)];
    assert u in Keys(graph[v]);
    if u != v {
      assert linked[v] == graph[v];
    }
    PutInPlace(graph[u], v, data);
    PutDistinct(graph[u], v, data);
    PutInPlace(linked[v], u, data);
    PutDistinct(linked[v], u, data);
  }

  /** `add_edge` keeps the graph simple and undirected. */
  lemma WithEdgeValid(graph: Adjacency, u: City, v: City, attrs: Attrs)
    requires Valid(graph)
    ensures Valid(WithEdge(graph, u, v, attrs))
  {
    var r := WithEdge(graph, u, v, attrs);
    forall x | x in r
      ensures DistinctKeys(r[x])
    {
      WithEdgeDistinctAt(graph, u, v, attrs, x);
    }
    forall x, y | HasEdge(r, x, y)
      ensures y in r && Get(r[y], x) == Get(r[x], y)
    {
      WithEdgeSymmetricAt(graph, u, v, attrs, x, y);
    }
  }

  lemma WithEdgeDistinctAt(graph: Adjacency, u: City, v: City, attrs: Attrs, x: City)
    requires Valid(graph)
    requires x in WithEdge(graph, u, v, attrs)
    ensures DistinctKeys(WithEdge(graph, u, v, attrs)[x])
  {
    var withEnds := WithNode(WithNode(graph, u), v);
    var data := EdgeData(graph, u, v) + attrs;
    assert forall z :: z in withEnds ==> DistinctKeys(withEnds[z]);
    PutDistinct(withEnds[u], v, data);
    var linked := withEnds[u := Put(withEnds[u], v, data)];
    PutDistinct(linked[v], u, data);
  }

  lemma WithEdgeSymmetricAt(graph: Adjacency, u: City, v: City, attrs: Attrs, x: City, y: City)
    requires Valid(graph)
    requires HasEdge(WithEdge(graph, u, v, attrs), x, y)
    ensures var r := WithEdge(graph, u, v, attrs);
      y in r && Get(r[y], x) == Get(r[x], y)
  {
    EdgesAfterWithEdge(graph, u, v, attrs, x, y);
    if (x == u && y == v) || (x == v && y == u) {
      LinksBothWays(graph, u, v, attrs);
    } else {
      assert HasEdge(graph, x, y);
      OtherPairsUnchanged(graph, u, v, attrs, x, y);
      OtherPairsUnchanged(graph, u, v, attrs, y, x);
    }
  }
}
