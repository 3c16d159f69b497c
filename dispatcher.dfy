/**
 * main2.py, `process_queries`: the queries are handled in list order, each by the branch its type
 * selects, and what the program prints becomes a list of output records. An exception raised
 * while handling a query ends the run; the graph keeps what was done to it before.
 */
module Dispatcher {
  import opened Wrappers
  import opened Nx
  import opened Graphs
  import opened Queries
  import opened Search
  import opened Mutation
  import QueryReader
  import Network

  /** One printed report; paths and labels are kept as values rather than formatted text. */
  datatype Output =
    | PathsFound(source: City, destination: City, firstType: Option<string>, paths: seq<Path>)
    | NoPathsFound(source: City, destination: City, firstType: Option<string>)
    | NotEnoughForQ1
    | CommonNodes(source: City, destination: City, nodes: set<City>)
    | NotEnoughForQ2
    | ShortestPath(source: City, destination: City, transportType: Option<string>, path: Path)
    | NoPathFound(source: City, destination: City, transportType: Option<string>)
    | AddReport(message: AddMessage)
    | UnknownQueryType(kind: string)

  /** The graph after one query, and what the query printed, or the exception it raised. */
  datatype Handled = Handled(graph: Adjacency, result: Result<Option<Output>, PyError>)

  /** The graph after a run, what it printed, and the exception that ended it, if any. */
  datatype Effect = Effect(graph: Adjacency, outputs: seq<Output>, crash: Option<PyError>)

  /** An ADD handler's message as a printed report. */
  function Report(r: Result<Option<AddMessage>, PyError>): Result<Option<Output>, PyError>
  {
    match r
    case Err(e) => Err(e)
    case Ok(m) => Ok(if m.Some? then Some(AddReport(m.value)) else None)
  }

  function Reported(o: AddOutcome): Handled
  {
    Handled(o.graph, Report(o.result))
  }

  /** The body of the `process_queries` loop for one query. */
  function Dispatch(graph: Adjacency, q: Query): Handled
  {
    if q.kind == "Q1" then
      if |q.transportTypes| > 0 then
        var paths := FindPaths(graph, q.source, q.destination, q.transportTypes);
        if paths != [] then Handled(graph, Ok(Some(PathsFound(q.source, q.destination, q.transportTypes[0], paths))))
        else Handled(graph, Ok(Some(NoPathsFound(q.source, q.destination, q.transportTypes[0]))))
      else Handled(graph, Ok(Some(NotEnoughForQ1)))
    else if q.kind == "Q2" then
      if q.n == Some(-1) then
        match FindCommonNodes(graph, q.source, q.destination)
        case Err(e) => Handled(graph, Err(e))
        case Ok(nodes) => Handled(graph, Ok(Some(CommonNodes(q.source, q.destination, nodes))))
      else if |q.transportTypes| == 1 then Handled(graph, Ok(Some(NotEnoughForQ2)))
      else Handled(graph, Ok(None))
    else if q.kind == "Q3" then
      if q.transportTypes == [] then Handled(graph, Err(IndexError))
      else
        var best := FindShortestPath(graph, q.source, q.destination, q.transportTypes[0]);
        if best.Some? && best.value != [] then
          Handled(graph, Ok(Some(ShortestPath(q.source, q.destination, q.transportTypes[0], best.value))))
        else Handled(graph, Ok(Some(NoPathFound(q.source, q.destination, q.transportTypes[0]))))
    else if q.kind == "ADD" then Reported(AddQuery(graph, q.kind))
    else if "ADD City" <= q.kind then Reported(AddCityQuery(graph, q.kind))
    else if "ADD Path" <= q.kind then Reported(AddPathQuery(graph, q.kind))
    else Handled(graph, Ok(Some(UnknownQueryType(q.kind))))
  }

  /** `process_queries(graph, queries)`, query by query, stopping at the first exception. */
  function RunQueries(graph: Adjacency, queries: seq<Query>): Effect
  {
    if queries == [] then Effect(graph, [], None)
    else
      var before := RunQueries(graph, queries[..|queries| - 1]);
      if before.crash.Some? then before
      else
        var h := Dispatch(before.graph, queries[|queries| - 1]);
        match h.result
        case Err(e) => Effect(h.graph, before.outputs, Some(e))
        case Ok(o) => Effect(h.graph, before.outputs + AsList(o), None)
  }

  /** One query on the program's `Graph` object: the search branches read it, the ADD branches change it. */
  method HandleQuery(graph: Graph, q: Query) returns (r: Result<Option<Output>, PyError>)
    requires graph.Valid()
    modifies graph
    ensures graph.Valid()
    ensures Handled(graph.graph, r) == Dispatch(old(graph.graph), q)
  {
    if q.kind == "Q1" {
      if |q.transportTypes| > 0 {
        var paths := FindPaths(graph.graph, q.source, q.destination, q.transportTypes);
        if paths != [] {
          r := Ok(Some(PathsFound(q.source, q.destination, q.transportTypes[0], paths)));
        } else {
          r := Ok(Some(NoPathsFound(q.source, q.destination, q.transportTypes[0])));
        }
      } else {
        r := Ok(Some(NotEnoughForQ1));
      }
    } else if q.kind == "Q2" {
      if q.n == Some(-1) {
        var common := FindCommonNodes(graph.graph, q.source, q.destination);
        if common.Err? {
          return Err(common.error);
        }
        r := Ok(Some(CommonNodes(q.source, q.destination, common.value)));
      } else if |q.transportTypes| == 1 {
        r := Ok(Some(NotEnoughForQ2));
      } else {
        r := Ok(None);
      }
    } else if q.kind == "Q3" {
      if q.transportTypes == [] {
        return Err(IndexError);
      }
      var best := FindShortestPath(graph.graph, q.source, q.destination, q.transportTypes[0]);
      if best.Some? && best.value != [] {
        r := Ok(Some(ShortestPath(q.source, q.destination, q.transportTypes[0], best.value)));
      } else {
        r := Ok(Some(NoPathFound(q.source, q.destination, q.transportTypes[0])));
      }
    } else if q.kind == "ADD" {
      var report := ParseAddQuery(graph, q);
      r := Report(report);
    } else if "ADD City" <= q.kind {
      var report := ParseAddCityQuery(graph, q);
      r := Report(report);
    } else if "ADD Path" <= q.kind {
      var report := ParseAddPathQuery(graph, q);
      r := Report(report);
    } else {
      r := Ok(Some(UnknownQueryType(q.kind)));
    }
  }

  /** `process_queries(graph, queries)`: the outputs in order, and the exception that stopped it, if any. */
  method ProcessQueries(graph: Graph, queries: seq<Query>) returns (outputs: seq<Output>, crash: Option<PyError>)
    requires graph.Valid()
    modifies graph
    ensures graph.Valid()
    ensures Effect(graph.graph, outputs, crash) == RunQueries(old(graph.graph), queries)
  {
    ghost var start := graph.graph;
    outputs, crash := [], None;
    var i := 0;
    while i < |queries|
      invariant i <= |queries| && graph.Valid()
      invariant Effect(graph.graph, outputs, None) == RunQueries(start, queries[..i])
    {
      RunQueriesNext(start, queries, i);
      var r := HandleQuery(graph, queries[i]);
      if r.Err? {
        crash := Some(r.error);
        RunQueriesCrashed(start, queries, i + 1);
        return;
      }
      outputs := outputs + AsList(r.value);
      i := i + 1;
    }
    assert queries[..i] == queries;
  }

  /** The queries up to and including query i: query i is handled on the graph the earlier ones left. */
  lemma RunQueriesNext(graph: Adjacency, queries: seq<Query>, i: nat)
    requires i < |queries|
    ensures RunQueries(graph, queries[..i + 1])
         == var before := RunQueries(graph, queries[..i]);
            if before.crash.Some? then before
            else
              var h := Dispatch(before.graph, queries[i]);
              match h.result
              case Err(e) => Effect(h.graph, before.outputs, Some(e))
              case Ok(o) => Effect(h.graph, before.outputs + AsList(o), None)
  {
    assert queries[..i + 1][..i] == queries[..i];
  }

  /** A run whose first n queries raised is that run. */
  lemma RunQueriesCrashed(graph: Adjacency, queries: seq<Query>, n: nat)
    requires n <= |queries| && RunQueries(graph, queries[..n]).crash.Some?
    ensures RunQueries(graph, queries) == RunQueries(graph, queries[..n])
  {
    RunQueriesStops(graph, queries[..n], queries[n..]);
    assert queries[..n] + queries[n..] == queries;
  }

  // ---------------------------------------------------------------------------------------------
  // Properties of the dispatcher.

  /** Once a query has raised, later queries are not handled. */
  lemma {:induction false} RunQueriesStops(graph: Adjacency, first: seq<Query>, rest: seq<Query>)
    requires RunQueries(graph, first).crash.Some?
    ensures RunQueries(graph, first + rest) == RunQueries(graph, first)
  {
    if rest == [] {
      assert first + rest == first;
    } else {
      var init := rest[..|rest| - 1];
      assert (first + rest)[..|first + rest| - 1] == first + init;
      RunQueriesStops(graph, first, init);
    }
  }

  /**
   * Queries are handled in order: running a list is running its first part and then, from the
   * graph that part left, the rest, unless the first part raised.
   */
  lemma {:induction false} RunQueriesAppend(graph: Adjacency, first: seq<Query>, rest: seq<Query>)
    requires RunQueries(graph, first).crash.None?
    ensures var a := RunQueries(graph, first);
      var b := RunQueries(a.graph, rest);
      RunQueries(graph, first + rest) == Effect(b.graph, a.outputs + b.outputs, b.crash)
  {
    var a := RunQueries(graph, first);
    if rest == [] {
      assert first + rest == first;
      assert a.outputs + [] == a.outputs;
    } else {
      var init := rest[..|rest| - 1];
      assert (first + rest)[..|first + rest| - 1] == first + init;
      assert (first + rest)[|first + rest| - 1] == rest[|rest| - 1];
      RunQueriesAppend(graph, first, init);
      var b := RunQueries(a.graph, init);
      if b.crash.None? {
        var h := Dispatch(b.graph, rest[|rest| - 1]);
        if h.result.Ok? {
          assert a.outputs + b.outputs + AsList(h.result.value) == a.outputs + (b.outputs + AsList(h.result.value));
        }
      }
    }
  }

  /** Every query the query file can produce leaves the graph as it was. */
  lemma DispatchKeepsGraph(graph: Adjacency, q: Query)
    requires QueryReader.WellFormed(q)
    ensures Dispatch(graph, q).graph == graph
  {
    if q.kind == "ADD" {
      AddQueryOfReaderType(graph);
    }
  }

  lemma {:induction false} RunKeepsGraph(graph: Adjacency, queries: seq<Query>)
    requires forall q :: q in queries ==> QueryReader.WellFormed(q)
    ensures RunQueries(graph, queries).graph == graph
  {
    if queries != [] {
      RunKeepsGraph(graph, queries[..|queries| - 1]);
      if RunQueries(graph, queries[..|queries| - 1]).crash.None? {
        DispatchKeepsGraph(graph, queries[|queries| - 1]);
      }
    }
  }

  /**
   * Processing the queries read from a query file never changes the network: every ADD query
   * of the file has the type "ADD", which `parse_add_query` rejects before touching the graph.
   */
  lemma ReadQueriesNeverMutate(graph: Adjacency, lines: seq<string>)
    requires QueryReader.ParseQueries(lines).Ok?
    ensures RunQueries(graph, QueryReader.ParseQueries(lines).value).graph == graph
  {
    QueryReader.ParseQueriesWellFormed(lines);
    RunKeepsGraph(graph, QueryReader.ParseQueries(lines).value);
  }

  /** A Q1 query without types reports that it has too few values and searches nothing. */
  lemma Q1WithoutTypes(graph: Adjacency, source: City, destination: City)
    ensures Dispatch(graph, NewQuery("Q1", source, destination)) == Handled(graph, Ok(Some(NotEnoughForQ1)))
  {
  }

  /** A Q3 query from a city to itself finds the empty path, which Python treats as no path. */
  lemma Q3SameCity(graph: Adjacency, city: City, transportType: Option<string>)
    ensures Dispatch(graph, NewQuery("Q3", city, city, transportTypes := Some([transportType])))
         == Handled(graph, Ok(Some(NoPathFound(city, city, transportType))))
  {
    assert FindPaths(graph, city, city, [transportType]) == if city in graph then [[]] else [];
    ShortestIsFirstFound(graph, city, city, transportType);
  }

  /**
   * On the graph read from a network file, a Q1 query between two different cities reports that
   * no path was found, whatever types it asks for.
   */
  lemma LoadedQ1FindsNothing(blocks: seq<Network.Block>, q: Query)
    requires q.kind == "Q1" && |q.transportTypes| > 0 && q.source != q.destination
    ensures Dispatch(Network.Build(blocks), q)
         == Handled(Network.Build(blocks), Ok(Some(NoPathsFound(q.source, q.destination, q.transportTypes[0]))))
  {
    Network.LoadedFindPaths(blocks, q.source, q.destination, q.transportTypes);
  }
}
