/**
 * main2.py, the ADD handlers: `add_city`, `parse_add_city_query`, `parse_add_path_query` and
 * `parse_add_query`. They read their arguments from the query's type string, split on whitespace.
 * `parse_add_path_query` creates both endpoints and then indexes the `Graph` wrapper itself,
 * which Python rejects with TypeError before any edge is added.
 */
module Mutation {
  import opened Wrappers
  import opened Text
  import opened Nx
  import opened Graphs
  import opened Queries

  /** The messages the ADD handlers print instead of raising. */
  datatype AddMessage =
    | InvalidAddFormat                       // fewer than two words in the query type
    | UnknownAddType(word: string)           // second word neither `City` nor `Path`
    | InvalidAddPathFormat(queryType: string) // `ADD Path` query type without exactly six words

  /** What a handler leaves behind: the new graph, and a message, nothing, or the exception it raised. */
  datatype AddOutcome = AddOutcome(graph: Adjacency, result: Result<Option<AddMessage>, PyError>)

  // ---------------------------------------------------------------------------------------------
  // The transport token of `parse_add_path_query`

  /** `''.join([c for c in s if c.isnumeric()])`, with `isnumeric` on ASCII digits. */
  function DigitsOnly(s: string): (r: string)
    ensures |r| <= |s|
    ensures forall k :: 0 <= k < |r| ==> IsDigit(r[k])
  {
    if s == [] then []
    else (if IsDigit(s[0]) then [s[0]] else []) + DigitsOnly(s[1..])
  }

  /** Filtering a concatenation filters each part: the digits are kept in their order. */
  lemma {:induction false} DigitsOnlyAppend(a: string, b: string)
    ensures DigitsOnly(a + b) == DigitsOnly(a) + DigitsOnly(b)
  {
    if a == [] {
      assert a + b == b;
    } else {
      assert (a + b)[0] == a[0] && (a + b)[1..] == a[1..] + b;
      DigitsOnlyAppend(a[1..], b);
    }
  }

  /** A string of digits is kept whole. */
  lemma {:induction false} DigitsOnlyKeepsDigits(s: string)
    requires forall k :: 0 <= k < |s| ==> IsDigit(s[k])
    ensures DigitsOnly(s) == s
  {
    if s != [] {
      DigitsOnlyKeepsDigits(s[1..]);
    }
  }

  /** Filtering twice is filtering once. */
  lemma DigitsOnlyIdempotent(s: string)
    ensures DigitsOnly(DigitsOnly(s)) == DigitsOnly(s)
  {
    DigitsOnlyKeepsDigits(DigitsOnly(s));
  }

  /** Every digit of s survives as often as it occurs, and nothing else does. */
  lemma {:induction false} DigitsOnlyCounts(s: string, c: char)
    ensures multiset(DigitsOnly(s))[c] == if IsDigit(c) then multiset(s)[c] else 0
  {
    if s != [] {
      DigitsOnlyCounts(s[1..], c);
      assert s == [s[0]] + s[1..];
      assert multiset(s) == multiset([s[0]]) + multiset(s[1..]);
    }
  }

  // ---------------------------------------------------------------------------------------------
  // What each handler does to the graph

  /** `parse_add_city_query`: `_, city_name = query.type.split()` needs exactly two words. */
  function AddCityQuery(graph: Adjacency, queryType: string): (o: AddOutcome)
    ensures |Split(queryType)| != 2 <==> o.result.Err?
    ensures |Split(queryType)| != 2 ==> o == AddOutcome(graph, Err(ValueError))
    ensures |Split(queryType)| == 2 ==>
      var city := Split(queryType)[1];
      && o.result == Ok(None) && o.graph.Keys == graph.Keys + {city}
      && (forall x :: x in graph ==> o.graph[x] == graph[x])
      && (city !in graph ==> o.graph[city] == [])
  {
    var params := Split(queryType);
    if |params| != 2 then AddOutcome(graph, Err(ValueError))
    else AddOutcome(WithNode(graph, params[1]), Ok(None))
  }

  /**
   * `parse_add_path_query`: without exactly six words it reports the format and changes nothing;
   * with six it adds both cities, keeps the digits of the transport word, and raises TypeError at
   * `graph[source_city]`.
   */
  function AddPathQuery(graph: Adjacency, queryType: string): (o: AddOutcome)
    ensures |Split(queryType)| != 6 ==> o == AddOutcome(graph, Ok(Some(InvalidAddPathFormat(queryType))))
    ensures |Split(queryType)| == 6 ==>
      var params := Split(queryType);
      && o.result == Err(TypeError) && o.graph.Keys == graph.Keys + {params[1], params[5]}
      && (forall x :: x in graph ==> o.graph[x] == graph[x])
      && (params[1] !in graph ==> o.graph[params[1]] == [])
      && (params[5] !in graph ==> o.graph[params[5]] == [])
  {
    var params := Split(queryType);
    if |params| != 6 then AddOutcome(graph, Ok(Some(InvalidAddPathFormat(queryType))))
    else
      var withEnds := WithNode(WithNode(graph, params[1]), params[5]);
      AddOutcome(withEnds, Err(TypeError))
  }

  /**
   * `parse_add_query`: dispatches on the second word of the query type. Whatever the words, it
   * only ever adds cities, each with no neighbours: the second word of a two-word `City` type (the
   * handler unpacks the whole type, so that word is `City` itself), or the second and sixth words
   * of a six-word `Path` type. It raises exactly when a `City` type is not two words (ValueError) or
   * a `Path` type is six words (TypeError); otherwise it reports a short type, a `Path` type of the
   * wrong length or an unknown second word, and a city it added silently.
   */
  function AddQuery(graph: Adjacency, queryType: string): (o: AddOutcome)
    ensures graph.Keys <= o.graph.Keys && forall x :: x in graph ==> o.graph[x] == graph[x]
    ensures forall x :: x in o.graph && x !in graph ==>
      o.graph[x] == [] && |Split(queryType)| >= 2 && (x == Split(queryType)[1] || x == Split(queryType)[|Split(queryType)| - 1])
    ensures o.graph.Keys != graph.Keys ==> |Split(queryType)| >= 2 && Split(queryType)[1] in {"City", "Path"}
    ensures |Split(queryType)| < 2 ==> o == AddOutcome(graph, Ok(Some(InvalidAddFormat)))
    ensures o.result == Err(ValueError) <==> |Split(queryType)| >= 2 && Split(queryType)[1] == "City" && |Split(queryType)| != 2
    ensures o.result == Err(TypeError) <==> |Split(queryType)| == 6 && Split(queryType)[1] == "Path"
    ensures o.result.Err? ==> o.result == Err(ValueError) || o.result == Err(TypeError)
    ensures var p := Split(queryType);
      o.graph.Keys == graph.Keys
        + (if |p| == 2 && p[1] == "City" then {p[1]}
           else if |p| == 6 && p[1] == "Path" then {p[1], p[5]}
           else {})
    ensures var p := Split(queryType);
      |p| >= 2 && p[1] != "City" && p[1] != "Path" ==> o.result == Ok(Some(UnknownAddType(p[1])))
    ensures var p := Split(queryType);
      |p| >= 2 && p[1] == "Path" && |p| != 6 ==> o.result == Ok(Some(InvalidAddPathFormat(queryType)))
    ensures var p := Split(queryType);
      |p| == 2 && p[1] == "City" ==> o.result == Ok(None)
  {
    var params := Split(queryType);
    if |params| < 2 then AddOutcome(graph, Ok(Some(InvalidAddFormat)))
    else if params[1] == "City" then AddCityQuery(graph, queryType)
    else if params[1] == "Path" then AddPathQuery(graph, queryType)
    else AddOutcome(graph, Ok(Some(UnknownAddType(params[1]))))
  }

  /** A query whose type is the single word "ADD", as every ADD query of the query file is, changes nothing. */
  lemma AddQueryOfReaderType(graph: Adjacency)
    ensures AddQuery(graph, "ADD") == AddOutcome(graph, Ok(Some(InvalidAddFormat)))
  {
    assert IsWord("ADD");
    SplitJoin(["ADD"]);
  }

  /** Handling the same ADD query type a second time leaves the graph as the first time left it. */
  lemma AddQueryTwice(graph: Adjacency, queryType: string)
    ensures var once := AddQuery(graph, queryType).graph;
      AddQuery(once, queryType).graph == once
  {
  }

  /** Running a city query twice is running it once. */
  lemma AddCityQueryTwice(graph: Adjacency, queryType: string)
    requires |Split(queryType)| == 2
    ensures var once := AddCityQuery(graph, queryType).graph;
      AddCityQuery(once, queryType).graph == once
  {
  }

  // ---------------------------------------------------------------------------------------------
  // The handlers on the program's `Graph` object

  /** `add_city(graph, city)`: adds the city unless it is already there. */
  method AddCity(graph: Graph, city: City)
    requires graph.Valid()
    modifies graph
    ensures graph.Valid()
    ensures graph.graph == WithNode(old(graph.graph), city)
  {
    if city !in graph.graph {
      graph.AddNode(city);
    }
  }

  method ParseAddCityQuery(graph: Graph, query: Query) returns (r: Result<Option<AddMessage>, PyError>)
    requires graph.Valid()
    modifies graph
    ensures graph.Valid()
    ensures AddOutcome(graph.graph, r) == AddCityQuery(old(graph.graph), query.kind)
  {
    var params := Split(query.kind);
    if |params| != 2 {
      return Err(ValueError);
    }
    AddCity(graph, params[1]);
    return Ok(None);
  }

  method ParseAddPathQuery(graph: Graph, query: Query) returns (r: Result<Option<AddMessage>, PyError>)
    requires graph.Valid()
    modifies graph
    ensures graph.Valid()
    ensures AddOutcome(graph.graph, r) == AddPathQuery(old(graph.graph), query.kind)
  {
    var params := Split(query.kind);
    if |params| != 6 {
      return Ok(Some(InvalidAddPathFormat(query.kind)));
    }
    var sourceCity, transportType, targetCity := params[1], params[3], params[5];
    AddCity(graph, sourceCity);
    AddCity(graph, targetCity);
    transportType := DigitsOnly(transportType);
    return Err(TypeError);
  }

  method ParseAddQuery(graph: Graph, query: Query) returns (r: Result<Option<AddMessage>, PyError>)
    requires graph.Valid()
    modifies graph
    ensures graph.Valid()
    ensures AddOutcome(graph.graph, r) == AddQuery(old(graph.graph), query.kind)
  {
    var params := Split(query.kind);
    if |params| < 2 {
      return Ok(Some(InvalidAddFormat));
    }
    if params[1] == "City" {
      r := ParseAddCityQuery(graph, query);
    } else if params[1] == "Path" {
      r := ParseAddPathQuery(graph, query);
    } else {
      r := Ok(Some(UnknownAddType(params[1])));
    }
  }
}
