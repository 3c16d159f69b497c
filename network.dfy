/**
 * main2.py, `read_transportation_network`, over the lines of the network file. A line that
 * strips to `Highway`, `Airway` or `Railway` opens a block: the next line lists the cities
 * after a first token that is ignored, and one line per city follows with that city's row of the
 * adjacency matrix, again after an ignored first token. A `1` at row i, column j adds an edge
 * between city i and city j carrying the block's transport type. Other lines are skipped.
 */
module Network {
  import opened Wrappers
  import opened Dicts
  import opened Text
  import opened Nx
  import opened Graphs
  import Search

  const Headers: set<string> := {"Highway", "Airway", "Railway"}

  /** One block of the file: its transport type, its cities and the matrix values of each row. */
  datatype Block = Block(transport: string, cities: seq<City>, rows: seq<seq<string>>)

  /** `file.readline()`, once `k` lines have been consumed: at the end of the file it returns "". */
  function LineAt(lines: seq<string>, k: nat): string
  {
    if k < |lines| then lines[k] else ""
  }

  /** `tokens[1:]` */
  function Tail(tokens: seq<string>): seq<string>
  {
    if tokens == [] then [] else tokens[1..]
  }

  /** The values on a line after its first token: `line.strip().split()[1:]`. */
  function Values(line: string): seq<string>
  {
    Tail(Split(Strip(line)))
  }

  /** The values of the `count` lines from line `first` on. */
  function RowValues(lines: seq<string>, first: nat, count: nat): (rows: seq<seq<string>>)
    ensures |rows| == count
  {
    seq(count, k requires 0 <= k < count => Values(LineAt(lines, first + k)))
  }

  /** The block whose header is line `i`. */
  function ReadBlock(lines: seq<string>, i: nat): (b: Block)
    requires i < |lines|
    ensures |b.rows| == |b.cities|
  {
    var cities := Values(LineAt(lines, i + 1));
    Block(Strip(lines[i]), cities, RowValues(lines, i + 2, |cities|))
  }

  /** `matrix[i][j] = value` fails with IndexError once a row has more values than there are cities. */
  predicate RowsFit(b: Block)
  {
    forall k :: 0 <= k < |b.rows| ==> |b.rows[k]| <= |b.cities|
  }

  /** The blocks of the file from line `i` on, or the error that stops the loader. */
  function ParseFrom(lines: seq<string>, i: nat): Result<seq<Block>, PyError>
    decreases |lines| - i
  {
    if i >= |lines| then Ok([])
    else if Strip(lines[i]) in Headers then
      var b := ReadBlock(lines, i);
      if !RowsFit(b) then Err(IndexError)
      else
        match ParseFrom(lines, i + 2 + |b.cities|)
        case Ok(rest) => Ok([b] + rest)
        case Err(e) => Err(e)
    else ParseFrom(lines, i + 1)
  }

  /** Blocks already read, followed by what the rest of the file gives. */
  function Then(done: seq<Block>, rest: Result<seq<Block>, PyError>): Result<seq<Block>, PyError>
  {
    match rest
    case Ok(bs) => Ok(done + bs)
    case Err(e) => Err(e)
  }

  /** `matrix[i][j]` for block b: a value read from the file, or the 0 the matrix was filled with. */
  function Cell(b: Block, i: nat, j: nat): string
  {
    CellOf(b.rows, i, j)
  }

  /** The graph after the inner loop has visited columns 0 .. j-1 of row i. */
  function AddRow(graph: Adjacency, b: Block, i: nat, j: nat): Adjacency
    requires i < |b.cities| && j <= |b.cities|
  {
    if j == 0 then graph
    else
      var before := AddRow(graph, b, i, j - 1);
      if Cell(b, i, j - 1) == "1" then WithEdge(before, b.cities[i], b.cities[j - 1], TransportAttrs(b.transport))
      else before
  }

  /** The graph after the outer loop has visited rows 0 .. i-1. */
  function AddRows(graph: Adjacency, b: Block, i: nat): Adjacency
    requires i <= |b.cities|
  {
    if i == 0 then graph else AddRow(AddRows(graph, b, i - 1), b, i - 1, |b.cities|)
  }

  /** The graph the loader builds from the blocks, in file order. */
  function Build(blocks: seq<Block>): Adjacency
  {
    if blocks == [] then map[]
    else
      var last := blocks[|blocks| - 1];
      AddRows(Build(blocks[..|blocks| - 1]), last, |last.cities|)
  }

  /** `matrix[i][j]` once row i of the file has been copied in: a value from the file, or the initial 0. */
  function CellOf(rows: seq<seq<string>>, i: nat, j: nat): string
  {
    if i < |rows| && j < |rows[i]| then rows[i][j] else "0"
  }

  /**
   * Lines 23-28 of `read_transportation_network`: a matrix of 0s, filled row by row with the values
   * read from the lines after the city line. `fits` is false when a row has more values than there
   * are cities, where the source raises IndexError.
   */
  method FillMatrix(rows: seq<seq<string>>, matrixSize: nat) returns (matrix: array2<string>, fits: bool)
    requires |rows| == matrixSize
    ensures fresh(matrix) && matrix.Length0 == matrixSize && matrix.Length1 == matrixSize
    ensures fits <==> forall k :: 0 <= k < matrixSize ==> |rows[k]| <= matrixSize
    ensures fits ==> forall i, j :: 0 <= i < matrixSize && 0 <= j < matrixSize ==> matrix[i, j] == CellOf(rows, i, j)
  {
    matrix := new string[matrixSize, matrixSize]((_, _) => "0");
    var i := 0;
    while i < matrixSize
      invariant i <= matrixSize
      invariant forall k :: 0 <= k < i ==> |rows[k]| <= matrixSize
      invariant forall k, j :: 0 <= k < i && 0 <= j < matrixSize ==> matrix[k, j] == CellOf(rows, k, j)
      invariant forall k, j :: i <= k < matrixSize && 0 <= j < matrixSize ==> matrix[k, j] == "0"
    {
      var data := rows[i];
      var j := 0;
      while j < |data|
        invariant j <= |data| && j <= matrixSize
        invariant forall k, j' :: 0 <= k < i && 0 <= j' < matrixSize ==> matrix[k, j'] == CellOf(rows, k, j')
        invariant forall k, j' :: i < k < matrixSize && 0 <= j' < matrixSize ==> matrix[k, j'] == "0"
        invariant forall j' :: 0 <= j' < j ==> matrix[i, j'] == data[j']
        invariant forall j' :: j <= j' < matrixSize ==> matrix[i, j'] == "0"
      {
        if j >= matrixSize {
          return matrix, false;
        }
        matrix[i, j] := data[j];
        j := j + 1;
      }
      i := i + 1;
    }
    return matrix, true;
  }

  /** Lines 30-33 of `read_transportation_network`: one `add_edge` per `'1'` in the matrix, row by row. */
  method AddMarkedEdges(graph: Graph, matrix: array2<string>, cities: seq<City>, transportType: string, ghost b: Block)
    requires graph.Valid()
    requires b.cities == cities && b.transport == transportType
    requires matrix.Length0 == |cities| && matrix.Length1 == |cities|
    requires forall i, j :: 0 <= i < |cities| && 0 <= j < |cities| ==> matrix[i, j] == Cell(b, i, j)
    modifies graph
    ensures graph.Valid() && graph.graph == AddRows(old(graph.graph), b, |cities|)
  {
    ghost var start := graph.graph;
    var i := 0;
    while i < |cities|
      invariant i <= |cities|
      invariant graph.Valid() && graph.graph == AddRows(start, b, i)
    {
      AddMarkedRow(graph, matrix, cities, transportType, i, b);
      i := i + 1;
    }
  }

  /** The inner `for j in range(matrix_size)` loop: row i's marked cells become edges, left to right. */
  method AddMarkedRow(graph: Graph, matrix: array2<string>, cities: seq<City>, transportType: string, i: nat, ghost b: Block)
    requires graph.Valid()
    requires b.cities == cities && b.transport == transportType && i < |cities|
    requires matrix.Length0 == |cities| && matrix.Length1 == |cities|
    requires forall j :: 0 <= j < |cities| ==> matrix[i, j] == Cell(b, i, j)
    modifies graph
    ensures graph.Valid() && graph.graph == AddRow(old(graph.graph), b, i, |cities|)
  {
    ghost var start := graph.graph;
    var j := 0;
    while j < |cities|
      invariant j <= |cities|
      invariant graph.Valid() && graph.graph == AddRow(start, b, i, j)
    {
      if matrix[i, j] == "1" {
        graph.AddEdge(cities[i], cities[j], transportType);
      }
      j := j + 1;
    }
  }

  /** One block of `read_transportation_network`: the matrix is filled, then its edges are added. */
  method LoadBlock(graph: Graph, b: Block) returns (fits: bool)
    requires graph.Valid() && |b.rows| == |b.cities|
    modifies graph
    ensures fits == RowsFit(b)
    ensures fits ==> graph.Valid() && graph.graph == AddRows(old(graph.graph), b, |b.cities|)
  {
    var matrix;
    matrix, fits := FillMatrix(b.rows, |b.cities|);
    if fits {
      AddMarkedEdges(graph, matrix, b.cities, b.transport, b);
    }
  }

  /** What the rest of the file gives from a header line on. */
  lemma ParseAtHeader(lines: seq<string>, i: nat)
    requires i < |lines| && Strip(lines[i]) in Headers
    ensures var b := ReadBlock(lines, i);
      ParseFrom(lines, i) == if RowsFit(b) then Then([b], ParseFrom(lines, i + 2 + |b.cities|)) else Err(IndexError)
  {
  }

  /** A line that is not a header is skipped. */
  lemma ParseSkips(lines: seq<string>, i: nat)
    requires i < |lines| && Strip(lines[i]) !in Headers
    ensures ParseFrom(lines, i) == ParseFrom(lines, i + 1)
  {
  }

  lemma ThenNothing(rest: Result<seq<Block>, PyError>)
    ensures Then([], rest) == rest
  {
    if rest.Ok? {
      assert [] + rest.value == rest.value;
    }
  }

  /** Past the last line nothing more is read. */
  lemma ThenAtEnd(lines: seq<string>, i: nat, done: seq<Block>)
    requires i >= |lines|
    ensures Then(done, ParseFrom(lines, i)) == Ok(done)
  {
    assert done + [] == done;
  }

  lemma ThenAppend(done: seq<Block>, b: Block, rest: Result<seq<Block>, PyError>)
    ensures Then(done, Then([b], rest)) == Then(done + [b], rest)
  {
    if rest.Ok? {
      assert done + ([b] + rest.value) == done + [b] + rest.value;
    }
  }

  lemma BuildAppend(done: seq<Block>, b: Block)
    ensures Build(done + [b]) == AddRows(Build(done), b, |b.cities|)
  {
    assert (done + [b])[..|done|] == done;
  }

  /** Reading a block whose rows fit moves it from the rest of the file to the blocks read. */
  lemma AdvanceOverBlock(lines: seq<string>, i: nat, done: seq<Block>)
    requires i < |lines| && Strip(lines[i]) in Headers
    ensures var b := ReadBlock(lines, i);
      && (!RowsFit(b) ==> Then(done, ParseFrom(lines, i)) == Err(IndexError))
      && (RowsFit(b) ==> Then(done, ParseFrom(lines, i)) == Then(done + [b], ParseFrom(lines, i + 2 + |b.cities|)))
  {
    var b := ReadBlock(lines, i);
    ParseAtHeader(lines, i);
    ThenAppend(done, b, ParseFrom(lines, i + 2 + |b.cities|));
  }

  /** Skipping a line that is not a header leaves the outcome unchanged. */
  lemma AdvanceOverLine(lines: seq<string>, i: nat, done: seq<Block>)
    requires i < |lines| && Strip(lines[i]) !in Headers
    ensures Then(done, ParseFrom(lines, i)) == Then(done, ParseFrom(lines, i + 1))
  {
    ParseSkips(lines, i);
  }

  /**
   * `read_transportation_network(file_path)` over the file's lines. It fails with IndexError
   * exactly when a block has a row longer than its city list, and otherwise returns the graph
   * `Build` gives for the blocks of the file.
   */
  method ReadTransportationNetwork(lines: seq<string>) returns (r: Result<Graph, PyError>)
    ensures r.Ok? <==> ParseFrom(lines, 0).Ok?
    ensures r.Err? ==> r.error == ParseFrom(lines, 0).error
    ensures r.Ok? ==> fresh(r.value) && r.value.Valid() && r.value.graph == Build(ParseFrom(lines, 0).value)
  {
    var graph := new Graph();
    ghost var done: seq<Block> := [];
    var next := 0;
    ThenNothing(ParseFrom(lines, 0));
    while next < |lines|
      invariant fresh(graph) && graph.Valid()
      invariant graph.graph == Build(done)
      invariant Then(done, ParseFrom(lines, next)) == ParseFrom(lines, 0)
      decreases |lines| - next
    {
      var line := Strip(lines[next]);
      if line in Headers {
        var b := ReadBlock(lines, next);
        AdvanceOverBlock(lines, next, done);
        var fits := LoadBlock(graph, b);
        if !fits {
          return Err(IndexError);
        }
        BuildAppend(done, b);
        done := done + [b];
        next := next + 2 + |b.cities|;
      } else {
        AdvanceOverLine(lines, next, done);
        next := next + 1;
      }
    }
    ThenAtEnd(lines, next, done);
    r := Ok(graph);
  }

  // ---------------------------------------------------------------------------------------------
  // What the loaded graph holds.

  /** The graph after the inner loop stays simple and undirected. */
  lemma {:induction false} AddRowValid(graph: Adjacency, b: Block, i: nat, j: nat)
    requires i < |b.cities| && j <= |b.cities|
    requires Nx.Valid(graph)
    ensures Nx.Valid(AddRow(graph, b, i, j))
  {
    if j > 0 {
      AddRowValid(graph, b, i, j - 1);
      WithEdgeValid(AddRow(graph, b, i, j - 1), b.cities[i], b.cities[j - 1], TransportAttrs(b.transport));
    }
  }

  lemma {:induction false} AddRowsValid(graph: Adjacency, b: Block, i: nat)
    requires i <= |b.cities|
    requires Nx.Valid(graph)
    ensures Nx.Valid(AddRows(graph, b, i))
  {
    if i > 0 {
      AddRowsValid(graph, b, i - 1);
      AddRowValid(AddRows(graph, b, i - 1), b, i - 1, |b.cities|);
    }
  }

  /** The loaded graph is a simple undirected graph. */
  lemma {:induction false} BuildValid(blocks: seq<Block>)
    ensures Nx.Valid(Build(blocks))
  {
    if blocks != [] {
      var last := blocks[|blocks| - 1];
      BuildValid(blocks[..|blocks| - 1]);
      AddRowsValid(Build(blocks[..|blocks| - 1]), last, |last.cities|);
    }
  }

  /** `{x, y}` is the pair `{u, v}`. */
  predicate Joins(u: City, v: City, x: City, y: City)
  {
    (x == u && y == v) || (x == v && y == u)
  }

  /** Some cell of block b holds "1" and names the pair {x, y}. */
  ghost predicate BlockMarks(b: Block, x: City, y: City)
  {
    exists i, j :: 0 <= i < |b.cities| && 0 <= j < |b.cities| && Cell(b, i, j) == "1" && Joins(b.cities[i], b.cities[j], x, y)
  }

  /** Some cell of row i before column j holds "1" and names the pair {x, y}. */
  ghost predicate RowMarks(b: Block, i: nat, j: nat, x: City, y: City)
    requires i < |b.cities| && j <= |b.cities|
  {
    exists j' :: 0 <= j' < j && Cell(b, i, j') == "1" && Joins(b.cities[i], b.cities[j'], x, y)
  }

  lemma RowMarksStep(b: Block, i: nat, j: nat, x: City, y: City)
    requires i < |b.cities| && 0 < j <= |b.cities|
    ensures RowMarks(b, i, j, x, y)
        <==> RowMarks(b, i, j - 1, x, y) || (Cell(b, i, j - 1) == "1" && Joins(b.cities[i], b.cities[j - 1], x, y))
  {
    if RowMarks(b, i, j, x, y) {
      var j' :| 0 <= j' < j && Cell(b, i, j') == "1" && Joins(b.cities[i], b.cities[j'], x, y);
      if j' < j - 1 {
        assert RowMarks(b, i, j - 1, x, y);
      }
    }
  }

  lemma {:induction false} AddRowEdges(graph: Adjacency, b: Block, i: nat, j: nat, x: City, y: City)
    requires i < |b.cities| && j <= |b.cities|
    ensures HasEdge(AddRow(graph, b, i, j), x, y) <==> HasEdge(graph, x, y) || RowMarks(b, i, j, x, y)
  {
    if j > 0 {
      AddRowEdges(graph, b, i, j - 1, x, y);
      RowMarksStep(b, i, j, x, y);
      AddRowStep(graph, b, i, j, x, y);
    }
  }

  /** Visiting cell (i, j - 1) adds the pair it names when it holds "1", and nothing else. */
  lemma AddRowStep(graph: Adjacency, b: Block, i: nat, j: nat, x: City, y: City)
    requires i < |b.cities| && 0 < j <= |b.cities|
    ensures HasEdge(AddRow(graph, b, i, j), x, y)
        <==> HasEdge(AddRow(graph, b, i, j - 1), x, y) || (Cell(b, i, j - 1) == "1" && Joins(b.cities[i], b.cities[j - 1], x, y))
  {
    if Cell(b, i, j - 1) == "1" {
      EdgesAfterWithEdge(AddRow(graph, b, i, j - 1), b.cities[i], b.cities[j - 1], TransportAttrs(b.transport), x, y);
    }
  }

  lemma {:induction false} AddRowsEdges(graph: Adjacency, b: Block, i: nat, x: City, y: City)
    requires i <= |b.cities|
    ensures HasEdge(AddRows(graph, b, i), x, y)
        <==> HasEdge(graph, x, y)
             || exists i', j :: 0 <= i' < i && 0 <= j < |b.cities| && Cell(b, i', j) == "1" && Joins(b.cities[i'], b.cities[j], x, y)
  {
    if i > 0 {
      AddRowsEdges(graph, b, i - 1, x, y);
      AddRowEdges(AddRows(graph, b, i - 1), b, i - 1, |b.cities|, x, y);
    }
  }

  /**
   * The loaded graph links x and y exactly when some block of the file has a "1" in the cell of
   * row x and column y, or of row y and column x.
   */
  lemma {:induction false} BuildEdges(blocks: seq<Block>, x: City, y: City)
    ensures HasEdge(Build(blocks), x, y) <==> exists k :: 0 <= k < |blocks| && BlockMarks(blocks[k], x, y)
  {
    if blocks != [] {
      var init, last := blocks[..|blocks| - 1], blocks[|blocks| - 1];
      BuildEdges(init, x, y);
      AddRowsEdges(Build(init), last, |last.cities|, x, y);
      if exists k :: 0 <= k < |blocks| && BlockMarks(blocks[k], x, y) {
        var k :| 0 <= k < |blocks| && BlockMarks(blocks[k], x, y);
        if k < |init| {
          assert init[k] == blocks[k];
        }
      }
      if exists k :: 0 <= k < |init| && BlockMarks(init[k], x, y) {
        var k :| 0 <= k < |init| && BlockMarks(init[k], x, y);
        assert blocks[k] == init[k];
      }
    }
  }

  /** Every edge's attribute dict holds the "transport_type" key and nothing else. */
  ghost predicate TransportOnly(graph: Adjacency)
  {
    forall x :: x in graph ==> RowTransportOnly(graph[x])
  }

  ghost predicate RowTransportOnly(row: Row)
  {
    forall e :: e in row ==> e.1.Keys == {TransportKey}
  }

  lemma PutTransportOnly(row: Row, k: City, data: Attrs)
    requires RowTransportOnly(row) && data.Keys == {TransportKey}
    ensures RowTransportOnly(Put(row, k, data))
  {
    forall e | e in Put(row, k, data)
      ensures e.1.Keys == {TransportKey}
    {
      PutEntries(row, k, data, e);
    }
  }

  lemma UpdateTransportOnly(graph: Adjacency, x: City, row: Row)
    requires TransportOnly(graph) && RowTransportOnly(row)
    ensures TransportOnly(graph[x := row])
  {
  }

  lemma WithNodeTransportOnly(graph: Adjacency, n: City)
    requires TransportOnly(graph)
    ensures TransportOnly(WithNode(graph, n))
  {
  }

  lemma WithEdgeTransportOnly(graph: Adjacency, u: City, v: City, transportType: string)
    requires TransportOnly(graph)
    ensures TransportOnly(WithEdge(graph, u, v, TransportAttrs(transportType)))
  {
    var withU := WithNode(graph, u);
    WithNodeTransportOnly(graph, u);
    var withEnds := WithNode(withU, v);
    WithNodeTransportOnly(withU, v);
    var data := EdgeData(graph, u, v) + TransportAttrs(transportType);
    assert data.Keys == {TransportKey};
    PutTransportOnly(withEnds[u], v, data);
    var linked := withEnds[u := Put(withEnds[u], v, data)];
    UpdateTransportOnly(withEnds, u, Put(withEnds[u], v, data));
    PutTransportOnly(linked[v], u, data);
    UpdateTransportOnly(linked, v, Put(linked[v], u, data));
  }

  lemma {:induction false} AddRowTransportOnly(graph: Adjacency, b: Block, i: nat, j: nat)
    requires i < |b.cities| && j <= |b.cities|
    requires TransportOnly(graph)
    ensures TransportOnly(AddRow(graph, b, i, j))
  {
    if j > 0 {
      AddRowTransportOnly(graph, b, i, j - 1);
      if Cell(b, i, j - 1) == "1" {
        WithEdgeTransportOnly(AddRow(graph, b, i, j - 1), b.cities[i], b.cities[j - 1], b.transport);
      }
    }
  }

  lemma {:induction false} AddRowsTransportOnly(graph: Adjacency, b: Block, i: nat)
    requires i <= |b.cities|
    requires TransportOnly(graph)
    ensures TransportOnly(AddRows(graph, b, i))
  {
    if i > 0 {
      AddRowsTransportOnly(graph, b, i - 1);
      AddRowTransportOnly(AddRows(graph, b, i - 1), b, i - 1, |b.cities|);
    }
  }

  /** The loader stores each edge's type under "transport_type", never under "type". */
  lemma {:induction false} BuildTransportOnly(blocks: seq<Block>)
    ensures TransportOnly(Build(blocks))
    ensures Search.NoTypeLabels(Build(blocks))
  {
    if blocks != [] {
      var last := blocks[|blocks| - 1];
      BuildTransportOnly(blocks[..|blocks| - 1]);
      AddRowsTransportOnly(Build(blocks[..|blocks| - 1]), last, |last.cities|);
    }
    forall x, e | x in Build(blocks) && e in Build(blocks)[x]
      ensures Search.TypeKey !in e.1
    {
      assert RowTransportOnly(Build(blocks)[x]);
      assert Search.TypeKey !in {TransportKey};
    }
  }

  /**
   * On a graph read from a network file `find_paths` follows no edge, since `dfs` looks the label
   * up under "type": it finds `[[]]` when source and destination are the same city of the graph,
   * and nothing otherwise, whatever transport types are asked for.
   */
  lemma LoadedFindPaths(blocks: seq<Block>, source: City, destination: City, transportTypes: seq<Option<string>>)
    ensures Search.FindPaths(Build(blocks), source, destination, transportTypes)
         == if source in Build(blocks) && source == destination then [[]] else []
  {
    BuildTransportOnly(blocks);
    Search.FindPathsUnlabelled(Build(blocks), source, destination, transportTypes);
  }

  // ---------------------------------------------------------------------------------------------
  // Reading back a block written in the file's format.

  /** A line holding a first word and then some values gives those values back. */
  lemma ValuesOfWritten(first: string, values: seq<string>)
    requires IsWord(first) && forall k :: 0 <= k < |values| ==> IsWord(values[k])
    ensures Values(Join([first] + values)) == values
  {
    var tokens := [first] + values;
    WordsCons(first, values);
    ReadJoin(tokens);
    assert tokens[1..] == values;
  }

  /**
   * A block written as its header line, a line naming its cities after a first word, and one line
   * per city holding that city's row after a first word, is read back as that block.
   */
  lemma ReadWrittenBlock(lines: seq<string>, i: nat, b: Block, cityLabel: string, rowLabels: seq<string>)
    requires b.transport in Headers && |b.rows| == |b.cities| == |rowLabels|
    requires IsWord(cityLabel) && forall c :: c in b.cities ==> IsWord(c)
    requires forall k :: 0 <= k < |rowLabels| ==> IsWord(rowLabels[k])
    requires forall k, v :: 0 <= k < |b.rows| && v in b.rows[k] ==> IsWord(v)
    requires i + 2 + |b.cities| <= |lines|
    requires lines[i] == b.transport
    requires lines[i + 1] == Join([cityLabel] + b.cities)
    requires forall k :: 0 <= k < |b.rows| ==> lines[i + 2 + k] == Join([rowLabels[k]] + b.rows[k])
    ensures Strip(lines[i]) == b.transport
    ensures ReadBlock(lines, i) == b
  {
    assert IsWord(b.transport);
    StripJoin([b.transport]);
    ValuesOfWritten(cityLabel, b.cities);
    ReadWrittenRows(lines, i + 2, b.rows, rowLabels);
  }

  /** Lines written as a first word followed by a row's values are read back as those rows. */
  lemma ReadWrittenRows(lines: seq<string>, first: nat, rows: seq<seq<string>>, rowLabels: seq<string>)
    requires |rows| == |rowLabels| && first + |rows| <= |lines|
    requires forall k :: 0 <= k < |rowLabels| ==> IsWord(rowLabels[k])
    requires forall k, v :: 0 <= k < |rows| && v in rows[k] ==> IsWord(v)
    requires forall k :: 0 <= k < |rows| ==> lines[first + k] == Join([rowLabels[k]] + rows[k])
    ensures RowValues(lines, first, |rows|) == rows
  {
    var r := RowValues(lines, first, |rows|);
    forall k | 0 <= k < |rows|
      ensures r[k] == rows[k]
    {
      assert LineAt(lines, first + k) == Join([rowLabels[k]] + rows[k]);
      assert forall j :: 0 <= j < |rows[k]| ==> rows[k][j] in rows[k];
      ValuesOfWritten(rowLabels[k], rows[k]);
    }
  }
}
