# Transportation network queries, modelled in Dafny

The program reads a transportation network and a list of queries, then answers the queries
one after another.

- **The network file** holds one block per transport type: `Highway`, `Airway` or `Railway`.
  A block gives a list of cities and their adjacency matrix. A `1` in row i, column j links
  city i and city j with that transport type.
- **The graph** is a `Graph` object wrapping a networkx `Graph`: a simple undirected graph whose
  edges carry an attribute dict.
- **The query file** holds four kinds of query:
  - `Q1`: all paths between two cities that use each requested transport type at most once;
  - `Q2`: the cities adjacent to both of two cities;
  - `Q3`: a shortest path of one type;
  - `ADD`: add a city or a path.

This project models those parts and proves properties of them:

- the graph wrapper (`graph.py`);
- the query record (`query.py`);
- the two readers, the depth-first search, the shortest-path selector, the common-neighbour
  finder, the ADD handlers and the dispatcher (`main2.py`).

How the model is laid out:

- The networkx graph is a map from each city to its neighbour dict. A dict is a sequence of
  entries in insertion order, so the order of neighbours in the search is kept.
- `Graph` is a class whose `graph` field its methods replace.
- The readers work over the lines of a file instead of the file itself.
- The reports `process_queries` prints become `Output` records; the messages `read_queries`
  prints when it skips a line are dropped (see "## Left out").
- A Python exception becomes an error value (`PyError`) that ends the run.

The model follows the code where it departs from what the program evidently means to do:

- **The label key.** `dfs` reads an edge's label under the key `type` (`main2.py:91`), but
  `Graph.add_edge` stores it under `transport_type` (`graph.py:11`). So on a graph read from a
  network file no edge is ever followed:
  - `Network.LoadedFindPaths` proves that `find_paths` finds nothing between two different cities;
  - `Dispatcher.LoadedQ1FindsNothing` proves that every Q1 query between two different cities that names at least one type reports that no path was found.
- **ADD queries.** Every ADD query that `read_queries` builds has the type `"ADD"`. `parse_add_query`
  splits that into one word and reports a format error, so processing the query file never changes
  the graph (`Dispatcher.ReadQueriesNeverMutate`).
- **`ADD Path`.** When an `ADD Path` handler is reached with six words, it adds both cities and
  then indexes the `Graph` wrapper itself (`main2.py:170`). Python raises TypeError there, so no
  edge is added.
- **Shortest path.** `find_shortest_path` compares an edge's attribute dict with a string, which is
  never equal. So its key is always 0, and it returns the first path `dfs` found
  (`Search.ShortestIsFirstFound`).

## Model

| member | source | states |
|---|---|---|
| Dicts.Get | graph.py:10-11 | looking a key up in a dict finds a value exactly when the key is present, and the value is that key's entry |
| Dicts.Put | graph.py:11 | storing under a key makes lookup give the new value, the keys become the old keys plus that key, and a new key is appended at the end |
| Dicts.PutGetOther | graph.py:11 | storing under a key leaves every other key's lookup alone |
| Dicts.PutInPlace | graph.py:11 | storing under a key that is present keeps the dict's length and the order of its keys |
| Dicts.PutDistinct | graph.py:11 | storing under a key never stores a key twice |
| Dicts.PutEntries | graph.py:11 | every entry after the store is the new entry or an entry that was there before |
| Dicts.GetIffEntry | graph.py:11 | in a dict whose keys are distinct, an entry is present exactly when looking its key up gives its value |
| Text.Split | main2.py:42 | `split()` yields only non-empty tokens without whitespace |
| Text.SplitJoin | main2.py:42 | splitting words joined by single spaces gives back the same words |
| Text.Strip | main2.py:16 | `strip()` as `lstrip()` then `rstrip()`; `Text.StripSpec` states its result |
| Text.StripSpec | main2.py:16 | `strip()` keeps a slice of the line: whitespace lies on both sides of the slice, and the result neither starts nor ends with whitespace |
| Text.StripJoin | main2.py:16 | words joined by single spaces are not changed by `strip()` |
| Text.ReadJoin | main2.py:42 | words joined by single spaces are read back by `strip().split()` as the same words |
| Text.ParseInt | main2.py:52 | `int(token)` succeeds exactly on an optional sign followed by decimal digits |
| Text.ParseShowInt | main2.py:52 | `int(str(n)) == n` for every integer n (CPython's digit limit is left out) |
| Nx.WithNode | graph.py:7-8 | `add_node` adds the city with no neighbours and leaves every existing city's neighbours unchanged |
| Nx.WithEdge | graph.py:10-11 | `add_edge` makes the node set the old one plus both endpoints |
| Nx.LinksBothWays | graph.py:10-11 | after `add_edge(u, v)`, u lists v and v lists u, both holding the old attribute dict updated with the new attributes; this includes the self-loop u = v |
| Nx.OtherPairsUnchanged | graph.py:10-11 | `add_edge(u, v)` leaves the entry of every other pair unchanged |
| Nx.EdgesAfterWithEdge | graph.py:10-11 | the edges after `add_edge(u, v)` are exactly the old edges plus {u, v} |
| Nx.ReAddKeepsOneEdge | graph.py:10-11 | re-adding an existing edge keeps one entry per endpoint, in the same place, and only updates its attributes |
| Nx.WithEdgeValid | graph.py:10-11 | `add_edge` keeps the graph simple and undirected |
| Graphs.TransportAttrs | graph.py:11 | the edge attributes hold only the key `transport_type`, mapped to the given type |
| Graphs.Graph.constructor | graph.py:4-5 | a new wrapper holds an empty, valid graph |
| Graphs.Graph.AddNode | graph.py:7-8 | the new graph is `WithNode` of the old one, and adding a city that is already present changes nothing |
| Graphs.Graph.AddEdge | graph.py:10-11 | the new graph is `WithEdge` of the old one: both endpoints are nodes, each lists the other with `transport_type` set to the new type, every other pair is unchanged, and the graph stays valid |
| Queries.NewQuery | query.py:2-7 | type, source, destination and n are stored as given, and a missing list of transport types becomes `[]` |
| Search.Label | main2.py:91 | an edge's label is the value under the key `type` of its attribute dict, or None; `Search.FindPathsUnlabelled` and `Network.LoadedFindPaths` state what this key means for the search |
| Search.Dfs | main2.py:82-98 | the recursive search; what it returns is stated by `Search.DfsSound` and `Search.DfsComplete` |
| Search.Explore | main2.py:89-98 | the loop over a city's neighbour dict, in insertion order, collecting the paths of each matching step; stated through `Search.DfsSound` and `Search.DfsComplete` |
| Search.LabelSet | main2.py:78 | `set(transport_types)`, leaving out a `None` entry; a `None` could never match, since main2.py:93 tests `is not None` before membership |
| Search.FindPaths | main2.py:77-78 | starts the search with an empty path and the set of requested types (`Search.LabelSet`); `Search.FindPathsExactly` states its result |
| Search.ConsWalk | main2.py:94-97 | a step along an edge whose label is still available, followed by a typed walk from the neighbour without that label, is a typed walk |
| Search.UnconsWalk | main2.py:94-97 | a typed walk from a city other than the destination starts with such a step and goes on as a typed walk without that step's label |
| Search.DfsSound | main2.py:82-98 | every path `dfs` returns extends the path it was given with a typed walk to the destination, at most one step per remaining label |
| Search.DfsComplete | main2.py:82-98 | every typed walk to the destination is among the paths `dfs` returns |
| Search.FindPathsExactly | main2.py:77-78 | `find_paths` returns exactly the typed walks from source to destination: each step follows an edge whose `type` label is requested, and no label is used twice; each path has at most as many steps as there are distinct requested labels |
| Search.FindPathsUnlabelled | main2.py:82-93 | when no edge has a `type` entry, `find_paths` returns `[[]]` if the source is present and is the destination, and `[]` otherwise |
| Search.FirstMinimal | main2.py:190 | `min` with a key returns the first index whose key is smallest |
| Search.FindShortestPath | main2.py:187-192 | the result is None exactly when `find_paths` finds nothing; otherwise it is one of the paths found and no other path has a smaller key |
| Search.MatchingSteps | main2.py:190 | the key of `min`: the number of steps whose attribute dict equals the requested type; `Search.NoStepMatches` states that it is always 0 |
| Search.NoStepMatches | main2.py:190 | the key of every path is 0, since an attribute dict never equals the requested type |
| Search.ShortestIsFirstFound | main2.py:187-192 | the result is the first path found, and it has at most one step |
| Search.FindCommonNodes | main2.py:181-185 | an absent city raises NetworkXError ("node is not in the graph"), for the first one checked; otherwise the result is the set of cities adjacent to both, whatever the edges' labels |
| Search.CommonNodesSymmetric | main2.py:181-185 | swapping the two cities gives the same common nodes whenever either order succeeds; when two different cities are both absent, each order raises NetworkXError naming its own first city |
| Search.CommonNodesAdjacentBothWays | main2.py:181-185 | in a valid graph each common node also lists both cities as its own neighbours |
| Network.ParseFrom | main2.py:15-28 | the walk over the file's lines that reads the blocks; `Network.ReadTransportationNetwork`, `Network.ParseAtHeader` and `Network.ParseSkips` state it |
| Network.AddRow | main2.py:31-33 | the inner loop over one row as a function; `Network.AddRowEdges` states its edges |
| Network.AddRows | main2.py:30-33 | the outer loop over the rows as a function; `Network.AddMarkedEdges` ties the loop to it |
| Network.Build | main2.py:15-33 | the graph the blocks give in order; `Network.BuildValid`, `Network.BuildEdges` and `Network.BuildTransportOnly` state its properties |
| Network.ReadBlock | main2.py:19-26 | a block has one row of values per city |
| Network.ParseAtHeader | main2.py:18-28 | (the header branch of `ParseFrom`, unfolded) at a header line the loader reads one block; it raises IndexError if a row has more values than there are cities, and otherwise goes on after the block's rows |
| Network.ParseSkips | main2.py:15-18 | (the other branch of `ParseFrom`, unfolded) a line that is not a header is skipped |
| Network.FillMatrix | main2.py:23-28 | fails exactly when a row has more values than there are cities; otherwise cell (i, j) holds row i's j-th value, or `0` past the end of the row |
| Network.AddMarkedEdges | main2.py:30-33 | adds one edge per `1` cell, row by row and column by column, keeping the graph valid |
| Network.AddMarkedRow | main2.py:31-33 | for one row, adds one edge per `1` cell, column by column, keeping the graph valid |
| Network.AddRowEdges | main2.py:31-33 | after a row's inner loop, the graph links x and y exactly when it did before or a `1` cell visited so far names the pair |
| Network.LoadBlock | main2.py:23-33 | a block whose rows fit is added to the graph cell by cell; one that does not fit is reported |
| Network.ReadTransportationNetwork | main2.py:8-35 | the loader raises IndexError exactly when a block has a row that is too long; otherwise it returns a new valid graph built from the file's blocks in order |
| Network.BuildValid | main2.py:30-33 | the loaded graph is simple and undirected |
| Network.BuildEdges | main2.py:30-33 | the loaded graph links x and y exactly when some block has `1` in row x, column y, or in row y, column x |
| Network.BuildTransportOnly | main2.py:33 | every edge of the loaded graph holds only the key `transport_type`, so none has a `type` label |
| Network.LoadedFindPaths | main2.py:91 | on a loaded graph, `find_paths` between two different cities finds nothing, whatever types are asked for |
| Network.Values | main2.py:20 | `line.strip().split()[1:]` for the city line and each row line (main2.py:26); `Network.ValuesOfWritten` states its result |
| Network.ValuesOfWritten | main2.py:20 | a line holding a first word and then some values gives back exactly those values |
| Network.ReadWrittenRows | main2.py:25-28 | row lines written as a first word followed by values are read back as those rows |
| Network.ReadWrittenBlock | main2.py:18-26 | a block written in the file's format (header, city line, one row line per city) is read back unchanged |
| QueryReader.QueryOfLine | main2.py:42-73 | one line stripped and split, then read by `QueryReader.QueryOfTokens`, which states its cases |
| QueryReader.ParseQueries | main2.py:37-74 | the queries of all lines, or the first error; `QueryReader.ParseQueriesAppend` and `QueryReader.ReadQueries` state it |
| QueryReader.EveryOther | main2.py:46 | picks the tokens at positions start, start+2, and so on, up to the end of the line |
| QueryReader.QueryOfTokens | main2.py:42-73 | a line raises exactly when it is empty, is a too-short Q1, Q3 or `ADD City` line, or is `ADD` alone (IndexError), or is a Q2 line whose count is neither `N` nor an integer (ValueError); a query it builds has the line's first token as its type |
| QueryReader.ReadQueries | main2.py:37-74 | reading the lines in order gives the queries of `ParseQueries`, or the first error |
| QueryReader.ParseQueriesAppend | main2.py:40-43 | the queries of two files read one after the other are the first file's queries followed by the second's, and an error in the first file wins |
| QueryReader.ParseQueriesWellFormed | main2.py:45-73 | every query read has type Q1, Q2, Q3 or ADD: Q1 carries only present types, Q2 has a count, Q3 has exactly one type entry, and ADD has at most one |
| QueryReader.QueryShapes | main2.py:56-73 | Q3 takes its type from the fourth token, or None; `ADD Path` needs exactly six tokens and takes tokens 2, 4 and 5; `ADD City` has an empty destination; other Q2 lengths and unknown kinds give nothing |
| QueryReader.Q1Types | main2.py:45-47 | a Q1 line asks for the tokens at positions 4, 6, 8, and so on; token 3 is ignored |
| QueryReader.Q2MinusOneIsN | main2.py:49-53 | `Q2 a b -1` gives the same query as `Q2 a b N`, with n = -1 |
| QueryReader.Q2BadCount | main2.py:51-53 | a Q2 line whose count is neither `N` nor an integer stops the reader with ValueError |
| QueryReader.Q2RoundTrip | main2.py:51-53 | a Q2 line written with `str(n)` as its count is read back with count n |
| QueryReader.Q3RoundTrip | main2.py:56-58 | a Q3 line naming a type is read back as a Q3 query for that one type |
| Mutation.DigitsOnly | main2.py:168 | the result keeps only digits and is no longer than the input |
| Mutation.DigitsOnlyAppend | main2.py:168 | filtering a concatenation is concatenating the filtered parts, so digits keep their order |
| Mutation.DigitsOnlyKeepsDigits | main2.py:168 | a string made only of digits is kept whole |
| Mutation.DigitsOnlyIdempotent | main2.py:168 | filtering twice is the same as filtering once |
| Mutation.DigitsOnlyCounts | main2.py:168 | each digit survives as often as it occurs, and no other character survives |
| Mutation.AddCityQuery | main2.py:147-149 | raises ValueError exactly when the query type is not two words; otherwise adds the second word as a city with no neighbours, unless it is present, and leaves every existing city unchanged |
| Mutation.AddPathQuery | main2.py:151-176 | without exactly six words it reports the format and changes nothing; with six it adds both endpoint cities, each new one with no neighbours, leaves existing cities unchanged, and raises TypeError |
| Mutation.AddQuery | main2.py:131-176 | existing cities keep their neighbours; the cities added, each with no neighbours, are exactly the second word of a two-word `City` type (the word `City` itself) or the second and sixth words of a six-word `Path` type; fewer than two words are reported and change nothing, a `Path` type of another length reports its format, an unknown second word is reported by name, and a two-word `City` type reports nothing; it raises ValueError exactly for a `City` type that is not two words and TypeError exactly for a six-word `Path` type |
| Mutation.AddQueryTwice | main2.py:131-143 | handling the same ADD type a second time leaves the graph as the first time left it |
| Mutation.AddQueryOfReaderType | main2.py:132-136 | a query whose type is the single word `ADD` is reported as badly formatted and leaves the graph unchanged |
| Mutation.AddCityQueryTwice | main2.py:118-120 | adding the same city a second time changes nothing |
| Mutation.AddCity | main2.py:118-120 | the graph becomes `WithNode` of the old graph and stays valid |
| Mutation.ParseAddCityQuery | main2.py:147-149 | the new graph and result are those of `AddCityQuery` |
| Mutation.ParseAddPathQuery | main2.py:151-176 | the new graph and result are those of `AddPathQuery` |
| Mutation.ParseAddQuery | main2.py:131-143 | the new graph and result are those of `AddQuery` |
| Dispatcher.Dispatch | main2.py:196-229 | the report, new graph or exception for one query; `Dispatcher.DispatchKeepsGraph`, `Dispatcher.Q1WithoutTypes`, `Dispatcher.Q3SameCity` and `Dispatcher.LoadedQ1FindsNothing` state its cases |
| Dispatcher.RunQueries | main2.py:194-229 | the queries handled in order until one raises; `Dispatcher.RunQueriesAppend` and `Dispatcher.RunQueriesStops` state it |
| Dispatcher.HandleQuery | main2.py:196-229 | the new graph and the report or exception for one query are those of `Dispatch`, and the graph stays valid |
| Dispatcher.ProcessQueries | main2.py:194-229 | the graph, the reports in order and the exception that ended the run are those of `RunQueries` |
| Dispatcher.RunQueriesStops | main2.py:195-229 | once a query has raised, later queries are not handled |
| Dispatcher.RunQueriesAppend | main2.py:195-229 | queries run in list order: running a list is running its first part and then the rest, starting from the graph the first part left |
| Dispatcher.DispatchKeepsGraph | main2.py:222-223 | a query of any shape the query reader builds leaves the graph unchanged |
| Dispatcher.RunKeepsGraph | main2.py:194-229 | a list of such queries leaves the graph unchanged |
| Dispatcher.ReadQueriesNeverMutate | main2.py:222-223 | processing the queries read from any query file never changes the graph |
| Dispatcher.Q1WithoutTypes | main2.py:197-208 | a Q1 query without types reports too few values and searches nothing |
| Dispatcher.Q3SameCity | main2.py:215-221 | a Q3 query from a city to itself reports that no path was found, because the empty path counts as false |
| Dispatcher.LoadedQ1FindsNothing | main2.py:196-206 | on a loaded graph, every Q1 query with at least one type between different cities reports that no paths were found (a Q1 without types reports too few values instead) |

## Left out

- `visualize_graph` and `main` (`main2.py:232-286`) are left out. They draw the graph with
  matplotlib and open the input and output files.
- File handling is left out: the readers take the file's lines. `file.readline()` at the end of
  the file gives `""`, which `Network.LineAt` models.
- The exact text of the printed messages is not modelled; the reports of `process_queries` and
  the ADD handlers are `Output` records.
  - Paths keep their attribute dicts as values, not Python reprs.
  - The debug prints (`main2.py:41, 153, 161`) are dropped.
  - The reader's skip messages (`main2.py:55, 71, 73`) are dropped: `read_queries` prints them
    and changes no state, and `QueryReader.QueryOfTokens` gives no query (`Ok(None)`) for such a line.
- `dfs_bonus` (`main2.py:100-116`) is left out: it is never called, and its recursion has no
  decreasing measure, so it can recurse forever on a cycle.
- `add_path` (`main2.py:122-126`) and the "Path added" / "already exists" reports are left out.
  They are unreachable: the test at `main2.py:170` raises TypeError first.
- Search.FindCommonNodes: returns a set. The source returns `list(set)`, whose order Python
  does not fix.
- Text.ParseInt: accepts only an optional sign and ASCII digits. Python's `int()` also accepts `_`
  between digits and non-ASCII decimal digits. It also has no length limit: CPython since 3.11
  raises ValueError when converting a string of more than 4300 digits.
- Text.ParseShowInt: holds for integers of any size. In CPython since 3.11, `str(n)` and `int(s)`
  raise ValueError beyond 4300 digits.
- Mutation.DigitsOnly: treats only ASCII `0`-`9` as numeric. Python's `isnumeric` also accepts
  other Unicode numerals.
- Network.FillMatrix: the matrix starts filled with the string `"0"` rather than the integer 0.
  Only `== '1'` is ever asked of a cell, and neither form equals `'1'`.
- networkx keeps a single attribute dict object for an edge and reaches it from both endpoints.
  The model stores equal copies under both endpoints. Only `add_edge` changes an attribute dict,
  and it updates both copies, so the two agree.
