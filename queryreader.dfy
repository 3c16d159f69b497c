/**
 * main2.py, `read_queries`, over the lines of the query file. Each line is stripped and split into
 * tokens, and its first token selects the kind of query. A line can add one query, add nothing, or
 * raise: an empty line has no first token (IndexError), a Q1, Q3 or `ADD City` line too short for
 * the tokens it reads raises IndexError, and a Q2 count that `int()` rejects raises ValueError.
 * The first exception ends the reading, so the file gives either all its queries or an error.
 */
module QueryReader {
  import opened Wrappers
  import opened Text
  import opened Queries

  /** `[data[i] for i in range(start, len(data), 2)]` */
  function EveryOther(data: seq<string>, start: nat): (r: seq<string>)
    ensures start <= |data| ==> |r| == (|data| - start + 1) / 2
    ensures start > |data| ==> r == []
    ensures forall k :: 0 <= k < |r| ==> start + 2 * k < |data| && r[k] == data[start + 2 * k]
    decreases |data| - start
  {
    if start >= |data| then [] else [data[start]] + EveryOther(data, start + 2)
  }

  /** The Q1 type tokens, each a present label. */
  function Present(tokens: seq<string>): (r: seq<Option<string>>)
    ensures |r| == |tokens| && forall k :: 0 <= k < |r| ==> r[k] == Some(tokens[k])
  {
    if tokens == [] then [] else [Some(tokens[0])] + Present(tokens[1..])
  }

  /**
   * The body of the `read_queries` loop for one line's tokens: `Ok(Some(q))` when the line adds
   * query q, `Ok(None)` when it is skipped, `Err` when it raises.
   */
  function QueryOfTokens(data: seq<string>): (r: Result<Option<Query>, PyError>)
    ensures r.Err? <==>
      || data == []
      || ((data[0] == "Q1" || data[0] == "Q3") && |data| < 3)
      || (data[0] == "Q2" && |data| == 4 && data[3] != "N" && ParseInt(data[3]).None?)
      || (data[0] == "ADD" && (|data| < 2 || (data[1] == "City" && |data| < 3)))
    ensures r.Err? ==> r.error == (if data != [] && data[0] == "Q2" then ValueError else IndexError)
    ensures r.Ok? && r.value.Some? ==> r.value.value.kind == data[0]
  {
    if data == [] then Err(IndexError)
    else if data[0] == "Q1" then
      var transportTypes := if |data| > 3 then EveryOther(data, 4) else [];
      if |data| < 3 then Err(IndexError)
      else Ok(Some(NewQuery("Q1", data[1], data[2], transportTypes := Some(Present(transportTypes)))))
    else if data[0] == "Q2" then
      if |data| == 4 && data[3] == "N" then Ok(Some(NewQuery("Q2", data[1], data[2], n := Some(-1))))
      else if |data| == 4 then
        match ParseInt(data[3])
        case None => Err(ValueError)
        case Some(n) => Ok(Some(NewQuery("Q2", data[1], data[2], n := Some(n))))
      else Ok(None)
    else if data[0] == "Q3" then
      var transportType := if |data| > 3 then Some(data[3]) else None;
      if |data| < 3 then Err(IndexError)
      else Ok(Some(NewQuery("Q3", data[1], data[2], transportTypes := Some([transportType]))))
    else if data[0] == "ADD" then
      if |data| < 2 then Err(IndexError)
      else if data[1] == "City" then
        if |data| < 3 then Err(IndexError) else Ok(Some(NewQuery("ADD", data[2], "")))
      else if data[1] == "Path" then
        if |data| == 6 then Ok(Some(NewQuery("ADD", data[2], data[5], transportTypes := Some([Some(data[4])]))))
        else Ok(None)
      else Ok(None)
    else Ok(None)
  }

  /** `line.strip().split()`, then the loop body. */
  function QueryOfLine(line: string): Result<Option<Query>, PyError>
  {
    QueryOfTokens(Split(Strip(line)))
  }

  /** The queries one line adds, or the exception it raises. */
  function LineQueries(line: string): Result<seq<Query>, PyError>
  {
    match QueryOfLine(line)
    case Err(e) => Err(e)
    case Ok(q) => Ok(AsList(q))
  }

  /** The queries of one part of a file followed by those of the next, or the first exception. */
  function Both(first: Result<seq<Query>, PyError>, second: Result<seq<Query>, PyError>): Result<seq<Query>, PyError>
  {
    match first
    case Err(e) => Err(e)
    case Ok(a) => match second
      case Err(e) => Err(e)
      case Ok(b) => Ok(a + b)
  }

  /** What `read_queries` gives for the lines of a file, line by line. */
  function ParseQueries(lines: seq<string>): Result<seq<Query>, PyError>
  {
    if lines == [] then Ok([])
    else Both(ParseQueries(lines[..|lines| - 1]), LineQueries(lines[|lines| - 1]))
  }

  /** `read_queries(file_path)` over the file's lines. */
  method ReadQueries(lines: seq<string>) returns (r: Result<seq<Query>, PyError>)
    ensures r == ParseQueries(lines)
  {
    var queries: seq<Query> := [];
    var i := 0;
    while i < |lines|
      invariant i <= |lines|
      invariant ParseQueries(lines[..i]) == Ok(queries)
    {
      assert lines[..i + 1][..i] == lines[..i] && lines[..i + 1][i] == lines[i];
      var data := Split(Strip(lines[i]));
      var q := QueryOfTokens(data);
      if q.Err? {
        ParseQueriesAppend(lines[..i + 1], lines[i + 1..]);
        assert lines[..i + 1] + lines[i + 1..] == lines;
        return Err(q.error);
      }
      assert QueryOfLine(lines[i]) == q;
      queries := queries + AsList(q.value);
      i := i + 1;
    }
    assert lines[..i] == lines;
    return Ok(queries);
  }

  // ---------------------------------------------------------------------------------------------
  // Properties of the reader.


  /** Lines are read in order: two files one after the other give their queries one after the other. */
  lemma {:induction false} ParseQueriesAppend(first: seq<string>, second: seq<string>)
    ensures ParseQueries(first + second) == Both(ParseQueries(first), ParseQueries(second))
  {
    if second == [] {
      assert first + second == first;
      BothNothing(ParseQueries(first));
    } else {
      var init := second[..|second| - 1];
      assert (first + second)[..|first + second| - 1] == first + init;
      assert (first + second)[|first + second| - 1] == second[|second| - 1];
      ParseQueriesAppend(first, init);
      BothAssociative(ParseQueries(first), ParseQueries(init), LineQueries(second[|second| - 1]));
    }
  }

  lemma BothNothing(a: Result<seq<Query>, PyError>)
    ensures Both(a, Ok([])) == a
  {
    if a.Ok? {
      assert a.value + [] == a.value;
    }
  }

  lemma BothAssociative(a: Result<seq<Query>, PyError>, b: Result<seq<Query>, PyError>, c: Result<seq<Query>, PyError>)
    ensures Both(Both(a, b), c) == Both(a, Both(b, c))
  {
    if a.Ok? && b.Ok? && c.Ok? {
      assert a.value + b.value + c.value == a.value + (b.value + c.value);
    }
  }

  /** Every query the reader builds has one of the four kinds, and the shape its kind calls for. */
  ghost predicate WellFormed(q: Query)
  {
    && q.kind in {"Q1", "Q2", "Q3", "ADD"}
    && (q.kind == "Q1" ==> q.n.None? && forall k :: 0 <= k < |q.transportTypes| ==> q.transportTypes[k].Some?)
    && (q.kind == "Q2" ==> q.n.Some? && q.transportTypes == [])
    && (q.kind == "Q3" ==> q.n.None? && |q.transportTypes| == 1)
    && (q.kind == "ADD" ==> q.n.None? && |q.transportTypes| <= 1)
  }

  lemma QueryOfTokensWellFormed(data: seq<string>)
    ensures var r := QueryOfTokens(data); r.Ok? && r.value.Some? ==> WellFormed(r.value.value)
  {
  }

  lemma {:induction false} ParseQueriesWellFormed(lines: seq<string>)
    ensures ParseQueries(lines).Ok? ==> forall q :: q in ParseQueries(lines).value ==> WellFormed(q)
  {
    if lines != [] {
      ParseQueriesWellFormed(lines[..|lines| - 1]);
      QueryOfTokensWellFormed(Split(Strip(lines[|lines| - 1])));
    }
  }

  /**
   * The query each kind of line gives: Q3 takes its type from the fourth token or None, `ADD Path`
   * needs exactly six tokens and takes source, type and destination from tokens 2, 4 and 5,
   * `ADD City` keeps the city with an empty destination, and a Q2 line of any length but four, or
   * a line of any other kind, gives nothing.
   */
  lemma QueryShapes(data: seq<string>)
    requires data != []
    ensures data[0] !in {"Q1", "Q2", "Q3", "ADD"} ==> QueryOfTokens(data) == Ok(None)
    ensures data[0] == "Q2" && |data| != 4 ==> QueryOfTokens(data) == Ok(None)
    ensures data[0] == "Q3" && |data| >= 3 ==>
      QueryOfTokens(data) == Ok(Some(Query("Q3", data[1], data[2], [if |data| > 3 then Some(data[3]) else None], None)))
    ensures data[0] == "ADD" && |data| >= 3 && data[1] == "City" ==>
      QueryOfTokens(data) == Ok(Some(Query("ADD", data[2], "", [], None)))
    ensures data[0] == "ADD" && |data| >= 2 && data[1] == "Path" ==>
      QueryOfTokens(data) == if |data| == 6 then Ok(Some(Query("ADD", data[2], data[5], [Some(data[4])], None))) else Ok(None)
    ensures data[0] == "ADD" && |data| >= 2 && data[1] != "City" && data[1] != "Path" ==> QueryOfTokens(data) == Ok(None)
  {
  }

  /** A Q1 line asks for the tokens at positions 4, 6, 8, ...; the token at position 3 is ignored. */
  lemma Q1Types(data: seq<string>)
    requires |data| >= 3 && data[0] == "Q1"
    ensures var r := QueryOfTokens(data);
      && r == Ok(Some(Query("Q1", data[1], data[2], r.value.value.transportTypes, None)))
      && |r.value.value.transportTypes| == (if |data| > 4 then (|data| - 3) / 2 else 0)
      && forall k :: 0 <= k < |r.value.value.transportTypes| ==> r.value.value.transportTypes[k] == Some(data[4 + 2 * k])
  {
  }

  /** `Q2 a b -1` asks for the same as `Q2 a b N`, since `int("-1")` is -1. */
  lemma Q2MinusOneIsN(source: string, destination: string)
    ensures QueryOfTokens(["Q2", source, destination, "-1"]) == QueryOfTokens(["Q2", source, destination, "N"])
    ensures QueryOfTokens(["Q2", source, destination, "N"]).value.value.n == Some(-1)
  {
    assert IsDecimal("-1"[1..]);
  }

  /** A Q2 line whose count is neither `N` nor an integer stops the reader with ValueError. */
  lemma Q2BadCount(lines: seq<string>, source: string, destination: string, count: string)
    requires IsWord(source) && IsWord(destination) && IsWord(count)
    requires count != "N" && ParseInt(count).None?
    requires ParseQueries(lines).Ok?
    ensures ParseQueries(lines + [Join(["Q2", source, destination, count])]) == Err(ValueError)
  {
    var line := Join(["Q2", source, destination, count]);
    Q2BadCountLine(source, destination, count);
    var all := lines + [line];
    assert all[..|all| - 1] == lines && all[|all| - 1] == line;
  }

  lemma Q2BadCountLine(source: string, destination: string, count: string)
    requires IsWord(source) && IsWord(destination) && IsWord(count)
    requires count != "N" && ParseInt(count).None?
    ensures LineQueries(Join(["Q2", source, destination, count])) == Err(ValueError)
  {
    var tokens := ["Q2", source, destination, count];
    assert IsWord("Q2");
    forall k | 0 <= k < |tokens|
      ensures IsWord(tokens[k])
    {
    }
    ReadJoin(tokens);
  }

  /** A Q2 line written with `str(n)` as its count is read back with that count. */
  lemma Q2RoundTrip(source: string, destination: string, n: int)
    requires IsWord(source) && IsWord(destination)
    ensures QueryOfLine(Join(["Q2", source, destination, ShowInt(n)])) == Ok(Some(Query("Q2", source, destination, [], Some(n))))
  {
    var tokens := ["Q2", source, destination, ShowInt(n)];
    ShowIntIsWord(n);
    assert IsWord("Q2");
    forall k | 0 <= k < |tokens|
      ensures IsWord(tokens[k])
    {
    }
    ReadJoin(tokens);
    ParseShowInt(n);
    assert ShowInt(n) != "N";
  }

  /** A Q3 line naming a type is read back as a Q3 query for that one type. */
  lemma Q3RoundTrip(source: string, destination: string, transportType: string)
    requires IsWord(source) && IsWord(destination) && IsWord(transportType)
    ensures QueryOfLine(Join(["Q3", source, destination, transportType]))
         == Ok(Some(Query("Q3", source, destination, [Some(transportType)], None)))
  {
    var tokens := ["Q3", source, destination, transportType];
    assert IsWord("Q3");
    forall k | 0 <= k < |tokens|
      ensures IsWord(tokens[k])
    {
    }
    ReadJoin(tokens);
  }

  lemma ShowIntIsWord(n: int)
    ensures IsWord(ShowInt(n))
  {
    if n < 0 {
      var s := ShowInt(n);
      assert s == "-" + ShowNat(-n);
      forall k | 0 <= k < |s|
        ensures !IsSpace(s[k])
      {
        if k > 0 {
          assert s[k] == ShowNat(-n)[k - 1];
        }
      }
    }
  }
}
