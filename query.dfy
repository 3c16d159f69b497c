/** query.py: one parsed command, a record built once and never changed. */
module Queries {
  import opened Wrappers

  /**
   * `kind` is the command word ("Q1", "Q2", "Q3" or "ADD"); `transportTypes` holds the requested
   * labels, where a Q3 line without a type contributes Python's None; `n` is Q2's count, or None.
   */
  datatype Query = Query(
    kind: string,
    source: string,
    destination: string,
    transportTypes: seq<Option<string>>,
    n: Option<int>)

  /**
   * `Query(query_type, source, destination, transport_types=None, n=None)`. The constructor keeps
   * the first three arguments and `n` as given, and replaces a missing or None list by an empty one.
   */
  function NewQuery(
    queryType: string,
    source: string,
    destination: string,
    transportTypes: Option<seq<Option<string>>> := None,
    n: Option<int> := None): (q: Query)
    ensures q.kind == queryType && q.source == source && q.destination == destination && q.n == n
    ensures transportTypes.Some? ==> q.transportTypes == transportTypes.value
    ensures transportTypes.None? ==> q.transportTypes == []
  {
    Query(queryType, source, destination, if transportTypes.Some? then transportTypes.value else [], n)
  }
}
