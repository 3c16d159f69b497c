/** Optional values, results, and the Python exceptions that end a run of the program. */
module Wrappers {

  datatype Option<+T> = None | Some(value: T)

  datatype Result<+T, +E> = Ok(value: T) | Err(error: E)

  /** The value as a list of at most one element: what appending an optional value to a list adds. */
  function AsList<T>(o: Option<T>): seq<T>
  {
    if o.Some? then [o.value] else []
  }

  /** The exceptions the modelled code can raise. None of them is caught, so each one ends the run. */
  datatype PyError =
    | IndexError                  // a list index past the end (`data[0]` on a blank line, a matrix row too long)
    | ValueError                  // `int()` of a token that is not an integer; unpacking the wrong number of tokens
    | TypeError                   // `graph[...]` applied to the `Graph` wrapper, which is not subscriptable
    | NetworkXError(node: string)  // networkx's `neighbors` of a node that is not in the graph
}
