/** Values that cross the boundary of the answer pipeline: decoded JSON, the
    agent's untyped raw output, and the outcome of a Python computation that
    may raise. */
module Values {

  datatype Option<+T> = None | Some(value: T)

  /** A decoded JSON value, as `json.loads` produces it (numbers are integers
      in this model). */
  datatype Json =
    | JNull
    | JBool(b: bool)
    | JNum(n: int)
    | JStr(s: string)
    | JArr(items: seq<Json>)
    | JObj(fields: map<string, Json>)

  /** The agent's raw output, tagged by its Python type: a list, a dict, a
      str, or any other object, which is carried as the text `str(x)` gives. */
  datatype Raw =
    | RList(items: seq<Json>)
    | RDict(fields: map<string, Json>)
    | RStr(text: string)
    | ROther(shown: string)

  /** The Python exceptions the pipeline can raise. */
  datatype PyError =
    | JsonDecodeError  // json.loads on text that is not JSON
    | TypeError        // len() of a value that has no length
    | AttributeError   // .append on a value that is not a list

  /** A value returned, or an exception that escapes. */
  datatype Outcome = Ok(value: Json) | Raised(error: PyError)
}
