/** JSON-shaped values as the Python code sees them after `json.load`,
    `yaml.safe_load` or `libnmstate.show`, and the small wrappers used for
    results that may be missing or may have raised. */
module Json {

  /** A parsed JSON/YAML document. Numbers are integers only. */
  datatype Value =
    | Null
    | Bool(b: bool)
    | Number(n: int)
    | Str(s: string)
    | Array(items: seq<Value>)
    | Object(fields: map<string, Value>)

  datatype Option<T> = None | Some(value: T)

  /** The outcome of a call into code outside the model: a value, or the
      text of the exception it raised. */
  datatype Result<T> = Ok(value: T) | Err(error: string)
}
