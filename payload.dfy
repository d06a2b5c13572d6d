/** The JSON values the backend puts in `extractedData` and the dashboard reads back. */
module Payload {

  datatype Value = Str(s: string) | Int(n: int)

  /** A JSON object: a Python `dict` on the backend, a plain object in the browser. */
  type Object = map<string, Value>
}
