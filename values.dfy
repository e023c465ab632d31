/** Values shared by the pipeline's components: an option type and the
    JSON values the market-data provider hands back, with the Python
    conventions the client code applies to them. */
module Values {

  datatype Option<+T> = None | Some(value: T)

  /** An argument or setting left out (`None`) takes its default. */
  function OrElse<T>(o: Option<T>, d: T): T
  {
    if o.Some? then o.value else d
  }

  /** A decoded JSON value. Numbers are reals: JSON integers and floats
      both end up as one numeric kind once `float()` has been applied. */
  datatype Json =
    | JNull
    | JBool(b: bool)
    | JNum(n: real)
    | JStr(s: string)
    | JArr(items: seq<Json>)
    | JObj(fields: map<string, Json>)

  /** Python truthiness of a decoded value: `None`, `False`, zero and
      empty containers are falsy, everything else is truthy. */
  predicate Truthy(v: Json) {
    match v
    case JNull => false
    case JBool(b) => b
    case JNum(n) => n != 0.0
    case JStr(s) => s != ""
    case JArr(items) => items != []
    case JObj(fields) => fields != map[]
  }

  /** `d.get(key, default)` on a dictionary. */
  function Lookup(d: map<string, Json>, key: string, default: Json): Json
  {
    if key in d then d[key] else default
  }

  /** The library calls the client code relies on and that this model
      does not define: `json.loads` on a string, `float()` on a string,
      and `str()` of a value that is not a string (as used inside an
      f-string). `None` stands for "the call raised". */
  datatype Codecs = Codecs(
    loads: string -> Option<Json>,
    parseFloat: string -> Option<real>,
    show: Json -> string)

  /** The two literal defaults of the client code decode as JSON says:
      `'[0.5, 0.5]'` to a pair of halves and `'[]'` to the empty list. */
  predicate DecodesDefaults(codecs: Codecs) {
    && codecs.loads(DefaultPricesText) == Some(JArr([JNum(0.5), JNum(0.5)]))
    && codecs.loads(DefaultTokensText) == Some(JArr([]))
  }

  const DefaultPricesText: string := "[0.5, 0.5]"
  const DefaultTokensText: string := "[]"

  /** The text an f-string substitutes for a value: a string as it is,
      anything else through `str()`. */
  function Text(v: Json, codecs: Codecs): string
  {
    if v.JStr? then v.s else codecs.show(v)
  }
}
