/** JSON values as Python holds them. */
module Json {
  import opened Outcomes

  datatype Value =
    | Null
    | Bool(flag: bool)
    | Whole(whole: int)
    | Float(float: real)
    | Text(text: string)
    | List(items: seq<Value>)
    | Object(entries: map<string, Value>)

  function Number(v: Value): Option<real> {
    match v
    case Bool(b) => Some(if b then 1.0 else 0.0)
    case Whole(n) => Some(n as real)
    case Float(r) => Some(r)
    case _ => None
  }

  /** Python's `==`: numbers and truth values compare by magnitude. */
  predicate Same(v: Value, w: Value) {
    if Number(v).Some? && Number(w).Some? then Number(v) == Number(w) else v == w
  }
}
