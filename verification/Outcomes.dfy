/** Result types shared by the models: the source's exceptions become values. */
module Outcomes {

  datatype Option<+T> = None | Some(value: T)

  /** What a Python call that may raise gives back. */
  datatype Outcome<+T> = Ok(value: T) | Raised {
    predicate IsFailure() { Raised? }
    function PropagateFailure<U>(): Outcome<U>
      requires Raised?
    {
      Raised
    }
    function Extract(): T
      requires Ok?
    {
      value
    }
  }

  /** Python's `d.get(k, default)`. */
  function GetOr<K, T>(m: map<K, T>, k: K, default: T): T {
    if k in m then m[k] else default
  }
}
