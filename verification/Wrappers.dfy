/** Optional values, shared by the other modules. */
module Wrappers {

  datatype Option<+T> = None | Some(value: T) {

    /** The value, or `default` when there is none: the `??` operator of the program. */
    function GetOr(default: T): T {
      match this
      case Some(v) => v
      case None => default
    }
  }

  /** What a map holds at a key. */
  function Lookup<K, V>(m: map<K, V>, key: K): Option<V> {
    if key in m then Some(m[key]) else None
  }

  /** A string option that is present and truthy: the empty string is falsy. */
  predicate Given(o: Option<string>) {
    o.Some? && o.value != ""
  }
}
