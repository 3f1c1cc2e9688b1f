/** Option and the throw-or-return outcome of an async call, shared by every module. */
module Wrappers {

  /** A value that may be missing: JavaScript's `null`/`undefined` against a present value. */
  datatype Option<+T> = None | Some(value: T)

  /** What an awaited call does: returns a value, or throws (its promise rejects) with a message. */
  datatype Outcome<+T> = Returns(value: T) | Throws(error: string)

  /** `obj[key]` on a plain object (headers, `process.env`): `undefined` when absent. */
  function Lookup<K, V>(m: map<K, V>, key: K): Option<V> {
    if key in m then Some(m[key]) else None
  }
}
