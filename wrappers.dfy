/**
 * Failure-carrying results for the botpower model.
 *
 * The only exception the modelled code can raise is a dictionary subscript of
 * a key the dictionary does not hold (Python's KeyError), so a failure is that
 * missing key.
 */
module Wrappers {

  /** A KeyError, carrying the key that was looked up. */
  datatype Failure = KeyError(key: string)

  datatype Result<+T> = Ok(value: T) | Err(failure: Failure)

  datatype Option<+T> = None | Some(value: T)

  /** The subscript `m[k]` of a Python dict: the value, or KeyError(k). */
  function Lookup(m: map<string, string>, k: string): Result<string>
  {
    if k in m then Ok(m[k]) else Err(KeyError(k))
  }
}
