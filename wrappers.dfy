/** Optional values and Python-style outcomes shared by every module of the model. */
module Wrappers {

  /** A value that may be absent (Python's `None`, a missing attribute or key). */
  datatype Option<+T> = None | Some(value: T)

  /** The Python exceptions the modelled code can raise. */
  datatype PyError =
    | TypeError            // e.g. `"\n".join` over a non-string, `len(None)`
    | AttributeError       // e.g. `None.get(...)`
    | KeyError             // e.g. `d[:117]` on a dictionary, which looks the slice up as a key
    | RuntimeError(message: string)

  /** Either a returned value or a raised exception. */
  datatype Result<+T> = Ok(value: T) | Raised(error: PyError)
}
