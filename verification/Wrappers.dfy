/** Optional values and fallible results, shared by every other module. */
module Wrappers {

  datatype Option<+T> = None | Some(value: T)

  /** The value a Go function returns beside its error: exactly one of the two is present. */
  datatype Result<+T, +E> = Ok(value: T) | Err(error: E)

  /**
    How an atomic file replacement can end. Renaming the temporary file is the
    only step that publishes the new content; a failure after it (syncing the
    directory) is reported although the content is already there.
   */
  datatype Fault = Clean | BeforeRename | AfterRename

  /** The record an atomic replacement leaves in a directory. */
  function Stored<K, V>(m: map<K, V>, key: K, value: V, fault: Fault): map<K, V> {
    if fault.BeforeRename? then m else m[key := value]
  }
}
