/** Optional values, shared by the sidebar model and the results panel. */
module Wrappers {

  /** A value that may be missing: an unset session key, no camera capture,
      no panel. */
  datatype Option<+T> = None | Some(value: T)
}
