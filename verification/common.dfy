/** Optional values shared by every module of the model. */
module Common {

  /** A value that may be absent: a missing JSON key, a missing query parameter, an id not found. */
  datatype Option<+T> = None | Some(value: T)
}
