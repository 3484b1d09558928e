/** Optional values: a missing value, a null pointer, or an operation that
    throws instead of producing its value. */
module Optional {

  datatype Option<+T> = None | Some(value: T)
}
