/** Optional values, standing for JavaScript's `undefined`/`null` where the source tests for them. */
module Options {

  datatype Option<+T> = None | Some(value: T)
}
