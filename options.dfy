/** Optional values: None stands for a quantity the source represents as
    f64 infinity or NaN. */
module Options {
  datatype Option<+T> = None | Some(value: T)
}
