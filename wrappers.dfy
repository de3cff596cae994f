/** Optional values: pandas' NaN / NaT / pd.NA become None. */
module Wrappers {

  datatype Option<+T> = None | Some(value: T)
}
