/** Optional values, used for the results of library calls (environment
    parsing, reading the configuration file) and for the loaders' errors. */
module Wrappers {

  datatype Option<+T> = None | Some(value: T)
}
