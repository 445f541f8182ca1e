/** The conventional optional value, used for the decoding oracles and for store lookups. */
module Wrappers {
  datatype Option<+T> = None | Some(value: T)
}
