/** Small types that several modules share. */
module Wrappers {

  /** The result of a search that may fail, or a pointer that may be null. */
  datatype Option<+T> = None | Some(value: T)

  /** A 64-bit mask as the set of its bits: | is +, and & with a complement is -. */
  type BitMask = set<nat>
}
