/** The optional value used where the allocator's scans keep "no block found yet". */
module Wrappers {

  datatype Option<+T> = None | Some(value: T)
}
