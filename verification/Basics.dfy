/** Types that several modules use. */
module Basics {

  type byte = b: nat | b < 256
  type Bytes = seq<byte>

  datatype Option<T> = None | Some(value: T)
}
