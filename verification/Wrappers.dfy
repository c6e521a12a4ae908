// Small types shared by every module.

module Wrappers {

  // A Go byte slice. A Go string handed to CoerceType is its bytes as well.
  type Bytes = seq<bv8>

  datatype Option<+T> = None | Some(value: T)

  // A Go (value, error) pair of which exactly one half is meaningful.
  datatype Result<+T> = Success(value: T) | Failure(error: string)
}
