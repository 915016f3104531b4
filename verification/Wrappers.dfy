// Optional values, operations that may be refused, and positive quantities.
module Wrappers {
  datatype Option<+T> = None | Some(value: T)

  datatype Result<+T> = Ok(value: T) | Error(reason: string)

  type Positive = n: nat | n > 0 witness 1
  type Duration = d: real | d > 0.0 witness 1.0
}
