/** Types shared by every part of the model: machine words, bytes, errors. */
module Basics {

  const TWO_TO_THE_16: int := 0x1_0000
  const TWO_TO_THE_32: int := 0x1_0000_0000
  const TWO_TO_THE_63: int := 0x8000_0000_0000_0000
  const TWO_TO_THE_64: int := 0x1_0000_0000_0000_0000

  type Byte = x: int | 0 <= x < 0x100
  type U16 = x: int | 0 <= x < 0x1_0000
  type U32 = x: int | 0 <= x < 0x1_0000_0000
  type U64 = x: int | 0 <= x < 0x1_0000_0000_0000_0000

  type Bytes = seq<Byte>

  /** The md5 of a content as the hex text that names it; "" stands for none. */
  type Md5 = string

  datatype Option<+T> = None | Some(value: T)

  /** The error replies of the server (include/common.h). */
  datatype ErrorCode =
    | BadRequest | Unauthorized | Forbidden | NotFound | Conflict
    | PayloadTooLarge | Unprocessable | Internal

  datatype Result<+T> = Ok(value: T) | Err(code: ErrorCode)

  function Max(a: int, b: int): int {
    if a < b then b else a
  }

  function Min(a: int, b: int): int {
    if a < b then a else b
  }
}
