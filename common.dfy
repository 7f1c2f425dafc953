/** Fixed-width integers and the Option/Result wrappers shared by the model. */
module Common {

  /** Rust's unsigned integer widths, as ranges of `int`. */
  type u8 = x: int | 0 <= x < 0x100
  type u16 = x: int | 0 <= x < 0x1_0000
  type u32 = x: int | 0 <= x < 0x1_0000_0000
  type u64 = x: int | 0 <= x < 0x1_0000_0000_0000_0000

  datatype Option<+T> = None | Some(value: T) {
    function GetOr(default: T): T {
      match this
      case Some(v) => v
      case None => default
    }
  }

  datatype Result<+T, +E> = Ok(value: T) | Err(error: E)

  /** The `std::io::ErrorKind` values the crate produces. */
  datatype ErrorKind = NotFound | PermissionDenied | InvalidInput | AlreadyExists | Other

  /** Every failure the crate surfaces, including the ones that are panics in the source. */
  datatype Error =
    | Io(kind: ErrorKind, message: string)   // std::io::Error
    | Poisoned(message: string)              // PoisonError from a failed lock
    | UnexpectedFamily(family: u16)          // panic!("Unexpected family {}") while decoding a row
    | UnwrapOnErr(cause: Error)              // Result::unwrap on an Err value
}
