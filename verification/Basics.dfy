/** Shared vocabulary: bytes, results and the errors a caller can tell apart. */
module Basics {
  newtype byte = x: int | 0 <= x < 256

  type Bytes = seq<byte>

  datatype Option<+T> = None | Some(value: T) {
    function GetOr(default: T): T {
      if Some? then value else default
    }
  }

  /** The error kinds `errors.Is` distinguishes; every other failure is Fault. */
  datatype Error =
    | NotExist       // fs.ErrNotExist
    | Exist          // fs.ErrExist
    | UnsafePath     // store.ErrUnsafePath
    | Escapes        // a name that leaves the handle it is looked up in
    | Malformed      // content that does not decode, or a value that does not encode
    | Rejected       // an argument the callee refuses
    | Canceled       // a cancelled context
    | Fault          // any other failure of the system underneath

  datatype Result<+T> = Ok(value: T) | Err(error: Error)
}
