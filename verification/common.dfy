/** Value types shared by the gateway model: optional values, results, and
    strings as JavaScript sees them. */
module Common {

  /** A value that may be absent (JavaScript `null`/`undefined`). */
  datatype Option<+T> = None | Some(value: T) {

    /** The value, or `default` when absent (the `x || default` idiom for non-empty values). */
    function GetOr(default: T): T {
      match this
      case Some(v) => v
      case None => default
    }
  }

  /** The settled state of an operation that either yields a value or fails. */
  datatype Result<+T, +E> = Ok(value: T) | Err(error: E)

  /** One UTF-16 code unit: a JavaScript string is a sequence of these and
      its `length` counts them. */
  type CodeUnit = x: int | 0 <= x < 0x1_0000

  /** A JavaScript string whose contents matter: a message, whose `length`
      a write reports and whose last unit decides framing. Peer ids, query
      names and values, and credentials are only compared, tested for
      emptiness and passed along, so Dafny's `string` stands for those. */
  type Text = seq<CodeUnit>

  type Byte = x: int | 0 <= x < 0x100

  /** A Node `Buffer`: what the frame decoder yields and the gateway
      forwards to the browser unchanged. */
  type Chunk = seq<Byte>
}
