/** Shared value types: optional values, the Python exceptions the modelled
    code can raise, and a result that is either a value or a raised exception. */
module Wrappers {

  datatype Option<+T> = None | Some(value: T) {
    function GetOr(default: T): T {
      match this
      case Some(v) => v
      case None => default
    }
  }

  /** The exception classes the modelled Python code can raise. */
  datatype PyError =
    | KeyError          // dict.pop / dict[key] of a missing key
    | StructError       // struct.unpack on too few bytes
    | UnicodeDecodeError
    | ValueError        // tuple unpacking of a split with too few parts
    | AttributeError    // method call on a value of the wrong type
    | TypeError         // len() of a value without a length, a non-number stored in a float property
    | RuntimeError      // Blender failing to load an image file

  /** A Python call either returns a value or raises. */
  datatype Result<+T> = Ok(value: T) | Raise(error: PyError)

  /** Big-endian unsigned value of a byte string (`struct.unpack(">I", ...)` on four bytes). */
  type byte = b: int | 0 <= b < 256

  function BigEndian(bs: seq<byte>): (v: nat)
    ensures v < Pow256(|bs|)
  {
    if bs == [] then 0 else BigEndian(bs[..|bs| - 1]) * 256 + bs[|bs| - 1]
  }

  function Pow256(n: nat): (p: nat)
    ensures p >= 1
  {
    if n == 0 then 1 else 256 * Pow256(n - 1)
  }
}
