/** Vocabulary shared by every module. */
module Common {

  newtype Byte = b: int | 0 <= b < 256

  type Bytes = seq<Byte>

  datatype Option<+T> = None | Some(value: T) {
    function GetOr(default: T): T {
      match this
      case Some(v) => v
      case None => default
    }
  }

  /** A BLAKE3 digest: any 32 bytes. */
  type Digest = d: Bytes | |d| == 32 witness seq(32, _ => 0)
}
