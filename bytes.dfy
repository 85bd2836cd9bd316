/** Byte strings: the model of C#'s `byte[]` contents. */
module Bytes {
  /** C#'s `byte`. */
  type byte = b: int | 0 <= b < 0x100

  /** A sequence of `n` zero bytes. */
  function Zeros(n: nat): (r: seq<byte>)
    ensures |r| == n
    ensures forall i :: 0 <= i < n ==> r[i] == 0
  {
    seq(n, _ => 0)
  }

  /** The 16-byte AES block, the size of a CBC initialisation vector. */
  type Block = s: seq<byte> | |s| == 16 witness Zeros(16)

  /** 32 bytes: one AES-256 key, one HMAC-SHA256 tag. */
  type Bytes32 = s: seq<byte> | |s| == 32 witness Zeros(32)

  /** 64 bytes of raw symmetric key material. */
  type Bytes64 = s: seq<byte> | |s| == 64 witness Zeros(64)
}
