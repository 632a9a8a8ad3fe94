/** Vocabulary shared by every module: bytes, 64-bit integers, option and result values, and the
    cryptographic primitives, which are kept abstract. */
module Basics {

  type Byte = b: nat | b < 256
  type Bytes = seq<Byte>

  /** A Go string: its length is a non-negative signed 64-bit integer. */
  type Text = s: seq<Byte> | |s| < 0x8000_0000_0000_0000 witness []

  /** A SHA-256 sum. */
  type Sum = s: seq<Byte> | |s| == 32 witness seq(32, _ => 0)

  const U64_LIMIT: nat := 0x1_0000_0000_0000_0000
  type U64 = n: nat | n < 0x1_0000_0000_0000_0000

  /** A Go `int`. */
  type I64 = n: int | -0x8000_0000_0000_0000 <= n < 0x8000_0000_0000_0000

  /** Nanoseconds since the Unix epoch; negative before it. */
  type Time = int
  const SECOND: int := 1_000_000_000

  datatype Option<+T> = None | Some(value: T)

  datatype Result<+T, +E> = Ok(value: T) | Err(error: E) {
    predicate IsFailure() {
      Err?
    }

    function PropagateFailure<U>(): Result<U, E>
      requires Err?
    {
      Err(error)
    }

    function Extract(): T
      requires Ok?
    {
      value
    }
  }

  /** A guard: success when the condition holds, the given error otherwise. */
  function Need<E>(condition: bool, error: E): Result<(), E> {
    if condition then Ok(()) else Err(error)
  }

  /** The bytes of an ASCII literal. */
  function Ascii(s: string): (t: seq<Byte>)
    ensures |t| == |s|
  {
    seq(|s|, i requires 0 <= i < |s| => (s[i] as int) % 256)
  }

  /** The successor of a 64-bit value, unless it is the largest one. */
  function CheckedNext(value: U64): (next: Option<U64>)
    ensures next.Some? <==> value + 1 < U64_LIMIT
  {
    if value == 0xFFFF_FFFF_FFFF_FFFF then None else Some(value + 1)
  }

  /** The primitives the protocol is built on: SHA-256, unpadded base64url, and Ed25519 verification.
      `decode` is the strict decoder: it yields a value only for the canonical text of some bytes. */
  datatype Primitives = Primitives(
    sha256: seq<Byte> -> Sum,
    encode: seq<Byte> -> Text,
    decode: Text -> Option<seq<Byte>>,
    verify: (seq<Byte>, seq<Byte>, seq<Byte>) -> bool)
  {
    /** The text of a SHA-256 sum. */
    function Digest(message: seq<Byte>): Text {
      encode(sha256(message))
    }

    /** Two different messages with one digest. */
    ghost predicate Collides(x: seq<Byte>, y: seq<Byte>) {
      x != y && Digest(x) == Digest(y)
    }
  }
}
