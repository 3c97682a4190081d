/** Machine-integer widths, byte strings, results and errors shared by every module. */
module Types {

  const U64_MAX: nat := 0xFFFF_FFFF_FFFF_FFFF
  const U32_MAX: nat := 0xFFFF_FFFF

  type u8 = x: int | 0 <= x < 0x100
  type u32 = x: int | 0 <= x < 0x1_0000_0000
  type u64 = x: int | 0 <= x < 0x1_0000_0000_0000_0000

  type Bytes = seq<u8>
  type Bytes32 = b: Bytes | |b| == 32 witness seq(32, _ => 0)
  type Bytes48 = b: Bytes | |b| == 48 witness seq(48, _ => 0)
  type Bytes96 = b: Bytes | |b| == 96 witness seq(96, _ => 0)

  const MAX_ENVELOPE_BYTES: nat := 16 * 1024 * 1024
  const MAX_DECOMPRESSED_BYTES: nat := 64 * 1024 * 1024
  const MIN_COMPRESS_BYTES: nat := 64
  const FRESHNESS_WINDOW_MS: nat := 300_000
  const MAX_TRACKED_SENDERS: nat := 100_000
  const MAX_MESSAGE_TTL_MS: nat := 2_592_000_000
  const ENVELOPE_VERSION: u8 := 1

  /** `u64::saturating_add`. */
  function SatAdd(x: u64, y: u64): (r: u64)
    ensures r as int == if x + y <= U64_MAX then x + y else U64_MAX
  {
    if x + y <= U64_MAX then x + y else U64_MAX
  }

  /** `u64::saturating_sub`. */
  function SatSub(x: u64, y: u64): u64 {
    if y <= x then x - y else 0
  }

  /** `x += 1` on a `u64` with the release profile's wrap-around. */
  function WrapInc(x: u64): u64 {
    if x == U64_MAX then 0 else x + 1
  }

  datatype Option<+T> = None | Some(value: T) {
    predicate IsFailure() { None? }
    function PropagateFailure<U>(): Option<U>
      requires None?
    {
      None
    }
    function Extract(): T
      requires Some?
    {
      value
    }
  }

  datatype Result<+T> = Ok(value: T) | Err(error: MessageError) {
    predicate IsFailure() { Err? }
    function PropagateFailure<U>(): Result<U>
      requires Err?
    {
      Err(error)
    }
    function Extract(): T
      requires Ok?
    {
      value
    }
  }

  /** Why the stream state machine, or the endpoint around it, refuses a frame or a call. */
  datatype Violation =
    | OpenAckOutOfPlace
    | DataBeforeEstablished
    | DataAfterClose
    | NoCredit
    | CreditBeforeEstablished
    | CloseBeforeEstablished
    | DuplicateClose
    | FrameAfterReset
    | DuplicateOpen
    | WrongSeq
    | WindowExceeded
    | CloseAckWithoutClose
    | CorrelationIdInUse
    | UnknownStream
    | WrongPeer
    | NotAStreamEnvelope
    | UnknownFrameKind
    | NotAStreamShape
    | ResetForUnknownStream

  datatype MessageError =
    | EnvelopeTooLarge(size: nat)
    | Truncated
    | UnsupportedVersion(version: u8)
    | UnsupportedCompression(id: u8)
    | DecompressionBomb(declared: nat)
    | DecompressedLengthMismatch(expected: nat, actual: nat)
    | PayloadTooLarge(size: nat)
    | Codec
    | InvalidPoint
    | UnresolvableSender
    | SealFailed
    | OpenFailed
    | BadSignature
    | HeaderMismatch
    | Replay
    | Expired
    | TtlTooLong
    | StreamLimit(cap: nat)
    | StreamProtocol(violation: Violation)
}
