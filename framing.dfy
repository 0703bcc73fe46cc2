/**
  The byte layout of a serialized argument on its way from Dart to Rust.

  The Dart cast (membrane_types/src/dart.rs) allocates `n + 8` bytes for an `n`-byte
  payload, stores the total length through `Uint8List.setAll(0, Int64List[n + 8])`
  and copies the payload to offset 8. The Rust cast (membrane_types/src/rust.rs) reads
  the total length back and decodes the bytes from offset 8 up to that length.
  `setAll` copies the one Int64 element into the one byte at offset 0, keeping its low
  eight bits, and the reader takes exactly that byte as the length: `DartBlob` and
  `RustRead` model the code as written. `EncodeArgument` and `DecodeArgument` carry the
  whole length in eight little-endian bytes, as the comment at the reader says.
 */
module Framing {
  import opened Wrappers

  type Byte = b: int | 0 <= b < 256

  /** How reading a blob back goes wrong. */
  datatype ReadError =
    | SliceOutOfRange   // the length is below 8: `&data[8..]` panics
    | ReadPastBlob      // the length exceeds the allocation: the slice covers memory that is not the blob

  /** The blob the generated Dart code builds, as written. */
  function DartBlob(data: seq<Byte>): (blob: seq<Byte>)
    ensures |blob| == |data| + 8
    ensures blob[0] == (|data| + 8) % 256
    ensures forall i :: 1 <= i < 8 ==> blob[i] == 0
    ensures blob[8..] == data
  {
    [(|data| + 8) % 256, 0, 0, 0, 0, 0, 0, 0] + data
  }

  /** The generated Rust reader, as written: the first byte is the total length. */
  function RustRead(blob: seq<Byte>): Result<seq<Byte>, ReadError>
    requires |blob| >= 1
  {
    var length := blob[0];
    if length > |blob| then Err(ReadPastBlob)
    else if length < 8 then Err(SliceOutOfRange)
    else Ok(blob[8..length])
  }

  /** The payload survives the trip exactly when the blob is shorter than 256 bytes. */
  lemma DartRustRoundTrip(data: seq<Byte>)
    ensures RustRead(DartBlob(data)) == Ok(data) <==> |data| + 8 < 256
  {
    var blob := DartBlob(data);
    if |data| + 8 < 256 {
      assert blob[8..|data| + 8] == data;
    }
  }

  /** A 248-byte payload gives a length byte of 0: the reader panics. */
  lemma PayloadOf248Panics(data: seq<Byte>)
    requires |data| == 248
    ensures RustRead(DartBlob(data)) == Err(SliceOutOfRange)
  {
  }

  /**
    A 300-byte payload gives a length byte of 52: the reader hands only the first 44 bytes
    on to the deserializer, whose outcome on the shortened input is not modelled.
   */
  lemma PayloadOf300Truncated(data: seq<Byte>)
    requires |data| == 300
    ensures RustRead(DartBlob(data)) == Ok(data[..44])
  {
    assert DartBlob(data)[8..52] == data[..44];
  }

  function Pow256(width: nat): (p: nat)
    ensures p > 0
  {
    if width == 0 then 1 else 256 * Pow256(width - 1)
  }

  /** `x` in `width` little-endian bytes. */
  function EncodeLength(x: nat, width: nat): (bs: seq<Byte>)
    ensures |bs| == width
  {
    if width == 0 then [] else [x % 256] + EncodeLength(x / 256, width - 1)
  }

  /** The number whose little-endian bytes are `bs`. */
  function DecodeLength(bs: seq<Byte>): (x: nat)
    ensures x < Pow256(|bs|)
  {
    if bs == [] then 0 else bs[0] + 256 * DecodeLength(bs[1..])
  }

  lemma {:induction false} DecodeEncodeLength(x: nat, width: nat)
    requires x < Pow256(width)
    ensures DecodeLength(EncodeLength(x, width)) == x
  {
    if width > 0 {
      DecodeEncodeLength(x / 256, width - 1);
      var bs := EncodeLength(x, width);
      assert bs[1..] == EncodeLength(x / 256, width - 1);
    }
  }

  /** The intended blob: the total length in eight little-endian bytes, then the payload. */
  function EncodeArgument(data: seq<Byte>): (blob: seq<Byte>)
    requires |data| + 8 < Pow256(8)
    ensures |blob| == |data| + 8 && blob[8..] == data
  {
    EncodeLength(|data| + 8, 8) + data
  }

  /** The intended reader: the first eight bytes are the total length. */
  function DecodeArgument(blob: seq<Byte>): Result<seq<Byte>, ReadError>
    requires |blob| >= 8
  {
    var length := DecodeLength(blob[..8]);
    if length > |blob| then Err(ReadPastBlob)
    else if length < 8 then Err(SliceOutOfRange)
    else Ok(blob[8..length])
  }

  /** Every payload that fits the 64-bit length round-trips. */
  lemma ArgumentRoundTrip(data: seq<Byte>)
    requires |data| + 8 < Pow256(8)
    ensures DecodeArgument(EncodeArgument(data)) == Ok(data)
  {
    var blob := EncodeArgument(data);
    assert blob[..8] == EncodeLength(|data| + 8, 8);
    DecodeEncodeLength(|data| + 8, 8);
    assert blob[8..|blob|] == data;
  }
}
