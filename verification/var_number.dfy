/** Sizes of the variable-length numbers written into index pages.

    The bit layout of `WriteNumber` (absolute numbers) and `EncodeNumber`
    (deltas, written into five-byte buffers) is not part of this model; only
    the number of bytes each produces matters to page packing. Every delta is
    assumed to have an encoding of at most five bytes, which five-byte
    buffers cannot provide for every 64-bit delta. An `Encoding`
    carries those two size functions and the largest size an absolute
    number may take.
 */
module VarNumber {

  /** The buffer size handed to `EncodeNumber` for each delta. */
  const MaxDeltaBytes: nat := 5

  datatype Encoding = Encoding(
    numberBytes: nat -> nat,   // bytes `WriteNumber` uses for a value
    deltaBytes: nat -> nat,    // bytes `EncodeNumber(v, 5, ...)` uses for a delta
    maxNumberBytes: nat        // bound on numberBytes, from the width of the key and offset types
  )

  /** Every number takes at least one byte; deltas at most five, absolute numbers at most the bound. */
  ghost predicate Valid(enc: Encoding) {
    && (forall v :: 1 <= enc.numberBytes(v) <= enc.maxNumberBytes)
    && (forall v :: 1 <= enc.deltaBytes(v) <= MaxDeltaBytes)
  }

  /** A page has room for the largest head plus the largest delta pair. */
  predicate Fits(enc: Encoding, pageSize: nat) {
    2 * enc.maxNumberBytes + 2 * MaxDeltaBytes <= pageSize
  }
}
