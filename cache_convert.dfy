/** src/cache/convert.rs: a boolean stored in the byte cache as one byte. */
module CacheConvert {
  /** `bool_to_bytes`: a single byte, 1 for true and 0 for false. */
  function BoolToBytes(b: bool): (r: seq<bv8>)
    ensures |r| == 1
    ensures r[0] == 1 <==> b
    ensures r[0] == 0 <==> !b
  {
    if b then [1] else [0]
  }

  /** `bytes_to_bool`: the first byte is 1. Indexing an empty buffer
      panics in the source, hence the precondition. */
  function BytesToBool(bytes: seq<bv8>): (r: bool)
    requires |bytes| > 0
    ensures r <==> bytes[0] == 1
  {
    bytes[0] == 1
  }

  /** Reading back a stored boolean gives the boolean. */
  lemma BoolRoundTrip(b: bool)
    ensures BytesToBool(BoolToBytes(b)) == b
  {
  }

  /** Only the first byte is read: whatever follows it does not matter. */
  lemma OnlyFirstByteRead(first: bv8, rest: seq<bv8>, other: seq<bv8>)
    ensures BytesToBool([first] + rest) == BytesToBool([first] + other)
  {
  }

  /** Every first byte other than 1, such as 2 or 255, reads as false. */
  lemma OtherBytesAreFalse(bytes: seq<bv8>)
    requires |bytes| > 0 && bytes[0] != 1
    ensures !BytesToBool(bytes)
  {
  }
}
