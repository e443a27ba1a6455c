/** Amounts as sixteen bytes, the form in which they are hashed and stored. */
module Uint128Bytes {
  import opened Options
  import opened Errors
  import opened Uint128
  import opened Bytes

  const SIZE := 16

  lemma LimitIsPower()
    ensures Pow256(SIZE) == LIMIT
  {
    assert Pow256(4) == 0x1_0000_0000;
    assert Pow256(8) == 0x1_0000_0000_0000_0000;
    assert Pow256(12) == 0x1_0000_0000_0000_0000_0000_0000;
  }

  /** The bytes of a number are put at the end of sixteen zeros. */
  method ToFixedSizeBytes(u: int) returns (r: Result<seq<Byte>>)
    ensures r.Ok? <==> 0 <= u < LIMIT
    ensures r.Ok? ==> |r.value| == SIZE && Number(r.value) == u
    ensures r.Err? ==> r.error == if u < 0 then Underflow else Overflow
  {
    if u < 0 {
      return Err(Underflow);
    }
    if u >= LIMIT {
      return Err(Overflow);
    }
    var res := new Byte[SIZE](_ => 0);
    var bs := Shortest(u);
    LimitIsPower();
    ShortestFits(u, SIZE);
    var idx := SIZE - |bs|;
    for i := 0 to |bs|
      invariant forall j :: 0 <= j < idx ==> res[j] == 0
      invariant forall j :: 0 <= j < i ==> res[idx + j] == bs[j]
    {
      res[idx + i] := bs[i];
    }
    assert res[..] == seq(idx, _ => 0) + bs;
    LeadingZeros(idx, bs);
    ShortestIsInverse(u);
    return Ok(res[..]);
  }

  /** Leading zeros are skipped, and the rest is read as a number. */
  method FromFixedSizeByteSlice(bytes: seq<Byte>) returns (r: Result<Amount>)
    ensures r.Ok? <==> |bytes| == SIZE
    ensures r.Ok? ==> r.value == Number(bytes)
    ensures r.Err? ==> r.error == InvalidBytesSize
  {
    if |bytes| != SIZE {
      return Err(InvalidBytesSize);
    }
    LimitIsPower();
    NumberFits(bytes);
    var i := 0;
    while i < SIZE && bytes[i] == 0
      invariant 0 <= i <= SIZE
      invariant forall j :: 0 <= j < i ==> bytes[j] == 0
    {
      i := i + 1;
    }
    assert bytes == seq(i, _ => 0) + bytes[i..];
    LeadingZeros(i, bytes[i..]);
    return Ok(if i < SIZE then Number(bytes[i..]) else 0);
  }

  /** Writing and reading an amount gives it back; reading and writing bytes gives them back. */
  method RoundTrip(u: Amount, bytes: seq<Byte>) returns (u': Result<Amount>, bytes': Result<seq<Byte>>)
    requires |bytes| == SIZE
    ensures u' == Ok(u) && bytes' == Ok(bytes)
  {
    var written := ToFixedSizeBytes(u);
    u' := FromFixedSizeByteSlice(written.value);
    var read := FromFixedSizeByteSlice(bytes);
    bytes' := ToFixedSizeBytes(read.value);
    SameNumberSameBytes(bytes, bytes'.value);
  }
}
