/** Bytes and the natural numbers they stand for in big-endian order. */
module Bytes {

  type Byte = b: int | 0 <= b < 256

  function Number(bytes: seq<Byte>): nat {
    if bytes == [] then 0 else Number(bytes[..|bytes| - 1]) * 256 + bytes[|bytes| - 1]
  }

  /** The shortest bytes for a number: none for zero. */
  function Shortest(x: nat): seq<Byte> {
    if x == 0 then [] else Shortest(x / 256) + [x % 256]
  }

  ghost function Pow256(n: nat): nat {
    if n == 0 then 1 else 256 * Pow256(n - 1)
  }

  lemma {:induction false} ShortestIsInverse(x: nat)
    ensures Number(Shortest(x)) == x
  {
    if x > 0 {
      ShortestIsInverse(x / 256);
      assert Shortest(x)[..|Shortest(x)| - 1] == Shortest(x / 256);
    }
  }

  lemma {:induction false} ShortestFits(x: nat, n: nat)
    requires x < Pow256(n)
    ensures |Shortest(x)| <= n
  {
    if x > 0 {
      ShortestFits(x / 256, n - 1);
    }
  }

  lemma {:induction false} NumberFits(bytes: seq<Byte>)
    ensures Number(bytes) < Pow256(|bytes|)
  {
    if bytes != [] {
      NumberFits(bytes[..|bytes| - 1]);
    }
  }

  /** Leading zeros do not count. */
  lemma {:induction false} LeadingZeros(n: nat, bytes: seq<Byte>)
    ensures Number(seq(n, _ => 0) + bytes) == Number(bytes)
    decreases |bytes|, n
  {
    var padded: seq<Byte> := seq(n, _ => 0) + bytes;
    if bytes != [] {
      assert padded[..|padded| - 1] == seq(n, _ => 0) + bytes[..|bytes| - 1];
      LeadingZeros(n, bytes[..|bytes| - 1]);
    } else if n > 0 {
      assert padded[..|padded| - 1] == seq(n - 1, _ => 0) + [];
      LeadingZeros(n - 1, []);
    }
  }

  /** Bytes of one length stand for different numbers. */
  lemma {:induction false} SameNumberSameBytes(a: seq<Byte>, b: seq<Byte>)
    requires |a| == |b| && Number(a) == Number(b)
    ensures a == b
    decreases |a|
  {
    if a != [] {
      var k := |a| - 1;
      SameNumberSameBytes(a[..k], b[..k]);
      assert a == a[..k] + [a[k]] && b == b[..k] + [b[k]];
    }
  }
}
