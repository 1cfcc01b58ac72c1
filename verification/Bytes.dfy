/** Big-endian integers as the databases and the blob format store them. */
module Bytes {

  type Byte = b: int | 0 <= b < 256

  function Pow256(n: nat): nat
    ensures Pow256(n) > 0
  {
    if n == 0 then 1 else 256 * Pow256(n - 1)
  }

  /** PutUintN: the low n bytes of x, most significant first. */
  function BigEndian(x: nat, n: nat): (bytes: seq<Byte>)
    ensures |bytes| == n
  {
    if n == 0 then [] else BigEndian(x / 256, n - 1) + [x % 256]
  }

  function FromBigEndian(bytes: seq<Byte>): nat {
    if bytes == [] then 0 else 256 * FromBigEndian(bytes[..|bytes| - 1]) + bytes[|bytes| - 1]
  }

  lemma TakeIn(bytes: seq<Byte>, b: Byte)
    ensures FromBigEndian(bytes + [b]) == 256 * FromBigEndian(bytes) + b
  {
    assert (bytes + [b])[..|bytes|] == bytes;
  }

  lemma HighBytes(x: nat, p: nat)
    ensures x < 256 * p ==> x / 256 < p
    ensures x == 256 * (x / 256) + x % 256
  {
  }

  lemma {:induction false} BigEndianRoundTrip(x: nat, n: nat)
    requires x < Pow256(n)
    ensures FromBigEndian(BigEndian(x, n)) == x
  {
    hide FromBigEndian;
    if n == 0 {
      assert FromBigEndian([]) == 0 by { NoBytes(); }
    } else {
      HighBytes(x, Pow256(n - 1));
      BigEndianRoundTrip(x / 256, n - 1);
      TakeIn(BigEndian(x / 256, n - 1), x % 256);
    }
  }

  lemma NoBytes()
    ensures FromBigEndian([]) == 0
  {
  }
}
