/** The EIP-4844 blob packing of a batch's data-availability payload. */
module Blob {
  import opened Options
  import opened Bytes

  const BLOB_LIMBS := 4096
  const BYTES_PER_LIMB := 31
  const MAX_PAYLOAD_LEN := BLOB_LIMBS * BYTES_PER_LIMB
  /** The BLS12-381 scalar field order of EIP-4844. */
  const BLS_MODULUS := 0x73eda753299d7d483339d80809a1d80553bda402fffe5bfeffffffff00000001

  /** Length prefix and payload. */
  function Framed(payload: seq<Byte>): seq<Byte> {
    BigEndian(|payload| % 0x1_0000_0000, 4) + payload
  }

  /** Position in the blob of the j-th data byte: each limb's first byte carries none. */
  function Position(j: nat): nat {
    j / BYTES_PER_LIMB * 32 + 1 + j % BYTES_PER_LIMB
  }

  /** The blob holds raw's bytes at their positions and zero everywhere else. */
  ghost predicate Holds(blob: seq<Byte>, raw: seq<Byte>) {
    && |blob| == BLOB_LIMBS * 32 && |raw| <= MAX_PAYLOAD_LEN
    && (forall k :: 0 <= k < BLOB_LIMBS * 32 && k % 32 == 0 ==> blob[k] == 0)
    && (forall k :: 0 <= k < BLOB_LIMBS * 32 && k % 32 != 0 ==>
          var j := k / 32 * BYTES_PER_LIMB + k % 32 - 1; blob[k] == if j < |raw| then raw[j] else 0)
  }

  method PackBlob(payload: seq<Byte>) returns (ok: bool, blob: array<Byte>)
    ensures ok <==> |payload| <= 126972
    ensures ok ==> Holds(blob[..], Framed(payload))
  {
    blob := new Byte[BLOB_LIMBS * 32](_ => 0);
    if |payload| + 4 > MAX_PAYLOAD_LEN {
      return false, blob;
    }
    var raw := Framed(payload);
    var offset, i := 0, 0;
    while i < BLOB_LIMBS && offset < |raw|
      invariant 0 <= i <= BLOB_LIMBS && offset == Smaller(i * BYTES_PER_LIMB, |raw|)
      invariant forall k :: 0 <= k < BLOB_LIMBS * 32 ==> blob[k] == Cell(raw, k, i)
    {
      var n := if |raw| - offset < BYTES_PER_LIMB then |raw| - offset else BYTES_PER_LIMB;
      CopyLimb(blob, i, raw, offset, n);
      offset := offset + n;
      i := i + 1;
    }
    return true, blob;
  }

  /** Where a packed payload's bytes are: its length first, in 4 bytes, then the payload, 31 bytes to a field
      element. */
  lemma BlobLayout(blob: seq<Byte>, payload: seq<Byte>)
    requires |payload| <= 126972 && Holds(blob, Framed(payload))
    ensures |blob| == 131072
    ensures Word(blob[1], blob[2], blob[3], blob[4]) == |payload|
    ensures forall j | 0 <= j < |payload| :: blob[(j + 4) / 31 * 32 + 1 + (j + 4) % 31] == payload[j]
    ensures forall k | 0 <= k < 4096 :: blob[32 * k] == 0
  {
    hide Holds, Framed;
    FirstBytes(blob, Framed(payload));
    LengthBytes(blob, payload);
    forall j | 0 <= j < |payload|
      ensures (j + 4) / 31 * 32 + 1 + (j + 4) % 31 < |blob| && blob[(j + 4) / 31 * 32 + 1 + (j + 4) % 31] == payload[j]
    {
      PayloadByte(blob, payload, j);
    }
  }

  lemma LengthBytes(blob: seq<Byte>, payload: seq<Byte>)
    requires |payload| <= 126972 && Holds(blob, Framed(payload))
    ensures Word(blob[1], blob[2], blob[3], blob[4]) == |payload|
  {
    hide Framed, Holds;
    var raw := Framed(payload);
    FramedLength(payload);
    DataByte(blob, raw, 0);
    DataByte(blob, raw, 1);
    DataByte(blob, raw, 2);
    DataByte(blob, raw, 3);
  }

  lemma PayloadByte(blob: seq<Byte>, payload: seq<Byte>, j: nat)
    requires |payload| <= 126972 && Holds(blob, Framed(payload)) && j < |payload|
    ensures var k := (j + 4) / 31 * 32 + 1 + (j + 4) % 31; k < |blob| && blob[k] == payload[j]
  {
    hide BigEndian, Holds;
    DataByte(blob, Framed(payload), j + 4);
  }

  /** Four bytes as a number, most significant first. */
  function Word(a: int, b: int, c: int, d: int): int {
    16777216 * a + 65536 * b + 256 * c + d
  }

  lemma DataByte(blob: seq<Byte>, raw: seq<Byte>, j: nat)
    requires Holds(blob, raw) && j < |raw|
    ensures var k := j / 31 * 32 + 1 + j % 31; k < |blob| && blob[k] == raw[j]
  {
    var k := j / 31 * 32 + 1 + j % 31;
    assert k / 32 == j / 31 && k % 32 == 1 + j % 31;
  }

  lemma FirstBytes(blob: seq<Byte>, raw: seq<Byte>)
    requires Holds(blob, raw)
    ensures |blob| == 131072 && forall k | 0 <= k < 4096 :: blob[32 * k] == 0
  {
  }

  lemma FramedLength(payload: seq<Byte>)
    requires |payload| <= 126972
    ensures var raw := Framed(payload); |raw| >= 4 && Word(raw[0], raw[1], raw[2], raw[3]) == |payload|
  {
    hide BigEndian, Word;
    var n := |payload|;
    assert n % 0x1_0000_0000 == n;
    PrefixBytes(n);
  }

  lemma PrefixBytes(n: nat)
    requires n < 0x1_0000_0000
    ensures var b := BigEndian(n, 4); Word(b[0], b[1], b[2], b[3]) == n
  {
    var n1, n2, n3 := n / 256, n / 256 / 256, n / 256 / 256 / 256;
    assert BigEndian(n3, 1) == BigEndian(n3 / 256, 0) + [n3 % 256];
    assert BigEndian(n2, 2) == BigEndian(n3, 1) + [n2 % 256];
    assert BigEndian(n1, 3) == BigEndian(n2, 2) + [n1 % 256];
    assert BigEndian(n, 4) == BigEndian(n1, 3) + [n % 256];
    assert n3 < 256;
  }

  function Smaller(a: int, b: int): int {
    if a < b then a else b
  }

  /** Byte k of the blob once its first i limbs are written. */
  function Cell(raw: seq<Byte>, k: nat, i: nat): Byte {
    var j := k / 32 * BYTES_PER_LIMB + k % 32 - 1;
    if k % 32 == 0 || k / 32 >= i || j >= |raw| then 0 else raw[j]
  }

  method CopyLimb(blob: array<Byte>, i: nat, raw: seq<Byte>, offset: nat, n: nat)
    requires blob.Length == BLOB_LIMBS * 32 && i < BLOB_LIMBS
    requires offset == i * BYTES_PER_LIMB < |raw| && n == Smaller(|raw| - offset, BYTES_PER_LIMB)
    requires forall k :: 0 <= k < BLOB_LIMBS * 32 ==> blob[k] == Cell(raw, k, i)
    modifies blob
    ensures forall k :: 0 <= k < BLOB_LIMBS * 32 ==> blob[k] == Cell(raw, k, i + 1)
  {
    forall m | 0 <= m < n {
      blob[i * 32 + 1 + m] := raw[offset + m];
    }
    forall k | 0 <= k < BLOB_LIMBS * 32 ensures blob[k] == Cell(raw, k, i + 1) {
      if k / 32 == i && 1 <= k % 32 <= n {
        assert k == i * 32 + 1 + (k % 32 - 1);
      }
    }
  }

  /** The data bytes of the limbs, in order. */
  function Limbs(blob: seq<Byte>): (raw: seq<Byte>)
    requires |blob| == BLOB_LIMBS * 32
    ensures |raw| == MAX_PAYLOAD_LEN
  {
    seq(MAX_PAYLOAD_LEN, j requires 0 <= j < MAX_PAYLOAD_LEN => blob[Position(j)])
  }

  /** The framed prefix names how many of the following bytes are payload. */
  function Unframed(raw: seq<Byte>): Option<seq<Byte>>
    requires |raw| >= 4
  {
    var length := FromBigEndian(raw[..4]);
    if length > |raw| - 4 then None else Some(raw[4..4 + length])
  }

  /** Appends limb by limb, then cuts at the length prefix. */
  method UnpackBlob(blob: array<Byte>) returns (payload: Option<seq<Byte>>)
    requires blob.Length == BLOB_LIMBS * 32
    ensures payload == Unframed(Limbs(blob[..]))
  {
    var raw: seq<Byte> := [];
    for i := 0 to BLOB_LIMBS
      invariant |raw| == i * BYTES_PER_LIMB
      invariant forall j :: 0 <= j < |raw| ==> raw[j] == blob[Position(j)]
    {
      var limb := blob[i * 32 + 1..i * 32 + 32];
      forall j | |raw| <= j < |raw| + BYTES_PER_LIMB ensures limb[j - |raw|] == blob[Position(j)] {
        assert j / BYTES_PER_LIMB == i && j % BYTES_PER_LIMB == j - |raw|;
      }
      raw := raw + limb;
    }
    assert raw == Limbs(blob[..]);
    if |raw| < 4 {
      return None;
    }
    var length := FromBigEndian(raw[..4]);
    if length > |raw| - 4 {
      return None;
    }
    return Some(raw[4..4 + length]);
  }

  lemma HeldBytes(blob: seq<Byte>, raw: seq<Byte>)
    requires Holds(blob, raw)
    ensures Limbs(blob)[..|raw|] == raw
  {
    forall j | 0 <= j < |raw| ensures Limbs(blob)[j] == raw[j] {
      var k := Position(j);
      assert k / 32 == j / BYTES_PER_LIMB && k % 32 == 1 + j % BYTES_PER_LIMB;
    }
  }

  /** Unpacking a packed payload gives it back. */
  lemma BlobRoundTrip(blob: seq<Byte>, payload: seq<Byte>)
    requires |payload| <= MAX_PAYLOAD_LEN - 4 && Holds(blob, Framed(payload))
    ensures Unframed(Limbs(blob)) == Some(payload)
  {
    hide Limbs;
    HeldBytes(blob, Framed(payload));
    UnframesFramed(Limbs(blob), payload);
  }

  lemma UnframesFramed(raw: seq<Byte>, payload: seq<Byte>)
    requires |payload| < 0x1_0000_0000 && |Framed(payload)| <= |raw| && raw[..|Framed(payload)|] == Framed(payload)
    ensures |raw| >= 4 && Unframed(raw) == Some(payload)
  {
    hide BigEndian, FromBigEndian;
    var n := |payload|;
    var framed := Framed(payload);
    FourBytes(n);
    assert raw[..4] == framed[..4] == BigEndian(n, 4);
    assert raw[4..4 + n] == framed[4..4 + n] == payload;
  }

  lemma FourBytes(n: nat)
    requires n < 0x1_0000_0000
    ensures FromBigEndian(BigEndian(n, 4)) == n
  {
    hide BigEndian, FromBigEndian;
    assert Pow256(4) == 0x1_0000_0000;
    BigEndianRoundTrip(n, 4);
  }

  /** One payload per blob contents: no two payloads share a packing. */
  lemma PackingInjective(blob: seq<Byte>, p: seq<Byte>, q: seq<Byte>)
    requires |p| <= MAX_PAYLOAD_LEN - 4 && |q| <= MAX_PAYLOAD_LEN - 4
    requires Holds(blob, Framed(p)) && Holds(blob, Framed(q))
    ensures p == q
  {
    BlobRoundTrip(blob, p);
    BlobRoundTrip(blob, q);
  }

  lemma {:induction false} LeadingZero(bytes: seq<Byte>)
    requires |bytes| > 0 && bytes[0] == 0
    ensures FromBigEndian(bytes) < Pow256(|bytes| - 1)
  {
    if |bytes| == 1 {
      assert bytes[..0] == [];
    } else {
      LeadingZero(bytes[..|bytes| - 1]);
    }
  }

  lemma Pow256Of31()
    ensures Pow256(31) < BLS_MODULUS
  {
    assert Pow256(8) == 0x1_0000_0000_0000_0000;
    assert Pow256(16) == 0x1_0000_0000_0000_0000_0000_0000_0000_0000;
    assert Pow256(24) == 0x1_0000_0000_0000_0000_0000_0000_0000_0000_0000_0000_0000_0000;
  }

  /** Every 32-byte limb of a packed blob is a canonical field element. */
  lemma LimbsAreCanonical(blob: seq<Byte>, raw: seq<Byte>, i: nat)
    requires Holds(blob, raw) && i < BLOB_LIMBS
    ensures FromBigEndian(blob[32 * i..32 * i + 32]) < BLS_MODULUS
  {
    var limb := blob[32 * i..32 * i + 32];
    assert limb[0] == blob[32 * i] == 0;
    LeadingZero(limb);
    Pow256Of31();
  }
}
