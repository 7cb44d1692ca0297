/**
 Byte-addressed device memory with 32-bit wrapping addresses, and the
 big-endian layout of 16- and 32-bit registers in it.
 */
module Memory {
  import opened Common

  type Address = a: int | 0 <= a < ADDRESS_SPACE

  // A byte that no one has stored reads as zero.
  type Mem = map<Address, bv8>

  function ByteAddress(a: Address, k: nat): Address {
    (a + k) % ADDRESS_SPACE
  }

  /** The bytes of a register of width w that starts at a. */
  function Span(a: Address, w: nat): set<Address> {
    set k | 0 <= k < w :: ByteAddress(a, k)
  }

  function At(m: Mem, a: Address): bv8 {
    if a in m then m[a] else 0
  }

  function Load(m: Mem, a: Address, w: nat): seq<bv8> {
    seq(w, k requires 0 <= k < w => At(m, ByteAddress(a, k)))
  }

  function Offset(a: Address, b: Address): nat {
    (b - a) % ADDRESS_SPACE
  }

  function Store(m: Mem, a: Address, bytes: seq<bv8>): Mem
    requires |bytes| <= 4
  {
    map b | b in m.Keys + Span(a, |bytes|) ::
      if b in Span(a, |bytes|) && Offset(a, b) < |bytes| then bytes[Offset(a, b)] else At(m, b)
  }

  lemma OffsetOfByte(a: Address, k: nat)
    requires k < ADDRESS_SPACE
    ensures Offset(a, ByteAddress(a, k)) == k
  {
  }

  /** A register reads back what was stored in it. */
  lemma LoadAfterStore(m: Mem, a: Address, bytes: seq<bv8>)
    requires |bytes| <= 4
    ensures Load(Store(m, a, bytes), a, |bytes|) == bytes
  {
    forall k | 0 <= k < |bytes|
      ensures Load(Store(m, a, bytes), a, |bytes|)[k] == bytes[k]
    {
      OffsetOfByte(a, k);
      assert ByteAddress(a, k) in Span(a, |bytes|);
    }
  }

  /** A store leaves every byte outside its span alone. */
  lemma StoreFrame(m: Mem, a: Address, bytes: seq<bv8>, b: Address, w: nat)
    requires |bytes| <= 4
    requires Span(a, |bytes|) !! Span(b, w)
    ensures Load(Store(m, a, bytes), b, w) == Load(m, b, w)
  {
    forall k | 0 <= k < w
      ensures Load(Store(m, a, bytes), b, w)[k] == Load(m, b, w)[k]
    {
      assert ByteAddress(b, k) in Span(b, w);
    }
  }

  function Encode16(v: bv16): (bytes: seq<bv8>)
    ensures |bytes| == 2
  {
    [(v >> 8) as bv8, (v & 0xff) as bv8]
  }

  function Decode16(bytes: seq<bv8>): bv16
    requires |bytes| == 2
  {
    ((bytes[0] as bv16) << 8) | (bytes[1] as bv16)
  }

  function Encode32(v: bv32): (bytes: seq<bv8>)
    ensures |bytes| == 4
  {
    [(v >> 24) as bv8, ((v >> 16) & 0xff) as bv8, ((v >> 8) & 0xff) as bv8, (v & 0xff) as bv8]
  }

  function Decode32(bytes: seq<bv8>): bv32
    requires |bytes| == 4
  {
    ((bytes[0] as bv32) << 24) | ((bytes[1] as bv32) << 16) | ((bytes[2] as bv32) << 8) | (bytes[3] as bv32)
  }

  lemma DecodeEncode16(v: bv16)
    ensures Decode16(Encode16(v)) == v
  {
  }

  lemma EncodeDecode16(bytes: seq<bv8>)
    requires |bytes| == 2
    ensures Encode16(Decode16(bytes)) == bytes
  {
  }

  lemma EncodeDecode32(bytes: seq<bv8>)
    requires |bytes| == 4
    ensures Encode32(Decode32(bytes)) == bytes
  {
  }
}
