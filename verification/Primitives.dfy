/**
 Octet strings and the library primitives the code is built on.

 AES-256, HMAC-SHA-256, HKDF, RSA-OAEP and the UTF-8 codec are library code: they are
 values of function type here, and `Lawful` is everything the proofs may use about them.
 */
module Primitives {
  import opened Results

  type Byte = x: int | 0 <= x < 256
  type Bytes = seq<Byte>

  type Block = b: Bytes | |b| == 16 witness seq(16, i => 0)
  type Key32 = b: Bytes | |b| == 32 witness seq(32, i => 0)

  datatype Hash = Sha1 | Sha256

  datatype Library = Library(
    sealBlock: (Key32, Block) -> Block,
    openBlock: (Key32, Block) -> Block,
    hmac: (Key32, Bytes) -> Key32,
    expandDirect: (Key32, string) -> Key32,
    expandExtracted: (Key32, string) -> Key32,
    utf8Encode: string -> Bytes,
    utf8Decode: Bytes -> Option<string>,
    parseRsa: Bytes -> Option<Bytes>,
    oaepSeal: (Bytes, Hash, Bytes, Bytes) -> Bytes,
    oaepOpen: (Bytes, Hash, Bytes) -> Option<Bytes>)
  {
    ghost predicate Lawful() {
      && (forall k: Key32, b: Block :: openBlock(k, sealBlock(k, b)) == b)
      && (forall t: string :: utf8Decode(utf8Encode(t)) == Some(t))
      && (forall b: Bytes :: IsAscii(b) ==> utf8Decode(b) == Some(AsciiText(b)))
      && (forall k: Bytes, h: Hash, seed: Bytes, m: Bytes :: oaepOpen(k, h, oaepSeal(k, h, seed, m)) == Some(m))
    }
  }

  predicate IsAscii(b: Bytes) {
    forall i :: 0 <= i < |b| ==> b[i] < 128
  }

  function AsciiText(b: Bytes): (t: string)
    requires IsAscii(b)
    ensures |t| == |b|
    ensures forall i :: 0 <= i < |b| ==> t[i] as int == b[i]
  {
    seq(|b|, i requires 0 <= i < |b| => b[i] as char)
  }

  predicate IsAsciiText(t: string) {
    forall i :: 0 <= i < |t| ==> t[i] as int < 128
  }

  function AsciiBytes(t: string): (b: Bytes)
    requires IsAsciiText(t)
    ensures IsAscii(b) && AsciiText(b) == t
  {
    var b: Bytes := seq(|t|, i requires 0 <= i < |t| => t[i] as int);
    assert AsciiText(b) == t;
    b
  }

  // Exclusive or of the low `bits` bits of two numbers, bit by bit.
  function XorBits(a: nat, b: nat, bits: nat): (r: nat)
    ensures r < Pow2(bits)
  {
    if bits == 0 then 0
    else 2 * XorBits(a / 2, b / 2, bits - 1) + (a + b) % 2
  }

  function Pow2(n: nat): (p: nat)
    ensures p > 0
  {
    if n == 0 then 1 else 2 * Pow2(n - 1)
  }

  lemma XorBitsStep(high: nat, low: nat, b: nat, bits: nat)
    requires low < 2 && bits > 0
    ensures XorBits(2 * high + low, b, bits) == 2 * XorBits(high, b / 2, bits - 1) + (low + b) % 2
  {
    assert (2 * high + low) / 2 == high;
  }

  lemma ParityTwice(a: nat, b: nat)
    ensures ((a + b) % 2 + b) % 2 == a % 2
  {
  }

  lemma {:induction false} XorBitsTwice(a: nat, b: nat, bits: nat)
    requires a < Pow2(bits)
    ensures XorBits(XorBits(a, b, bits), b, bits) == a
  {
    if bits > 0 {
      var high, low := XorBits(a / 2, b / 2, bits - 1), (a + b) % 2;
      assert XorBits(a, b, bits) == 2 * high + low;
      XorBitsStep(high, low, b, bits);
      XorBitsTwice(a / 2, b / 2, bits - 1);
      ParityTwice(a, b);
    }
  }

  function XorByte(a: Byte, b: Byte): Byte {
    assert Pow2(8) == 256 by { assert Pow2(4) == 16; }
    XorBits(a, b, 8)
  }

  function Xor(a: Block, b: Block): Block {
    seq(16, i requires 0 <= i < 16 => XorByte(a[i], b[i]))
  }

  lemma XorTwice(a: Block, b: Block)
    ensures Xor(Xor(a, b), b) == a
  {
    forall i | 0 <= i < 16 ensures Xor(Xor(a, b), b)[i] == a[i] {
      assert Pow2(8) == 256 by { assert Pow2(4) == 16; }
      XorBitsTwice(a[i], b[i], 8);
    }
  }

  function Bit(a: nat, k: nat): nat {
    if k == 0 then a % 2 else Bit(a / 2, k - 1)
  }

  lemma Parity(a: nat, b: nat)
    ensures (a + b) % 2 == if a % 2 == b % 2 then 0 else 1
  {
  }

  lemma BitOfPair(high: nat, low: nat, k: nat)
    requires low < 2
    ensures Bit(2 * high + low, k) == if k == 0 then low else Bit(high, k - 1)
  {
    assert (2 * high + low) / 2 == high && (2 * high + low) % 2 == low;
  }

  lemma {:induction false} XorBitAt(a: nat, b: nat, bits: nat, k: nat)
    requires k < bits
    ensures Bit(XorBits(a, b, bits), k) == if Bit(a, k) == Bit(b, k) then 0 else 1
  {
    BitOfPair(XorBits(a / 2, b / 2, bits - 1), (a + b) % 2, k);
    Parity(a, b);
    if k > 0 {
      XorBitAt(a / 2, b / 2, bits - 1, k - 1);
    }
  }

  // A bit of the combined blocks is set where just one of the two has it set.
  lemma XorIs(a: Block, b: Block, i: nat, k: nat)
    requires i < 16 && k < 8
    ensures Bit(Xor(a, b)[i], k) == if Bit(a[i], k) == Bit(b[i], k) then 0 else 1
  {
    XorBitAt(a[i], b[i], 8, k);
  }
}
