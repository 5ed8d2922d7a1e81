/**
 Cipher block chaining (section 6.2 of NIST SP 800-38A) over PKCS#7 padding
 (section 6.3 of RFC 5652), and the two loops that run them over a buffer.
 */
module Cbc {
  import opened Results
  import opened Primitives

  function Pad(m: Bytes): (r: Bytes)
    ensures |r| % 16 == 0 && |m| < |r| <= |m| + 16
  {
    var n := 16 - |m| % 16;
    m + seq(n, i => n)
  }

  // The plaintext under the padding, if the last octet names a padding that is there.
  function Unpad(m: Bytes): (r: Option<Bytes>)
    ensures r.Some? ==> r.value <= m && |m| - 16 <= |r.value| < |m|
  {
    if |m| == 0 || |m| % 16 != 0 then None
    else
      var n := m[|m| - 1];
      if 1 <= n <= 16 && forall i :: |m| - n <= i < |m| ==> m[i] == n then Some(m[..|m| - n]) else None
  }

  lemma UnpadPad(m: Bytes)
    ensures Unpad(Pad(m)) == Some(m)
  {
    assert Pad(m)[..|m|] == m;
  }

  // Padding is the only thing removed: what is left pads back to the input.
  lemma PadUnpad(m: Bytes)
    requires Unpad(m).Some?
    ensures Pad(Unpad(m).value) == m
  {
    var n, r := m[|m| - 1], Unpad(m).value;
    assert 16 - |r| % 16 == n;
    assert m[|m| - n..] == seq(n, i => n);
    assert m == m[..|m| - n] + m[|m| - n..];
  }

  function Seal(lib: Library, key: Key32, iv: Block, m: Bytes): (c: Bytes)
    requires |m| % 16 == 0
    ensures |c| == |m|
    decreases |m|
  {
    if m == [] then []
    else
      var first := lib.sealBlock(key, Xor(m[..16], iv));
      first + Seal(lib, key, first, m[16..])
  }

  function Open(lib: Library, key: Key32, iv: Block, c: Bytes): (m: Bytes)
    requires |c| % 16 == 0
    ensures |m| == |c|
    decreases |c|
  {
    if c == [] then []
    else Xor(lib.openBlock(key, c[..16]), iv) + Open(lib, key, c[..16], c[16..])
  }

  lemma {:induction false} OpenSeal(lib: Library, key: Key32, iv: Block, m: Bytes)
    requires lib.Lawful() && |m| % 16 == 0
    ensures Open(lib, key, iv, Seal(lib, key, iv, m)) == m
    decreases |m|
  {
    if m != [] {
      var c := Seal(lib, key, iv, m);
      var first := lib.sealBlock(key, Xor(m[..16], iv));
      assert c[..16] == first && c[16..] == Seal(lib, key, first, m[16..]);
      XorTwice(m[..16], iv);
      OpenSeal(lib, key, first, m[16..]);
      assert m == m[..16] + m[16..];
    }
  }

  function SealPadded(lib: Library, key: Key32, iv: Block, m: Bytes): (c: Bytes)
    ensures |c| == |m| + 16 - |m| % 16
  {
    Seal(lib, key, iv, Pad(m))
  }

  // Opening succeeds on whole blocks whose last one ends in a padding.
  function OpenPadded(lib: Library, key: Key32, iv: Block, c: Bytes): (r: Option<Bytes>)
    ensures r.Some? ==> |c| % 16 == 0 && |c| - 16 <= |r.value| < |c|
  {
    if |c| % 16 != 0 then None else Unpad(Open(lib, key, iv, c))
  }

  lemma OpenSealPadded(lib: Library, key: Key32, iv: Block, m: Bytes)
    requires lib.Lawful()
    ensures OpenPadded(lib, key, iv, SealPadded(lib, key, iv, m)) == Some(m)
  {
    OpenSeal(lib, key, iv, Pad(m));
    UnpadPad(m);
  }

  lemma Regroup(a: Bytes, b: Bytes, c: Bytes)
    ensures a + (b + c) == a + b + c
  {
  }

  // Section 6.3 of RFC 5652: one to sixteen octets, each their number, up to whole blocks.
  lemma PadIs(m: Bytes)
    ensures var n := |Pad(m)| - |m|;
            1 <= n <= 16 && |Pad(m)| % 16 == 0 && Pad(m)[..|m|] == m && forall i :: |m| <= i < |Pad(m)| ==> Pad(m)[i] == n
  {
  }

  // Section 6.2 of NIST SP 800-38A: each block is sealed after it is combined with the block sealed
  // before it, the first with the vector.
  lemma {:induction false} SealAt(lib: Library, key: Key32, iv: Block, m: Bytes, at: nat)
    requires |m| % 16 == 0 && at % 16 == 0 && at < |m|
    ensures var c := Seal(lib, key, iv, m);
            var prev: Block := if at == 0 then iv else c[at - 16..at];
            c[at..at + 16] == lib.sealBlock(key, Xor(m[at..at + 16], prev))
    decreases |m|
  {
    var c, first := Seal(lib, key, iv, m), lib.sealBlock(key, Xor(m[..16], iv));
    assert c[..16] == first && c[16..] == Seal(lib, key, first, m[16..]);
    if at > 0 {
      SealAt(lib, key, first, m[16..], at - 16);
      assert m[16..][at - 16..at] == m[at..at + 16] && c[16..][at - 16..at] == c[at..at + 16];
      if at > 16 {
        assert c[16..][at - 32..at - 16] == c[at - 16..at];
      }
    }
  }

  method Store(buf: array<Byte>, at: nat, block: Block)
    requires at + 16 <= buf.Length
    modifies buf
    ensures buf[..at + 16] == old(buf[..at]) + block && buf[at + 16..] == old(buf[at + 16..])
  {
    forall j | 0 <= j < 16 {
      buf[at + j] := block[j];
    }
    assert buf[..at + 16] == buf[..at] + buf[at..at + 16];
  }

  lemma SealStep(lib: Library, key: Key32, prev: Block, m: Bytes, at: nat)
    requires |m| % 16 == 0 && at % 16 == 0 && at < |m|
    ensures var c := lib.sealBlock(key, Xor(m[at..at + 16], prev));
            Seal(lib, key, prev, m[at..]) == c + Seal(lib, key, c, m[at + 16..])
  {
    assert m[at..][..16] == m[at..at + 16] && m[at..][16..] == m[at + 16..];
  }

  lemma SealNothing(lib: Library, key: Key32, iv: Block)
    ensures Seal(lib, key, iv, []) == []
  {
  }

  // Seals the blocks of `m` into the front of `buf`.
  method SealBlocks(lib: Library, key: Key32, iv: Block, m: Bytes, buf: array<Byte>)
    requires |m| % 16 == 0 && |m| <= buf.Length
    modifies buf
    ensures buf[..] == Seal(lib, key, iv, m) + old(buf[|m|..])
  {
    hide Seal;
    hide Xor;
    ghost var was := buf[..];
    var prev: Block, at := iv, 0;
    assert m[0..] == m && buf[..0] + Seal(lib, key, iv, m) == Seal(lib, key, iv, m);
    while at < |m|
      invariant 0 <= at <= |m| && at % 16 == 0
      invariant buf[..at] + Seal(lib, key, prev, m[at..]) == Seal(lib, key, iv, m)
      invariant buf[at..] == was[at..]
    {
      SealStep(lib, key, prev, m, at);
      ghost var done := buf[..at];
      prev := lib.sealBlock(key, Xor(m[at..at + 16], prev));
      Store(buf, at, prev);
      Regroup(done, prev, Seal(lib, key, prev, m[at + 16..]));
      at := at + 16;
    }
    SealNothing(lib, key, prev);
    assert m[at..] == [];
    assert buf[..] == buf[..at] + buf[at..];
  }

  // Encrypts `m` into `buf`; fails exactly when the buffer is too short for the padded text.
  method SealInto(lib: Library, key: Key32, iv: Block, m: Bytes, buf: array<Byte>) returns (r: Option<nat>)
    modifies buf
    ensures r.Some? <==> |Pad(m)| <= buf.Length
    ensures r.Some? ==> r.value == |Pad(m)| && buf[..] == SealPadded(lib, key, iv, m) + old(buf[r.value..])
    ensures r.None? ==> buf[..] == old(buf[..])
  {
    var padded := Pad(m);
    if buf.Length < |padded| {
      return None;
    }
    SealBlocks(lib, key, iv, padded, buf);
    return Some(|padded|);
  }

  lemma OpenStep(lib: Library, key: Key32, prev: Block, c: Bytes, at: nat)
    requires |c| % 16 == 0 && at % 16 == 0 && at < |c|
    ensures var block: Block := c[at..at + 16];
            Open(lib, key, prev, c[at..]) == Xor(lib.openBlock(key, block), prev) + Open(lib, key, block, c[at + 16..])
  {
    assert c[at..][..16] == c[at..at + 16] && c[at..][16..] == c[at + 16..];
  }

  lemma OpenNothing(lib: Library, key: Key32, iv: Block)
    ensures Open(lib, key, iv, []) == []
  {
  }

  // Opens every block of `buf` in place.
  method OpenBlocks(lib: Library, key: Key32, iv: Block, buf: array<Byte>)
    requires buf.Length % 16 == 0
    modifies buf
    ensures buf[..] == Open(lib, key, iv, old(buf[..]))
  {
    hide Open;
    hide Xor;
    ghost var was := buf[..];
    var prev: Block, at := iv, 0;
    assert was[0..] == was && buf[..0] + Open(lib, key, iv, was) == Open(lib, key, iv, was);
    while at < buf.Length
      invariant 0 <= at <= buf.Length && at % 16 == 0
      invariant buf[at..] == was[at..]
      invariant buf[..at] + Open(lib, key, prev, was[at..]) == Open(lib, key, iv, was)
    {
      ghost var done := buf[..at];
      var block: Block := buf[at..at + 16];
      assert block == was[at..][..16] == was[at..at + 16];
      OpenStep(lib, key, prev, was, at);
      var plain := Xor(lib.openBlock(key, block), prev);
      Store(buf, at, plain);
      Regroup(done, plain, Open(lib, key, block, was[at + 16..]));
      prev, at := block, at + 16;
    }
    OpenNothing(lib, key, prev);
    assert was[at..] == [] && buf[..at] == buf[..];
  }

  // Decrypts `buf` in place; on success the plaintext is its first `r.value` octets.
  method OpenInPlace(lib: Library, key: Key32, iv: Block, buf: array<Byte>) returns (r: Option<nat>)
    modifies buf
    ensures r.Some? ==> r.value <= buf.Length
    ensures OpenPadded(lib, key, iv, old(buf[..])) == if r.Some? then Some(buf[..r.value]) else None
  {
    if buf.Length % 16 != 0 {
      return None;
    }
    OpenBlocks(lib, key, iv, buf);
    var plaintext := Unpad(buf[..]);
    return if plaintext.Some? then Some(|plaintext.value|) else None;
  }
}
