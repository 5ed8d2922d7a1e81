/** A library that obeys every law assumed of the primitives, so that no law asks too much. */
module LibraryExample {
  import opened Results
  import opened Primitives

  // Three octets a character.
  function Wide(t: string): Bytes {
    if t == "" then []
    else
      var n := t[0] as int;
      [n / 65536, n / 256 % 256, n % 256] + Wide(t[1..])
  }

  function Narrow(b: Bytes): string {
    if |b| < 3 then ""
    else
      var n := (b[0] as int) * 65536 + (b[1] as int) * 256 + (b[2] as int);
      if n < 0xD800 || 0xE000 <= n < 0x11_0000 then [n as char] + Narrow(b[3..]) else ""
  }

  lemma ThreeOctets(n: nat)
    ensures n / 65536 * 65536 + n / 256 % 256 * 256 + n % 256 == n
  {
    assert n / 65536 == n / 256 / 256;
  }

  lemma {:induction false} NarrowWide(t: string)
    ensures Narrow(Wide(t)) == t
  {
    if t != "" {
      var n := t[0] as int;
      ThreeOctets(n);
      NarrowWide(t[1..]);
      assert Wide(t)[3..] == Wide(t[1..]);
      assert Narrow(Wide(t)) == [n as char] + Narrow(Wide(t[1..]));
    }
  }

  function EncodeText(t: string): Bytes {
    if IsAsciiText(t) then AsciiBytes(t) else [255] + Wide(t)
  }

  function DecodeText(b: Bytes): Option<string> {
    if IsAscii(b) then Some(AsciiText(b)) else if b[0] == 255 then Some(Narrow(b[1..])) else None
  }

  lemma DecodeEncoded(t: string)
    ensures DecodeText(EncodeText(t)) == Some(t)
  {
    if !IsAsciiText(t) {
      var b := EncodeText(t);
      assert b[0] == 255 && b[1..] == Wide(t);
      NarrowWide(t);
    }
  }

  function Plain(): Library {
    var zeros: Key32 := seq(32, i => 0);
    Library((k, b) => b, (k, b) => b, (k, b) => zeros, (k, s) => zeros, (k, s) => zeros,
            t => EncodeText(t), b => DecodeText(b), b => Some(b), (k, h, seed, m) => m, (k, h, c) => Some(c))
  }

  lemma LawsCanBeMet()
    ensures Plain().Lawful()
  {
    forall t: string ensures Plain().utf8Decode(Plain().utf8Encode(t)) == Some(t) {
      DecodeEncoded(t);
    }
  }
}
