/**
 Base64 with the standard alphabet and padding, section 4 of RFC 4648.

 Decoding is strict, as the engine the code uses is: whole groups of four, padding
 only at the very end, and no stray bits under the padding.
 */
module Base64 {
  import opened Results
  import opened Primitives

  predicate IsSymbol(c: char) {
    'A' <= c <= 'Z' || 'a' <= c <= 'z' || '0' <= c <= '9' || c == '+' || c == '/'
  }

  function Symbol(i: nat): (c: char)
    requires i < 64
    ensures IsSymbol(c) && Index(c) == i
  {
    if i < 26 then (65 + i) as char
    else if i < 52 then (71 + i) as char
    else if i < 62 then (i - 4) as char
    else if i == 62 then '+' else '/'
  }

  function Index(c: char): (i: nat)
    requires IsSymbol(c)
    ensures i < 64
  {
    if 'A' <= c <= 'Z' then c as int - 65
    else if 'a' <= c <= 'z' then c as int - 71
    else if '0' <= c <= '9' then c as int + 4
    else if c == '+' then 62 else 63
  }

  lemma SymbolOfIndex(c: char)
    requires IsSymbol(c)
    ensures Symbol(Index(c)) == c
  {
  }

  function EncodeGroup(x: Byte, y: Byte, z: Byte): (s: string)
    ensures |s| == 4 && forall i :: 0 <= i < 4 ==> IsSymbol(s[i])
  {
    [Symbol(x / 4), Symbol(x % 4 * 16 + y / 16), Symbol(y % 16 * 4 + z / 64), Symbol(z % 64)]
  }

  function Encode(b: Bytes): (s: string)
    ensures |s| == (|b| + 2) / 3 * 4
  {
    if |b| == 0 then ""
    else if |b| == 1 then EncodeGroup(b[0], 0, 0)[..2] + "=="
    else if |b| == 2 then EncodeGroup(b[0], b[1], 0)[..3] + "="
    else EncodeGroup(b[0], b[1], b[2]) + Encode(b[3..])
  }

  // The three octets that four symbol values stand for.
  function Octet0(i: nat, j: nat): Byte
    requires i < 64 && j < 64
  {
    i * 4 + j / 16
  }

  function Octet1(j: nat, k: nat): Byte
    requires j < 64 && k < 64
  {
    j % 16 * 16 + k / 4
  }

  function Octet2(k: nat, l: nat): Byte
    requires k < 64 && l < 64
  {
    k % 4 * 64 + l
  }

  function DecodeGroup(s: string): (r: Option<Bytes>)
    requires |s| == 4
    ensures r.Some? ==> |r.value| == 3
  {
    if IsSymbol(s[0]) && IsSymbol(s[1]) && IsSymbol(s[2]) && IsSymbol(s[3]) then
      var i, j, k, l := Index(s[0]), Index(s[1]), Index(s[2]), Index(s[3]);
      Some([Octet0(i, j), Octet1(j, k), Octet2(k, l)])
    else None
  }

  // The last group may carry padding; the bits it hides must be zero.
  function DecodeLast(s: string): (r: Option<Bytes>)
    requires |s| == 4
  {
    if s[3] != '=' then DecodeGroup(s)
    else if !IsSymbol(s[0]) || !IsSymbol(s[1]) then None
    else
      var i, j := Index(s[0]), Index(s[1]);
      if s[2] == '=' then
        if j % 16 == 0 then Some([Octet0(i, j)]) else None
      else if !IsSymbol(s[2]) || Index(s[2]) % 4 != 0 then None
      else Some([Octet0(i, j), Octet1(j, Index(s[2]))])
  }

  function Decode(s: string): (r: Option<Bytes>) {
    if |s| == 0 then Some([])
    else if |s| < 4 then None
    else if |s| == 4 then DecodeLast(s)
    else
      var first, rest := DecodeGroup(s[..4]), Decode(s[4..]);
      if first.Some? && rest.Some? then Some(first.value + rest.value) else None
  }

  lemma GroupRoundTrip(x: Byte, y: Byte, z: Byte)
    ensures DecodeGroup(EncodeGroup(x, y, z)) == Some([x, y, z])
  {
    var j, k := x % 4 * 16 + y / 16, y % 16 * 4 + z / 64;
    assert Octet0(x / 4, j) == x;
    assert Octet1(j, k) == y;
    assert Octet2(k, z % 64) == z;
  }

  lemma RoundTripOne(x: Byte)
    ensures Decode(Encode([x])) == Some([x])
  {
    assert Encode([x]) == [Symbol(x / 4), Symbol(x % 4 * 16), '=', '='];
    assert Octet0(x / 4, x % 4 * 16) == x;
  }

  lemma RoundTripTwo(x: Byte, y: Byte)
    ensures Decode(Encode([x, y])) == Some([x, y])
  {
    var j, k := x % 4 * 16 + y / 16, y % 16 * 4;
    assert Encode([x, y]) == [Symbol(x / 4), Symbol(j), Symbol(k), '='];
    assert Octet0(x / 4, j) == x && Octet1(j, k) == y;
  }

  lemma RoundTripThree(x: Byte, y: Byte, z: Byte)
    ensures Decode(Encode([x, y, z])) == Some([x, y, z])
  {
    var first := EncodeGroup(x, y, z);
    GroupRoundTrip(x, y, z);
    assert [x, y, z][3..] == [];
    assert Encode([x, y, z]) == first && IsSymbol(first[3]);
  }

  lemma DecodeFirst(first: string, rest: string)
    requires |first| == 4 && rest != ""
    ensures var g, r := DecodeGroup(first), Decode(rest);
            Decode(first + rest) == if g.Some? && r.Some? then Some(g.value + r.value) else None
  {
    var s := first + rest;
    assert s[..4] == first && s[4..] == rest;
  }

  lemma EncodeFirst(x: Byte, y: Byte, z: Byte, rest: Bytes)
    ensures Encode([x, y, z] + rest) == EncodeGroup(x, y, z) + Encode(rest)
  {
    assert ([x, y, z] + rest)[3..] == rest;
  }

  lemma RoundTripMore(x: Byte, y: Byte, z: Byte, rest: Bytes)
    requires rest != [] && Decode(Encode(rest)) == Some(rest)
    ensures Decode(Encode([x, y, z] + rest)) == Some([x, y, z] + rest)
  {
    EncodeFirst(x, y, z, rest);
    GroupRoundTrip(x, y, z);
    DecodeFirst(EncodeGroup(x, y, z), Encode(rest));
  }

  lemma {:induction false} RoundTrip(b: Bytes)
    ensures Decode(Encode(b)) == Some(b)
  {
    if |b| == 1 {
      assert b == [b[0]];
      RoundTripOne(b[0]);
    } else if |b| == 2 {
      assert b == [b[0], b[1]];
      RoundTripTwo(b[0], b[1]);
    } else if |b| == 3 {
      assert b == [b[0], b[1], b[2]];
      RoundTripThree(b[0], b[1], b[2]);
    } else if |b| > 3 {
      assert b == [b[0], b[1], b[2]] + b[3..];
      RoundTrip(b[3..]);
      RoundTripMore(b[0], b[1], b[2], b[3..]);
    }
  }

  lemma GroupCanonical(s: string)
    requires |s| == 4 && DecodeGroup(s).Some?
    ensures var b := DecodeGroup(s).value; EncodeGroup(b[0], b[1], b[2]) == s
  {
    SymbolOfIndex(s[0]);
    SymbolOfIndex(s[1]);
    SymbolOfIndex(s[2]);
    SymbolOfIndex(s[3]);
    var i, j, k, l := Index(s[0]), Index(s[1]), Index(s[2]), Index(s[3]);
    assert Octet0(i, j) / 4 == i && Octet0(i, j) % 4 * 16 + Octet1(j, k) / 16 == j;
    assert Octet1(j, k) % 16 * 4 + Octet2(k, l) / 64 == k && Octet2(k, l) % 64 == l;
  }

  lemma LastCanonical(s: string)
    requires |s| == 4 && DecodeLast(s).Some?
    ensures Encode(DecodeLast(s).value) == s
  {
    var b := DecodeLast(s).value;
    if s[3] != '=' {
      GroupCanonical(s);
      assert b[3..] == [];
    } else {
      SymbolOfIndex(s[0]);
      SymbolOfIndex(s[1]);
      var i, j := Index(s[0]), Index(s[1]);
      assert Octet0(i, j) / 4 == i;
      if s[2] != '=' {
        SymbolOfIndex(s[2]);
        var k := Index(s[2]);
        assert Octet0(i, j) % 4 * 16 + Octet1(j, k) / 16 == j && Octet1(j, k) % 16 * 4 == k;
      }
    }
  }

  // A text that decodes is the one encoding of what it decodes to.
  lemma {:induction false} Canonical(s: string)
    requires Decode(s).Some?
    ensures Encode(Decode(s).value) == s
  {
    if |s| > 4 {
      var first, rest := DecodeGroup(s[..4]).value, Decode(s[4..]).value;
      GroupCanonical(s[..4]);
      Canonical(s[4..]);
      assert rest != [];
      assert (first + rest)[3..] == rest;
      assert s == s[..4] + s[4..];
    } else if |s| == 4 {
      LastCanonical(s);
    }
  }

  predicate IsText(s: string) {
    forall i :: 0 <= i < |s| ==> IsSymbol(s[i]) || s[i] == '='
  }

  lemma {:induction false} EncodeIsText(b: Bytes)
    ensures IsText(Encode(b))
  {
    if |b| >= 3 {
      EncodeIsText(b[3..]);
    }
  }

  // Table 1 of RFC 4648.
  lemma Alphabet(i: nat)
    requires i < 64
    ensures i < 26 ==> Symbol(i) as int == 'A' as int + i
    ensures 26 <= i < 52 ==> Symbol(i) as int == 'a' as int + i - 26
    ensures 52 <= i < 62 ==> Symbol(i) as int == '0' as int + i - 52
    ensures Symbol(62) == '+' && Symbol(63) == '/'
  {
  }

  // Section 4: three octets are four groups of six bits, most significant first; a last group of
  // one or two octets is filled up with zero bits and padding.
  lemma GroupBits(x: Byte, y: Byte, z: Byte)
    ensures var s := EncodeGroup(x, y, z);
            Index(s[0]) * 0x4_0000 + Index(s[1]) * 0x1000 + Index(s[2]) * 0x40 + Index(s[3]) == x * 0x1_0000 + y * 0x100 + z
  {
    var j, k := x % 4 * 16 + y / 16, y % 16 * 4 + z / 64;
    assert Index(Symbol(x / 4)) == x / 4 && Index(Symbol(j)) == j && Index(Symbol(k)) == k && Index(Symbol(z % 64)) == z % 64;
    assert x == x / 4 * 4 + x % 4 && y == y / 16 * 16 + y % 16 && z == z / 64 * 64 + z % 64;
  }

  lemma EncodeIs(x: Byte, y: Byte, z: Byte, rest: Bytes)
    ensures Encode([]) == "" && Encode([x]) == EncodeGroup(x, 0, 0)[..2] + "==" && Encode([x, y]) == EncodeGroup(x, y, 0)[..3] + "="
    ensures Encode([x, y, z] + rest) == EncodeGroup(x, y, z) + Encode(rest)
  {
    EncodeFirst(x, y, z, rest);
  }
}
