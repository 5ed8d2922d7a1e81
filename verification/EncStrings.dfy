/**
 Cipher strings: the text form `type.iv|ciphertext|mac` of an encrypted value, and
 the symmetric keys that make and open them.
 */
module EncStrings {
  import opened Results
  import opened Primitives
  import opened Texts
  import Base64
  import Cbc

  datatype CryptoError =
    | InvalidEncString
    | UnsupportedCipherType(encType: nat)
    | MacMismatch
    | DecryptionFailed
    | InvalidKeyLength
    | Utf8Error

  datatype SymmetricKey = SymmetricKey(enc: Key32, mac: Option<Key32>)

  datatype EncString = EncString(encType: nat, iv: Bytes, ciphertext: Bytes, mac: Option<Bytes>)

  function DecodePart(part: string): Result<Bytes, CryptoError> {
    match Base64.Decode(part)
    case Some(b) => Ok(b)
    case None => Err(InvalidEncString)
  }

  function Parse(raw: string): Result<EncString, CryptoError> {
    var text := Trim(raw);
    var dot := Find(text, '.');
    if dot == |text| then Err(InvalidEncString)
    else
      match ParseU32(text[..dot])
      case None => Err(InvalidEncString)
      case Some(encType) => ParseParts(encType, Split(text[dot + 1..], '|'))
  }

  // RSA types, and any type with a single part, keep the first part and nothing else.
  function ParseParts(encType: nat, parts: seq<string>): Result<EncString, CryptoError>
    requires |parts| > 0
  {
    if 3 <= encType <= 6 || |parts| == 1 then
      match DecodePart(parts[0])
      case Err(e) => Err(e)
      case Ok(ct) => Ok(EncString(encType, [], ct, None))
    else
      match (DecodePart(parts[0]), DecodePart(parts[1]))
      case (Err(e), _) => Err(e)
      case (_, Err(e)) => Err(e)
      case (Ok(iv), Ok(ct)) =>
        if |parts| < 3 then Ok(EncString(encType, iv, ct, None))
        else
          match DecodePart(parts[2])
          case Err(e) => Err(e)
          case Ok(mac) => Ok(EncString(encType, iv, ct, Some(mac)))
  }

  function OpenWith(lib: Library, key: Key32, iv: Block, c: Bytes): Result<Bytes, CryptoError> {
    match Cbc.OpenPadded(lib, key, iv, c)
    case Some(m) => Ok(m)
    case None => Err(DecryptionFailed)
  }

  // Type 2 opens nothing before its mandatory MAC has matched; type 0 checks a MAC only
  // when both the text and the key have one.
  function Decrypt(lib: Library, e: EncString, key: SymmetricKey): Result<Bytes, CryptoError> {
    if e.encType != 0 && e.encType != 2 then Err(UnsupportedCipherType(e.encType))
    else if |e.iv| != 16 then Err(DecryptionFailed)
    else if e.encType == 2 && (e.mac.None? || key.mac.None?) then Err(MacMismatch)
    else if e.mac.Some? && key.mac.Some? && e.mac.value != lib.hmac(key.mac.value, e.iv + e.ciphertext) then Err(MacMismatch)
    else OpenWith(lib, key.enc, e.iv, e.ciphertext)
  }

  function DecryptString(lib: Library, e: EncString, key: SymmetricKey): Result<string, CryptoError> {
    match Decrypt(lib, e, key)
    case Err(err) => Err(err)
    case Ok(b) =>
      match lib.utf8Decode(b)
      case Some(t) => Ok(t)
      case None => Err(Utf8Error)
  }

  // The decryption as the code runs it: on a copy of the ciphertext, in place.
  method DecryptBuffer(lib: Library, e: EncString, key: SymmetricKey) returns (r: Result<Bytes, CryptoError>)
    ensures r == Decrypt(lib, e, key)
  {
    if e.encType != 0 && e.encType != 2 {
      return Err(UnsupportedCipherType(e.encType));
    }
    if |e.iv| != 16 {
      return Err(DecryptionFailed);
    }
    if e.encType == 2 && (e.mac.None? || key.mac.None?) {
      return Err(MacMismatch);
    }
    if e.mac.Some? && key.mac.Some? && e.mac.value != lib.hmac(key.mac.value, e.iv + e.ciphertext) {
      return Err(MacMismatch);
    }
    var buf := new Byte[|e.ciphertext|](i requires 0 <= i < |e.ciphertext| => e.ciphertext[i]);
    assert buf[..] == e.ciphertext;
    var n := Cbc.OpenInPlace(lib, key.enc, e.iv, buf);
    return if n.Some? then Ok(buf[..n.value]) else Err(DecryptionFailed);
  }

  // The text that encrypting a plaintext prints, for a key with a MAC half.
  function SealedText(lib: Library, enc: Key32, mac: Key32, iv: Block, plaintext: Bytes): string {
    var ct := Cbc.SealPadded(lib, enc, iv, plaintext);
    "2." + Base64.Encode(iv) + "|" + Base64.Encode(ct) + "|" + Base64.Encode(lib.hmac(mac, iv + ct))
  }

  // Encryption through the fixed buffer of 32 spare octets. It is always long enough, so
  // the one way to fail is a key without a MAC half.
  method Encrypt(lib: Library, key: SymmetricKey, iv: Block, plaintext: Bytes) returns (r: Result<string, CryptoError>)
    ensures r == match key.mac
                 case None => Err(MacMismatch)
                 case Some(mac) => Ok(SealedText(lib, key.enc, mac, iv, plaintext))
  {
    var buf := new Byte[|plaintext| + 32](_ => 0);
    var n := Cbc.SealInto(lib, key.enc, iv, plaintext, buf);
    if n.None? {
      return Err(DecryptionFailed);
    }
    var ct := buf[..n.value];
    assert ct == Cbc.SealPadded(lib, key.enc, iv, plaintext);
    match key.mac {
      case None => r := Err(MacMismatch);
      case Some(mac) =>
        var tag := lib.hmac(mac, iv + ct);
        r := Ok("2." + Base64.Encode(iv) + "|" + Base64.Encode(ct) + "|" + Base64.Encode(tag));
    }
  }

  lemma EncodedPart(b: Bytes)
    ensures var s := Base64.Encode(b);
            '|' !in s && '.' !in s && (forall i :: 0 <= i < |s| ==> !IsSpace(s[i]))
    ensures DecodePart(Base64.Encode(b)) == Ok(b)
  {
    hide Base64.Encode;
    hide Base64.Decode;
    Base64.EncodeIsText(b);
    Base64.RoundTrip(b);
  }

  lemma SplitJoined(a: string, b: string, c: string)
    requires '|' !in a && '|' !in b && '|' !in c
    ensures Split(a + "|" + (b + "|" + c), '|') == [a, b, c]
  {
    SplitStep(a, '|', b + "|" + c);
    SplitStep(b, '|', c);
    SplitNone(c, '|');
  }

  lemma SplitType(rest: string)
    requires rest != "" && !IsSpace(rest[|rest| - 1])
    ensures var s := "2." + rest; Trim(s) == s && Find(s, '.') == 1 && s[2..] == rest
    ensures ParseU32(("2." + rest)[..1]) == Some(2)
  {
    var s := "2." + rest;
    TrimNothing(s);
    assert s == "2" + ['.'] + rest;
    FindAfter("2", '.', rest);
    assert s[..1] == "2" && DecimalValue("2") == 2;
  }

  lemma ParseThree(a: string, b: string, c: string)
    requires '|' !in a && '|' !in b && '|' !in c
    requires c != "" && !IsSpace(c[|c| - 1])
    ensures Parse("2." + a + "|" + b + "|" + c) == ParseParts(2, [a, b, c])
  {
    var rest := a + "|" + (b + "|" + c);
    assert "2." + a + "|" + b + "|" + c == "2." + rest;
    assert rest[|rest| - 1] == c[|c| - 1];
    SplitType(rest);
    SplitJoined(a, b, c);
  }

  // Three parts joined by bars under a type number read back as those three parts.
  lemma ParseJoined(iv: Bytes, ct: Bytes, mac: Bytes)
    requires |mac| > 0
    ensures Parse("2." + Base64.Encode(iv) + "|" + Base64.Encode(ct) + "|" + Base64.Encode(mac))
         == Ok(EncString(2, iv, ct, Some(mac)))
  {
    hide Parse;
    EncodedPart(iv);
    EncodedPart(ct);
    EncodedPart(mac);
    ParseThree(Base64.Encode(iv), Base64.Encode(ct), Base64.Encode(mac));
  }

  lemma ParseSealed(lib: Library, enc: Key32, mac: Key32, iv: Block, plaintext: Bytes)
    ensures var ct := Cbc.SealPadded(lib, enc, iv, plaintext);
            Parse(SealedText(lib, enc, mac, iv, plaintext)) == Ok(EncString(2, iv, ct, Some(lib.hmac(mac, iv + ct))))
  {
    var ct := Cbc.SealPadded(lib, enc, iv, plaintext);
    ParseJoined(iv, ct, lib.hmac(mac, iv + ct));
  }

  // What encryption prints, parsed and decrypted under the same key, is the plaintext.
  lemma DecryptSealed(lib: Library, enc: Key32, mac: Key32, iv: Block, plaintext: Bytes)
    requires lib.Lawful()
    ensures var parsed := Parse(SealedText(lib, enc, mac, iv, plaintext));
            parsed.Ok? && Decrypt(lib, parsed.value, SymmetricKey(enc, Some(mac))) == Ok(plaintext)
  {
    ParseSealed(lib, enc, mac, iv, plaintext);
    Cbc.OpenSealPadded(lib, enc, iv, plaintext);
  }

  // Under another key the text is refused as soon as that key's MAC differs on it.
  lemma RefuseSealed(lib: Library, enc: Key32, mac: Key32, iv: Block, plaintext: Bytes, other: SymmetricKey)
    requires var signed := iv + Cbc.SealPadded(lib, enc, iv, plaintext);
             other.mac.Some? ==> lib.hmac(other.mac.value, signed) != lib.hmac(mac, signed)
    ensures var parsed := Parse(SealedText(lib, enc, mac, iv, plaintext));
            parsed.Ok? && Decrypt(lib, parsed.value, other) == Err(MacMismatch)
  {
    ParseSealed(lib, enc, mac, iv, plaintext);
  }

  // ----- other texts -----

  lemma SplitDigitType(t: nat, rest: string)
    requires t < 10 && rest != "" && !IsSpace(rest[|rest| - 1])
    ensures var s := [(48 + t) as char] + "." + rest;
            Trim(s) == s && Find(s, '.') == 1 && s[2..] == rest && ParseU32(s[..1]) == Some(t)
  {
    var digit := [(48 + t) as char];
    var s := digit + "." + rest;
    TrimNothing(s);
    assert s == digit + ['.'] + rest;
    FindAfter(digit, '.', rest);
    assert s[..1] == digit && digit[..0] == "";
    assert DecimalValue(digit) == t;
  }

  lemma ParseTwoParts(t: nat, a: string, b: string)
    requires t < 10 && '|' !in a && '|' !in b && b != "" && !IsSpace(b[|b| - 1])
    ensures Parse([(48 + t) as char] + "." + (a + "|" + b)) == ParseParts(t, [a, b])
  {
    hide ParseParts;
    hide Split;
    hide Trim;
    hide ParseU32;
    var rest := a + "|" + b;
    assert rest[|rest| - 1] == b[|b| - 1];
    SplitDigitType(t, rest);
    assert rest == a + ['|'] + b;
    SplitStep(a, '|', b);
    SplitNone(b, '|');
    assert Split(rest, '|') == [a] + [b] == [a, b];
  }

  // Two parts are a vector and a ciphertext without a MAC, for every type that is not RSA.
  lemma ParseTwo(t: nat, iv: Bytes, ct: Bytes)
    requires t < 10 && !(3 <= t <= 6) && ct != []
    ensures Parse([(48 + t) as char] + "." + (Base64.Encode(iv) + "|" + Base64.Encode(ct))) == Ok(EncString(t, iv, ct, None))
  {
    hide Parse;
    EncodedPart(iv);
    EncodedPart(ct);
    ParseTwoParts(t, Base64.Encode(iv), Base64.Encode(ct));
    hide DecodePart;
    hide Base64.Encode;
  }

  // One part is a ciphertext alone.
  lemma ParseOne(t: nat, ct: Bytes)
    requires t < 10 && ct != []
    ensures Parse([(48 + t) as char] + "." + Base64.Encode(ct)) == Ok(EncString(t, [], ct, None))
  {
    EncodedPart(ct);
    SplitDigitType(t, Base64.Encode(ct));
    SplitNone(Base64.Encode(ct), '|');
  }

  // A legacy text of two parts opens under its cipher key, whatever MAC half comes with it; the same
  // parts under type 2 are refused, and under any other type not tried.
  lemma OpenTwo(lib: Library, t: nat, enc: Key32, mac: Option<Key32>, iv: Block, plaintext: Bytes)
    requires lib.Lawful() && t < 10 && !(3 <= t <= 6)
    ensures var text := [(48 + t) as char] + "." + (Base64.Encode(iv) + "|" + Base64.Encode(Cbc.SealPadded(lib, enc, iv, plaintext)));
            Parse(text).Ok? && Decrypt(lib, Parse(text).value, SymmetricKey(enc, mac))
              == if t == 0 then Ok(plaintext) else if t == 2 then Err(MacMismatch) else Err(UnsupportedCipherType(t))
  {
    hide Parse;
    ParseTwo(t, iv, Cbc.SealPadded(lib, enc, iv, plaintext));
    Cbc.OpenSealPadded(lib, enc, iv, plaintext);
  }

  // Before anything is opened: other types, other vector lengths, a missing MAC under type 2, and a
  // MAC that differs under either type.
  lemma DecryptChecks(lib: Library, e: EncString, key: SymmetricKey)
    ensures e.encType != 0 && e.encType != 2 ==> Decrypt(lib, e, key) == Err(UnsupportedCipherType(e.encType))
    ensures (e.encType == 0 || e.encType == 2) && |e.iv| != 16 ==> Decrypt(lib, e, key) == Err(DecryptionFailed)
    ensures e.encType == 2 && |e.iv| == 16 && (e.mac.None? || key.mac.None?) ==> Decrypt(lib, e, key) == Err(MacMismatch)
    ensures ((e.encType == 0 || e.encType == 2) && |e.iv| == 16 && e.mac.Some? && key.mac.Some?
             && lib.hmac(key.mac.value, e.iv + e.ciphertext) != e.mac.value) ==>
              Decrypt(lib, e, key) == Err(MacMismatch)
  {
  }

  // Without a dot, with a type that is no number, or with a part that is not Base64 it is no cipher
  // string.
  lemma NotParsed(s: string)
    ensures '.' !in Trim(s) ==> Parse(s) == Err(InvalidEncString)
    ensures '.' in Trim(s) && ParseU32(Trim(s)[..Find(Trim(s), '.')]).None? ==> Parse(s) == Err(InvalidEncString)
  {
    if '.' !in Trim(s) {
      FindNone(Trim(s), '.');
    } else {
      var i :| 0 <= i < |Trim(s)| && Trim(s)[i] == '.';
      assert Trim(s)[i] !in Trim(s)[..Find(Trim(s), '.')];
    }
  }
}
