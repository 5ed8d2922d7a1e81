/** The forms a symmetric key travels in, and opening a value under the master key. */
module Keys {
  import opened Results
  import opened Primitives
  import opened Texts
  import opened EncStrings
  import Base64
  import Cbc

  function FromRawBytes(b: Bytes): Result<SymmetricKey, CryptoError> {
    if |b| == 32 then Ok(SymmetricKey(b, None))
    else if |b| == 64 then Ok(SymmetricKey(b[..32], Some(b[32..])))
    else Err(InvalidKeyLength)
  }

  // The two halves one after the other, as the daemon lays out its reply.
  function RawBytes(k: SymmetricKey): (b: Bytes)
    ensures |b| == if k.mac.Some? then 64 else 32
  {
    k.enc + if k.mac.Some? then k.mac.value else []
  }

  lemma RawRoundTrip(k: SymmetricKey)
    ensures FromRawBytes(RawBytes(k)) == Ok(k)
  {
    var b := RawBytes(k);
    if k.mac.Some? {
      assert b[..32] == k.enc && b[32..] == k.mac.value;
    } else {
      assert b == k.enc;
    }
  }

  lemma RawUnique(b: Bytes)
    requires FromRawBytes(b).Ok?
    ensures RawBytes(FromRawBytes(b).value) == b
  {
    if |b| == 64 {
      assert b == b[..32] + b[32..];
    }
  }

  // The first half is the cipher's and the second the MAC's; no other length is a key.
  lemma RawHalves(enc: Key32, mac: Key32, other: Bytes)
    ensures FromRawBytes(enc) == Ok(SymmetricKey(enc, None)) && RawBytes(SymmetricKey(enc, None)) == enc
    ensures FromRawBytes(enc + mac) == Ok(SymmetricKey(enc, Some(mac))) && RawBytes(SymmetricKey(enc, Some(mac))) == enc + mac
    ensures |other| != 32 && |other| != 64 ==> FromRawBytes(other) == Err(InvalidKeyLength)
  {
    assert (enc + mac)[..32] == enc && (enc + mac)[32..] == mac && enc + [] == enc;
  }

  function FromText(t: string): Option<SymmetricKey> {
    match Base64.Decode(Trim(t))
    case None => None
    case Some(raw) =>
      match FromRawBytes(raw)
      case Ok(k) => Some(k)
      case Err(_) => None
  }

  function ParseDecryptedKey(lib: Library, b: Bytes): Option<SymmetricKey> {
    match FromRawBytes(b)
    case Ok(k) => Some(k)
    case Err(_) =>
      match lib.utf8Decode(b)
      case None => None
      case Some(t) => FromText(t)
  }

  function KeyText(k: SymmetricKey): (t: string)
    ensures |t| == if k.mac.Some? then 88 else 44
    ensures IsAsciiText(t)
  {
    Base64.EncodeIsText(RawBytes(k));
    Base64.Encode(RawBytes(k))
  }

  lemma TextRoundTrip(k: SymmetricKey)
    ensures FromText(KeyText(k)) == Some(k)
  {
    EncodedPart(RawBytes(k));
    TrimNothing(KeyText(k));
    Base64.RoundTrip(RawBytes(k));
    RawRoundTrip(k);
  }

  // Both forms in which a key is stored under another key: raw, or Base64 text.
  predicate IsCarrier(b: Bytes, k: SymmetricKey) {
    b == RawBytes(k) || b == AsciiBytes(KeyText(k))
  }

  // A key survives either carrier: its text has 44 or 88 octets and is never taken for a raw key.
  lemma CarrierParses(lib: Library, b: Bytes, k: SymmetricKey)
    requires lib.Lawful() && IsCarrier(b, k)
    ensures ParseDecryptedKey(lib, b) == Some(k)
  {
    RawRoundTrip(k);
    TextRoundTrip(k);
    if b != RawBytes(k) {
      assert |b| == |AsciiText(b)| && AsciiText(b) == KeyText(k);
    }
  }

  lemma {:induction false} TrimAround(before: string, s: string, after: string)
    requires |s| > 0 && !IsSpace(s[0]) && !IsSpace(s[|s| - 1])
    requires forall i :: 0 <= i < |before| ==> IsSpace(before[i])
    requires forall i :: 0 <= i < |after| ==> IsSpace(after[i])
    ensures Trim(before + s + after) == s
    decreases |before| + |after|
  {
    var t := before + s + after;
    if before != "" {
      assert t[1..] == before[1..] + s + after;
      TrimAround(before[1..], s, after);
    } else if after != "" {
      assert t[..|t| - 1] == before + s + after[..|after| - 1];
      TrimAround(before, s, after[..|after| - 1]);
    } else {
      assert t == s;
    }
  }

  // White space around the text is harmless except where it brings the length to 64: those
  // octets are read as two raw halves, which is another key.
  lemma PaddedTextParses(lib: Library, before: string, k: SymmetricKey, after: string)
    requires lib.Lawful() && IsAsciiText(before) && IsAsciiText(after)
    requires forall i :: 0 <= i < |before| ==> IsSpace(before[i])
    requires forall i :: 0 <= i < |after| ==> IsSpace(after[i])
    ensures IsAsciiText(before + KeyText(k) + after)
    ensures ParseDecryptedKey(lib, AsciiBytes(before + KeyText(k) + after)) == Some(k)
       <==> |before| + |KeyText(k)| + |after| != 64
  {
    var t := before + KeyText(k) + after;
    var b := AsciiBytes(t);
    assert |b| == |AsciiText(b)| == |t|;
    EncodedPart(RawBytes(k));
    TrimAround(before, KeyText(k), after);
    TextRoundTrip(k);
    TrimNothing(KeyText(k));
    if |t| == 64 {
      assert k.mac.None?;
    }
  }

  // Twenty spaces before the text of a key without a MAC half make it another key.
  lemma SpacesMislead(lib: Library, k: SymmetricKey)
    requires lib.Lawful() && k.mac.None?
    ensures var spaces := seq(20, i => ' ');
            IsAsciiText(spaces + KeyText(k) + "")
            && ParseDecryptedKey(lib, AsciiBytes(spaces + KeyText(k) + "")).Some?
            && ParseDecryptedKey(lib, AsciiBytes(spaces + KeyText(k) + "")).value != k
  {
    var spaces := seq(20, i => ' ');
    PaddedTextParses(lib, spaces, k, "");
    var b := AsciiBytes(spaces + KeyText(k) + "");
    assert |b| == |AsciiText(b)| == 64;
  }

  // The client's reading of the daemon's `key_b64` answer.
  function ClientKey(lib: Library, keyB64: string): Option<SymmetricKey> {
    match Base64.Decode(keyB64)
    case None => None
    case Some(b) => ParseDecryptedKey(lib, b)
  }

  lemma ReplyRoundTrip(lib: Library, k: SymmetricKey)
    ensures ClientKey(lib, Base64.Encode(RawBytes(k))) == Some(k)
  {
    Base64.RoundTrip(RawBytes(k));
    RawRoundTrip(k);
  }

  // The keys tried against a value stored under the master key, in order.
  function Candidates(lib: Library, masterKey: Key32, encType: nat): (keys: seq<SymmetricKey>)
    ensures |keys| >= 2
  {
    [SymmetricKey(lib.expandDirect(masterKey, "enc"), Some(lib.expandDirect(masterKey, "mac"))),
     SymmetricKey(lib.expandExtracted(masterKey, "enc"), Some(lib.expandExtracted(masterKey, "mac")))]
    + if encType == 0 then [SymmetricKey(masterKey, None)] else []
  }

  // The first candidate that opens the value wins; if none does, the last error stands.
  method DecryptWithMasterKey(lib: Library, e: EncString, masterKey: Bytes) returns (r: Result<Bytes, CryptoError>)
    ensures |masterKey| != 32 ==> r == Err(InvalidKeyLength)
    ensures |masterKey| == 32 ==> r == FirstOpening(lib, e, Candidates(lib, masterKey, e.encType))
  {
    if |masterKey| != 32 {
      return Err(InvalidKeyLength);
    }
    var keys := Candidates(lib, masterKey, e.encType);
    var lastErr := DecryptionFailed;
    for i := 0 to |keys|
      invariant forall j :: 0 <= j < i ==> Decrypt(lib, e, keys[j]).Err?
      invariant i > 0 ==> Decrypt(lib, e, keys[i - 1]) == Err(lastErr)
    {
      var attempt := DecryptBuffer(lib, e, keys[i]);
      match attempt {
        case Ok(b) =>
          FirstOpeningAt(lib, e, keys, i);
          return Ok(b);
        case Err(err) => lastErr := err;
      }
    }
    FirstOpeningAt(lib, e, keys, |keys| - 1);
    return Err(lastErr);
  }

  function FirstOpening(lib: Library, e: EncString, keys: seq<SymmetricKey>): Result<Bytes, CryptoError>
    requires |keys| > 0
  {
    var r := Decrypt(lib, e, keys[0]);
    if r.Ok? || |keys| == 1 then r else FirstOpening(lib, e, keys[1..])
  }

  lemma {:induction false} FirstOpeningAt(lib: Library, e: EncString, keys: seq<SymmetricKey>, i: nat)
    requires i < |keys|
    requires forall j :: 0 <= j < i ==> Decrypt(lib, e, keys[j]).Err?
    requires i == |keys| - 1 || Decrypt(lib, e, keys[i]).Ok?
    ensures FirstOpening(lib, e, keys) == Decrypt(lib, e, keys[i])
  {
    if i > 0 {
      FirstOpeningAt(lib, e, keys[1..], i - 1);
    }
  }

  // What is tried: the direct stretching, the one with extraction, and for a legacy value the master
  // key itself; each for the cipher and for the MAC under its own label.
  lemma CandidatesAre(lib: Library, masterKey: Key32, encType: nat)
    ensures var direct := SymmetricKey(lib.expandDirect(masterKey, "enc"), Some(lib.expandDirect(masterKey, "mac")));
            var extracted := SymmetricKey(lib.expandExtracted(masterKey, "enc"), Some(lib.expandExtracted(masterKey, "mac")));
            Candidates(lib, masterKey, encType)
              == if encType == 0 then [direct, extracted, SymmetricKey(masterKey, None)] else [direct, extracted]
  {
  }

  // A user key wrapped under the direct stretching of the master key comes back.
  lemma MasterKeyRoundTrip(lib: Library, masterKey: Key32, iv: Block, carrier: Bytes)
    requires lib.Lawful()
    ensures var parsed := Parse(SealedText(lib, lib.expandDirect(masterKey, "enc"), lib.expandDirect(masterKey, "mac"), iv, carrier));
            parsed.Ok? && FirstOpening(lib, parsed.value, Candidates(lib, masterKey, parsed.value.encType)) == Ok(carrier)
  {
    hide Parse;
    hide Decrypt;
    var enc, mac := lib.expandDirect(masterKey, "enc"), lib.expandDirect(masterKey, "mac");
    ParseSealed(lib, enc, mac, iv, carrier);
    DecryptSealed(lib, enc, mac, iv, carrier);
  }

  // And so does one wrapped under the stretching with extraction, given that the direct one does not
  // verify what this one signed.
  lemma ExtractedRoundTrip(lib: Library, masterKey: Key32, iv: Block, carrier: Bytes)
    requires lib.Lawful()
    requires var signed := iv + Cbc.SealPadded(lib, lib.expandExtracted(masterKey, "enc"), iv, carrier);
             lib.hmac(lib.expandDirect(masterKey, "mac"), signed) != lib.hmac(lib.expandExtracted(masterKey, "mac"), signed)
    ensures var parsed := Parse(SealedText(lib, lib.expandExtracted(masterKey, "enc"), lib.expandExtracted(masterKey, "mac"), iv, carrier));
            parsed.Ok? && FirstOpening(lib, parsed.value, Candidates(lib, masterKey, parsed.value.encType)) == Ok(carrier)
  {
    hide Parse;
    hide Decrypt;
    var enc, mac := lib.expandExtracted(masterKey, "enc"), lib.expandExtracted(masterKey, "mac");
    var keys := Candidates(lib, masterKey, 2);
    ParseSealed(lib, enc, mac, iv, carrier);
    DecryptSealed(lib, enc, mac, iv, carrier);
    RefuseSealed(lib, enc, mac, iv, carrier, keys[0]);
    assert keys[1..][0] == keys[1];
  }

  // A legacy value under the bare master key has no MAC to tell keys apart, so it comes back
  // just when no stretched key happens to leave a padding behind, or leaves the same text.
  lemma LegacyRoundTrip(lib: Library, masterKey: Key32, iv: Block, m: Bytes)
    requires lib.Lawful()
    ensures var ct := Cbc.SealPadded(lib, masterKey, iv, m);
            var first := Cbc.OpenPadded(lib, lib.expandDirect(masterKey, "enc"), iv, ct);
            var second := Cbc.OpenPadded(lib, lib.expandExtracted(masterKey, "enc"), iv, ct);
            FirstOpening(lib, EncString(0, iv, ct, None), Candidates(lib, masterKey, 0)) == Ok(m)
            <==> (first == Some(m) || (first.None? && (second.None? || second == Some(m))))
  {
    var ct := Cbc.SealPadded(lib, masterKey, iv, m);
    var keys := Candidates(lib, masterKey, 0);
    var e := EncString(0, iv, ct, None);
    Cbc.OpenSealPadded(lib, masterKey, iv, m);
    assert keys[1..][0] == keys[1] && keys[1..][1..][0] == keys[2];
    assert FirstOpening(lib, e, keys[2..]) == Ok(m);
    assert keys[1..][1..] == keys[2..];
  }
}
