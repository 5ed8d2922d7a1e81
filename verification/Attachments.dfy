/** Attachment blobs: three layouts of initialisation vector, MAC and ciphertext. */
module Attachments {
  import opened Results
  import opened Primitives
  import opened EncStrings
  import Keys
  import Cbc
  import Base64

  // Layout 2 and 3 are tried in turn and only taken when their MAC verifies; a blob that
  // starts with octet 2 is taken for layout 1 and nothing else.
  function DecryptBlob(lib: Library, blob: Bytes, key: SymmetricKey): Result<Bytes, CryptoError> {
    if blob == [] then Ok([])
    else if key.mac.None? then Err(MacMismatch)
    else if |blob| >= 49 && blob[0] == 2 then
      var iv, mac, ct := blob[1..17], blob[17..49], blob[49..];
      if |ct| % 16 != 0 || mac != lib.hmac(key.mac.value, iv + ct) then Err(DecryptionFailed)
      else OpenWith(lib, key.enc, iv, ct)
    else if VerifiesHeaderless(lib, blob, key.mac.value) then OpenWith(lib, key.enc, blob[..16], blob[48..])
    else if VerifiesTrailing(lib, blob, key.mac.value) then OpenWith(lib, key.enc, blob[..16], blob[16..|blob| - 32])
    else Err(DecryptionFailed)
  }

  predicate VerifiesHeaderless(lib: Library, blob: Bytes, mac: Key32) {
    |blob| >= 48 && |blob| % 16 == 0 && blob[16..48] == lib.hmac(mac, blob[..16] + blob[48..])
  }

  predicate VerifiesTrailing(lib: Library, blob: Bytes, mac: Key32) {
    |blob| >= 48 && |blob| % 16 == 0 && blob[|blob| - 32..] == lib.hmac(mac, blob[..16] + blob[16..|blob| - 32])
  }

  datatype Layout = Headed | Headerless | Trailing

  // What a client uploads for a plaintext.
  function Pack(lib: Library, layout: Layout, enc: Key32, mac: Key32, iv: Block, plaintext: Bytes): Bytes {
    var ct := Cbc.SealPadded(lib, enc, iv, plaintext);
    var tag := lib.hmac(mac, iv + ct);
    match layout
    case Headed => [2] + iv + tag + ct
    case Headerless => iv + tag + ct
    case Trailing => iv + ct + tag
  }

  lemma HeadedParts(iv: Block, tag: Key32, ct: Bytes)
    ensures var blob: Bytes := [2] + iv + tag + ct;
            |blob| == 49 + |ct| && blob[0] == 2 && blob[1..17] == iv && blob[17..49] == tag && blob[49..] == ct
  {
  }

  lemma HeaderlessParts(iv: Block, tag: Key32, ct: Bytes)
    ensures var blob: Bytes := iv + tag + ct;
            |blob| == 48 + |ct| && blob[0] == iv[0] && blob[..16] == iv && blob[16..48] == tag && blob[48..] == ct
  {
  }

  lemma TrailingParts(iv: Block, ct: Bytes, tag: Key32)
    ensures var blob: Bytes := iv + ct + tag;
            |blob| == 48 + |ct| && blob[0] == iv[0] && blob[..16] == iv && blob[16..|blob| - 32] == ct && blob[|blob| - 32..] == tag
  {
  }

  lemma HeadedRoundTrip(lib: Library, enc: Key32, mac: Key32, iv: Block, plaintext: Bytes)
    requires lib.Lawful()
    ensures DecryptBlob(lib, Pack(lib, Headed, enc, mac, iv, plaintext), SymmetricKey(enc, Some(mac))) == Ok(plaintext)
  {
    hide Cbc.SealPadded;
    hide Cbc.OpenPadded;
    var ct := Cbc.SealPadded(lib, enc, iv, plaintext);
    HeadedParts(iv, lib.hmac(mac, iv + ct), ct);
    Cbc.OpenSealPadded(lib, enc, iv, plaintext);
  }

  // Without the leading type octet a blob opens if and only if its first octet is not 2.
  lemma HeaderlessRoundTrip(lib: Library, enc: Key32, mac: Key32, iv: Block, plaintext: Bytes)
    requires lib.Lawful()
    ensures var r := DecryptBlob(lib, Pack(lib, Headerless, enc, mac, iv, plaintext), SymmetricKey(enc, Some(mac)));
            r == if iv[0] == 2 then Err(DecryptionFailed) else Ok(plaintext)
  {
    hide Cbc.SealPadded;
    hide Cbc.OpenPadded;
    var ct := Cbc.SealPadded(lib, enc, iv, plaintext);
    HeaderlessParts(iv, lib.hmac(mac, iv + ct), ct);
    Cbc.OpenSealPadded(lib, enc, iv, plaintext);
  }

  // With the MAC at the end it opens unless the first octet is 2 or the same octets also
  // verify as the headerless layout, which then decides the outcome.
  lemma TrailingRoundTrip(lib: Library, enc: Key32, mac: Key32, iv: Block, plaintext: Bytes)
    requires lib.Lawful()
    ensures var blob := Pack(lib, Trailing, enc, mac, iv, plaintext);
            |blob| >= 48 &&
            DecryptBlob(lib, blob, SymmetricKey(enc, Some(mac))) ==
              if iv[0] == 2 then Err(DecryptionFailed)
              else if VerifiesHeaderless(lib, blob, mac) then OpenWith(lib, enc, blob[..16], blob[48..])
              else Ok(plaintext)
  {
    hide Cbc.SealPadded;
    hide Cbc.OpenPadded;
    var ct := Cbc.SealPadded(lib, enc, iv, plaintext);
    TrailingParts(iv, ct, lib.hmac(mac, iv + ct));
    Cbc.OpenSealPadded(lib, enc, iv, plaintext);
  }

  // An empty blob is an empty file; without a MAC half, or below the shortest layout, nothing opens.
  lemma ShortBlobs(lib: Library, blob: Bytes, key: SymmetricKey)
    ensures DecryptBlob(lib, [], key) == Ok([])
    ensures blob != [] && key.mac.None? ==> DecryptBlob(lib, blob, key) == Err(MacMismatch)
    ensures blob != [] && key.mac.Some? && |blob| < 48 ==> DecryptBlob(lib, blob, key) == Err(DecryptionFailed)
  {
  }

  // What any accepted blob looks like, whoever made it: its length fixes the layout family,
  // and the MAC of that layout covers every other octet.
  lemma AcceptedBlob(lib: Library, blob: Bytes, key: SymmetricKey)
    requires DecryptBlob(lib, blob, key).Ok? && blob != []
    ensures key.mac.Some? && |blob| >= 64
    ensures |blob| % 16 == if blob[0] == 2 then 1 else 0
    ensures var n := |DecryptBlob(lib, blob, key).value|;
            if blob[0] == 2 then n + 50 <= |blob| <= n + 65 else n + 49 <= |blob| <= n + 64
    ensures var tag := k => lib.hmac(key.mac.value, k);
            if blob[0] == 2 then blob[17..49] == tag(blob[1..17] + blob[49..])
            else blob[16..48] == tag(blob[..16] + blob[48..])
                 || blob[|blob| - 32..] == tag(blob[..16] + blob[16..|blob| - 32])
  {
  }

  // A headed blob is longer than its plaintext by 49 octets and the padding: 50 to 65.
  lemma HeadedLength(lib: Library, enc: Key32, mac: Key32, iv: Block, plaintext: Bytes)
    ensures var n := |plaintext|;
            |Pack(lib, Headed, enc, mac, iv, plaintext)| == n + 49 + (16 - n % 16)
  {
  }

  // The exact-size rule of the preview cache: a file as long as the encrypted attachment is
  // taken for undecrypted ciphertext.
  predicate SizeRuleRejects(expectedEncrypted: Option<nat>, length: nat) {
    expectedEncrypted.Some? && expectedEncrypted.value > 65 && length == expectedEncrypted.value
  }

  // The rule never rejects what a blob of the expected size decrypts to, and always rejects
  // the headed blob itself, except blobs of a single block, 64 or 65 octets long.
  lemma SizeRuleSound(lib: Library, blob: Bytes, key: SymmetricKey)
    requires DecryptBlob(lib, blob, key).Ok? && blob != []
    ensures !SizeRuleRejects(Some(|blob|), |DecryptBlob(lib, blob, key).value|)
    ensures SizeRuleRejects(Some(|blob|), |blob|) <==> |blob| != 64 && |blob| != 65
  {
    AcceptedBlob(lib, blob, key);
  }

  // Downloading an attachment: the key through the daemon's reply, then the blob.
  function Fetch(lib: Library, keyB64: string, blob: Bytes): Option<Result<Bytes, CryptoError>> {
    match Keys.ClientKey(lib, keyB64)
    case None => None
    case Some(key) => Some(DecryptBlob(lib, blob, key))
  }

  lemma FetchRoundTrip(lib: Library, enc: Key32, mac: Key32, iv: Block, plaintext: Bytes)
    requires lib.Lawful()
    ensures var key := SymmetricKey(enc, Some(mac));
            Fetch(lib, Base64.Encode(Keys.RawBytes(key)), Pack(lib, Headed, enc, mac, iv, plaintext)) == Some(Ok(plaintext))
  {
    Keys.ReplyRoundTrip(lib, SymmetricKey(enc, Some(mac)));
    HeadedRoundTrip(lib, enc, mac, iv, plaintext);
  }
}
