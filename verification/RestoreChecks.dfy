/**
 What a quick unlock checks before it commits: that the retained key still is the vault's. The
 key of a sealed vault passes, a key foreign to its texts does not, and the exceptions on each
 side are stated exactly.
 */
module RestoreChecks {
  import opened Results
  import opened Primitives
  import opened EncStrings
  import opened Vault
  import opened VaultSealing
  import Keys
  import Session

  // `wrapping` is the user key as the server keeps it, under the master key.
  datatype Account = Account(vault: ServerVault, wrapping: Option<string>)

  predicate Opens(lib: Library, text: string, key: SymmetricKey) {
    match Parse(text)
    case Ok(e) => Decrypt(lib, e, key).Ok?
    case Err(_) => false
  }

  // A private key whose wrapping is symmetric settles the matter alone.
  predicate HasWrappedPrivateKey(v: ServerVault) {
    v.privateKey.Some? && Parse(v.privateKey.value).Ok? && Parse(v.privateKey.value).value.encType <= 2
  }

  // The ciphers that can tell: the user's own live ones that have a key or a name.
  predicate Probed(c: ServerCipher) {
    !c.deleted && c.organizationId.None? && (c.key.Some? || c.name.Some?)
  }

  predicate ProbeOpens(lib: Library, c: ServerCipher, key: SymmetricKey) {
    (c.key.Some? && Opens(lib, c.key.value, key)) || (c.name.Some? && Opens(lib, c.name.value, key))
  }

  predicate AnyProbed(v: ServerVault) {
    exists i :: 0 <= i < |v.ciphers| && Probed(v.ciphers[i])
  }

  predicate AnyOpens(lib: Library, v: ServerVault, key: SymmetricKey) {
    exists i :: 0 <= i < |v.ciphers| && Probed(v.ciphers[i]) && ProbeOpens(lib, v.ciphers[i], key)
  }

  function Verdict(good: bool): Session.Restore {
    if good then Session.Valid else Session.Stale
  }

  // With nothing to decrypt the wrapping recorded at retention decides.
  function Check(lib: Library, a: Account, key: SymmetricKey, recorded: Option<string>): Session.Restore {
    if a.wrapping.None? then Session.NoAccount
    else if HasWrappedPrivateKey(a.vault) then Verdict(Opens(lib, a.vault.privateKey.value, key))
    else if AnyProbed(a.vault) then Verdict(AnyOpens(lib, a.vault, key))
    else Verdict(recorded == a.wrapping)
  }

  // A private key that is asymmetrically wrapped, or unreadable, tells nothing.
  lemma OtherPrivateKeyIgnored(lib: Library, a: Account, key: SymmetricKey, recorded: Option<string>)
    requires a.vault.privateKey.Some?
    requires Parse(a.vault.privateKey.value).Ok? ==> Parse(a.vault.privateKey.value).value.encType > 2
    ensures Check(lib, a, key, recorded) == Check(lib, a.(vault := a.vault.(privateKey := None)), key, recorded)
  {
    hide Parse;
    hide ProbeOpens;
    hide Probed;
    var b := a.vault.(privateKey := None);
    assert AnyProbed(b) <==> AnyProbed(a.vault);
    assert AnyOpens(lib, b, key) <==> AnyOpens(lib, a.vault, key);
  }

  // The check as the code runs it: count the probed ciphers up to the first that opens.
  method CheckRetainedKey(lib: Library, a: Account, key: SymmetricKey, recorded: Option<string>) returns (r: Session.Restore)
    ensures r == Check(lib, a, key, recorded)
  {
    hide Opens;
    if a.wrapping.None? {
      return Session.NoAccount;
    }
    if HasWrappedPrivateKey(a.vault) {
      return Verdict(Opens(lib, a.vault.privateKey.value, key));
    }
    var cs := a.vault.ciphers;
    var candidates, decryptedAny := 0, false;
    for i := 0 to |cs|
      invariant !decryptedAny
      invariant candidates > 0 <==> exists j :: 0 <= j < i && Probed(cs[j])
      invariant forall j :: 0 <= j < i && Probed(cs[j]) ==> !ProbeOpens(lib, cs[j], key)
    {
      if cs[i].deleted || cs[i].organizationId.Some? {
        continue;
      }
      if cs[i].key.None? && cs[i].name.None? {
        continue;
      }
      candidates := candidates + 1;
      if cs[i].key.Some? && Opens(lib, cs[i].key.value, key) {
        decryptedAny := true;
      } else if cs[i].name.Some? && Opens(lib, cs[i].name.value, key) {
        decryptedAny := true;
      }
      if decryptedAny {
        assert Probed(cs[i]) && ProbeOpens(lib, cs[i], key);
        break;
      }
    }
    if candidates > 0 {
      return Verdict(decryptedAny);
    }
    return Verdict(recorded.Some? && a.wrapping.Some? && recorded.value == a.wrapping.value);
  }

  // ----- the vault's own key -----

  // A probe that tells: an own key, or a name that is not empty.
  predicate Tells(c: ServerCipher) {
    c.key.Some? || (c.name.Some? && c.name.value != "")
  }

  lemma SealedOpens(lib: Library, key: SymmetricKey, text: string, plaintext: Bytes)
    requires lib.Lawful() && SealedUnder(lib, key, text, plaintext)
    ensures Opens(lib, text, key) && Parse(text).value.encType == 2
  {
    OpenSealed(lib, key, text, plaintext);
  }

  lemma EmptyNeverOpens(lib: Library, key: SymmetricKey)
    ensures !Opens(lib, "", key)
  {
  }

  lemma PersonalBase(p: PlainVault, userKey: SymmetricKey, c: ServerCipher)
    requires c.organizationId.None?
    ensures BaseKey(PlainContext(p, userKey), c.organizationId) == userKey
  {
  }

  // The own key of a personal item is sealed under the user key.
  lemma PersonalKey(lib: Library, userKey: SymmetricKey, p: PlainVault, c: ServerCipher, item: PlainItem) returns (b: Bytes)
    requires ItemSealed(lib, PlainContext(p, userKey), c, item) && Probed(c) && c.key.Some?
    ensures SealedUnder(lib, userKey, c.key.value, b)
  {
    PersonalBase(p, userKey, c);
    assert KeySealed(lib, userKey, c.key.value, item.key);
    b :| Keys.IsCarrier(b, item.key) && SealedUnder(lib, userKey, c.key.value, b);
  }

  // A name is empty, or sealed under the item's key; without an own key that is the user key.
  lemma SealedName(lib: Library, userKey: SymmetricKey, p: PlainVault, c: ServerCipher, item: PlainItem) returns (b: Bytes)
    requires ItemSealed(lib, PlainContext(p, userKey), c, item) && Probed(c) && c.name.Some?
    ensures c.name.value == "" || SealedUnder(lib, item.key, c.name.value, b)
    ensures c.key.None? ==> item.key == userKey
  {
    PersonalBase(p, userKey, c);
    b := lib.utf8Encode(item.content.name);
  }

  lemma OwnProbe(lib: Library, userKey: SymmetricKey, p: PlainVault, c: ServerCipher, item: PlainItem)
    requires lib.Lawful() && ItemSealed(lib, PlainContext(p, userKey), c, item) && Probed(c)
    ensures ProbeOpens(lib, c, userKey) <==> Tells(c)
  {
    hide Opens;
    EmptyNeverOpens(lib, userKey);
    if c.key.Some? {
      var b := PersonalKey(lib, userKey, p, c, item);
      SealedOpens(lib, userKey, c.key.value, b);
    } else {
      var b := SealedName(lib, userKey, p, c, item);
      if c.name.value != "" {
        SealedOpens(lib, userKey, c.name.value, b);
      }
    }
  }

  lemma OwnPrivateKey(lib: Library, userKey: SymmetricKey, v: ServerVault, rsa: Option<Bytes>)
    requires lib.Lawful() && PrivateKeySealed(lib, userKey, v.privateKey, rsa)
    ensures HasWrappedPrivateKey(v) <==> v.privateKey.Some?
    ensures v.privateKey.Some? ==> Opens(lib, v.privateKey.value, userKey)
  {
    if v.privateKey.Some? {
      var der: Bytes :| lib.parseRsa(der) == rsa && SealedUnder(lib, userKey, v.privateKey.value, der);
      SealedOpens(lib, userKey, v.privateKey.value, der);
    }
  }

  // The user key of a sealed vault passes, except where all there is to probe are personal items
  // without a key of their own and with an empty name, or nothing at all and another wrapping.
  lemma OwnKeyPasses(lib: Library, userKey: SymmetricKey, v: ServerVault, p: PlainVault, wrapping: string, recorded: Option<string>)
    requires lib.Lawful() && VaultSealed(lib, userKey, v, p)
    ensures Check(lib, Account(v, Some(wrapping)), userKey, recorded) == Session.Valid
       <==> (v.privateKey.Some?
             || (exists i :: 0 <= i < |v.ciphers| && var c := v.ciphers[i];
                   !c.deleted && c.organizationId.None? && (c.key.Some? || (c.name.Some? && c.name.value != "")))
             || ((forall i :: 0 <= i < |v.ciphers| ==> var c := v.ciphers[i];
                    c.deleted || c.organizationId.Some? || (c.key.None? && c.name.None?))
                 && recorded == Some(wrapping)))
  {
    hide Opens;
    hide ProbeOpens;
    hide ItemSealed;
    hide HasWrappedPrivateKey;
    OwnPrivateKey(lib, userKey, v, p.rsa);
    forall i | 0 <= i < |v.ciphers| && Probed(v.ciphers[i])
      ensures ProbeOpens(lib, v.ciphers[i], userKey) <==> Tells(v.ciphers[i])
    {
      OwnProbe(lib, userKey, p, v.ciphers[i], p.items[i]);
    }
  }

  // One personal item without a key of its own, and with an empty name.
  function UnnamedVault(): ServerVault {
    var c := ServerCipher(false, None, None, None, None, None, None, None, None, None, Some(""), None, None, None, None, None, [], []);
    ServerVault([c], [], [], None)
  }

  function UnnamedPlain(userKey: SymmetricKey): PlainVault {
    var content := Content("", 1, false, None, None, None, None, None, "", None, None, None, None, None, [], []);
    PlainVault([PlainItem(false, userKey, content)], [], [], None)
  }

  // Its own key, just retained, is taken for a stale one.
  lemma UnnamedItemFails(lib: Library, userKey: SymmetricKey, wrapping: string)
    ensures VaultSealed(lib, userKey, UnnamedVault(), UnnamedPlain(userKey))
    ensures Check(lib, Account(UnnamedVault(), Some(wrapping)), userKey, Some(wrapping)) == Session.Stale
  {
    var v := UnnamedVault();
    PersonalBase(UnnamedPlain(userKey), userKey, v.ciphers[0]);
    EmptyNeverOpens(lib, userKey);
    assert Probed(v.ciphers[0]);
  }

  // ----- another key -----

  // A text that another key cannot verify.
  predicate Foreign(lib: Library, text: string, other: SymmetricKey) {
    match Parse(text)
    case Err(_) => true
    case Ok(e) => e.mac.None? || other.mac.None? || e.mac.value != lib.hmac(other.mac.value, e.iv + e.ciphertext)
  }

  // The type that encryption prints opens nothing without its MAC.
  lemma UnverifiedNeverOpens(lib: Library, e: EncString, other: SymmetricKey)
    requires e.encType == 2
    requires e.mac.None? || other.mac.None? || e.mac.value != lib.hmac(other.mac.value, e.iv + e.ciphertext)
    ensures Decrypt(lib, e, other).Err?
  {
  }

  lemma ForeignNeverOpens(lib: Library, key: SymmetricKey, text: string, plaintext: Bytes, other: SymmetricKey)
    requires Foreign(lib, text, other) && SealedUnder(lib, key, text, plaintext)
    ensures !Opens(lib, text, other)
  {
    hide Parse;
    hide Decrypt;
    hide SealedText;
    var iv: Block :| text == SealedText(lib, key.enc, key.mac.value, iv, plaintext);
    ParseSealed(lib, key.enc, key.mac.value, iv, plaintext);
    UnverifiedNeverOpens(lib, Parse(text).value, other);
  }

  predicate ForeignProbe(lib: Library, c: ServerCipher, other: SymmetricKey) {
    (c.key.Some? ==> Foreign(lib, c.key.value, other)) && (c.name.Some? ==> Foreign(lib, c.name.value, other))
  }

  lemma ForeignProbeFails(lib: Library, userKey: SymmetricKey, p: PlainVault, c: ServerCipher, item: PlainItem, other: SymmetricKey)
    requires ItemSealed(lib, PlainContext(p, userKey), c, item) && Probed(c) && ForeignProbe(lib, c, other)
    ensures !ProbeOpens(lib, c, other)
  {
    hide Opens;
    hide Foreign;
    EmptyNeverOpens(lib, other);
    if c.key.Some? {
      var b := PersonalKey(lib, userKey, p, c, item);
      ForeignNeverOpens(lib, userKey, c.key.value, b, other);
    }
    if c.name.Some? {
      var b := SealedName(lib, userKey, p, c, item);
      if c.name.value != "" {
        ForeignNeverOpens(lib, item.key, c.name.value, b, other);
      }
    }
  }

  // A key that verifies none of the texts it is checked against passes only where there is nothing
  // to check and the recorded wrapping is the account's.
  lemma StrangerFails(lib: Library, userKey: SymmetricKey, v: ServerVault, p: PlainVault, wrapping: string,
                      other: SymmetricKey, recorded: Option<string>)
    requires lib.Lawful() && VaultSealed(lib, userKey, v, p)
    requires v.privateKey.Some? ==> Foreign(lib, v.privateKey.value, other)
    requires forall i :: 0 <= i < |v.ciphers| && Probed(v.ciphers[i]) ==> ForeignProbe(lib, v.ciphers[i], other)
    ensures Check(lib, Account(v, Some(wrapping)), other, recorded) == Session.Valid
       <==> (v.privateKey.None? && recorded == Some(wrapping)
             && forall i :: 0 <= i < |v.ciphers| ==> var c := v.ciphers[i];
                  c.deleted || c.organizationId.Some? || (c.key.None? && c.name.None?))
  {
    hide Opens;
    hide ProbeOpens;
    hide ItemSealed;
    hide Foreign;
    hide ForeignProbe;
    hide HasWrappedPrivateKey;
    OwnPrivateKey(lib, userKey, v, p.rsa);
    if v.privateKey.Some? {
      var der: Bytes :| SealedUnder(lib, userKey, v.privateKey.value, der);
      ForeignNeverOpens(lib, userKey, v.privateKey.value, der, other);
    }
    forall i | 0 <= i < |v.ciphers| && Probed(v.ciphers[i])
      ensures !ProbeOpens(lib, v.ciphers[i], other)
    {
      ForeignProbeFails(lib, userKey, p, v.ciphers[i], p.items[i], other);
    }
  }
}
