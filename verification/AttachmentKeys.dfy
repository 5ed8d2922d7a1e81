/**
 The key of one attachment, which the daemon looks up afresh: by the first organisation entry of
 an id, where decryption of the vault lets the last one that gives a key win. Exactly when the
 two agree, and that a sealed vault and an uploaded blob then give the attachment back.
 */
module AttachmentKeys {
  import opened Results
  import opened Primitives
  import opened EncStrings
  import opened Vault
  import opened VaultSealing
  import Attachments
  import Cbc
  import Keys

  // The first entry of an id.
  function FindId(ids: seq<Option<string>>, id: string): (r: Option<nat>)
    ensures r.Some? ==> r.value < |ids| && ids[r.value] == Some(id)
    ensures forall i :: 0 <= i < (if r.Some? then r.value else |ids|) ==> ids[i] != Some(id)
  {
    if ids == [] then None
    else
      var n := |ids| - 1;
      var found := FindId(ids[..n], id);
      if found.Some? then found else if ids[n] == Some(id) then Some(n) else None
  }

  function FindOrganization(orgs: seq<ServerOrganization>, id: string): Option<nat> {
    FindId(seq(|orgs|, i requires 0 <= i < |orgs| => orgs[i].id), id)
  }

  function FindCipher(ciphers: seq<ServerCipher>, id: string): Option<nat> {
    FindId(seq(|ciphers|, i requires 0 <= i < |ciphers| => ciphers[i].id), id)
  }

  function FindAttachment(attachments: seq<ServerAttachment>, id: string): Option<nat> {
    FindId(seq(|attachments|, i requires 0 <= i < |attachments| => attachments[i].id), id)
  }

  function FirstBaseKey(lib: Library, v: ServerVault, userKey: SymmetricKey, organizationId: Option<string>): SymmetricKey {
    if organizationId.None? then userKey
    else
      match FindOrganization(v.organizations, organizationId.value)
      case None => userKey
      case Some(i) =>
        var key := v.organizations[i].key;
        if key.None? then userKey
        else OrElse(OrganizationKey(lib, key.value, userKey, PrivateKey(lib, v.privateKey, userKey)), userKey)
  }

  // The item's key, and under it, or under the user key, the attachment's own.
  function Resolve(lib: Library, v: ServerVault, userKey: SymmetricKey, itemId: string, attachmentId: string): Option<SymmetricKey> {
    match FindCipher(v.ciphers, itemId)
    case None => None
    case Some(i) =>
      var c := v.ciphers[i];
      var itemKey := UnwrapKey(lib, c.key, FirstBaseKey(lib, v, userKey, c.organizationId), userKey);
      match FindAttachment(c.attachments, attachmentId)
      case None => Some(itemKey)
      case Some(j) => Some(UnwrapKey(lib, c.attachments[j].key, itemKey, userKey))
  }

  // ----- base keys -----

  // The key an entry gives for an id: none if it is another's, has no key, or its key does not open.
  function EntryKey(lib: Library, o: ServerOrganization, userKey: SymmetricKey, rsa: Option<Bytes>, id: string): Option<SymmetricKey> {
    if o.id == Some(id) && o.key.Some? then OrganizationKey(lib, o.key.value, userKey, rsa) else None
  }

  function EntryKeys(lib: Library, orgs: seq<ServerOrganization>, userKey: SymmetricKey, rsa: Option<Bytes>, id: string)
    : (keys: seq<Option<SymmetricKey>>)
    ensures |keys| == |orgs|
  {
    seq(|orgs|, i requires 0 <= i < |orgs| => EntryKey(lib, orgs[i], userKey, rsa, id))
  }

  function LastGiving(keys: seq<Option<SymmetricKey>>): (r: Option<nat>)
    ensures r.Some? ==> r.value < |keys| && keys[r.value].Some?
    ensures forall i :: (if r.Some? then r.value + 1 else 0) <= i < |keys| ==> keys[i].None?
  {
    if keys == [] then None
    else if keys[|keys| - 1].Some? then Some(|keys| - 1)
    else LastGiving(keys[..|keys| - 1])
  }

  // Decryption of the vault uses the last entry that gives a key, whatever follows it.
  lemma {:induction false} LastKeyIs(lib: Library, orgs: seq<ServerOrganization>, userKey: SymmetricKey, rsa: Option<Bytes>, id: string)
    ensures var keys := EntryKeys(lib, orgs, userKey, rsa, id);
            var j := LastGiving(keys);
            Lookup(OrganizationKeys(lib, orgs, userKey, rsa), Some(id)) == if j.Some? then keys[j.value] else None
  {
    hide OrganizationKey;
    if orgs != [] {
      var n := |orgs| - 1;
      LastKeyIs(lib, orgs[..n], userKey, rsa, id);
      assert EntryKeys(lib, orgs, userKey, rsa, id)[..n] == EntryKeys(lib, orgs[..n], userKey, rsa, id);
    }
  }

  // The daemon's lookup uses the first entry, or the user key where that gives none.
  lemma FirstKeyIs(lib: Library, v: ServerVault, userKey: SymmetricKey, id: string)
    ensures var keys := EntryKeys(lib, v.organizations, userKey, PrivateKey(lib, v.privateKey, userKey), id);
            var i := FindOrganization(v.organizations, id);
            FirstBaseKey(lib, v, userKey, Some(id)) == if i.Some? then OrElse(keys[i.value], userKey) else userKey
  {
    hide OrganizationKey;
    hide PrivateKey;
  }

  lemma GivingIsFound(lib: Library, orgs: seq<ServerOrganization>, userKey: SymmetricKey, rsa: Option<Bytes>, id: string, j: nat)
    requires j < |orgs| && EntryKeys(lib, orgs, userKey, rsa, id)[j].Some?
    ensures orgs[j].id == Some(id) && FindOrganization(orgs, id).Some? && FindOrganization(orgs, id).value <= j
  {
    hide OrganizationKey;
    var ids := seq(|orgs|, n requires 0 <= n < |orgs| => orgs[n].id);
    assert ids[j] == Some(id);
  }

  // The two agree if and only if no entry of the id gives a key, or the last that does gives the
  // key of the first entry, or the user key where the first entry gives none.
  lemma BaseKeysAgreeExactly(lib: Library, v: ServerVault, userKey: SymmetricKey, id: string)
    ensures var keys := EntryKeys(lib, v.organizations, userKey, PrivateKey(lib, v.privateKey, userKey), id);
            var i, j := FindOrganization(v.organizations, id), LastGiving(keys);
            FirstBaseKey(lib, v, userKey, Some(id)) == BaseKey(ContextOf(lib, v, userKey), Some(id))
            <==> (j.Some? && i.Some? ==> keys[j.value].value == OrElse(keys[i.value], userKey))
  {
    hide OrganizationKeys;
    hide LastGiving;
    hide FirstBaseKey;
    hide PrivateKey;
    hide EntryKeys;
    var orgs, rsa := v.organizations, PrivateKey(lib, v.privateKey, userKey);
    FirstKeyIs(lib, v, userKey, id);
    LastKeyIs(lib, orgs, userKey, rsa, id);
    var j := LastGiving(EntryKeys(lib, orgs, userKey, rsa, id));
    if j.Some? {
      GivingIsFound(lib, orgs, userKey, rsa, id, j.value);
    }
  }

  predicate OnceAtMost(orgs: seq<ServerOrganization>, id: string) {
    forall i, j :: 0 <= i < j < |orgs| ==> orgs[i].id != Some(id) || orgs[j].id != Some(id)
  }

  // An organisation listed once has one key, whichever way it is looked up.
  lemma BaseKeysAgree(lib: Library, v: ServerVault, userKey: SymmetricKey, organizationId: Option<string>)
    requires organizationId.Some? ==> OnceAtMost(v.organizations, organizationId.value)
    ensures FirstBaseKey(lib, v, userKey, organizationId) == BaseKey(ContextOf(lib, v, userKey), organizationId)
  {
    hide OrganizationKeys;
    hide FirstBaseKey;
    hide EntryKeys;
    hide PrivateKey;
    if organizationId.None? {
      NoOrganization(lib, v, userKey);
    } else {
      var orgs, id, rsa := v.organizations, organizationId.value, PrivateKey(lib, v.privateKey, userKey);
      BaseKeysAgreeExactly(lib, v, userKey, id);
      var i, j := FindOrganization(orgs, id), LastGiving(EntryKeys(lib, orgs, userKey, rsa, id));
      if j.Some? {
        GivingIsFound(lib, orgs, userKey, rsa, id, j.value);
        assert orgs[i.value].id == Some(id);
      }
    }
  }

  lemma NoOrganization(lib: Library, v: ServerVault, userKey: SymmetricKey)
    ensures FirstBaseKey(lib, v, userKey, None) == BaseKey(ContextOf(lib, v, userKey), None) == userKey
  {
    hide OrganizationKeys;
  }

  // ----- item keys -----

  // A key that made a text, or that does not verify it.
  predicate MadeOrDisowns(lib: Library, key: SymmetricKey, maker: SymmetricKey, iv: Block, b: Bytes)
    requires maker.mac.Some?
  {
    key == maker || Disowned(lib, key, maker.mac.value, iv + Cbc.SealPadded(lib, maker.enc, iv, b))
  }

  // A key wrapped under `maker` unwraps where the base or the user key is its maker; elsewhere the
  // base key itself is taken for it.
  lemma UnwrapWrapped(lib: Library, maker: SymmetricKey, iv: Block, b: Bytes, k: SymmetricKey, base: SymmetricKey, userKey: SymmetricKey)
    requires lib.Lawful() && maker.mac.Some? && Keys.IsCarrier(b, k)
    requires MadeOrDisowns(lib, base, maker, iv, b) && MadeOrDisowns(lib, userKey, maker, iv, b)
    ensures UnwrapKey(lib, Some(SealedText(lib, maker.enc, maker.mac.value, iv, b)), base, userKey)
         == if base == maker || userKey == maker then k else base
  {
    hide Parse;
    hide Decrypt;
    var enc, mac := maker.enc, maker.mac.value;
    assert maker == SymmetricKey(enc, Some(mac));
    DecryptSealed(lib, enc, mac, iv, b);
    Keys.CarrierParses(lib, b, k);
    if base != maker {
      RefuseSealed(lib, enc, mac, iv, b, base);
    }
    if userKey != maker {
      RefuseSealed(lib, enc, mac, iv, b, userKey);
    }
  }

  function ItemKeyOfTexts(lib: Library, v: ServerVault, userKey: SymmetricKey, c: ServerCipher): SymmetricKey {
    ItemKey(lib, c, BaseKey(ContextOf(lib, v, userKey), c.organizationId), userKey)
  }

  function ItemKeyOfAttachments(lib: Library, v: ServerVault, userKey: SymmetricKey, c: ServerCipher): SymmetricKey {
    UnwrapKey(lib, c.key, FirstBaseKey(lib, v, userKey, c.organizationId), userKey)
  }

  // The texts of an organisation's item without a key of its own lie under one key and its
  // attachments under another if and only if some entry of the organisation gives a key and the
  // last such key is not the first entry's, nor the user key where the first entry gives none.
  lemma ItemKeysAgree(lib: Library, v: ServerVault, userKey: SymmetricKey, c: ServerCipher)
    requires c.key.None? && c.organizationId.Some?
    ensures var id := c.organizationId.value;
            var keys := EntryKeys(lib, v.organizations, userKey, PrivateKey(lib, v.privateKey, userKey), id);
            var i, j := FindOrganization(v.organizations, id), LastGiving(keys);
            ItemKeyOfTexts(lib, v, userKey, c) != ItemKeyOfAttachments(lib, v, userKey, c)
            <==> (i.Some? && j.Some? && keys[j.value].value != OrElse(keys[i.value], userKey))
  {
    hide FirstBaseKey;
    hide BaseKey;
    hide ContextOf;
    hide EntryKeys;
    hide PrivateKey;
    BaseKeysAgreeExactly(lib, v, userKey, c.organizationId.value);
  }

  // An item with a key of its own, wrapped under any key, keeps one key if and only if the user key
  // wrapped it, or the base keys agree, or the one base key that did not wrap it is the item's key.
  lemma KeyedItemKeysAgree(lib: Library, v: ServerVault, userKey: SymmetricKey, c: ServerCipher,
                           maker: SymmetricKey, iv: Block, b: Bytes, k: SymmetricKey)
    requires lib.Lawful() && maker.mac.Some? && Keys.IsCarrier(b, k)
    requires c.key == Some(SealedText(lib, maker.enc, maker.mac.value, iv, b))
    requires MadeOrDisowns(lib, userKey, maker, iv, b)
    requires MadeOrDisowns(lib, FirstBaseKey(lib, v, userKey, c.organizationId), maker, iv, b)
    requires MadeOrDisowns(lib, BaseKey(ContextOf(lib, v, userKey), c.organizationId), maker, iv, b)
    ensures var first, last := FirstBaseKey(lib, v, userKey, c.organizationId), BaseKey(ContextOf(lib, v, userKey), c.organizationId);
            ItemKeyOfTexts(lib, v, userKey, c) == ItemKeyOfAttachments(lib, v, userKey, c)
            <==> (userKey == maker || first == last || (first == maker && last == k) || (last == maker && first == k))
  {
    hide UnwrapKey;
    hide FirstBaseKey;
    hide BaseKey;
    hide ContextOf;
    hide MadeOrDisowns;
    hide SealedText;
    UnwrapWrapped(lib, maker, iv, b, k, FirstBaseKey(lib, v, userKey, c.organizationId), userKey);
    UnwrapWrapped(lib, maker, iv, b, k, BaseKey(ContextOf(lib, v, userKey), c.organizationId), userKey);
  }

  // ----- an organisation listed twice -----

  function Wrapped(lib: Library, userKey: SymmetricKey, iv: Block, k: SymmetricKey): string
    requires userKey.mac.Some?
  {
    SealedText(lib, userKey.enc, userKey.mac.value, iv, Keys.RawBytes(k))
  }

  lemma WrappedGives(lib: Library, userKey: SymmetricKey, iv: Block, k: SymmetricKey, id: string)
    requires lib.Lawful() && userKey.mac.Some?
    ensures EntryKey(lib, ServerOrganization(Some(id), None, Some(Wrapped(lib, userKey, iv, k))), userKey, None, id) == Some(k)
  {
    assert Keys.IsCarrier(Keys.RawBytes(k), k) && SealedUnder(lib, userKey, Wrapped(lib, userKey, iv, k), Keys.RawBytes(k));
    OpenWrappedKey(lib, userKey, None, Wrapped(lib, userKey, iv, k), k);
  }

  // Two entries with a key each, and one item with a name under the current key and an attachment.
  function TwiceListed(lib: Library, userKey: SymmetricKey, iv: Block, stale: SymmetricKey, current: SymmetricKey, name: string): ServerVault
    requires userKey.mac.Some? && current.mac.Some?
  {
    var text := SealedText(lib, current.enc, current.mac.value, iv, lib.utf8Encode(name));
    var c := ServerCipher(false, Some("item"), None, None, None, None, None, Some("org"), None, None, Some(text), None,
                          None, None, None, None, [], [ServerAttachment(Some("file"), None, None, None, None)]);
    ServerVault([c], [], [ServerOrganization(Some("org"), None, Some(Wrapped(lib, userKey, iv, stale))),
                          ServerOrganization(Some("org"), None, Some(Wrapped(lib, userKey, iv, current)))], None)
  }

  // The item's name is read under the current key, and its attachment is looked up under the stale one.
  lemma TwoEntriesDisagree(lib: Library, userKey: SymmetricKey, iv: Block, stale: SymmetricKey, current: SymmetricKey, name: string)
    requires lib.Lawful() && userKey.mac.Some? && current.mac.Some?
    ensures var v := TwiceListed(lib, userKey, iv, stale, current, name);
            && DecryptItem(lib, ContextOf(lib, v, userKey), v.ciphers[0]).content.name == name
            && ItemKeyOfTexts(lib, v, userKey, v.ciphers[0]) == current
            && Resolve(lib, v, userKey, "item", "file") == Some(stale)
  {
    hide OrganizationKey;
    hide OrganizationKeys;
    hide SealedText;
    hide DecryptText;
    var v := TwiceListed(lib, userKey, iv, stale, current, name);
    var orgs, c := v.organizations, v.ciphers[0];
    WrappedGives(lib, userKey, iv, stale, "org");
    WrappedGives(lib, userKey, iv, current, "org");
    LastKeyIs(lib, orgs, userKey, None, "org");
    FirstKeyIs(lib, v, userKey, "org");
    assert FindOrganization(orgs, "org") == Some(0) by {
      var ids := seq(|orgs|, i requires 0 <= i < |orgs| => orgs[i].id);
      assert ids[0] == Some("org");
    }
    assert FindCipher(v.ciphers, "item") == Some(0) by {
      var ids := seq(|v.ciphers|, i requires 0 <= i < |v.ciphers| => v.ciphers[i].id);
      assert ids[0] == Some("item");
    }
    assert FindAttachment(c.attachments, "file") == Some(0) by {
      var ids := seq(|c.attachments|, i requires 0 <= i < |c.attachments| => c.attachments[i].id);
      assert ids[0] == Some("file");
    }
    assert BaseKey(ContextOf(lib, v, userKey), Some("org")) == current;
    assert DecryptText(lib, c.name, current) == Some(name) by {
      assert SealedUnder(lib, current, c.name.value, lib.utf8Encode(name));
      OpenText(lib, current, c.name, Some(name));
    }
  }

  // ----- a sealed vault and its attachments -----

  // The lookup finds the key an attachment was sealed with: its own, under the item's key or the
  // user's, or the item's key.
  lemma ResolvesSealed(lib: Library, userKey: SymmetricKey, v: ServerVault, p: PlainVault,
                       itemId: string, attachmentId: string, k: SymmetricKey)
    requires lib.Lawful() && VaultSealed(lib, userKey, v, p)
    requires var i := FindCipher(v.ciphers, itemId);
             i.Some? && i.value < |v.ciphers| && !v.ciphers[i.value].deleted
             && (v.ciphers[i.value].organizationId.Some? ==> OnceAtMost(v.organizations, v.ciphers[i.value].organizationId.value))
    requires var i := FindCipher(v.ciphers, itemId).value;
             var j := FindAttachment(v.ciphers[i].attachments, attachmentId);
             if j.None? then k == p.items[i].key
             else OwnKeySealed(lib, v.ciphers[i].attachments[j.value].key, p.items[i].key, userKey, k)
    ensures Resolve(lib, v, userKey, itemId, attachmentId) == Some(k)
  {
    hide UnwrapKey;
    hide OwnKeySealed;
    var i := FindCipher(v.ciphers, itemId).value;
    var c, item := v.ciphers[i], p.items[i];
    OpenContext(lib, userKey, v, p);
    BaseKeysAgree(lib, v, userKey, c.organizationId);
    assert ItemSealed(lib, PlainContext(p, userKey), c, item);
    OpenOwnKey(lib, c.key, BaseKey(PlainContext(p, userKey), c.organizationId), userKey, item.key);
    var j := FindAttachment(c.attachments, attachmentId);
    if j.Some? {
      OpenOwnKey(lib, c.attachments[j.value].key, item.key, userKey, k);
    }
  }

  // From the vault to the file: look the key up, then open the blob with it.
  function Open(lib: Library, v: ServerVault, userKey: SymmetricKey, itemId: string, attachmentId: string, blob: Bytes)
    : Option<Result<Bytes, CryptoError>>
  {
    match Resolve(lib, v, userKey, itemId, attachmentId)
    case None => None
    case Some(k) => Some(Attachments.DecryptBlob(lib, blob, k))
  }

  lemma OpenUploaded(lib: Library, userKey: SymmetricKey, v: ServerVault, p: PlainVault, itemId: string, attachmentId: string,
                     enc: Key32, mac: Key32, iv: Block, plaintext: Bytes)
    requires lib.Lawful() && VaultSealed(lib, userKey, v, p)
    requires var i := FindCipher(v.ciphers, itemId);
             i.Some? && i.value < |v.ciphers| && !v.ciphers[i.value].deleted
             && (v.ciphers[i.value].organizationId.Some? ==> OnceAtMost(v.organizations, v.ciphers[i.value].organizationId.value))
    requires var i := FindCipher(v.ciphers, itemId).value;
             var j := FindAttachment(v.ciphers[i].attachments, attachmentId);
             if j.None? then SymmetricKey(enc, Some(mac)) == p.items[i].key
             else OwnKeySealed(lib, v.ciphers[i].attachments[j.value].key, p.items[i].key, userKey, SymmetricKey(enc, Some(mac)))
    ensures Open(lib, v, userKey, itemId, attachmentId, Attachments.Pack(lib, Attachments.Headed, enc, mac, iv, plaintext))
         == Some(Ok(plaintext))
  {
    hide Resolve;
    hide Attachments.DecryptBlob;
    hide Attachments.Pack;
    ResolvesSealed(lib, userKey, v, p, itemId, attachmentId, SymmetricKey(enc, Some(mac)));
    Attachments.HeadedRoundTrip(lib, enc, mac, iv, plaintext);
  }
}
