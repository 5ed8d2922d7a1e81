/**
 What a client does when it encrypts a vault, and the law that decryption undoes it:
 every live item comes back, in order, with its original texts, folder and organisation.
 */
module VaultSealing {
  import opened Results
  import opened Primitives
  import opened Texts
  import opened EncStrings
  import opened Vault
  import Base64
  import Cbc
  import Keys

  // ----- the plain vault -----

  datatype PlainFolder = PlainFolder(id: Option<string>, name: string)

  datatype PlainOrganization = PlainOrganization(id: Option<string>, name: Option<string>, key: Option<SymmetricKey>)

  datatype PlainItem = PlainItem(deleted: bool, key: SymmetricKey, content: Content)

  datatype PlainVault = PlainVault(
    items: seq<PlainItem>, folders: seq<PlainFolder>, organizations: seq<PlainOrganization>, rsa: Option<Bytes>)

  function PlainFolderNames(folders: seq<PlainFolder>): map<string, string> {
    if folders == [] then map[]
    else
      var rest, f := PlainFolderNames(folders[..|folders| - 1]), folders[|folders| - 1];
      if f.id.Some? then rest[f.id.value := f.name] else rest
  }

  function PlainOrganizationNames(orgs: seq<PlainOrganization>): map<string, string> {
    if orgs == [] then map[]
    else
      var rest, o := PlainOrganizationNames(orgs[..|orgs| - 1]), orgs[|orgs| - 1];
      if o.id.Some? && o.name.Some? then rest[o.id.value := o.name.value] else rest
  }

  function PlainOrganizationKeys(orgs: seq<PlainOrganization>): map<string, SymmetricKey> {
    if orgs == [] then map[]
    else
      var rest, o := PlainOrganizationKeys(orgs[..|orgs| - 1]), orgs[|orgs| - 1];
      if o.id.Some? && o.key.Some? then rest[o.id.value := o.key.value] else rest
  }

  function PlainContext(p: PlainVault, userKey: SymmetricKey): Context {
    Context(userKey, PlainFolderNames(p.folders), PlainOrganizationNames(p.organizations), PlainOrganizationKeys(p.organizations))
  }

  // The items a user should see: the live ones, in order, with their folder and organisation.
  function LiveItems(ctx: Context, items: seq<PlainItem>): seq<VaultItem> {
    if items == [] then []
    else
      var rest, i := LiveItems(ctx, items[..|items| - 1]), items[|items| - 1];
      if i.deleted then rest
      else rest + [VaultItem(i.content, Lookup(ctx.folderNames, i.content.folderId),
                             Lookup(ctx.organizationNames, i.content.organizationId))]
  }

  // ----- sealing -----

  ghost predicate SealedUnder(lib: Library, key: SymmetricKey, text: string, plaintext: Bytes) {
    key.mac.Some? && exists iv: Block :: text == SealedText(lib, key.enc, key.mac.value, iv, plaintext)
  }

  // A missing text stays missing and an empty one may be left as it is.
  ghost predicate TextSealed(lib: Library, key: SymmetricKey, text: Option<string>, plain: Option<string>) {
    match (text, plain)
    case (None, None) => true
    case (Some(s), Some(t)) => (s == "" && t == "") || SealedUnder(lib, key, s, lib.utf8Encode(t))
    case _ => false
  }

  // A text whose absence reads as a default.
  ghost predicate DefaultSealed(lib: Library, key: SymmetricKey, text: Option<string>, plain: string, default: string) {
    if text.None? then plain == default else TextSealed(lib, key, text, Some(plain))
  }

  ghost predicate TextsSealed(lib: Library, key: SymmetricKey, texts: seq<Option<string>>, plain: seq<Option<string>>) {
    |texts| == |plain| && forall i :: 0 <= i < |texts| ==> TextSealed(lib, key, texts[i], plain[i])
  }

  ghost predicate SectionSealed(lib: Library, key: SymmetricKey, used: bool,
                                section: Option<seq<Option<string>>>, plain: Option<seq<Option<string>>>) {
    if used && section.Some? then plain.Some? && TextsSealed(lib, key, section.value, plain.value) else plain.None?
  }

  // Entries without a password are not kept.
  ghost predicate HistorySealed(lib: Library, key: SymmetricKey, history: seq<ServerHistory>, plain: seq<History>) {
    if history == [] then plain == []
    else
      var rest, h := history[..|history| - 1], history[|history| - 1];
      if h.password.None? then HistorySealed(lib, key, rest, plain)
      else
        plain != [] && HistorySealed(lib, key, rest, plain[..|plain| - 1])
        && plain[|plain| - 1].lastUsed == h.lastUsed
        && TextSealed(lib, key, h.password, Some(plain[|plain| - 1].password))
  }

  ghost predicate LoginSealed(lib: Library, key: SymmetricKey, l: ServerLogin, plain: Login) {
    && TextSealed(lib, key, l.username, plain.username)
    && TextSealed(lib, key, l.password, plain.password)
    && TextSealed(lib, key, l.totp, plain.totp)
    && TextsSealed(lib, key, l.uris, plain.uris)
    && HistorySealed(lib, key, l.history, plain.history)
    && plain.hasPasskey == (l.fido2 != [])
    && plain.passkeyCreated == if l.fido2 != [] then l.fido2[0] else None
  }

  ghost predicate FieldSealed(lib: Library, key: SymmetricKey, f: ServerField, plain: CustomField) {
    && DefaultSealed(lib, key, f.name, plain.name, "")
    && DefaultSealed(lib, key, f.value, plain.value, "")
    && plain.fieldType == OrElse(f.fieldType, 0)
  }

  ghost predicate AttachmentSealed(lib: Library, key: SymmetricKey, a: ServerAttachment, plain: Attachment) {
    && DefaultSealed(lib, key, a.fileName, plain.fileName, "")
    && plain.id == OrElse(a.id, "") && plain.size == OrElse(a.size, "0") && plain.url == OrElse(a.url, "")
  }

  ghost predicate DetailsSealed(lib: Library, key: SymmetricKey, c: ServerCipher, plain: Content) {
    && (if plain.itemType == 1 && c.login.Some?
        then plain.login.Some? && LoginSealed(lib, key, c.login.value, plain.login.value)
        else plain.login.None?)
    && SectionSealed(lib, key, plain.itemType == 3, c.card, plain.card)
    && SectionSealed(lib, key, plain.itemType == 4, c.identity, plain.identity)
    && SectionSealed(lib, key, plain.itemType == 5, c.sshKey, plain.sshKey)
    && |c.fields| == |plain.fields|
    && (forall i :: 0 <= i < |c.fields| ==> FieldSealed(lib, key, c.fields[i], plain.fields[i]))
    && |c.attachments| == |plain.attachments|
    && (forall i :: 0 <= i < |c.attachments| ==> AttachmentSealed(lib, key, c.attachments[i], plain.attachments[i]))
  }

  ghost predicate ContentSealed(lib: Library, key: SymmetricKey, c: ServerCipher, plain: Content) {
    && plain.id == OrElse(c.id, "") && plain.itemType == OrElse(c.itemType, 1)
    && plain.favorite == OrElse(c.favorite, false)
    && plain.created == c.created && plain.updated == c.updated && plain.folderId == c.folderId
    && plain.organizationId == c.organizationId && plain.collectionIds == c.collectionIds
    && DefaultSealed(lib, key, c.name, plain.name, "Untitled")
    && TextSealed(lib, key, c.notes, plain.notes)
    && DetailsSealed(lib, key, c, plain)
  }

  // A key stored under another key, in either of its carriers.
  ghost predicate KeySealed(lib: Library, wrapping: SymmetricKey, text: string, k: SymmetricKey) {
    exists b: Bytes :: Keys.IsCarrier(b, k) && SealedUnder(lib, wrapping, text, b)
  }

  // An item key stored under the user key although the item has another base key: the base
  // key is tried first, so it must not verify the user key's MAC.
  ghost predicate KeySealedAside(lib: Library, base: SymmetricKey, userKey: SymmetricKey, text: string, k: SymmetricKey) {
    userKey.mac.Some? &&
    exists b: Bytes, iv: Block ::
      Keys.IsCarrier(b, k) && text == SealedText(lib, userKey.enc, userKey.mac.value, iv, b)
      && Disowned(lib, base, userKey.mac.value, iv + Cbc.SealPadded(lib, userKey.enc, iv, b))
  }

  predicate Disowned(lib: Library, other: SymmetricKey, mac: Key32, signed: Bytes) {
    other.mac.Some? ==> lib.hmac(other.mac.value, signed) != lib.hmac(mac, signed)
  }

  // A key of one's own, or the base key where there is none.
  ghost predicate OwnKeySealed(lib: Library, key: Option<string>, base: SymmetricKey, userKey: SymmetricKey, k: SymmetricKey) {
    match key
    case None => k == base
    case Some(s) => KeySealed(lib, base, s, k) || KeySealedAside(lib, base, userKey, s, k)
  }

  ghost predicate ItemKeySealed(lib: Library, ctx: Context, c: ServerCipher, k: SymmetricKey) {
    OwnKeySealed(lib, c.key, BaseKey(ctx, c.organizationId), ctx.userKey, k)
  }

  // The text of an RSA cipher string of type 3 to 6; types 5 and 6 may carry a MAC part.
  function RsaText(encType: nat, ct: Bytes, mac: Option<Bytes>): string
    requires 3 <= encType <= 6
  {
    [(48 + encType) as char] + "." + Base64.Encode(ct) + if mac.Some? then "|" + Base64.Encode(mac.value) else ""
  }

  // The hash a client pads with under each RSA type.
  function TypeHash(encType: nat): Hash
    requires 3 <= encType <= 6
  {
    match encType
    case 3 => Sha256
    case 4 => Sha1
    case 5 => Sha256
    case 6 => Sha1
  }

  ghost predicate RsaSealed(lib: Library, rsa: Bytes, text: string, k: SymmetricKey) {
    exists encType: nat, seed: Bytes, b: Bytes, mac: Option<Bytes> ::
      3 <= encType <= 6 && Keys.IsCarrier(b, k)
      && text == RsaText(encType, lib.oaepSeal(rsa, TypeHash(encType), seed, b), mac)
  }

  ghost predicate OrganizationSealed(lib: Library, userKey: SymmetricKey, rsa: Option<Bytes>,
                                     o: ServerOrganization, plain: PlainOrganization) {
    && o.id == plain.id && o.name == plain.name
    && match (o.key, plain.key)
       case (None, None) => true
       case (Some(s), Some(k)) => KeySealed(lib, userKey, s, k) || (rsa.Some? && RsaSealed(lib, rsa.value, s, k))
       case _ => false
  }

  ghost predicate PrivateKeySealed(lib: Library, userKey: SymmetricKey, text: Option<string>, rsa: Option<Bytes>) {
    if rsa.None? then text.None?
    else text.Some? && exists der: Bytes :: lib.parseRsa(der) == rsa && SealedUnder(lib, userKey, text.value, der)
  }

  ghost predicate FolderSealed(lib: Library, userKey: SymmetricKey, f: ServerFolder, plain: PlainFolder) {
    f.id == plain.id && DefaultSealed(lib, userKey, f.name, plain.name, "Folder")
  }

  ghost predicate ItemSealed(lib: Library, ctx: Context, c: ServerCipher, plain: PlainItem) {
    c.deleted == plain.deleted
    && (!c.deleted ==> ItemKeySealed(lib, ctx, c, plain.key) && ContentSealed(lib, plain.key, c, plain.content))
  }

  ghost predicate VaultSealed(lib: Library, userKey: SymmetricKey, v: ServerVault, p: PlainVault) {
    && PrivateKeySealed(lib, userKey, v.privateKey, p.rsa)
    && |v.folders| == |p.folders|
    && (forall i :: 0 <= i < |v.folders| ==> FolderSealed(lib, userKey, v.folders[i], p.folders[i]))
    && |v.organizations| == |p.organizations|
    && (forall i :: 0 <= i < |v.organizations| ==>
          OrganizationSealed(lib, userKey, p.rsa, v.organizations[i], p.organizations[i]))
    && |v.ciphers| == |p.items|
    && (forall i :: 0 <= i < |v.ciphers| ==> ItemSealed(lib, PlainContext(p, userKey), v.ciphers[i], p.items[i]))
  }

  // ----- decryption undoes sealing -----

  lemma OpenSealed(lib: Library, key: SymmetricKey, text: string, plaintext: Bytes)
    requires lib.Lawful() && SealedUnder(lib, key, text, plaintext)
    ensures var e := Parse(text); e.Ok? && e.value.encType == 2 && Decrypt(lib, e.value, key) == Ok(plaintext)
    ensures text != ""
  {
    var iv: Block :| text == SealedText(lib, key.enc, key.mac.value, iv, plaintext);
    ParseSealed(lib, key.enc, key.mac.value, iv, plaintext);
    DecryptSealed(lib, key.enc, key.mac.value, iv, plaintext);
  }

  lemma OpenText(lib: Library, key: SymmetricKey, text: Option<string>, plain: Option<string>)
    requires lib.Lawful() && TextSealed(lib, key, text, plain)
    ensures DecryptText(lib, text, key) == plain
  {
    if text.Some? && !(text.value == "" && plain.value == "") {
      OpenSealed(lib, key, text.value, lib.utf8Encode(plain.value));
    }
  }

  lemma OpenDefault(lib: Library, key: SymmetricKey, text: Option<string>, plain: string, default: string)
    requires lib.Lawful() && DefaultSealed(lib, key, text, plain, default)
    ensures OrElse(DecryptText(lib, text, key), default) == plain
  {
    if text.Some? {
      OpenText(lib, key, text, Some(plain));
    }
  }

  lemma OpenTexts(lib: Library, key: SymmetricKey, texts: seq<Option<string>>, plain: seq<Option<string>>)
    requires lib.Lawful() && TextsSealed(lib, key, texts, plain)
    ensures DecryptTexts(lib, texts, key) == plain
  {
    forall i | 0 <= i < |texts| ensures DecryptText(lib, texts[i], key) == plain[i] {
      OpenText(lib, key, texts[i], plain[i]);
    }
  }

  lemma {:induction false} OpenHistory(lib: Library, key: SymmetricKey, history: seq<ServerHistory>, plain: seq<History>)
    requires lib.Lawful() && HistorySealed(lib, key, history, plain)
    ensures DecryptHistory(lib, history, key) == plain
  {
    if history != [] {
      var rest, h := history[..|history| - 1], history[|history| - 1];
      if h.password.None? {
        OpenHistory(lib, key, rest, plain);
        assert DecryptText(lib, h.password, key) == None;
      } else {
        var init, last := plain[..|plain| - 1], plain[|plain| - 1];
        OpenHistory(lib, key, rest, init);
        assert DecryptText(lib, h.password, key) == Some(last.password) by {
          OpenText(lib, key, h.password, Some(last.password));
        }
        assert plain == init + [last];
      }
    }
  }

  lemma OpenLogin(lib: Library, key: SymmetricKey, l: ServerLogin, plain: Login)
    requires lib.Lawful() && LoginSealed(lib, key, l, plain)
    ensures DecryptLogin(lib, l, key) == plain
  {
    OpenText(lib, key, l.username, plain.username);
    OpenText(lib, key, l.password, plain.password);
    OpenText(lib, key, l.totp, plain.totp);
    OpenTexts(lib, key, l.uris, plain.uris);
    OpenHistory(lib, key, l.history, plain.history);
  }

  lemma OpenSection(lib: Library, key: SymmetricKey, used: bool,
                    section: Option<seq<Option<string>>>, plain: Option<seq<Option<string>>>)
    requires lib.Lawful() && SectionSealed(lib, key, used, section, plain)
    ensures (if used then DecryptSection(lib, section, key) else None) == plain
  {
    if used && section.Some? {
      OpenTexts(lib, key, section.value, plain.value);
    }
  }

  lemma OpenField(lib: Library, key: SymmetricKey, f: ServerField, plain: CustomField)
    requires lib.Lawful() && FieldSealed(lib, key, f, plain)
    ensures DecryptField(lib, f, key) == plain
  {
    OpenDefault(lib, key, f.name, plain.name, "");
    OpenDefault(lib, key, f.value, plain.value, "");
  }

  lemma OpenAttachment(lib: Library, key: SymmetricKey, a: ServerAttachment, plain: Attachment)
    requires lib.Lawful() && AttachmentSealed(lib, key, a, plain)
    ensures DecryptAttachment(lib, a, key) == plain
  {
    OpenDefault(lib, key, a.fileName, plain.fileName, "");
  }

  lemma OpenLists(lib: Library, key: SymmetricKey, c: ServerCipher, plain: Content)
    requires lib.Lawful() && DetailsSealed(lib, key, c, plain)
    ensures DecryptContent(lib, c, key).fields == plain.fields
    ensures DecryptContent(lib, c, key).attachments == plain.attachments
  {
    forall i | 0 <= i < |c.fields| ensures DecryptField(lib, c.fields[i], key) == plain.fields[i] {
      OpenField(lib, key, c.fields[i], plain.fields[i]);
    }
    forall i | 0 <= i < |c.attachments| ensures DecryptAttachment(lib, c.attachments[i], key) == plain.attachments[i] {
      OpenAttachment(lib, key, c.attachments[i], plain.attachments[i]);
    }
  }

  lemma OpenSections(lib: Library, key: SymmetricKey, c: ServerCipher, plain: Content)
    requires lib.Lawful() && DetailsSealed(lib, key, c, plain) && plain.itemType == OrElse(c.itemType, 1)
    ensures var d := DecryptContent(lib, c, key);
            d.login == plain.login && d.card == plain.card && d.identity == plain.identity && d.sshKey == plain.sshKey
  {
    if plain.login.Some? {
      OpenLogin(lib, key, c.login.value, plain.login.value);
    }
    OpenSection(lib, key, plain.itemType == 3, c.card, plain.card);
    OpenSection(lib, key, plain.itemType == 4, c.identity, plain.identity);
    OpenSection(lib, key, plain.itemType == 5, c.sshKey, plain.sshKey);
  }

  lemma OpenContent(lib: Library, key: SymmetricKey, c: ServerCipher, plain: Content)
    requires lib.Lawful() && ContentSealed(lib, key, c, plain)
    ensures DecryptContent(lib, c, key) == plain
  {
    OpenDefault(lib, key, c.name, plain.name, "Untitled");
    OpenText(lib, key, c.notes, plain.notes);
    OpenSections(lib, key, c, plain);
    OpenLists(lib, key, c, plain);
  }

  lemma OpenOwnKey(lib: Library, key: Option<string>, base: SymmetricKey, userKey: SymmetricKey, k: SymmetricKey)
    requires lib.Lawful() && OwnKeySealed(lib, key, base, userKey, k)
    ensures UnwrapKey(lib, key, base, userKey) == k
  {
    if key.Some? {
      var s := key.value;
      if KeySealed(lib, base, s, k) {
        var b: Bytes :| Keys.IsCarrier(b, k) && SealedUnder(lib, base, s, b);
        OpenSealed(lib, base, s, b);
        Keys.CarrierParses(lib, b, k);
      } else {
        var u, m := userKey, userKey.mac.value;
        var b: Bytes, iv: Block :| Keys.IsCarrier(b, k) && s == SealedText(lib, u.enc, m, iv, b)
          && Disowned(lib, base, m, iv + Cbc.SealPadded(lib, u.enc, iv, b));
        RefuseSealed(lib, u.enc, m, iv, b, base);
        DecryptSealed(lib, u.enc, m, iv, b);
        Keys.CarrierParses(lib, b, k);
      }
    }
  }

  lemma OpenItemKey(lib: Library, ctx: Context, c: ServerCipher, k: SymmetricKey)
    requires lib.Lawful() && ItemKeySealed(lib, ctx, c, k)
    ensures ItemKey(lib, c, BaseKey(ctx, c.organizationId), ctx.userKey) == k
  {
    OpenOwnKey(lib, c.key, BaseKey(ctx, c.organizationId), ctx.userKey, k);
  }

  lemma SplitRsaType(encType: nat, body: string)
    requires 3 <= encType <= 6 && (body != "" ==> !IsSpace(body[|body| - 1]))
    ensures var s := [(48 + encType) as char] + "." + body;
            Trim(s) == s && Find(s, '.') == 1 && s[2..] == body && ParseU32(s[..1]) == Some(encType)
  {
    var digit := [(48 + encType) as char];
    var s := digit + "." + body;
    assert s[|s| - 1] == if body != "" then body[|body| - 1] else '.';
    TrimNothing(s);
    assert s == digit + ['.'] + body;
    FindAfter(digit, '.', body);
    assert s[..1] == digit && digit[..0] == "";
    assert DecimalValue(digit) == encType;
  }

  lemma SplitRsaParts(first: string, rest: string)
    requires '|' !in first && (rest == "" || rest[0] == '|')
    ensures Split(first + rest, '|')[0] == first
  {
    if rest == "" {
      assert first + rest == first;
      SplitNone(first, '|');
    } else {
      assert first + rest == first + ['|'] + rest[1..];
      SplitStep(first, '|', rest[1..]);
    }
  }

  lemma ParseRsaBody(encType: nat, first: string, rest: string)
    requires 3 <= encType <= 6 && '|' !in first && (rest == "" || rest[0] == '|')
    requires first + rest != "" ==> !IsSpace((first + rest)[|first + rest| - 1])
    requires DecodePart(first).Ok?
    ensures Parse([(48 + encType) as char] + "." + (first + rest)) == Ok(EncString(encType, [], DecodePart(first).value, None))
  {
    SplitRsaType(encType, first + rest);
    SplitRsaParts(first, rest);
  }

  lemma ParseRsaPlain(encType: nat, first: string)
    requires 3 <= encType <= 6 && '|' !in first && (forall i :: 0 <= i < |first| ==> !IsSpace(first[i]))
    requires DecodePart(first).Ok?
    ensures Parse([(48 + encType) as char] + "." + first) == Ok(EncString(encType, [], DecodePart(first).value, None))
  {
    assert first + "" == first;
    ParseRsaBody(encType, first, "");
  }

  lemma ParseRsaWithMac(encType: nat, first: string, mac: string)
    requires 3 <= encType <= 6 && '|' !in first && (forall i :: 0 <= i < |mac| ==> !IsSpace(mac[i]))
    requires DecodePart(first).Ok?
    ensures Parse([(48 + encType) as char] + "." + first + ("|" + mac)) == Ok(EncString(encType, [], DecodePart(first).value, None))
  {
    hide Parse;
    hide DecodePart;
    var rest := "|" + mac;
    assert (first + rest)[|first + rest| - 1] == rest[|rest| - 1];
    ParseRsaBody(encType, first, rest);
    assert [(48 + encType) as char] + "." + first + rest == [(48 + encType) as char] + "." + (first + rest);
  }

  // An RSA text reads back as its type and ciphertext; a MAC part is ignored.
  lemma ParseRsaText(encType: nat, ct: Bytes, mac: Option<Bytes>)
    requires 3 <= encType <= 6
    ensures Parse(RsaText(encType, ct, mac)) == Ok(EncString(encType, [], ct, None))
  {
    var first := Base64.Encode(ct);
    EncodedPart(ct);
    if mac.Some? {
      EncodedPart(mac.value);
      ParseRsaWithMac(encType, first, Base64.Encode(mac.value));
    } else {
      var text := [(48 + encType) as char] + "." + first;
      ParseRsaPlain(encType, first);
      assert RsaText(encType, ct, mac) == text + "" == text;
    }
  }

  lemma OpenRsaCarrier(lib: Library, userKey: SymmetricKey, rsa: Bytes, encType: nat, seed: Bytes, b: Bytes, mac: Option<Bytes>)
    requires lib.Lawful() && 3 <= encType <= 6
    ensures OrganizationKey(lib, RsaText(encType, lib.oaepSeal(rsa, TypeHash(encType), seed, b), mac), userKey, Some(rsa))
         == Keys.ParseDecryptedKey(lib, b)
  {
    hide Parse;
    hide Keys.ParseDecryptedKey;
    ParseRsaText(encType, lib.oaepSeal(rsa, TypeHash(encType), seed, b), mac);
  }

  lemma OpenRsaKey(lib: Library, userKey: SymmetricKey, rsa: Bytes, s: string, k: SymmetricKey)
    requires lib.Lawful() && RsaSealed(lib, rsa, s, k)
    ensures OrganizationKey(lib, s, userKey, Some(rsa)) == Some(k)
  {
    var encType: nat, seed: Bytes, b: Bytes, mac: Option<Bytes> :|
      3 <= encType <= 6 && Keys.IsCarrier(b, k)
      && s == RsaText(encType, lib.oaepSeal(rsa, TypeHash(encType), seed, b), mac);
    OpenRsaCarrier(lib, userKey, rsa, encType, seed, b, mac);
    Keys.CarrierParses(lib, b, k);
  }

  lemma OpenWrappedKey(lib: Library, userKey: SymmetricKey, rsa: Option<Bytes>, s: string, k: SymmetricKey)
    requires lib.Lawful() && KeySealed(lib, userKey, s, k)
    ensures OrganizationKey(lib, s, userKey, rsa) == Some(k)
  {
    var b: Bytes :| Keys.IsCarrier(b, k) && SealedUnder(lib, userKey, s, b);
    OpenSealed(lib, userKey, s, b);
    Keys.CarrierParses(lib, b, k);
  }

  lemma OpenOrganization(lib: Library, userKey: SymmetricKey, rsa: Option<Bytes>, o: ServerOrganization, plain: PlainOrganization)
    requires lib.Lawful() && OrganizationSealed(lib, userKey, rsa, o, plain)
    ensures o.id == plain.id && o.name == plain.name && (o.key.Some? <==> plain.key.Some?)
    ensures o.key.Some? ==> OrganizationKey(lib, o.key.value, userKey, rsa) == plain.key
  {
    hide OrganizationKey;
    if o.key.Some? {
      if KeySealed(lib, userKey, o.key.value, plain.key.value) {
        OpenWrappedKey(lib, userKey, rsa, o.key.value, plain.key.value);
      } else {
        OpenRsaKey(lib, userKey, rsa.value, o.key.value, plain.key.value);
      }
    }
  }

  lemma OpenPrivateKey(lib: Library, userKey: SymmetricKey, text: Option<string>, rsa: Option<Bytes>)
    requires lib.Lawful() && PrivateKeySealed(lib, userKey, text, rsa)
    ensures PrivateKey(lib, text, userKey) == rsa
  {
    if rsa.Some? {
      var der: Bytes :| lib.parseRsa(der) == rsa && SealedUnder(lib, userKey, text.value, der);
      OpenSealed(lib, userKey, text.value, der);
    }
  }

  lemma {:induction false} OpenFolders(lib: Library, userKey: SymmetricKey, folders: seq<ServerFolder>, plain: seq<PlainFolder>)
    requires lib.Lawful() && |folders| == |plain|
    requires forall i :: 0 <= i < |folders| ==> FolderSealed(lib, userKey, folders[i], plain[i])
    ensures FolderNames(lib, folders, userKey) == PlainFolderNames(plain)
  {
    if folders != [] {
      var n := |folders| - 1;
      OpenFolders(lib, userKey, folders[..n], plain[..n]);
      OpenDefault(lib, userKey, folders[n].name, plain[n].name, "Folder");
    }
  }

  lemma {:induction false} OpenOrganizations(lib: Library, userKey: SymmetricKey, rsa: Option<Bytes>,
                                             orgs: seq<ServerOrganization>, plain: seq<PlainOrganization>)
    requires lib.Lawful() && |orgs| == |plain|
    requires forall i :: 0 <= i < |orgs| ==> OrganizationSealed(lib, userKey, rsa, orgs[i], plain[i])
    ensures OrganizationNames(orgs) == PlainOrganizationNames(plain)
    ensures OrganizationKeys(lib, orgs, userKey, rsa) == PlainOrganizationKeys(plain)
  {
    hide OrganizationSealed;
    hide OrganizationKey;
    if orgs != [] {
      var n := |orgs| - 1;
      OpenOrganizations(lib, userKey, rsa, orgs[..n], plain[..n]);
      OpenOrganization(lib, userKey, rsa, orgs[n], plain[n]);
    }
  }

  lemma {:induction false} OpenItems(lib: Library, ctx: Context, ciphers: seq<ServerCipher>, plain: seq<PlainItem>)
    requires lib.Lawful() && |ciphers| == |plain|
    requires forall i :: 0 <= i < |ciphers| ==> ItemSealed(lib, ctx, ciphers[i], plain[i])
    ensures DecryptItems(lib, ctx, ciphers) == LiveItems(ctx, plain)
  {
    if ciphers != [] {
      var n := |ciphers| - 1;
      OpenItems(lib, ctx, ciphers[..n], plain[..n]);
      assert ItemSealed(lib, ctx, ciphers[n], plain[n]);
      if !ciphers[n].deleted {
        OpenItemKey(lib, ctx, ciphers[n], plain[n].key);
        OpenContent(lib, plain[n].key, ciphers[n], plain[n].content);
      }
    }
  }

  lemma OpenContext(lib: Library, userKey: SymmetricKey, v: ServerVault, p: PlainVault)
    requires lib.Lawful() && VaultSealed(lib, userKey, v, p)
    ensures ContextOf(lib, v, userKey) == PlainContext(p, userKey)
  {
    OpenPrivateKey(lib, userKey, v.privateKey, p.rsa);
    OpenFolders(lib, userKey, v.folders, p.folders);
    OpenOrganizations(lib, userKey, p.rsa, v.organizations, p.organizations);
  }

  // The law of the key hierarchy: organisation keys under the user key or under RSA, item
  // keys under the organisation or the user key, texts under the item key.
  lemma DecryptVault(lib: Library, userKey: SymmetricKey, v: ServerVault, p: PlainVault)
    requires lib.Lawful() && VaultSealed(lib, userKey, v, p)
    ensures DecryptItems(lib, ContextOf(lib, v, userKey), v.ciphers) == LiveItems(PlainContext(p, userKey), p.items)
  {
    OpenContext(lib, userKey, v, p);
    OpenItems(lib, PlainContext(p, userKey), v.ciphers, p.items);
  }

  // Whatever the keys: the result lists exactly the live ciphers, in order.
  function LiveIds(ciphers: seq<ServerCipher>): seq<string> {
    if ciphers == [] then []
    else
      var rest, c := LiveIds(ciphers[..|ciphers| - 1]), ciphers[|ciphers| - 1];
      if c.deleted then rest else rest + [OrElse(c.id, "")]
  }

  function ItemIds(items: seq<VaultItem>): (ids: seq<string>)
    ensures |ids| == |items|
  {
    seq(|items|, i requires 0 <= i < |items| => items[i].content.id)
  }

  lemma {:induction false} LiveItemsKept(lib: Library, ctx: Context, ciphers: seq<ServerCipher>)
    ensures ItemIds(DecryptItems(lib, ctx, ciphers)) == LiveIds(ciphers)
  {
    if ciphers != [] {
      LiveItemsKept(lib, ctx, ciphers[..|ciphers| - 1]);
    }
  }
}
