/** Decrypting a synchronised vault under the user, organisation and item key hierarchy. */
module Vault {
  import opened Results
  import opened Primitives
  import opened EncStrings
  import Keys

  // ----- what the server sends: every text may be a cipher string -----

  datatype ServerFolder = ServerFolder(id: Option<string>, name: Option<string>)

  datatype ServerOrganization = ServerOrganization(id: Option<string>, name: Option<string>, key: Option<string>)

  datatype ServerHistory = ServerHistory(password: Option<string>, lastUsed: Option<string>)

  datatype ServerLogin = ServerLogin(
    username: Option<string>, password: Option<string>, totp: Option<string>,
    uris: seq<Option<string>>, history: seq<ServerHistory>, fido2: seq<Option<string>>)

  datatype ServerField = ServerField(name: Option<string>, value: Option<string>, fieldType: Option<int>)

  datatype ServerAttachment = ServerAttachment(
    id: Option<string>, fileName: Option<string>, size: Option<string>, url: Option<string>, key: Option<string>)

  // `card`, `identity` and `sshKey` list the encrypted members of those objects in the
  // order the code reads them.
  datatype ServerCipher = ServerCipher(
    deleted: bool, id: Option<string>, itemType: Option<int>, favorite: Option<bool>,
    created: Option<string>, updated: Option<string>, folderId: Option<string>,
    organizationId: Option<string>, collectionIds: Option<seq<string>>,
    key: Option<string>, name: Option<string>, notes: Option<string>,
    login: Option<ServerLogin>, card: Option<seq<Option<string>>>, identity: Option<seq<Option<string>>>,
    sshKey: Option<seq<Option<string>>>, fields: seq<ServerField>, attachments: seq<ServerAttachment>)

  datatype ServerVault = ServerVault(
    ciphers: seq<ServerCipher>, folders: seq<ServerFolder>, organizations: seq<ServerOrganization>,
    privateKey: Option<string>)

  // ----- what the user sees -----

  datatype History = History(password: string, lastUsed: Option<string>)

  datatype Login = Login(
    username: Option<string>, password: Option<string>, totp: Option<string>, uris: seq<Option<string>>,
    history: seq<History>, hasPasskey: bool, passkeyCreated: Option<string>)

  datatype CustomField = CustomField(name: string, value: string, fieldType: int)

  datatype Attachment = Attachment(id: string, fileName: string, size: string, url: string)

  datatype Content = Content(
    id: string, itemType: int, favorite: bool, created: Option<string>, updated: Option<string>,
    folderId: Option<string>, organizationId: Option<string>, collectionIds: Option<seq<string>>,
    name: string, notes: Option<string>, login: Option<Login>, card: Option<seq<Option<string>>>,
    identity: Option<seq<Option<string>>>, sshKey: Option<seq<Option<string>>>,
    fields: seq<CustomField>, attachments: seq<Attachment>)

  datatype VaultItem = VaultItem(content: Content, folderName: Option<string>, organizationName: Option<string>)

  function OrElse<T>(o: Option<T>, default: T): T {
    if o.Some? then o.value else default
  }

  function Lookup<T>(m: map<string, T>, id: Option<string>): Option<T> {
    if id.Some? && id.value in m then Some(m[id.value]) else None
  }

  // ----- decryption -----

  // An empty text stands for itself; anything that fails to open is absent.
  function DecryptText(lib: Library, text: Option<string>, key: SymmetricKey): Option<string> {
    match text
    case None => None
    case Some(s) =>
      if s == "" then Some("")
      else
        match Parse(s)
        case Err(_) => None
        case Ok(e) =>
          match DecryptString(lib, e, key)
          case Ok(t) => Some(t)
          case Err(_) => None
  }

  // A text that is no cipher string, does not open or is not UTF-8 is absent.
  lemma UnreadableIsAbsent(lib: Library, s: string, key: SymmetricKey)
    requires s != ""
    ensures Parse(s).Err? ==> DecryptText(lib, Some(s), key) == None
    ensures Parse(s).Ok? && Decrypt(lib, Parse(s).value, key).Err? ==> DecryptText(lib, Some(s), key) == None
    ensures Parse(s).Ok? && Decrypt(lib, Parse(s).value, key).Ok? ==>
              DecryptText(lib, Some(s), key) == lib.utf8Decode(Decrypt(lib, Parse(s).value, key).value)
  {
  }

  function DecryptTexts(lib: Library, texts: seq<Option<string>>, key: SymmetricKey): (r: seq<Option<string>>)
    ensures |r| == |texts|
  {
    seq(|texts|, i requires 0 <= i < |texts| => DecryptText(lib, texts[i], key))
  }

  function FolderName(lib: Library, f: ServerFolder, userKey: SymmetricKey): string {
    OrElse(DecryptText(lib, f.name, userKey), "Folder")
  }

  function FolderNames(lib: Library, folders: seq<ServerFolder>, userKey: SymmetricKey): map<string, string> {
    if folders == [] then map[]
    else
      var rest, f := FolderNames(lib, folders[..|folders| - 1], userKey), folders[|folders| - 1];
      if f.id.Some? then rest[f.id.value := FolderName(lib, f, userKey)] else rest
  }

  function PrivateKey(lib: Library, privateKey: Option<string>, userKey: SymmetricKey): Option<Bytes> {
    match privateKey
    case None => None
    case Some(s) =>
      match Parse(s)
      case Err(_) => None
      case Ok(e) =>
        match Decrypt(lib, e, userKey)
        case Err(_) => None
        case Ok(der) => lib.parseRsa(der)
  }

  function PaddingHash(encType: nat): Hash {
    if encType == 4 || encType == 6 then Sha1 else Sha256
  }

  // The hash the type names is tried first, then the other one.
  function DecryptRsa(lib: Library, e: EncString, rsa: Bytes): Option<Bytes> {
    if e.encType < 3 || e.encType > 6 then None
    else
      var first := PaddingHash(e.encType);
      var r := lib.oaepOpen(rsa, first, e.ciphertext);
      if r.Some? then r else lib.oaepOpen(rsa, if first == Sha1 then Sha256 else Sha1, e.ciphertext)
  }

  // Types 4 and 6 are padded with SHA-1, types 3 and 5 with SHA-256; the other hash is tried where
  // the type's own does not open.
  lemma RsaHashes(lib: Library, t: nat, h: Hash, rsa: Bytes, seed: Bytes, m: Bytes)
    requires lib.Lawful() && t in {3, 4, 5, 6}
    ensures var own, ct := if t == 4 || t == 6 then Sha1 else Sha256, lib.oaepSeal(rsa, h, seed, m);
            DecryptRsa(lib, EncString(t, [], ct, None), rsa)
              == if h == own || lib.oaepOpen(rsa, own, ct).None? then Some(m) else lib.oaepOpen(rsa, own, ct)
  {
  }

  function OrganizationKey(lib: Library, key: string, userKey: SymmetricKey, rsa: Option<Bytes>): Option<SymmetricKey> {
    match Parse(key)
    case Err(_) => None
    case Ok(e) =>
      var raw :=
        if 3 <= e.encType <= 6 then
          if rsa.Some? then DecryptRsa(lib, e, rsa.value) else None
        else if e.encType <= 2 then
          match Decrypt(lib, e, userKey)
          case Ok(b) => Some(b)
          case Err(_) => None
        else None;
      if raw.Some? then Keys.ParseDecryptedKey(lib, raw.value) else None
  }

  // Types 0 to 2 are opened with the user key, 3 to 6 with the private key if there is one, others
  // not at all.
  lemma OrganizationKeyByType(lib: Library, key: string, userKey: SymmetricKey, rsa: Option<Bytes>)
    ensures Parse(key).Err? ==> OrganizationKey(lib, key, userKey, rsa) == None
    ensures Parse(key).Ok? ==>
              var e := Parse(key).value;
              OrganizationKey(lib, key, userKey, rsa) ==
                if e.encType <= 2 then
                  if Decrypt(lib, e, userKey).Ok? then Keys.ParseDecryptedKey(lib, Decrypt(lib, e, userKey).value) else None
                else if e.encType <= 6 && rsa.Some? && DecryptRsa(lib, e, rsa.value).Some?
                then Keys.ParseDecryptedKey(lib, DecryptRsa(lib, e, rsa.value).value) else None
  {
  }

  function OrganizationNames(orgs: seq<ServerOrganization>): map<string, string> {
    if orgs == [] then map[]
    else
      var rest, o := OrganizationNames(orgs[..|orgs| - 1]), orgs[|orgs| - 1];
      if o.id.Some? && o.name.Some? then rest[o.id.value := o.name.value] else rest
  }

  function OrganizationKeys(lib: Library, orgs: seq<ServerOrganization>, userKey: SymmetricKey, rsa: Option<Bytes>)
    : map<string, SymmetricKey>
  {
    if orgs == [] then map[]
    else
      var rest, o := OrganizationKeys(lib, orgs[..|orgs| - 1], userKey, rsa), orgs[|orgs| - 1];
      if o.id.Some? && o.key.Some? then
        var k := OrganizationKey(lib, o.key.value, userKey, rsa);
        if k.Some? then rest[o.id.value := k.value] else rest
      else rest
  }

  // The item's own key under its base key or, failing that, under the user key; the base
  // key itself when there is no own key or it does not open.
  function ItemKey(lib: Library, c: ServerCipher, base: SymmetricKey, userKey: SymmetricKey): SymmetricKey {
    UnwrapKey(lib, c.key, base, userKey)
  }

  function UnwrapKey(lib: Library, key: Option<string>, base: SymmetricKey, userKey: SymmetricKey): SymmetricKey {
    match key
    case None => base
    case Some(s) =>
      match Parse(s)
      case Err(_) => base
      case Ok(e) =>
        var first := Decrypt(lib, e, base);
        var raw := if first.Ok? then first else Decrypt(lib, e, userKey);
        if raw.Ok? then OrElse(Keys.ParseDecryptedKey(lib, raw.value), base) else base
  }

  function DecryptHistory(lib: Library, history: seq<ServerHistory>, key: SymmetricKey): seq<History> {
    if history == [] then []
    else
      var rest, h := DecryptHistory(lib, history[..|history| - 1], key), history[|history| - 1];
      var p := DecryptText(lib, h.password, key);
      if p.Some? then rest + [History(p.value, h.lastUsed)] else rest
  }

  function DecryptLogin(lib: Library, l: ServerLogin, key: SymmetricKey): Login {
    Login(DecryptText(lib, l.username, key), DecryptText(lib, l.password, key), DecryptText(lib, l.totp, key),
          DecryptTexts(lib, l.uris, key), DecryptHistory(lib, l.history, key),
          l.fido2 != [], if l.fido2 != [] then l.fido2[0] else None)
  }

  function DecryptSection(lib: Library, section: Option<seq<Option<string>>>, key: SymmetricKey)
    : Option<seq<Option<string>>>
  {
    if section.Some? then Some(DecryptTexts(lib, section.value, key)) else None
  }

  function DecryptField(lib: Library, f: ServerField, key: SymmetricKey): CustomField {
    CustomField(OrElse(DecryptText(lib, f.name, key), ""), OrElse(DecryptText(lib, f.value, key), ""), OrElse(f.fieldType, 0))
  }

  function DecryptAttachment(lib: Library, a: ServerAttachment, key: SymmetricKey): Attachment {
    Attachment(OrElse(a.id, ""), OrElse(DecryptText(lib, a.fileName, key), ""), OrElse(a.size, "0"), OrElse(a.url, ""))
  }

  function DecryptContent(lib: Library, c: ServerCipher, key: SymmetricKey): Content {
    var t := OrElse(c.itemType, 1);
    Content(
      OrElse(c.id, ""), t, OrElse(c.favorite, false), c.created, c.updated, c.folderId, c.organizationId,
      c.collectionIds, OrElse(DecryptText(lib, c.name, key), "Untitled"), DecryptText(lib, c.notes, key),
      if t == 1 && c.login.Some? then Some(DecryptLogin(lib, c.login.value, key)) else None,
      if t == 3 then DecryptSection(lib, c.card, key) else None,
      if t == 4 then DecryptSection(lib, c.identity, key) else None,
      if t == 5 then DecryptSection(lib, c.sshKey, key) else None,
      seq(|c.fields|, i requires 0 <= i < |c.fields| => DecryptField(lib, c.fields[i], key)),
      seq(|c.attachments|, i requires 0 <= i < |c.attachments| => DecryptAttachment(lib, c.attachments[i], key)))
  }

  datatype Context = Context(
    userKey: SymmetricKey, folderNames: map<string, string>,
    organizationNames: map<string, string>, organizationKeys: map<string, SymmetricKey>)

  function BaseKey(ctx: Context, organizationId: Option<string>): SymmetricKey {
    OrElse(Lookup(ctx.organizationKeys, organizationId), ctx.userKey)
  }

  function DecryptItem(lib: Library, ctx: Context, c: ServerCipher): VaultItem {
    var key := ItemKey(lib, c, BaseKey(ctx, c.organizationId), ctx.userKey);
    VaultItem(DecryptContent(lib, c, key), Lookup(ctx.folderNames, c.folderId), Lookup(ctx.organizationNames, c.organizationId))
  }

  function DecryptItems(lib: Library, ctx: Context, ciphers: seq<ServerCipher>): seq<VaultItem> {
    if ciphers == [] then []
    else
      var rest, c := DecryptItems(lib, ctx, ciphers[..|ciphers| - 1]), ciphers[|ciphers| - 1];
      if c.deleted then rest else rest + [DecryptItem(lib, ctx, c)]
  }

  function ContextOf(lib: Library, v: ServerVault, userKey: SymmetricKey): Context {
    Context(userKey, FolderNames(lib, v.folders, userKey), OrganizationNames(v.organizations),
            OrganizationKeys(lib, v.organizations, userKey, PrivateKey(lib, v.privateKey, userKey)))
  }

  // The decryption as the code runs it: fill the maps, then the list of items.
  method DecryptSync(lib: Library, v: ServerVault, userKey: SymmetricKey) returns (items: seq<VaultItem>)
    ensures items == DecryptItems(lib, ContextOf(lib, v, userKey), v.ciphers)
  {
    var folderNames: map<string, string> := map[];
    for i := 0 to |v.folders|
      invariant folderNames == FolderNames(lib, v.folders[..i], userKey)
    {
      var f := v.folders[i];
      assert v.folders[..i + 1][..i] == v.folders[..i];
      if f.id.Some? {
        folderNames := folderNames[f.id.value := FolderName(lib, f, userKey)];
      }
    }
    assert v.folders[..|v.folders|] == v.folders;
    var rsa := PrivateKey(lib, v.privateKey, userKey);
    var organizationKeys, organizationNames := OrganizationLoop(lib, v.organizations, userKey, rsa);
    var ctx := Context(userKey, folderNames, organizationNames, organizationKeys);
    items := [];
    for i := 0 to |v.ciphers|
      invariant items == DecryptItems(lib, ctx, v.ciphers[..i])
    {
      assert v.ciphers[..i + 1][..i] == v.ciphers[..i];
      if v.ciphers[i].deleted {
        continue;
      }
      items := items + [DecryptItem(lib, ctx, v.ciphers[i])];
    }
    assert v.ciphers[..|v.ciphers|] == v.ciphers;
  }

  method OrganizationLoop(lib: Library, orgs: seq<ServerOrganization>, userKey: SymmetricKey, rsa: Option<Bytes>)
    returns (keys: map<string, SymmetricKey>, names: map<string, string>)
    ensures keys == OrganizationKeys(lib, orgs, userKey, rsa) && names == OrganizationNames(orgs)
  {
    keys, names := map[], map[];
    for i := 0 to |orgs|
      invariant keys == OrganizationKeys(lib, orgs[..i], userKey, rsa) && names == OrganizationNames(orgs[..i])
    {
      var o := orgs[i];
      assert orgs[..i + 1][..i] == orgs[..i];
      if o.id.Some? {
        if o.name.Some? {
          names := names[o.id.value := o.name.value];
        }
        if o.key.Some? {
          var k := OrganizationKey(lib, o.key.value, userKey, rsa);
          if k.Some? {
            keys := keys[o.id.value := k.value];
          }
        }
      }
    }
    assert orgs[..|orgs|] == orgs;
  }
}
