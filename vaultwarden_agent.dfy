/**
 * The decryption cascade and session maps of src/Agent/VaultwardenAgent.cs.
 *
 * The agent keeps the session's keys and two dictionaries, `Folders` and
 * `Orgs`, which its operations update in place. Server answers are
 * parameters; the crypto library is the `Crypto` value of VwUtility, and
 * every random IV or key is a parameter too.
 */
module Agent {
  import opened Wrappers
  import opened Bytes
  import opened VwTypes
  import opened InternalExtensions
  import opened EncryptedDataCodec
  import opened SymmetricKeys
  import opened VwUtility

  // ---- Server records (the fields the agent reads) ----

  datatype CipherItemLogin = CipherItemLogin(username: Option<string>, password: Option<string>, totp: Option<string>, uri: Option<string>)
  datatype CipherItemCard = CipherItemCard(
    brand: Option<string>, cardholderName: Option<string>, number: Option<string>,
    expYear: Option<string>, expMonth: Option<string>, code: Option<string>)
  datatype CipherItemSshKey = CipherItemSshKey(keyFingerprint: Option<string>, privateKey: Option<string>, publicKey: Option<string>)

  /** A vault item as the server sends it; `deletedDate` is present only for a deleted item. */
  datatype CipherItem = CipherItem(
    id: string, cipherType: CipherType, deletedDate: Option<int>,
    organizationId: Option<string>, name: Option<string>,
    folderId: Option<string>, notes: Option<string>,
    login: Option<CipherItemLogin>, card: Option<CipherItemCard>, sshKey: Option<CipherItemSshKey>)

  datatype VwFolder = VwFolder(id: string, name: string)
  datatype VwOrganizationProfile = VwOrganizationProfile(id: string, name: string, organizationUserId: string, key: string)
  datatype VwCollection = VwCollection(id: string, organizationId: string, name: Option<string>, externalId: seq<string>)

  /** An organization of the session: its profile and its symmetric key. */
  datatype OrgInfo = OrgInfo(profile: VwOrganizationProfile, key: SymmetricCryptoKey)

  // ---- Decrypted records ----

  datatype DecryptedCipherItemLogin = DecryptedCipherItemLogin(username: Option<string>, password: Option<string>, totp: Option<string>)
  datatype DecryptedCipherItemCard = DecryptedCipherItemCard(
    brand: Option<string>, cardholderName: Option<string>, number: Option<string>,
    expYear: Option<string>, expMonth: Option<string>, code: Option<string>)
  datatype DecryptedCipherItemSshKey = DecryptedCipherItemSshKey(fingerprint: Option<string>, privateKey: Option<string>, publicKey: Option<string>)
  datatype DecryptedCipherItem = DecryptedCipherItem(
    id: string, cipherType: CipherType, deleted: bool, name: string,
    orgName: Option<string>, folderName: Option<string>, memo: Option<string>,
    login: Option<DecryptedCipherItemLogin>, card: Option<DecryptedCipherItemCard>, sshKey: Option<DecryptedCipherItemSshKey>)
  datatype DecryptedCollection = DecryptedCollection(id: string, orgId: string, name: string, externalId: seq<string>)

  // ---- Requests the agent sends ----

  datatype AgentCreateCipherArgs = AgentCreateCipherArgs(name: string, folderId: Option<string>, orgId: Option<string>, notes: Option<string>)
  datatype AgentCreateLoginArgs = AgentCreateLoginArgs(username: Option<string>, password: Option<string>, totp: Option<string>, uri: Option<string>)

  /** The cipher part of `CreateItemArgs`; `secureNote` is the `CipherItemMemo` type number, present for a note. */
  datatype CipherRequest = CipherRequest(
    cipherType: CipherType, name: string, folderId: Option<string>, organizationId: Option<string>,
    notes: Option<string>, login: Option<CipherItemLogin>, secureNote: Option<int>, collectionIds: seq<string>)

  datatype AgentCreatedFolder = AgentCreatedFolder(id: string, name: string)

  /** `CreateOrgArgs`, with the two texts of `KeysData`. */
  datatype CreateOrgRequest = CreateOrgRequest(
    name: string, billingEmail: string, key: string, publicKey: string, encryptedPrivateKey: string,
    collectionName: string, planType: int)

  /** `PlanType.Free`. */
  const FreePlan := 0

  datatype AgentCreatedOrg = AgentCreatedOrg(id: string, name: string, billingEmail: string)

  datatype CollectionMembership = CollectionMembership(id: string, readOnly: bool, hidePasswords: bool, manage: bool)
  /** `CreateCollectionArgs`; the group list is always empty. */
  datatype CreateCollectionRequest = CreateCollectionRequest(name: string, users: seq<CollectionMembership>)
  datatype AgentCreatedCollection = AgentCreatedCollection(id: string, name: string, orgId: string)

  // ---- Text encryption ----

  /**
   * `decryptEncText`: null, empty or white-space text is null without
   * parsing; otherwise the text is parsed (throwing when malformed),
   * decrypted and UTF-8 decoded.
   */
  function DecryptEncText(c: Crypto, key: seq<byte>, text: Option<string>): (r: Result<Option<string>>)
    ensures IsBlank(text) ==> r == Ok(None)
    ensures !IsBlank(text) && Parse(text.value).Err? ==> r == Err(ParseFailure)
    ensures !IsBlank(text) && Parse(text.value).Ok? && Decrypt(c, key, Parse(text.value).value).Err? ==>
      r == Err(Decrypt(c, key, Parse(text.value).value).error)
    ensures !IsBlank(text) ==>
      (r.Ok? <==> (Parse(text.value).Ok? && Decrypt(c, key, Parse(text.value).value).Ok?))
    ensures r.Ok? && !IsBlank(text) ==>
      r.value == Some(c.utf8Decode(Decrypt(c, key, Parse(text.value).value).value))
  {
    if IsBlank(text) then Ok(None)
    else
      var enc :- Parse(text.value);
      var decrypted :- Decrypt(c, key, enc);
      Ok(Some(c.utf8Decode(decrypted)))
  }

  /**
   * `encryptText(key, text).BuildString()`: the UTF-8 of the text under
   * AES-CBC with a MAC, in wire format; `iv` is the IV `Aes` generates.
   */
  function EncryptText(c: Crypto, key: SymmetricCryptoKey, text: string, iv: Block): (r: Result<string>)
    ensures r.Ok? <==> |key.encKey| == 16 || |key.encKey| == 32
  {
    var enc :- EncryptAesIntended(c, key, EncodeUtf8(c.utf8Encode, Some(text)).value, true, None, iv);
    WireFormat(enc)
  }

  /** `encryptText(key, text)?.BuildString()`: null stays null. */
  function EncryptOptionalText(c: Crypto, key: SymmetricCryptoKey, text: Option<string>, iv: Block): (r: Result<Option<string>>)
    ensures text.None? ==> r == Ok(None)
    ensures text.Some? ==> (r.Ok? <==> EncryptText(c, key, text.value, iv).Ok?)
    ensures text.Some? && r.Ok? ==> r.value == Some(EncryptText(c, key, text.value, iv).value)
  {
    if text.None? then Ok(None)
    else
      var s :- EncryptText(c, key, text.value, iv);
      Ok(Some(s))
  }

  /**
   * A value sent in wire format and parsed back decrypts as the value
   * itself: the parts `Parse` fills with empty arrays are parts `Decrypt`
   * does not read.
   */
  lemma WireDecrypts(c: Crypto, key: seq<byte>, v: EncryptedData)
    requires IsDefinedEncryptionType(v.encType)
    requires HasIv(v.encType) ==> v.iv.Some?
    ensures WireFormat(v).Ok? && Parse(WireFormat(v).value).Ok?
    ensures Decrypt(c, key, Parse(WireFormat(v).value).value) == Decrypt(c, key, v)
  {
    ParseBuildRoundTrip(v);
    assert Reparsed(v) == v.(iv := Reparsed(v).iv, mac := Reparsed(v).mac);
    DecryptIgnoresMac(c, key, v.(iv := Reparsed(v).iv), Reparsed(v).mac);
  }

  /** What `EncryptText` produces under a key, `DecryptEncText` turns back into the text under that key's encryption part. */
  lemma EncryptTextRoundTrip(c: Crypto, key: SymmetricCryptoKey, text: string, iv: Block)
    requires Sound(c)
    requires EncryptText(c, key, text, iv).Ok?
    ensures DecryptEncText(c, key.encKey, Some(EncryptText(c, key, text, iv).value)) == Ok(Some(text))
  {
    var enc := EncryptAesIntended(c, key, EncodeUtf8(c.utf8Encode, Some(text)).value, true, None, iv).value;
    WireDecrypts(c, key.encKey, enc);
  }

  /** A null-preserving variant of the round trip, for the optional fields of a request. */
  lemma EncryptOptionalTextRoundTrip(c: Crypto, key: SymmetricCryptoKey, text: Option<string>, iv: Block)
    requires Sound(c)
    requires EncryptOptionalText(c, key, text, iv).Ok?
    ensures DecryptEncText(c, key.encKey, EncryptOptionalText(c, key, text, iv).value) == Ok(text)
  {
    if text.Some? {
      EncryptTextRoundTrip(c, key, text.value, iv);
    }
  }

  // ---- Sub-record decryption ----

  /** Outcomes taken one after another: the first exception stops the rest, otherwise every value in order. */
  function AllOk<T>(rs: seq<Result<T>>): (r: Result<seq<T>>)
    ensures r.Ok? <==> forall i :: 0 <= i < |rs| ==> rs[i].Ok?
    ensures r.Ok? ==> |r.value| == |rs| && forall i :: 0 <= i < |rs| ==> r.value[i] == rs[i].value
    ensures r.Err? ==> exists i :: 0 <= i < |rs| && rs[i] == Err(r.error) && (forall j :: 0 <= j < i ==> rs[j].Ok?)
    decreases |rs|
  {
    if rs == [] then Ok([])
    else
      var first :- rs[0];
      var rest := AllOk(rs[1..]);
      assert forall i :: 1 <= i < |rs| ==> rs[i] == rs[1..][i - 1];
      if rest.Err? then
        var i :| 0 <= i < |rs[1..]| && rs[1..][i] == Err(rest.error) && (forall j :: 0 <= j < i ==> rs[1..][j].Ok?);
        assert rs[i + 1] == Err(rest.error);
        Err(rest.error)
      else Ok([first] + rest.value)
  }

  /** Several fields decrypted one after another under one key; the first exception stops the rest. */
  function DecryptTexts(c: Crypto, key: seq<byte>, texts: seq<Option<string>>): (r: Result<seq<Option<string>>>)
    ensures r.Ok? <==> forall i :: 0 <= i < |texts| ==> DecryptEncText(c, key, texts[i]).Ok?
    ensures r.Ok? ==> |r.value| == |texts|
    ensures r.Ok? ==> forall i :: 0 <= i < |texts| ==> r.value[i] == DecryptEncText(c, key, texts[i]).value
    ensures r.Ok? ==> forall i :: 0 <= i < |texts| ==> (texts[i].None? ==> r.value[i].None?)
  {
    var rs := DecryptedFields(c, key, texts);
    assert forall i :: 0 <= i < |texts| && texts[i].None? ==> rs[i] == Ok(None);
    AllOk(rs)
  }

  /** Each field's own decryption outcome, in order. */
  function DecryptedFields(c: Crypto, key: seq<byte>, texts: seq<Option<string>>): (r: seq<Result<Option<string>>>)
    ensures |r| == |texts|
    ensures forall i :: 0 <= i < |texts| ==> r[i] == DecryptEncText(c, key, texts[i])
    decreases |texts|
  {
    if texts == [] then []
    else
      var rest := DecryptedFields(c, key, texts[1..]);
      assert forall i :: 1 <= i < |texts| ==> texts[i] == texts[1..][i - 1];
      [DecryptEncText(c, key, texts[0])] + rest
  }

  /** `dcryptChiperItemLogin`: null for null, otherwise username, password and TOTP decrypted each on its own. */
  function DecryptLogin(c: Crypto, key: seq<byte>, login: Option<CipherItemLogin>): (r: Result<Option<DecryptedCipherItemLogin>>)
    ensures login.None? ==> r == Ok(None)
    ensures login.Some? ==> (r.Ok? <==> DecryptTexts(c, key, LoginTexts(login.value)).Ok?)
    ensures login.Some? && r.Ok? ==>
      r.value.Some? &&
      (var d, v := r.value.value, DecryptTexts(c, key, LoginTexts(login.value)).value;
       d.username == v[0] && d.password == v[1] && d.totp == v[2])
  {
    if login.None? then Ok(None)
    else
      var v :- DecryptTexts(c, key, LoginTexts(login.value));
      Ok(Some(DecryptedCipherItemLogin(v[0], v[1], v[2])))
  }

  /** The login fields the agent decrypts, in order (the URI is not among them). */
  function LoginTexts(l: CipherItemLogin): seq<Option<string>> {
    [l.username, l.password, l.totp]
  }

  /** A login decrypts when its username, password and TOTP each do. */
  lemma LoginDecrypts(c: Crypto, key: seq<byte>, l: CipherItemLogin)
    requires DecryptEncText(c, key, l.username).Ok? && DecryptEncText(c, key, l.password).Ok?
    requires DecryptEncText(c, key, l.totp).Ok?
    ensures DecryptLogin(c, key, Some(l)).Ok?
  {
    var texts := LoginTexts(l);
    forall i | 0 <= i < |texts| ensures DecryptEncText(c, key, texts[i]).Ok? {
      if i == 0 { assert texts[i] == l.username; }
      else if i == 1 { assert texts[i] == l.password; }
      else { assert texts[i] == l.totp; }
    }
  }

  /** `decryptChiperItemCard` over a card: null for null, otherwise each of the six fields decrypted on its own. */
  function DecryptCard(c: Crypto, key: seq<byte>, card: Option<CipherItemCard>): (r: Result<Option<DecryptedCipherItemCard>>)
    ensures card.None? ==> r == Ok(None)
    ensures card.Some? ==> (r.Ok? <==> DecryptTexts(c, key, CardTexts(card.value)).Ok?)
    ensures card.Some? && r.Ok? ==>
      r.value.Some? &&
      (var d, v := r.value.value, DecryptTexts(c, key, CardTexts(card.value)).value;
       d.brand == v[0] && d.cardholderName == v[1] && d.number == v[2] &&
       d.expYear == v[3] && d.expMonth == v[4] && d.code == v[5])
  {
    if card.None? then Ok(None)
    else
      var v :- DecryptTexts(c, key, CardTexts(card.value));
      Ok(Some(DecryptedCipherItemCard(v[0], v[1], v[2], v[3], v[4], v[5])))
  }

  function CardTexts(k: CipherItemCard): seq<Option<string>> {
    [k.brand, k.cardholderName, k.number, k.expYear, k.expMonth, k.code]
  }

  /** `decryptChiperItemCard` over an SSH key: null for null, otherwise each of the three fields decrypted on its own. */
  function DecryptSshKey(c: Crypto, key: seq<byte>, sshKey: Option<CipherItemSshKey>): (r: Result<Option<DecryptedCipherItemSshKey>>)
    ensures sshKey.None? ==> r == Ok(None)
    ensures sshKey.Some? ==> (r.Ok? <==> DecryptTexts(c, key, SshKeyTexts(sshKey.value)).Ok?)
    ensures sshKey.Some? && r.Ok? ==>
      r.value.Some? &&
      (var d, v := r.value.value, DecryptTexts(c, key, SshKeyTexts(sshKey.value)).value;
       d.fingerprint == v[0] && d.privateKey == v[1] && d.publicKey == v[2])
  {
    if sshKey.None? then Ok(None)
    else
      var v :- DecryptTexts(c, key, SshKeyTexts(sshKey.value));
      Ok(Some(DecryptedCipherItemSshKey(v[0], v[1], v[2])))
  }

  function SshKeyTexts(k: CipherItemSshKey): seq<Option<string>> {
    [k.keyFingerprint, k.privateKey, k.publicKey]
  }

  /** The non-null entries of a list, in order. */
  function NonNull<T>(items: seq<Option<T>>): (r: seq<T>)
    ensures |r| <= |items|
  {
    if items == [] then []
    else (if items[0].Some? then [items[0].value] else []) + NonNull(items[1..])
  }

  // ---- Collections ----

  /** The `Select` of `GetCollectionsAsync`: each collection with its name decrypted under `key`, `""` for a null name. */
  function DecryptCollections(c: Crypto, key: seq<byte>, cols: seq<VwCollection>): (r: Result<seq<DecryptedCollection>>)
    ensures r.Ok? <==> forall i :: 0 <= i < |cols| ==> DecryptEncText(c, key, cols[i].name).Ok?
    ensures r.Ok? ==> |r.value| == |cols|
    ensures r.Ok? ==> forall i :: 0 <= i < |cols| ==>
      r.value[i] == DecryptedCollection(cols[i].id, cols[i].organizationId,
        DecryptEncText(c, key, cols[i].name).value.GetOr(""), cols[i].externalId)
    decreases |cols|
  {
    if cols == [] then Ok([])
    else
      var name :- DecryptEncText(c, key, cols[0].name);
      var rest :- DecryptCollections(c, key, cols[1..]);
      assert forall i :: 1 <= i < |cols| ==> cols[i] == cols[1..][i - 1];
      Ok([DecryptedCollection(cols[0].id, cols[0].organizationId, name.GetOr(""), cols[0].externalId)] + rest)
  }

  // ---- Session maps ----

  /** The organization key of a profile: its `key` text parsed, decrypted with the user's private key, and cut by `From`. */
  function OrgKeyOf(c: Crypto, privateKey: seq<byte>, org: VwOrganizationProfile): (r: Result<SymmetricCryptoKey>)
    ensures r.Ok? <==>
      Parse(org.key).Ok? && Decrypt(c, privateKey, Parse(org.key).value).Ok? &&
      From(Decrypt(c, privateKey, Parse(org.key).value).value).Ok?
    ensures r.Ok? ==> r.value == From(Decrypt(c, privateKey, Parse(org.key).value).value).value
  {
    var enc :- Parse(org.key);
    var bytes :- Decrypt(c, privateKey, enc);
    From(bytes)
  }

  /** A profile of the refetched list with the outcome of unwrapping its key. */
  datatype OrgEntry = OrgEntry(profile: VwOrganizationProfile, key: Result<SymmetricCryptoKey>)

  /** Every profile with its key unwrapped under `privateKey`, in order. */
  function Unwrapped(c: Crypto, privateKey: seq<byte>, os: seq<VwOrganizationProfile>): (r: seq<OrgEntry>)
    ensures |r| == |os|
    ensures forall i :: 0 <= i < |os| ==> r[i] == OrgEntry(os[i], OrgKeyOf(c, privateKey, os[i]))
  {
    seq(|os|, i requires 0 <= i < |os| => OrgEntry(os[i], OrgKeyOf(c, privateKey, os[i])))
  }

  /** The ids of a list of entries. */
  function EntryIds(es: seq<OrgEntry>): set<string> {
    set i | 0 <= i < |es| :: es[i].profile.id
  }

  /** The ids of a list without its head are the ids of the list, less perhaps the head's. */
  lemma EntryIdsTail(es: seq<OrgEntry>)
    requires es != []
    ensures EntryIds(es) == {es[0].profile.id} + EntryIds(es[1..])
  {
    forall id | id in EntryIds(es) ensures id in {es[0].profile.id} + EntryIds(es[1..]) {
      var i :| 0 <= i < |es| && es[i].profile.id == id;
      if i > 0 { assert es[1..][i - 1] == es[i]; }
    }
    forall id | id in EntryIds(es[1..]) ensures id in EntryIds(es) {
      var i :| 0 <= i < |es[1..]| && es[1..][i].profile.id == id;
      assert es[i + 1] == es[1..][i];
    }
  }

  /** Every entry of an `Orgs` map is filed under its own profile's id. */
  predicate FiledById(m: map<string, OrgInfo>) {
    forall id :: id in m ==> m[id].profile.id == id
  }

  /**
   * The insert loop of `CreateOrganizationAsync`, from the map `m`: each
   * profile stored under its id (a later one replacing an earlier one with
   * the same id), until a key fails to unwrap. The map reached so far and
   * the exception, if any, are the result.
   */
  function LoadOrgs(m: map<string, OrgInfo>, es: seq<OrgEntry>): (r: (map<string, OrgInfo>, Option<Error>))
    ensures m.Keys <= r.0.Keys <= m.Keys + EntryIds(es)
    ensures r.1.Some? ==> exists i :: 0 <= i < |es| && es[i].key == Err(r.1.value)
    decreases |es|
  {
    if es == [] then (m, None)
    else
      match es[0].key
      case Err(e) => (m, Some(e))
      case Ok(k) =>
        var r := LoadOrgs(m[es[0].profile.id := OrgInfo(es[0].profile, k)], es[1..]);
        EntryIdsTail(es);
        assert forall i :: 0 <= i < |es[1..]| ==> es[1..][i] == es[i + 1];
        r
  }

  /** A finished load holds exactly the ids of the map it started from and of the entries, each filed under its own id. */
  lemma {:induction false} LoadOrgsShape(m: map<string, OrgInfo>, es: seq<OrgEntry>)
    requires FiledById(m)
    ensures FiledById(LoadOrgs(m, es).0)
    ensures LoadOrgs(m, es).1.None? <==> forall i :: 0 <= i < |es| ==> es[i].key.Ok?
    ensures LoadOrgs(m, es).1.None? ==> LoadOrgs(m, es).0.Keys == m.Keys + EntryIds(es)
    decreases |es|
  {
    if es != [] {
      if es[0].key.Ok? {
        LoadOrgsShape(m[es[0].profile.id := OrgInfo(es[0].profile, es[0].key.value)], es[1..]);
        EntryIdsTail(es);
        assert forall i :: 1 <= i < |es| ==> es[i] == es[1..][i - 1];
      }
    }
  }

  /** The entry a finished load keeps for an id is the last profile with that id, with its key. */
  lemma {:induction false} LoadOrgsLastWins(m: map<string, OrgInfo>, es: seq<OrgEntry>, i: nat)
    requires i < |es| && forall j :: i < j < |es| ==> es[j].profile.id != es[i].profile.id
    requires LoadOrgs(m, es).1.None?
    ensures es[i].key.Ok?
    ensures es[i].profile.id in LoadOrgs(m, es).0
    ensures LoadOrgs(m, es).0[es[i].profile.id] == OrgInfo(es[i].profile, es[i].key.value)
    decreases |es|
  {
    var m' := m[es[0].profile.id := OrgInfo(es[0].profile, es[0].key.value)];
    if i == 0 {
      forall j | 0 <= j < |es[1..]| ensures es[1..][j].profile.id != es[0].profile.id {
        assert es[1..][j] == es[j + 1];
      }
      LoadOrgsKeeps(m', es[1..], es[0].profile.id);
    } else {
      assert es[1..][i - 1] == es[i];
      forall j | i - 1 < j < |es[1..]| ensures es[1..][j].profile.id != es[1..][i - 1].profile.id {
        assert es[1..][j] == es[j + 1];
      }
      LoadOrgsLastWins(m', es[1..], i - 1);
    }
  }

  /** An id no later entry carries keeps its value through the rest of the load. */
  lemma {:induction false} LoadOrgsKeeps(m: map<string, OrgInfo>, es: seq<OrgEntry>, id: string)
    requires id in m && forall j :: 0 <= j < |es| ==> es[j].profile.id != id
    ensures id in LoadOrgs(m, es).0 && LoadOrgs(m, es).0[id] == m[id]
    decreases |es|
  {
    if es != [] && es[0].key.Ok? {
      forall j | 0 <= j < |es[1..]| ensures es[1..][j].profile.id != id {
        assert es[1..][j] == es[j + 1];
      }
      LoadOrgsKeeps(m[es[0].profile.id := OrgInfo(es[0].profile, es[0].key.value)], es[1..], id);
    }
  }

  /**
   * `ToDictionary(o => o.id, ...)` of `createConnectionAsync`: for each
   * profile the key is unwrapped first, then the id is added, and an id
   * already present throws ArgumentException.
   */
  function OrgDictionary(m: map<string, OrgInfo>, es: seq<OrgEntry>): (r: Result<map<string, OrgInfo>>)
    ensures r.Ok? ==> r.value.Keys == m.Keys + EntryIds(es)
    ensures r.Ok? ==> forall i :: 0 <= i < |es| ==> es[i].key.Ok?
    decreases |es|
  {
    if es == [] then Ok(m)
    else
      var k :- es[0].key;
      if es[0].profile.id in m then Err(Argument)
      else
        var r := OrgDictionary(m[es[0].profile.id := OrgInfo(es[0].profile, k)], es[1..]);
        EntryIdsTail(es);
        assert forall i :: 1 <= i < |es| ==> es[i] == es[1..][i - 1];
        r
  }

  /** Distinct ids, none of them already in the map. */
  predicate FreshIds(m: map<string, OrgInfo>, es: seq<OrgEntry>) {
    (forall i :: 0 <= i < |es| ==> es[i].profile.id !in m) &&
    (forall i, j :: 0 <= i < j < |es| ==> es[i].profile.id != es[j].profile.id)
  }

  /** Fresh ids stay fresh for the tail once the head is stored. */
  lemma FreshTail(m: map<string, OrgInfo>, es: seq<OrgEntry>, info: OrgInfo)
    requires es != []
    ensures FreshIds(m, es) <==>
      es[0].profile.id !in m && FreshIds(m[es[0].profile.id := info], es[1..])
  {
    assert forall i :: 0 <= i < |es[1..]| ==> es[1..][i] == es[i + 1];
    if es[0].profile.id !in m && FreshIds(m[es[0].profile.id := info], es[1..]) {
      forall i, j | 0 <= i < j < |es| ensures es[i].profile.id != es[j].profile.id {
        assert es[1..][j - 1] == es[j];
        if i > 0 { assert es[1..][i - 1] == es[i]; }
      }
    }
  }

  /**
   * With distinct ids the dictionary of the login and the map the reload
   * loop builds are the same, and they fail on the same entry; an id seen
   * twice after keys that all unwrap throws ArgumentException.
   */
  lemma {:induction false} OrgDictionaryAgrees(m: map<string, OrgInfo>, es: seq<OrgEntry>)
    ensures FreshIds(m, es) ==>
      (OrgDictionary(m, es).Ok? <==> LoadOrgs(m, es).1.None?)
    ensures FreshIds(m, es) && OrgDictionary(m, es).Ok? ==> OrgDictionary(m, es).value == LoadOrgs(m, es).0
    ensures FreshIds(m, es) && OrgDictionary(m, es).Err? ==> OrgDictionary(m, es).error == LoadOrgs(m, es).1.value
    ensures (forall i :: 0 <= i < |es| ==> es[i].key.Ok?) && !FreshIds(m, es) ==> OrgDictionary(m, es) == Err(Argument)
    decreases |es|
  {
    if es != [] && es[0].key.Ok? {
      var m' := m[es[0].profile.id := OrgInfo(es[0].profile, es[0].key.value)];
      FreshTail(m, es, OrgInfo(es[0].profile, es[0].key.value));
      if es[0].profile.id !in m {
        OrgDictionaryAgrees(m', es[1..]);
        assert forall i :: 0 <= i < |es[1..]| ==> es[1..][i] == es[i + 1];
      }
    }
  }

  /** The ids of a list of folders. */
  function FolderIds(fs: seq<VwFolder>): set<string> {
    set i | 0 <= i < |fs| :: fs[i].id
  }

  /** Distinct folder ids, none of them already in the map. */
  predicate FreshFolderIds(m: map<string, VwFolder>, fs: seq<VwFolder>) {
    (forall i :: 0 <= i < |fs| ==> fs[i].id !in m) &&
    (forall i, j :: 0 <= i < j < |fs| ==> fs[i].id != fs[j].id)
  }

  /** Fresh folder ids stay fresh for the tail once the head is stored. */
  lemma FreshFolderTail(m: map<string, VwFolder>, fs: seq<VwFolder>)
    requires fs != []
    ensures FreshFolderIds(m, fs) <==>
      fs[0].id !in m && FreshFolderIds(m[fs[0].id := fs[0]], fs[1..])
  {
    assert forall i :: 0 <= i < |fs[1..]| ==> fs[1..][i] == fs[i + 1];
    if fs[0].id !in m && FreshFolderIds(m[fs[0].id := fs[0]], fs[1..]) {
      forall i, j | 0 <= i < j < |fs| ensures fs[i].id != fs[j].id {
        assert fs[1..][j - 1] == fs[j];
        if i > 0 { assert fs[1..][i - 1] == fs[i]; }
      }
    }
  }

  /** The ids of a non-empty list: the head's id and the tail's. */
  lemma FolderIdsCons(fs: seq<VwFolder>)
    requires fs != []
    ensures FolderIds(fs) == {fs[0].id} + FolderIds(fs[1..])
  {
    forall id | id in FolderIds(fs[1..]) ensures id in FolderIds(fs) {
      var i :| 0 <= i < |fs[1..]| && fs[1..][i].id == id;
      assert fs[i + 1] == fs[1..][i];
    }
    forall id | id in FolderIds(fs) ensures id in {fs[0].id} + FolderIds(fs[1..]) {
      var i :| 0 <= i < |fs| && fs[i].id == id;
      if i > 0 { assert fs[1..][i - 1] == fs[i]; }
    }
  }

  /** `ToDictionary(f => f.id)` over the folders: each folder under its id, ArgumentException for an id seen twice. */
  function FolderDictionary(m: map<string, VwFolder>, fs: seq<VwFolder>): (r: Result<map<string, VwFolder>>)
    ensures r.Ok? <==> FreshFolderIds(m, fs)
    ensures r.Err? ==> r.error == Argument
    ensures r.Ok? ==> r.value.Keys == m.Keys + FolderIds(fs)
    ensures r.Ok? ==> forall i :: 0 <= i < |fs| ==> r.value[fs[i].id] == fs[i]
    ensures r.Ok? ==> forall id :: id in m ==> r.value[id] == m[id]
    decreases |fs|
  {
    if fs == [] then Ok(m)
    else if fs[0].id in m then Err(Argument)
    else
      var rest := FolderDictionary(m[fs[0].id := fs[0]], fs[1..]);
      FreshFolderTail(m, fs);
      FolderIdsCons(fs);
      assert forall i :: 1 <= i < |fs| ==> fs[i] == fs[1..][i - 1];
      rest
  }

  // ---- Login ----

  /** The keys and maps `createConnectionAsync` assembles from the server's answers. */
  datatype Session = Session(
    userKey: SymmetricCryptoKey, userPrivateKey: seq<byte>, userPublicKey: seq<byte>,
    folders: map<string, VwFolder>, orgs: map<string, OrgInfo>)

  /**
   * The key-unwrap chain of `createConnectionAsync`: the user key from the
   * profile's `key` under the stretched master key, the private key under
   * the user key, each organization key under the private key, and the
   * folder and organization dictionaries. The public key is the profile's
   * base64 text decoded, or empty when it is not base64.
   */
  function OpenSession(c: Crypto, email: string, password: string, config: KdfConfig,
                       profileKey: string, profilePrivateKey: string, publicKey: string,
                       orgProfiles: seq<VwOrganizationProfile>, folderList: seq<VwFolder>): (r: Result<Session>)
    ensures CreateMasterKey(c, email, password, config).Err? ==> r == Err(CreateMasterKey(c, email, password, config).error)
    ensures r.Ok? ==> r.value.userPublicKey == DecodeBase64(publicKey).GetOr([])
    ensures r.Ok? ==>
      FolderDictionary(map[], folderList).Ok? && OrgDictionary(map[], Unwrapped(c, r.value.userPrivateKey, orgProfiles)).Ok?
    ensures r.Ok? ==> r.value.folders == FolderDictionary(map[], folderList).value
    ensures r.Ok? ==> r.value.orgs == OrgDictionary(map[], Unwrapped(c, r.value.userPrivateKey, orgProfiles)).value
  {
    var stretchKey :- CreateStretchKeyFor(c, email, password, config);
    var userKeyEnc :- Parse(profileKey);
    var userKeyBytes :- Decrypt(c, stretchKey.encKey, userKeyEnc);
    var userKey :- From(userKeyBytes);
    var privateKeyEnc :- Parse(profilePrivateKey);
    var privateKey :- Decrypt(c, userKey.encKey, privateKeyEnc);
    var orgs :- OrgDictionary(map[], Unwrapped(c, privateKey, orgProfiles));
    var folders :- FolderDictionary(map[], folderList);
    Ok(Session(userKey, privateKey, DecodeBase64(publicKey).GetOr([]), folders, orgs))
  }

  /**
   * An account whose profile holds its 64-byte user key under the stretched
   * master key, and its private key under that user key, both in wire
   * format, opens with exactly those keys; only the dictionaries can then
   * still throw.
   */
  lemma OpenSessionRecoversKeys(c: Crypto, email: string, password: string, config: KdfConfig,
                                userKeyBytes: Bytes64, privateKey: seq<byte>, iv: Block, iv': Block,
                                publicKey: string, orgProfiles: seq<VwOrganizationProfile>, folderList: seq<VwFolder>)
    requires Sound(c) && CreateMasterKey(c, email, password, config).Ok?
    requires var stretchKey := CreateStretchKeyFor(c, email, password, config).value;
      EncryptAesIntended(c, stretchKey, userKeyBytes, true, None, iv).Ok?
    requires From(userKeyBytes).Ok? && EncryptAesIntended(c, From(userKeyBytes).value, privateKey, true, None, iv').Ok?
    ensures var stretchKey := CreateStretchKeyFor(c, email, password, config).value;
      var profileKey := WireFormat(EncryptAesIntended(c, stretchKey, userKeyBytes, true, None, iv).value);
      var profilePrivateKey := WireFormat(EncryptAesIntended(c, From(userKeyBytes).value, privateKey, true, None, iv').value);
      var r := OpenSession(c, email, password, config, profileKey.value, profilePrivateKey.value, publicKey, orgProfiles, folderList);
      profileKey.Ok? && profilePrivateKey.Ok? &&
      (r.Ok? <==> OrgDictionary(map[], Unwrapped(c, privateKey, orgProfiles)).Ok? && FolderDictionary(map[], folderList).Ok?) &&
      (r.Ok? ==> r.value.userKey == From(userKeyBytes).value && r.value.userPrivateKey == privateKey)
  {
    var stretchKey := CreateStretchKeyFor(c, email, password, config).value;
    var userKeyEnc := EncryptAesIntended(c, stretchKey, userKeyBytes, true, None, iv).value;
    WireDecrypts(c, stretchKey.encKey, userKeyEnc);
    var privateKeyEnc := EncryptAesIntended(c, From(userKeyBytes).value, privateKey, true, None, iv').value;
    WireDecrypts(c, From(userKeyBytes).value.encKey, privateKeyEnc);
  }

  /** `Select(...).Where(i => i != null).ToArray()` over outcomes: the first exception, or the non-null values in order. */
  function NonNullResults<T>(rs: seq<Result<Option<T>>>): (r: Result<seq<T>>)
    ensures r.Ok? <==> forall k :: 0 <= k < |rs| ==> rs[k].Ok?
    decreases |rs|
  {
    if rs == [] then Ok([])
    else
      var first :- rs[0];
      var rest :- NonNullResults(rs[1..]);
      assert forall k :: 1 <= k < |rs| ==> rs[k] == rs[1..][k - 1];
      Ok((if first.Some? then [first.value] else []) + rest)
  }

  /**
   * Outcomes that are null exactly for the null entries yield, when none
   * throws, one value per non-null entry, in order: the k-th value is the
   * outcome of an entry equal to the k-th non-null entry.
   */
  lemma {:induction false} NonNullResultsFrom<A, B>(rs: seq<Result<Option<B>>>, items: seq<Option<A>>)
    requires |rs| == |items|
    requires forall k :: 0 <= k < |rs| && rs[k].Ok? ==> (rs[k].value.Some? <==> items[k].Some?)
    ensures NonNullResults(rs).Ok? ==> |NonNullResults(rs).value| == |NonNull(items)|
    ensures NonNullResults(rs).Ok? ==> forall k :: 0 <= k < |NonNull(items)| ==>
      exists j :: 0 <= j < |items| && items[j] == Some(NonNull(items)[k]) && rs[j] == Ok(Some(NonNullResults(rs).value[k]))
    decreases |rs|
  {
    if rs != [] && NonNullResults(rs).Ok? {
      var rs', items' := rs[1..], items[1..];
      assert forall k :: 0 <= k < |rs'| ==> rs'[k] == rs[k + 1] && items'[k] == items[k + 1];
      NonNullResultsFrom(rs', items');
      var out, out' := NonNullResults(rs).value, NonNullResults(rs').value;
      var nn, nn' := NonNull(items), NonNull(items');
      assert rs[0].Ok?;
      forall k | 0 <= k < |nn|
        ensures exists j :: 0 <= j < |items| && items[j] == Some(nn[k]) && rs[j] == Ok(Some(out[k]))
      {
        if items[0].Some? && k == 0 {
          assert items[0] == Some(nn[0]) && rs[0] == Ok(Some(out[0]));
        } else {
          var k' := if items[0].Some? then k - 1 else k;
          assert nn[k] == nn'[k'] && out[k] == out'[k'];
          var j' :| 0 <= j' < |items'| && items'[j'] == Some(nn'[k']) && rs'[j'] == Ok(Some(out'[k']));
          assert items[j' + 1] == Some(nn[k]) && rs[j' + 1] == Ok(Some(out[k]));
        }
      }
    }
  }

  /**
   * A linear search over per-entry test outcomes, from `k`: the index of the
   * first test that holds, none when every test fails, and the exception of
   * the first test that throws before any holds.
   */
  function FirstTrue(tests: seq<Result<bool>>, k: nat): (r: Result<Option<nat>>)
    requires k <= |tests|
    ensures r.Ok? && r.value.Some? ==>
      k <= r.value.value < |tests| && tests[r.value.value] == Ok(true) &&
      forall j :: k <= j < r.value.value ==> tests[j] == Ok(false)
    ensures r == Ok(None) ==> forall j :: k <= j < |tests| ==> tests[j] == Ok(false)
    ensures r.Err? ==>
      exists j :: k <= j < |tests| && tests[j] == Err(r.error) && (forall i :: k <= i < j ==> tests[i] == Ok(false))
    decreases |tests| - k
  {
    if k == |tests| then Ok(None)
    else
      match tests[k]
      case Err(e) => Err(e)
      case Ok(hit) => if hit then Ok(Some(k)) else FirstTrue(tests, k + 1)
  }

  class VaultwardenAgent {
    const crypto: Crypto
    const userKey: SymmetricCryptoKey
    const userPrivateKey: seq<byte>
    const userPublicKey: seq<byte>
    const profileEmail: string
    /** The session's `Folders` dictionary. */
    var folders: map<string, VwFolder>
    /** The session's `Orgs` dictionary. */
    var orgs: map<string, OrgInfo>

    constructor (crypto: Crypto, userKey: SymmetricCryptoKey, userPrivateKey: seq<byte>, userPublicKey: seq<byte>,
                 profileEmail: string, folders: map<string, VwFolder>, orgs: map<string, OrgInfo>)
      ensures this.crypto == crypto && this.userKey == userKey && this.userPrivateKey == userPrivateKey
      ensures this.userPublicKey == userPublicKey && this.profileEmail == profileEmail
      ensures this.folders == folders && this.orgs == orgs
    {
      this.crypto := crypto;
      this.userKey := userKey;
      this.userPrivateKey := userPrivateKey;
      this.userPublicKey := userPublicKey;
      this.profileEmail := profileEmail;
      this.folders := folders;
      this.orgs := orgs;
    }

    // ---- Key selection ----

    /** The key `decryptChiperItemText` picks: none for an organization the session does not know. */
    function ItemTextKey(item: CipherItem): (r: Option<seq<byte>>)
      reads this
      ensures IsBlank(item.organizationId) ==> r == Some(userKey.encKey)
      ensures !IsBlank(item.organizationId) && item.organizationId.value in orgs ==>
        r == Some(orgs[item.organizationId.value].key.encKey)
      ensures r.None? <==> !IsBlank(item.organizationId) && item.organizationId.value !in orgs
    {
      if IsBlank(item.organizationId) then Some(userKey.encKey)
      else if item.organizationId.value in orgs then Some(orgs[item.organizationId.value].key.encKey)
      else None
    }

    /** The key `dcryptChiperItem` picks: the organization's when the session knows it, else the user's. */
    function ItemKey(item: CipherItem): (r: seq<byte>)
      reads this
      ensures item.organizationId.Some? && item.organizationId.value in orgs ==> r == orgs[item.organizationId.value].key.encKey
      ensures (item.organizationId.None? || item.organizationId.value !in orgs) ==> r == userKey.encKey
    {
      if item.organizationId.Some? && item.organizationId.value in orgs then orgs[item.organizationId.value].key.encKey
      else userKey.encKey
    }

    /**
     * The two selections agree except in two cases: an organization the
     * session does not know gives no key to `decryptChiperItemText` but the
     * user key to `dcryptChiperItem`; and a blank id that happens to be a
     * key of `Orgs` gives the user key to the first and the org key to the second.
     */
    lemma KeySelectionsCompared(item: CipherItem)
      ensures ItemTextKey(item).None? ==> ItemKey(item) == userKey.encKey
      ensures ItemTextKey(item).Some? && !(IsBlank(item.organizationId) && item.organizationId.Some? && item.organizationId.value in orgs) ==>
        ItemTextKey(item).value == ItemKey(item)
    {
    }

    /** `decryptChiperItemText`: null when there is no key for the item, else `decryptEncText`. */
    function DecryptCipherItemText(item: CipherItem, text: Option<string>): (r: Result<Option<string>>)
      reads this
      ensures ItemTextKey(item).None? ==> r == Ok(None)
      ensures ItemTextKey(item).Some? ==> r == DecryptEncText(crypto, ItemTextKey(item).value, text)
    {
      var key := ItemTextKey(item);
      if key.None? then Ok(None) else DecryptEncText(crypto, key.value, text)
    }

    // ---- Item decryption ----

    function FolderOf(item: CipherItem): (r: Option<VwFolder>)
      reads this
      ensures r.Some? <==> item.folderId.Some? && item.folderId.value in folders
      ensures r.Some? ==> r.value == folders[item.folderId.value]
    {
      if item.folderId.Some? && item.folderId.value in folders then Some(folders[item.folderId.value]) else None
    }

    function OrgOf(item: CipherItem): (r: Option<OrgInfo>)
      reads this
      ensures r.Some? <==> item.organizationId.Some? && item.organizationId.value in orgs
      ensures r.Some? ==> r.value == orgs[item.organizationId.value]
    {
      if item.organizationId.Some? && item.organizationId.value in orgs then Some(orgs[item.organizationId.value]) else None
    }

    /**
     * `dcryptChiperItem`: null for a null item; otherwise the item with
     * every text decrypted under `ItemKey`, except the folder name, which is
     * always under the user key. A supplied `name` is used as it is.
     */
    function DecryptCipherItem(item: Option<CipherItem>, name: Option<string>): (r: Result<Option<DecryptedCipherItem>>)
      reads this
      ensures item.None? ==> r == Ok(None)
      ensures item.Some? ==> (r.Ok? <==>
        (name.Some? || DecryptEncText(crypto, ItemKey(item.value), item.value.name).Ok?) &&
        DecryptEncText(crypto, ItemKey(item.value), item.value.notes).Ok? &&
        (FolderOf(item.value).Some? ==> DecryptEncText(crypto, userKey.encKey, Some(FolderOf(item.value).value.name)).Ok?) &&
        DecryptLogin(crypto, ItemKey(item.value), item.value.login).Ok? &&
        DecryptCard(crypto, ItemKey(item.value), item.value.card).Ok? &&
        DecryptSshKey(crypto, ItemKey(item.value), item.value.sshKey).Ok?)
      ensures item.Some? && r.Ok? ==> r.value.Some?
      ensures item.Some? && r.Ok? ==> r.value.value.id == item.value.id && r.value.value.cipherType == item.value.cipherType
      ensures item.Some? && r.Ok? ==> (r.value.value.deleted <==> item.value.deletedDate.Some?)
      ensures item.Some? && r.Ok? && name.Some? ==> r.value.value.name == name.value
      ensures item.Some? && r.Ok? && name.None? ==>
        r.value.value.name == DecryptEncText(crypto, ItemKey(item.value), item.value.name).value.GetOr("")
      ensures item.Some? && r.Ok? ==>
        r.value.value.orgName == (if OrgOf(item.value).Some? then Some(OrgOf(item.value).value.profile.name) else None)
      ensures item.Some? && r.Ok? ==> r.value.value.memo == DecryptEncText(crypto, ItemKey(item.value), item.value.notes).value
      ensures item.Some? && r.Ok? && FolderOf(item.value).None? ==> r.value.value.folderName.None?
      ensures item.Some? && r.Ok? && FolderOf(item.value).Some? ==>
        r.value.value.folderName == DecryptEncText(crypto, userKey.encKey, Some(FolderOf(item.value).value.name)).value
      ensures item.Some? && r.Ok? ==> r.value.value.login == DecryptLogin(crypto, ItemKey(item.value), item.value.login).value
      ensures item.Some? && r.Ok? ==> r.value.value.card == DecryptCard(crypto, ItemKey(item.value), item.value.card).value
      ensures item.Some? && r.Ok? ==> r.value.value.sshKey == DecryptSshKey(crypto, ItemKey(item.value), item.value.sshKey).value
    {
      if item.None? then Ok(None)
      else
        var it := item.value;
        var folder := FolderOf(it);
        var org := OrgOf(it);
        var key := ItemKey(it);
        var decName :- if name.Some? then Ok(name.value) else
          var n :- DecryptEncText(crypto, key, it.name);
          Ok(n.GetOr(""));
        var decMemo :- DecryptEncText(crypto, key, it.notes);
        var decFolder :- DecryptEncText(crypto, userKey.encKey, if folder.Some? then Some(folder.value.name) else None);
        var login :- DecryptLogin(crypto, key, it.login);
        var card :- DecryptCard(crypto, key, it.card);
        var sshKey :- DecryptSshKey(crypto, key, it.sshKey);
        Ok(Some(DecryptedCipherItem(
          it.id, it.cipherType, it.deletedDate.Some?, decName,
          if org.Some? then Some(org.value.profile.name) else None,
          decFolder, decMemo, login, card, sshKey)))
    }

    /** Each entry of the fetched list decrypted on its own. */
    function DecryptEach(items: seq<Option<CipherItem>>): (r: seq<Result<Option<DecryptedCipherItem>>>)
      reads this
      ensures |r| == |items|
      ensures forall k :: 0 <= k < |items| ==> r[k] == DecryptCipherItem(items[k], None)
    {
      seq(|items|, k reads this requires 0 <= k < |items| => DecryptCipherItem(items[k], None))
    }

    /**
     * `GetItemsAsync` over the fetched list: each entry decrypted in order,
     * the nulls dropped. An exception from any entry is the result.
     */
    function GetItems(items: seq<Option<CipherItem>>): (r: Result<seq<DecryptedCipherItem>>)
      reads this
      ensures r.Ok? <==> forall k :: 0 <= k < |items| ==> DecryptCipherItem(items[k], None).Ok?
      ensures r.Ok? ==> |r.value| == |NonNull(items)|
      ensures r.Ok? ==> forall k :: 0 <= k < |r.value| ==>
        DecryptCipherItem(Some(NonNull(items)[k]), None) == Ok(Some(r.value[k]))
    {
      var rs := DecryptEach(items);
      NonNullResultsFrom(rs, items);
      var r := NonNullResults(rs);
      assert r.Ok? ==> forall k :: 0 <= k < |r.value| ==>
        DecryptCipherItem(Some(NonNull(items)[k]), None) == Ok(Some(r.value[k])) by {
        if r.Ok? {
          forall k | 0 <= k < |r.value|
            ensures DecryptCipherItem(Some(NonNull(items)[k]), None) == Ok(Some(r.value[k]))
          {
            var j :| 0 <= j < |items| && items[j] == Some(NonNull(items)[k]) && rs[j] == Ok(Some(r.value[k]));
          }
        }
      }
      r
    }
    // ---- Search ----

    /** An item `FindItemAsync` stops at: the type matches and the name decrypts to exactly `name`. */
    predicate IsMatch(item: CipherItem, t: CipherType, name: string)
      reads this
    {
      item.cipherType == t && DecryptCipherItemText(item, item.name) == Ok(Some(name))
    }

    /**
     * The test `FindItemAsync` applies to one entry. A null entry throws (the
     * type filter dereferences it), and so does a name that cannot be
     * decrypted on an item of the right type.
     */
    function MatchTest(entry: Option<CipherItem>, t: CipherType, name: string): (r: Result<bool>)
      reads this
      ensures entry.None? ==> r == Err(NullReference)
      ensures r.Ok? ==> entry.Some? && (r.value <==> IsMatch(entry.value, t, name))
      ensures entry.Some? && entry.value.cipherType != t ==> r == Ok(false)
      ensures entry.Some? && entry.value.cipherType == t && DecryptCipherItemText(entry.value, entry.value.name).Err? ==>
        r == Err(DecryptCipherItemText(entry.value, entry.value.name).error)
    {
      if entry.None? then Err(NullReference)
      else if entry.value.cipherType != t then Ok(false)
      else
        var decryptedName :- DecryptCipherItemText(entry.value, entry.value.name);
        Ok(decryptedName == Some(name))
    }

    /** Every entry's test outcome, in order. */
    function MatchTests(items: seq<Option<CipherItem>>, t: CipherType, name: string): (r: seq<Result<bool>>)
      reads this
      ensures |r| == |items|
      ensures forall k :: 0 <= k < |items| ==> r[k] == MatchTest(items[k], t, name)
    {
      seq(|items|, k reads this requires 0 <= k < |items| => MatchTest(items[k], t, name))
    }

    /**
     * The index `FindItemAsync` stops at, scanning from `k`: the first match,
     * or none, unless an entry before it throws.
     */
    function FindFrom(items: seq<Option<CipherItem>>, t: CipherType, name: string, k: nat): (r: Result<Option<nat>>)
      reads this
      requires k <= |items|
      ensures r.Ok? && r.value.Some? ==>
        k <= r.value.value < |items| && items[r.value.value].Some? && IsMatch(items[r.value.value].value, t, name)
      ensures r.Ok? && r.value.Some? ==>
        forall j :: k <= j < r.value.value ==> items[j].Some? && !IsMatch(items[j].value, t, name)
      ensures r == Ok(None) ==>
        forall j :: k <= j < |items| ==> items[j].Some? && !IsMatch(items[j].value, t, name)
      ensures r.Ok? && r.value.Some? ==> forall j :: k <= j < r.value.value ==> MatchTest(items[j], t, name) == Ok(false)
      ensures r == Ok(None) ==> forall j :: k <= j < |items| ==> MatchTest(items[j], t, name) == Ok(false)
      ensures r.Err? ==> exists j :: k <= j < |items| && MatchTest(items[j], t, name) == Err(r.error) &&
                                     (forall i :: k <= i < j ==> MatchTest(items[i], t, name) == Ok(false))
    {
      var tests := MatchTests(items, t, name);
      var r := FirstTrue(tests, k);
      assert forall j :: k <= j < |items| && tests[j].Ok? ==>
        items[j].Some? && (tests[j].value <==> IsMatch(items[j].value, t, name));
      r
    }

    /** What `FindItemAsync` returns: the first match, decrypted with its name as found, or null. */
    function FindItem(items: seq<Option<CipherItem>>, t: CipherType, name: string): (r: Result<Option<DecryptedCipherItem>>)
      reads this
      ensures FindFrom(items, t, name, 0) == Ok(None) ==> r == Ok(None)
      ensures FindFrom(items, t, name, 0).Err? ==> r == Err(FindFrom(items, t, name, 0).error)
      ensures FindFrom(items, t, name, 0).Ok? && FindFrom(items, t, name, 0).value.Some? ==>
        r == DecryptCipherItem(items[FindFrom(items, t, name, 0).value.value], Some(name))
      ensures r.Ok? && r.value.Some? ==> r.value.value.name == name && r.value.value.cipherType == t
    {
      var found :- FindFrom(items, t, name, 0);
      if found.None? then Ok(None)
      else DecryptCipherItem(items[found.value], Some(name))
    }

    /** The `foreach` of `FindItemAsync`, with its early return. */
    method FindItemAsync(items: seq<Option<CipherItem>>, t: CipherType, name: string) returns (r: Result<Option<DecryptedCipherItem>>)
      ensures r == FindItem(items, t, name)
    {
      var i := 0;
      while i < |items|
        invariant 0 <= i <= |items|
        invariant FindFrom(items, t, name, 0) == FindFrom(items, t, name, i)
      {
        if items[i].None? {
          return Err(NullReference);
        }
        var item := items[i].value;
        if item.cipherType == t {
          var decryptedName := DecryptCipherItemText(item, item.name);
          if decryptedName.Err? {
            return Err(decryptedName.error);
          }
          if decryptedName.value == Some(name) {
            r := DecryptCipherItem(Some(item), decryptedName.value);
            return;
          }
        }
        i := i + 1;
      }
      return Ok(None);
    }

    /** An item of an organization the session does not know is never found, whatever its name. */
    lemma UnknownOrgNeverFound(items: seq<Option<CipherItem>>, t: CipherType, name: string, k: nat)
      requires k < |items| && items[k].Some?
      requires !IsBlank(items[k].value.organizationId) && items[k].value.organizationId.value !in orgs
      ensures FindFrom(items, t, name, 0).Ok? && FindFrom(items, t, name, 0).value.Some? ==>
        FindFrom(items, t, name, 0).value.value != k
    {
    }

    /** `GetItemAsync`: a failed fetch is swallowed, so it and a null answer both give null. */
    function GetItem(fetched: Result<Option<CipherItem>>): (r: Result<Option<DecryptedCipherItem>>)
      reads this
      ensures fetched.Err? || fetched.value.None? ==> r == Ok(None)
      ensures fetched.Ok? && fetched.value.Some? ==> r == DecryptCipherItem(fetched.value, None)
    {
      if fetched.Err? then Ok(None) else DecryptCipherItem(fetched.value, None)
    }

    // ---- Collections ----

    /** `GetCollectionsAsync` over the fetched list: NotSupportedException for an organization the session does not know. */
    function GetCollections(orgId: string, collections: seq<VwCollection>): (r: Result<seq<DecryptedCollection>>)
      reads this
      ensures orgId !in orgs ==> r == Err(NotSupported)
      ensures orgId in orgs ==> r == DecryptCollections(crypto, orgs[orgId].key.encKey, collections)
    {
      if orgId !in orgs then Err(NotSupported)
      else DecryptCollections(crypto, orgs[orgId].key.encKey, collections)
    }

    /**
     * `CreateCollectionAsync`: ArgumentException for an organization the
     * session does not know; otherwise the request (the name under the
     * organization key, the caller as managing member) and, from the
     * server's `answer`, the created collection with its name decrypted.
     */
    function CreateCollection(orgId: string, name: string, iv: Block, answer: VwCollection): (r: Result<(CreateCollectionRequest, AgentCreatedCollection)>)
      reads this
      ensures orgId !in orgs ==> r == Err(Argument)
      ensures orgId in orgs ==>
        (r.Ok? <==> EncryptText(crypto, orgs[orgId].key, name, iv).Ok? &&
                    DecryptEncText(crypto, orgs[orgId].key.encKey, answer.name).Ok?)
      ensures r.Ok? ==> r.value.0.name == EncryptText(crypto, orgs[orgId].key, name, iv).value
      ensures r.Ok? ==> r.value.0.users == [CollectionMembership(orgs[orgId].profile.organizationUserId, false, false, true)]
      ensures r.Ok? ==> r.value.1.id == answer.id && r.value.1.orgId == answer.organizationId
      ensures r.Ok? ==> r.value.1.name == DecryptEncText(crypto, orgs[orgId].key.encKey, answer.name).value.GetOr("")
    {
      if orgId !in orgs then Err(Argument)
      else
        var org := orgs[orgId];
        var nameEnc :- EncryptText(crypto, org.key, name, iv);
        var request := CreateCollectionRequest(nameEnc, [CollectionMembership(org.profile.organizationUserId, false, false, true)]);
        var decName :- DecryptEncText(crypto, org.key.encKey, answer.name);
        Ok((request, AgentCreatedCollection(answer.id, decName.GetOr(""), answer.organizationId)))
    }

    /** A collection the server stores with the name it was sent comes back with the caller's name. */
    lemma CreatedCollectionName(orgId: string, name: string, iv: Block, answer: VwCollection)
      requires Sound(crypto)
      requires orgId in orgs && EncryptText(crypto, orgs[orgId].key, name, iv).Ok?
      requires answer.name == Some(EncryptText(crypto, orgs[orgId].key, name, iv).value)
      ensures CreateCollection(orgId, name, iv, answer).Ok?
      ensures CreateCollection(orgId, name, iv, answer).value.1.name == name
    {
      EncryptTextRoundTrip(crypto, orgs[orgId].key, name, iv);
    }

    // ---- Members ----

    /**
     * `ConfirmMemberAsync`: ArgumentException for an organization the session
     * does not know; otherwise the organization key's bytes under the
     * member's RSA public key (OAEP-SHA256), in wire format. A public key
     * that is not base64 reaches the library as an empty key.
     */
    function ConfirmMember(orgId: string, memberPublicKey: string): (r: Result<string>)
      reads this
      ensures orgId !in orgs ==> r == Err(Argument)
      ensures orgId in orgs ==>
        (r.Ok? <==> crypto.rsaEncrypt(DecodeBase64(memberPublicKey).GetOr([]), orgs[orgId].key.ToBytes(), OaepSha256).Some?)
    {
      if orgId !in orgs then Err(Argument)
      else
        var confirmKey :- EncryptRsa(crypto, DecodeBase64(memberPublicKey).GetOr([]), orgs[orgId].key.ToBytes(), true);
        assert IsDefinedEncryptionType(confirmKey.encType);
        WireFormat(confirmKey)
    }

    /** The member holding the matching private key unwraps the confirmation exactly as the session unwraps its own org keys, and gets the org key. */
    lemma ConfirmedMemberGetsOrgKey(orgId: string, memberPublicKey: string, memberPrivateKey: seq<byte>, profile: VwOrganizationProfile)
      requires Sound(crypto) && crypto.isKeyPair(DecodeBase64(memberPublicKey).GetOr([]), memberPrivateKey)
      requires orgId in orgs && IsStoredShape(orgs[orgId].key)
      requires ConfirmMember(orgId, memberPublicKey).Ok? && profile.key == ConfirmMember(orgId, memberPublicKey).value
      ensures OrgKeyOf(crypto, memberPrivateKey, profile) == Ok(orgs[orgId].key)
    {
      var pub := DecodeBase64(memberPublicKey).GetOr([]);
      var enc := EncryptRsa(crypto, pub, orgs[orgId].key.ToBytes(), true).value;
      WireDecrypts(crypto, memberPrivateKey, enc);
      RsaRoundTrip(crypto, pub, memberPrivateKey, orgs[orgId].key.ToBytes(), true);
      FromOfToBytes(orgs[orgId].key);
    }

    // ---- Folders ----

    /**
     * `CreateFolderAsync`: the name under the user key is sent; the folder
     * the server answers with is stored in `Folders` under its id before its
     * name is decrypted, so a name that fails to decrypt still leaves the
     * folder stored.
     */
    method CreateFolder(name: string, iv: Block, answer: VwFolder) returns (r: Result<AgentCreatedFolder>)
      modifies this
      ensures orgs == old(orgs)
      ensures EncryptText(crypto, userKey, name, iv).Err? ==>
        folders == old(folders) && r == Err(EncryptText(crypto, userKey, name, iv).error)
      ensures EncryptText(crypto, userKey, name, iv).Ok? ==> folders == old(folders)[answer.id := answer]
      ensures r.Ok? <==>
        EncryptText(crypto, userKey, name, iv).Ok? && DecryptEncText(crypto, userKey.encKey, Some(answer.name)).Ok?
      ensures r.Ok? ==>
        r.value == AgentCreatedFolder(answer.id, DecryptEncText(crypto, userKey.encKey, Some(answer.name)).value.GetOr(""))
    {
      var encName := EncryptText(crypto, userKey, name, iv);
      if encName.Err? {
        return Err(encName.error);
      }
      folders := folders[answer.id := answer];
      var decName := DecryptEncText(crypto, userKey.encKey, Some(answer.name));
      if decName.Err? {
        return Err(decName.error);
      }
      return Ok(AgentCreatedFolder(answer.id, decName.value.GetOr("")));
    }

    // ---- Items ----

    /** The login fields of a create request, each under the user key; null stays null. */
    function LoginRequestFields(login: AgentCreateLoginArgs, iv: nat -> Block): (r: Result<CipherItemLogin>)
      ensures r.Ok? <==> login == AgentCreateLoginArgs(None, None, None, None) || |userKey.encKey| == 16 || |userKey.encKey| == 32
      ensures r.Ok? ==>
        r.value.username == EncryptOptionalText(crypto, userKey, login.username, iv(2)).value &&
        r.value.password == EncryptOptionalText(crypto, userKey, login.password, iv(3)).value &&
        r.value.totp == EncryptOptionalText(crypto, userKey, login.totp, iv(4)).value &&
        r.value.uri == EncryptOptionalText(crypto, userKey, login.uri, iv(5)).value
    {
      var username :- EncryptOptionalText(crypto, userKey, login.username, iv(2));
      var password :- EncryptOptionalText(crypto, userKey, login.password, iv(3));
      var totp :- EncryptOptionalText(crypto, userKey, login.totp, iv(4));
      var uri :- EncryptOptionalText(crypto, userKey, login.uri, iv(5));
      Ok(CipherItemLogin(username, password, totp, uri))
    }

    /**
     * The request of `CreateCipherItemLoginAsync`: every text under the user
     * key, whatever `OrgId` says; the ids are passed on as they are and a
     * null collection list becomes an empty one. `iv(i)` is the IV generated
     * for the i-th text encrypted.
     */
    function LoginRequest(cipher: AgentCreateCipherArgs, login: AgentCreateLoginArgs, collectionIds: Option<seq<string>>,
                          iv: nat -> Block): (r: Result<CipherRequest>)
      ensures r.Ok? <==> |userKey.encKey| == 16 || |userKey.encKey| == 32
      ensures r.Ok? ==>
        r.value.cipherType == VwTypes.Login && r.value.folderId == cipher.folderId &&
        r.value.organizationId == cipher.orgId && r.value.collectionIds == collectionIds.GetOr([]) &&
        r.value.secureNote.None? && r.value.login.Some?
      ensures r.Ok? ==>
        r.value.name == EncryptText(crypto, userKey, cipher.name, iv(0)).value &&
        r.value.notes == EncryptOptionalText(crypto, userKey, cipher.notes, iv(1)).value &&
        r.value.login == Some(LoginRequestFields(login, iv).value)
    {
      var name :- EncryptText(crypto, userKey, cipher.name, iv(0));
      var notes := EncryptOptionalText(crypto, userKey, cipher.notes, iv(1)).value;
      var fields := LoginRequestFields(login, iv).value;
      Ok(CipherRequest(VwTypes.Login, name, cipher.folderId, cipher.orgId, notes, Some(fields), None, collectionIds.GetOr([])))
    }

    /** The request of `CreateCipherItemNotesAsync`: as for a login, with a secure-note marker of type 0 and no login. */
    function NotesRequest(cipher: AgentCreateCipherArgs, collectionIds: Option<seq<string>>, iv: nat -> Block): (r: Result<CipherRequest>)
      ensures r.Ok? <==> |userKey.encKey| == 16 || |userKey.encKey| == 32
      ensures r.Ok? ==>
        r.value.cipherType == SecureNote && r.value.folderId == cipher.folderId &&
        r.value.organizationId == cipher.orgId && r.value.collectionIds == collectionIds.GetOr([]) &&
        r.value.secureNote == Some(0) && r.value.login.None?
      ensures r.Ok? ==>
        r.value.name == EncryptText(crypto, userKey, cipher.name, iv(0)).value &&
        r.value.notes == EncryptOptionalText(crypto, userKey, cipher.notes, iv(1)).value
    {
      var name :- EncryptText(crypto, userKey, cipher.name, iv(0));
      var notes := EncryptOptionalText(crypto, userKey, cipher.notes, iv(1)).value;
      Ok(CipherRequest(SecureNote, name, cipher.folderId, cipher.orgId, notes, None, Some(0), collectionIds.GetOr([])))
    }

    /** Every text of a login request decrypts under the user key to what the caller gave, null to null. */
    lemma LoginRequestReadsBack(cipher: AgentCreateCipherArgs, login: AgentCreateLoginArgs, collectionIds: Option<seq<string>>, iv: nat -> Block)
      requires Sound(crypto) && LoginRequest(cipher, login, collectionIds, iv).Ok?
      ensures var q := LoginRequest(cipher, login, collectionIds, iv).value;
        DecryptEncText(crypto, userKey.encKey, Some(q.name)) == Ok(Some(cipher.name)) &&
        DecryptEncText(crypto, userKey.encKey, q.notes) == Ok(cipher.notes) &&
        DecryptEncText(crypto, userKey.encKey, q.login.value.username) == Ok(login.username) &&
        DecryptEncText(crypto, userKey.encKey, q.login.value.password) == Ok(login.password) &&
        DecryptEncText(crypto, userKey.encKey, q.login.value.totp) == Ok(login.totp) &&
        DecryptEncText(crypto, userKey.encKey, q.login.value.uri) == Ok(login.uri)
    {
      EncryptTextRoundTrip(crypto, userKey, cipher.name, iv(0));
      EncryptOptionalTextRoundTrip(crypto, userKey, cipher.notes, iv(1));
      EncryptOptionalTextRoundTrip(crypto, userKey, login.username, iv(2));
      EncryptOptionalTextRoundTrip(crypto, userKey, login.password, iv(3));
      EncryptOptionalTextRoundTrip(crypto, userKey, login.totp, iv(4));
      EncryptOptionalTextRoundTrip(crypto, userKey, login.uri, iv(5));
    }

    /** The item the server stores for a create request, as it later lists it. */
    function StoredItem(q: CipherRequest, id: string): (r: CipherItem)
      ensures r.id == id && r.cipherType == q.cipherType && r.deletedDate.None?
      ensures r.organizationId == q.organizationId && r.folderId == q.folderId
      ensures r.name == Some(q.name) && r.notes == q.notes && r.login == q.login && r.card.None? && r.sshKey.None?
    {
      CipherItem(id, q.cipherType, None, q.organizationId, Some(q.name), q.folderId, q.notes, q.login, None, None)
    }

    /**
     * A created login read back through `dcryptChiperItem` gives the
     * caller's texts when its organization is not one the session knows, as
     * the user key is then the key on both sides; without a folder it always
     * reads back.
     */
    lemma CreatedLoginReadsBack(cipher: AgentCreateCipherArgs, login: AgentCreateLoginArgs, collectionIds: Option<seq<string>>,
                                iv: nat -> Block, id: string)
      requires Sound(crypto) && LoginRequest(cipher, login, collectionIds, iv).Ok?
      requires cipher.orgId.None? || cipher.orgId.value !in orgs
      ensures var d := DecryptCipherItem(Some(StoredItem(LoginRequest(cipher, login, collectionIds, iv).value, id)), None);
        (cipher.folderId.None? ==> d.Ok?) &&
        (d.Ok? ==>
          d.value.Some? && d.value.value.name == cipher.name && d.value.value.memo == cipher.notes &&
          d.value.value.orgName.None?)
    {
      var q := LoginRequest(cipher, login, collectionIds, iv).value;
      var item := StoredItem(q, id);
      LoginRequestReadsBack(cipher, login, collectionIds, iv);
      assert ItemKey(item) == userKey.encKey;
      var d := DecryptCipherItem(Some(item), None);
      if cipher.folderId.None? {
        LoginDecrypts(crypto, userKey.encKey, q.login.value);
        assert FolderOf(item).None?;
        assert d.Ok?;
      }
    }

    // ---- Organizations ----

    /** The default collection's name: the caller's unless it is null or empty. */
    function DefaultCollectionName(defaultCollection: Option<string>): (r: string)
      ensures defaultCollection.None? || defaultCollection.value == [] ==> r == "DefaultCollection"
      ensures defaultCollection.Some? && defaultCollection.value != [] ==> r == defaultCollection.value
      ensures r != []
    {
      if defaultCollection.None? || defaultCollection.value == [] then "DefaultCollection" else defaultCollection.value
    }

    /**
     * The request of `CreateOrganizationAsync`: a new organization key cut
     * from 64 bytes of key data, sent under the user's RSA public key; the
     * new RSA key pair, public half in base64 and private half under the new
     * key; the default collection's name under the new key. `keyData`, the
     * key pair and `iv` are the generated randomness.
     */
    function OrgRequest(name: string, defaultCollection: Option<string>, keyData: Bytes64,
                        orgPublicKey: seq<byte>, orgPrivateKey: seq<byte>, iv: nat -> Block): (r: Result<CreateOrgRequest>)
      ensures r.Ok? <==> crypto.rsaEncrypt(userPublicKey, keyData, OaepSha256).Some?
      ensures r.Err? ==> r.error == Cryptographic
      ensures r.Ok? ==> r.value.name == name && r.value.billingEmail == profileEmail && r.value.planType == FreePlan
      ensures r.Ok? ==> DecodeBase64(r.value.publicKey) == Some(orgPublicKey)
    {
      ToBytesOfFrom(keyData);
      var orgKey := From(keyData).value;
      var encOrgKey :- EncryptRsa(crypto, userPublicKey, orgKey.ToBytes(), true);
      var prvKeyEnc := EncryptAesIntended(crypto, orgKey, orgPrivateKey, true, None, iv(0)).value;
      var collectionEnc := EncryptText(crypto, orgKey, DefaultCollectionName(defaultCollection), iv(1)).value;
      Ok(CreateOrgRequest(name, profileEmail, WireFormat(encOrgKey).value, EncodeBase64(Some(orgPublicKey)).value,
        WireFormat(prvKeyEnc).value, collectionEnc, FreePlan))
    }

    /**
     * What the request carries comes back under the session's own keys: a
     * profile holding the sent key text unwraps, under the user's private
     * key, to the new organization key; the private half and the default
     * collection's name decrypt under it.
     */
    lemma OrgRequestReadsBack(name: string, defaultCollection: Option<string>, keyData: Bytes64,
                              orgPublicKey: seq<byte>, orgPrivateKey: seq<byte>, iv: nat -> Block, profile: VwOrganizationProfile)
      requires Sound(crypto) && crypto.isKeyPair(userPublicKey, userPrivateKey)
      requires OrgRequest(name, defaultCollection, keyData, orgPublicKey, orgPrivateKey, iv).Ok?
      requires profile.key == OrgRequest(name, defaultCollection, keyData, orgPublicKey, orgPrivateKey, iv).value.key
      ensures OrgKeyOf(crypto, userPrivateKey, profile) == From(keyData)
      ensures var q := OrgRequest(name, defaultCollection, keyData, orgPublicKey, orgPrivateKey, iv).value;
        Parse(q.encryptedPrivateKey).Ok? &&
        Decrypt(crypto, From(keyData).value.encKey, Parse(q.encryptedPrivateKey).value) == Ok(orgPrivateKey) &&
        DecryptEncText(crypto, From(keyData).value.encKey, Some(q.collectionName)) == Ok(Some(DefaultCollectionName(defaultCollection)))
    {
      ToBytesOfFrom(keyData);
      var orgKey := From(keyData).value;
      var encOrgKey := EncryptRsa(crypto, userPublicKey, orgKey.ToBytes(), true).value;
      WireDecrypts(crypto, userPrivateKey, encOrgKey);
      RsaRoundTrip(crypto, userPublicKey, userPrivateKey, orgKey.ToBytes(), true);
      var prvKeyEnc := EncryptAesIntended(crypto, orgKey, orgPrivateKey, true, None, iv(0)).value;
      WireDecrypts(crypto, orgKey.encKey, prvKeyEnc);
      EncryptTextRoundTrip(crypto, orgKey, DefaultCollectionName(defaultCollection), iv(1));
    }

    /**
     * The reload of `CreateOrganizationAsync`: `Orgs` cleared, then each
     * refetched profile stored under its id with its unwrapped key, until a
     * key fails to unwrap; the exception, if any, is returned.
     */
    method ReloadOrgs(profiles: seq<VwOrganizationProfile>) returns (err: Option<Error>)
      modifies this
      ensures (orgs, err) == LoadOrgs(map[], Unwrapped(crypto, userPrivateKey, profiles))
      ensures folders == old(folders)
    {
      ghost var es := Unwrapped(crypto, userPrivateKey, profiles);
      orgs := map[];
      var i := 0;
      while i < |profiles|
        invariant 0 <= i <= |profiles|
        invariant LoadOrgs(orgs, es[i..]) == LoadOrgs(map[], es)
        invariant folders == old(folders)
      {
        var key := OrgKeyOf(crypto, userPrivateKey, profiles[i]);
        assert es[i..][0] == OrgEntry(profiles[i], key);
        if key.Err? {
          return Some(key.error);
        }
        assert es[i..][1..] == es[i + 1..];
        orgs := orgs[profiles[i].id := OrgInfo(profiles[i], key.value)];
        i := i + 1;
      }
      return None;
    }

    /**
     * `CreateOrganizationAsync`: nothing changes when the request cannot be
     * built; otherwise `Orgs` is rebuilt from the refetched `profiles`, and
     * the server's `answer` is returned unless a key failed to unwrap.
     */
    method CreateOrganization(name: string, defaultCollection: Option<string>, keyData: Bytes64,
                              orgPublicKey: seq<byte>, orgPrivateKey: seq<byte>, iv: nat -> Block,
                              answer: AgentCreatedOrg, profiles: seq<VwOrganizationProfile>) returns (r: Result<AgentCreatedOrg>)
      modifies this
      ensures folders == old(folders)
      ensures OrgRequest(name, defaultCollection, keyData, orgPublicKey, orgPrivateKey, iv).Err? ==>
        orgs == old(orgs) && r == Err(Cryptographic)
      ensures OrgRequest(name, defaultCollection, keyData, orgPublicKey, orgPrivateKey, iv).Ok? ==>
        var (m, err) := LoadOrgs(map[], Unwrapped(crypto, userPrivateKey, profiles));
        orgs == m && r == (if err.Some? then Err(err.value) else Ok(answer))
    {
      var request := OrgRequest(name, defaultCollection, keyData, orgPublicKey, orgPrivateKey, iv);
      if request.Err? {
        return Err(request.error);
      }
      var err := ReloadOrgs(profiles);
      if err.Some? {
        return Err(err.value);
      }
      return Ok(answer);
    }

    /** After a reload that did not throw, `Orgs` has exactly the refetched ids, each entry filed under its own id and holding the last profile with it. */
    lemma ReloadedOrgs(profiles: seq<VwOrganizationProfile>, i: nat)
      requires LoadOrgs(map[], Unwrapped(crypto, userPrivateKey, profiles)).1.None?
      requires i < |profiles| && forall j :: i < j < |profiles| ==> profiles[j].id != profiles[i].id
      ensures var m := LoadOrgs(map[], Unwrapped(crypto, userPrivateKey, profiles)).0;
        m.Keys == EntryIds(Unwrapped(crypto, userPrivateKey, profiles)) && FiledById(m) &&
        profiles[i].id in m && m[profiles[i].id].profile == profiles[i] &&
        OrgKeyOf(crypto, userPrivateKey, profiles[i]).Ok? &&
        m[profiles[i].id].key == OrgKeyOf(crypto, userPrivateKey, profiles[i]).value
    {
      var es := Unwrapped(crypto, userPrivateKey, profiles);
      assert es[i] == OrgEntry(profiles[i], OrgKeyOf(crypto, userPrivateKey, profiles[i]));
      LoadOrgsShape(map[], es);
      LoadOrgsLastWins(map[], es, i);
    }
  }
}
