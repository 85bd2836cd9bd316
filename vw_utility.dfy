/**
 * The key-derivation, scheme-selection and decryption-dispatch logic of
 * src/IVwUtility.cs. The primitives it calls (PBKDF2, HMAC-SHA256, AES-CBC,
 * RSA-OAEP, UTF-8) are .NET library code and appear here as the
 * uninterpreted function fields of a `Crypto` value.
 */
module VwUtility {
  import opened Wrappers
  import opened Bytes
  import opened VwTypes
  import opened SymmetricKeys
  import opened EncryptedDataCodec

  // ---- The library primitives ----

  /** The OAEP padding an RSA call is made with. */
  datatype OaepPadding = OaepSha1 | OaepSha256

  /**
   * The library calls, as functions of their inputs. `None` from a
   * decryption or an RSA encryption is the CryptographicException the
   * library throws (bad padding, unreadable key, message too long).
   */
  datatype Crypto = Crypto(
    pbkdf2Sha256: (seq<byte>, seq<byte>, int, nat) -> seq<byte>,   // password, salt, iterations, length
    hmacSha256: (seq<byte>, seq<byte>) -> seq<byte>,               // key, message
    aesCbcEncrypt: (seq<byte>, seq<byte>, seq<byte>) -> seq<byte>,  // key, IV, plaintext
    aesCbcDecrypt: (seq<byte>, seq<byte>, seq<byte>) -> Option<seq<byte>>,
    rsaEncrypt: (seq<byte>, seq<byte>, OaepPadding) -> Option<seq<byte>>,  // public key, plaintext
    rsaDecrypt: (seq<byte>, seq<byte>, OaepPadding) -> Option<seq<byte>>,  // private key, ciphertext
    isKeyPair: (seq<byte>, seq<byte>) -> bool,                     // public key, private key
    utf8Encode: string -> seq<byte>,
    utf8Decode: seq<byte> -> string)

  /** The key lengths `Aes.Key` accepts: 128, 192 and 256 bits. */
  predicate IsAesKeyLength(n: int) {
    n == 16 || n == 24 || n == 32
  }

  /**
   * What the library guarantees and the model relies on: HMAC-SHA256 tags
   * are 32 bytes, PBKDF2 returns the length asked for, CBC decryption under
   * the same key and IV undoes encryption, RSA decryption with the matching
   * private key undoes encryption, and UTF-8 decoding undoes encoding.
   */
  ghost predicate Sound(c: Crypto) {
    (forall k, m :: |c.hmacSha256(k, m)| == 32) &&
    (forall p, s, i, n :: i > 0 ==> |c.pbkdf2Sha256(p, s, i, n)| == n) &&
    (forall k, iv, p :: IsAesKeyLength(|k|) && |iv| == 16 ==>
      c.aesCbcDecrypt(k, iv, c.aesCbcEncrypt(k, iv, p)) == Some(p)) &&
    (forall pub, prv, m, pad :: c.isKeyPair(pub, prv) && c.rsaEncrypt(pub, m, pad).Some? ==>
      c.rsaDecrypt(prv, c.rsaEncrypt(pub, m, pad).value, pad) == Some(m)) &&
    (forall s :: c.utf8Decode(c.utf8Encode(s)) == s)
  }

  // ---- Key derivation ----

  /** `CreateMasterKey`: PBKDF2-SHA256 of the password salted with the e-mail, 32 bytes. */
  function CreateMasterKey(c: Crypto, email: string, password: string, config: KdfConfig): (r: Result<seq<byte>>)
    ensures r.Ok? <==> config.kdf == Pbkdf2 && config.kdfIterations > 0
    ensures config.kdf != Pbkdf2 ==> r == Err(NotSupported)
    ensures config.kdf == Pbkdf2 && config.kdfIterations <= 0 ==> r == Err(ArgumentOutOfRange)
    ensures r.Ok? ==> r.value == c.pbkdf2Sha256(c.utf8Encode(password), c.utf8Encode(email), config.kdfIterations as int, 32)
    ensures r.Ok? && Sound(c) ==> |r.value| == 32
  {
    if config.kdf != Pbkdf2 then Err(NotSupported)
    else
      var passBytes := c.utf8Encode(password);
      var mailBytes := c.utf8Encode(email);
      if config.kdfIterations <= 0 then Err(ArgumentOutOfRange)
      else Ok(c.pbkdf2Sha256(passBytes, mailBytes, config.kdfIterations as int, 32))
  }

  /** `CreatePasswordHash`: one more PBKDF2 round over the master key, salted with the password. */
  function CreatePasswordHash(c: Crypto, email: string, password: string, config: KdfConfig): (r: Result<seq<byte>>)
    ensures r.Ok? <==> CreateMasterKey(c, email, password, config).Ok?
    ensures r.Err? ==> r.error == CreateMasterKey(c, email, password, config).error
    ensures r.Ok? ==> r.value == c.pbkdf2Sha256(CreateMasterKey(c, email, password, config).value, c.utf8Encode(password), 1, 32)
    ensures r.Ok? && Sound(c) ==> |r.value| == 32
  {
    if config.kdf != Pbkdf2 then Err(NotSupported)
    else
      var passBytes := c.utf8Encode(password);
      var mailBytes := c.utf8Encode(email);
      if config.kdfIterations <= 0 then Err(ArgumentOutOfRange)
      else
        var masterKey := c.pbkdf2Sha256(passBytes, mailBytes, config.kdfIterations as int, 32);
        Ok(c.pbkdf2Sha256(masterKey, passBytes, 1, 32))
  }

  /** `CreateExpandKey`: the HMAC, under `key`, of the UTF-8 of `info` followed by the byte 1. */
  function CreateExpandKey(c: Crypto, key: seq<byte>, info: string): (r: seq<byte>)
    ensures Sound(c) ==> |r| == 32
  {
    var written := c.utf8Encode(info) + [1];
    c.hmacSha256(key, written)
  }

  /** T(i) of HKDF-Expand (section 2.3 of RFC 5869): T(0) is empty, T(i) = HMAC(PRK, T(i-1) | info | i). */
  function HkdfBlock(c: Crypto, prk: seq<byte>, info: seq<byte>, i: nat): seq<byte>
    requires i <= 255
  {
    if i == 0 then [] else c.hmacSha256(prk, HkdfBlock(c, prk, info, i - 1) + info + [i as byte])
  }

  /** T(1) | T(2) | ... | T(n). */
  function HkdfBlocks(c: Crypto, prk: seq<byte>, info: seq<byte>, n: nat): (r: seq<byte>)
    requires n <= 255
    ensures Sound(c) ==> |r| == 32 * n
  {
    if n == 0 then [] else HkdfBlocks(c, prk, info, n - 1) + HkdfBlock(c, prk, info, n)
  }

  /** HKDF-Expand: the first `length` octets of T(1) | T(2) | ... */
  function HkdfExpand(c: Crypto, prk: seq<byte>, info: seq<byte>, length: nat): (r: seq<byte>)
    requires length <= 255 * 32
    ensures Sound(c) ==> |r| == length
  {
    var t := HkdfBlocks(c, prk, info, (length + 31) / 32);
    if length <= |t| then t[..length] else t
  }

  /** `CreateExpandKey` is one-block HKDF-Expand with the UTF-8 of `info` as the info string. */
  lemma ExpandKeyIsHkdfExpand(c: Crypto, key: seq<byte>, info: string)
    requires Sound(c)
    ensures CreateExpandKey(c, key, info) == HkdfExpand(c, key, c.utf8Encode(info), 32)
  {
    var i := c.utf8Encode(info);
    assert HkdfBlock(c, key, i, 0) + i + [1 as byte] == i + [1];
    assert HkdfBlocks(c, key, i, 1) == HkdfBlock(c, key, i, 1);
  }

  /** `CreateStretchKey(key)`: a MAC-carrying AES-256 key from the "enc" and "mac" expansions. */
  function CreateStretchKey(c: Crypto, key: seq<byte>): (r: SymmetricCryptoKey)
    ensures r.encType == AesCbc256_HmacSha256
    ensures r.encKey == CreateExpandKey(c, key, "enc")
    ensures r.authKey == Some(CreateExpandKey(c, key, "mac"))
    ensures Sound(c) ==> IsStoredShape(r)
  {
    var encKey := CreateExpandKey(c, key, "enc");
    var macKey := CreateExpandKey(c, key, "mac");
    SymmetricCryptoKey(AesCbc256_HmacSha256, encKey, Some(macKey))
  }

  /** A stretched key is stored as 64 bytes, and `From` gives it back from them. */
  lemma StretchKeyRoundTrip(c: Crypto, key: seq<byte>)
    requires Sound(c)
    ensures |CreateStretchKey(c, key).ToBytes()| == 64
    ensures From(CreateStretchKey(c, key).ToBytes()) == Ok(CreateStretchKey(c, key))
  {
    FromOfToBytes(CreateStretchKey(c, key));
  }

  /** `CreateStretchKey(email, password, config)`: the stretch of the master key, failing as the master key does. */
  function CreateStretchKeyFor(c: Crypto, email: string, password: string, config: KdfConfig): (r: Result<SymmetricCryptoKey>)
    ensures r.Ok? <==> CreateMasterKey(c, email, password, config).Ok?
    ensures r.Err? ==> r.error == CreateMasterKey(c, email, password, config).error
    ensures r.Ok? ==> r.value == CreateStretchKey(c, CreateMasterKey(c, email, password, config).value)
  {
    var masterKey :- CreateMasterKey(c, email, password, config);
    Ok(CreateStretchKey(c, masterKey))
  }

  // ---- Decryption dispatch ----

  /** The algorithm a scheme id selects in `Decrypt`. */
  datatype Algorithm = AesCbc | RsaOaep(padding: OaepPadding) | Unknown

  function AlgorithmOf(t: EncryptionType): (r: Algorithm)
    ensures r.Unknown? <==> !IsDefinedEncryptionType(t)
    ensures r == AesCbc <==> HasIv(t)
    ensures r == RsaOaep(OaepSha1) <==> t == Rsa2048_OaepSha1 || t == Rsa2048_OaepSha1_HmacSha256
    ensures r == RsaOaep(OaepSha256) <==> t == Rsa2048_OaepSha256 || t == Rsa2048_OaepSha256_HmacSha256
  {
    if t == AesCbc256 || t == AesCbc128_HmacSha256 || t == AesCbc256_HmacSha256 then AesCbc
    else if t == Rsa2048_OaepSha1 || t == Rsa2048_OaepSha1_HmacSha256 then RsaOaep(OaepSha1)
    else if t == Rsa2048_OaepSha256 || t == Rsa2048_OaepSha256_HmacSha256 then RsaOaep(OaepSha256)
    else Unknown
  }

  /** A library result, with `None` as the CryptographicException. */
  function Library(o: Option<seq<byte>>): (r: Result<seq<byte>>)
    ensures r.Ok? <==> o.Some?
    ensures r.Err? ==> r.error == Cryptographic
  {
    if o.Some? then Ok(o.value) else Err(Cryptographic)
  }

  /**
   * `Decrypt`: AES-CBC with the stored IV for the AES schemes (the MAC is
   * never looked at), RSA-OAEP with the scheme's hash for the RSA schemes,
   * InvalidDataException for any other id.
   */
  function Decrypt(c: Crypto, key: seq<byte>, e: EncryptedData): (r: Result<seq<byte>>)
    ensures !IsDefinedEncryptionType(e.encType) ==> r == Err(InvalidData)
    ensures AlgorithmOf(e.encType) == AesCbc ==>
      (r.Err? <==>
        (!IsAesKeyLength(|key|) || e.iv.None? || |e.iv.value| != 16 || c.aesCbcDecrypt(key, e.iv.value, e.data).None?))
    ensures AlgorithmOf(e.encType) == AesCbc && IsAesKeyLength(|key|) && e.iv.None? ==> r == Err(ArgumentNull)
    ensures AlgorithmOf(e.encType) == AesCbc && r.Ok? ==> Some(r.value) == c.aesCbcDecrypt(key, e.iv.value, e.data)
    ensures AlgorithmOf(e.encType).RsaOaep? ==>
      r == Library(c.rsaDecrypt(key, e.data, AlgorithmOf(e.encType).padding))
  {
    match AlgorithmOf(e.encType)
    case AesCbc =>
      if !IsAesKeyLength(|key|) then Err(Cryptographic)
      else if e.iv.None? then Err(ArgumentNull)
      else if |e.iv.value| != 16 then Err(Argument)
      else Library(c.aesCbcDecrypt(key, e.iv.value, e.data))
    case RsaOaep(padding) => Library(c.rsaDecrypt(key, e.data, padding))
    case Unknown => Err(InvalidData)
  }

  /** `Decrypt` never reads the MAC: changing it changes nothing. */
  lemma DecryptIgnoresMac(c: Crypto, key: seq<byte>, e: EncryptedData, mac: Option<seq<byte>>)
    ensures Decrypt(c, key, e.(mac := mac)) == Decrypt(c, key, e)
  {
  }

  // ---- Encryption ----

  /** The local `makeMac`: HMAC-SHA256 of IV followed by ciphertext. */
  function MakeMac(c: Crypto, key: seq<byte>, iv: seq<byte>, data: seq<byte>): (r: seq<byte>)
    ensures Sound(c) ==> |r| == 32
  {
    c.hmacSha256(key, iv + data)
  }

  /**
   * The two `switch`es on the encryption-key length: with a MAC, 16 bytes
   * give scheme 1 and 32 bytes scheme 2; without, `unsignedLength` bytes
   * give scheme 0. Anything else is NotSupportedException.
   */
  function AesScheme(keyLength: nat, hmac: bool, unsignedLength: nat): (r: Option<EncryptionType>)
    ensures r.Some? ==> HasIv(r.value) && (HasMac(r.value) <==> hmac)
    ensures hmac ==> (r.Some? <==> keyLength == 16 || keyLength == 32)
    ensures !hmac ==> (r.Some? <==> keyLength == unsignedLength)
  {
    if hmac then
      if keyLength == 16 then Some(AesCbc128_HmacSha256)
      else if keyLength == 32 then Some(AesCbc256_HmacSha256)
      else None
    else if keyLength == unsignedLength then Some(AesCbc256)
    else None
  }

  /**
   * `EncryptAes` with the length the MAC-less branch accepts as a
   * parameter. `aes.Key` throws for a key that is not 16, 24 or 32 bytes
   * and `aes.IV` for an IV that is not 16 bytes; without a supplied IV the
   * generated one, `generatedIv`, is used.
   */
  function EncryptAesWith(c: Crypto, key: SymmetricCryptoKey, data: seq<byte>, hmac: bool, iv: Option<seq<byte>>,
                          generatedIv: Block, unsignedLength: nat): (r: Result<EncryptedData>)
    ensures r.Ok? <==>
      (IsAesKeyLength(|key.encKey|) && (iv.None? || |iv.value| == 16) && AesScheme(|key.encKey|, hmac, unsignedLength).Some?)
    ensures !IsAesKeyLength(|key.encKey|) ==> r == Err(Cryptographic)
    ensures r.Ok? ==> r.value.encType == AesScheme(|key.encKey|, hmac, unsignedLength).value
    ensures r.Ok? ==> r.value.iv == Some(iv.GetOr(generatedIv))
    ensures r.Ok? ==> r.value.data == c.aesCbcEncrypt(key.encKey, r.value.iv.value, data)
    ensures r.Ok? ==> r.value.mac == if hmac then Some(MakeMac(c, key.authKey.GetOr([]), r.value.iv.value, r.value.data)) else None
    ensures r.Ok? && Sound(c) ==> Decrypt(c, key.encKey, r.value) == Ok(data)
  {
    if !IsAesKeyLength(|key.encKey|) then Err(Cryptographic)
    else if iv.Some? && |iv.value| != 16 then Err(Cryptographic)
    else
      var ivUsed := if iv.Some? then iv.value else generatedIv;
      var enc := c.aesCbcEncrypt(key.encKey, ivUsed, data);
      match AesScheme(|key.encKey|, hmac, unsignedLength)
      case None => Err(NotSupported)
      case Some(t) =>
        if hmac then Ok(EncryptedData(t, enc, Some(ivUsed), Some(MakeMac(c, key.authKey.GetOr([]), ivUsed, enc))))
        else Ok(EncryptedData(t, enc, Some(ivUsed), None))
  }

  /** `EncryptAes` as written: the MAC-less branch asks for a 64-byte encryption key. */
  function EncryptAes(c: Crypto, key: SymmetricCryptoKey, data: seq<byte>, hmac: bool, iv: Option<seq<byte>>,
                      generatedIv: Block): (r: Result<EncryptedData>)
    ensures hmac ==> (r.Ok? <==> (|key.encKey| == 16 || |key.encKey| == 32) && (iv.None? || |iv.value| == 16))
    ensures r.Ok? && Sound(c) ==> Decrypt(c, key.encKey, r.value) == Ok(data)
  {
    EncryptAesWith(c, key, data, hmac, iv, generatedIv, 64)
  }

  /** No key gets past both `aes.Key` and the 64-byte case: `EncryptAes` without a MAC always throws. */
  lemma UnsignedEncryptAesAlwaysFails(c: Crypto, key: SymmetricCryptoKey, data: seq<byte>, iv: Option<seq<byte>>, generatedIv: Block)
    ensures EncryptAes(c, key, data, false, iv, generatedIv).Err?
  {
  }

  /** A 64-byte encryption key, the case the MAC-less branch names, is refused by `aes.Key` before the branch is reached. */
  lemma SixtyFourByteKeyRefused(c: Crypto, key: SymmetricCryptoKey, data: seq<byte>, iv: Option<seq<byte>>, generatedIv: Block)
    requires |key.encKey| == 64
    ensures EncryptAes(c, key, data, false, iv, generatedIv) == Err(Cryptographic)
  {
  }

  /** `EncryptAes` as evidently intended: without a MAC, a 32-byte (AES-256) key gives scheme 0. */
  function EncryptAesIntended(c: Crypto, key: SymmetricCryptoKey, data: seq<byte>, hmac: bool, iv: Option<seq<byte>>,
                              generatedIv: Block): (r: Result<EncryptedData>)
    ensures !hmac ==> (r.Ok? <==> |key.encKey| == 32 && (iv.None? || |iv.value| == 16))
    ensures !hmac && r.Ok? ==> r.value.encType == AesCbc256 && r.value.mac.None?
    ensures r.Ok? && Sound(c) ==> Decrypt(c, key.encKey, r.value) == Ok(data)
  {
    EncryptAesWith(c, key, data, hmac, iv, generatedIv, 32)
  }

  /** With a MAC the intended and the written `EncryptAes` are the same function. */
  lemma IntendedAgreesWithMac(c: Crypto, key: SymmetricCryptoKey, data: seq<byte>, iv: Option<seq<byte>>, generatedIv: Block)
    ensures EncryptAesIntended(c, key, data, true, iv, generatedIv) == EncryptAes(c, key, data, true, iv, generatedIv)
  {
  }

  /** `EncryptRsa`: scheme 3 with OAEP-SHA256 or scheme 4 with OAEP-SHA1, and neither IV nor MAC. */
  function EncryptRsa(c: Crypto, key: seq<byte>, data: seq<byte>, sha256: bool): (r: Result<EncryptedData>)
    ensures r.Ok? <==> c.rsaEncrypt(key, data, if sha256 then OaepSha256 else OaepSha1).Some?
    ensures r.Ok? ==> r.value.iv.None? && r.value.mac.None?
    ensures r.Ok? ==> (r.value.encType == Rsa2048_OaepSha256 <==> sha256) && !HasMac(r.value.encType)
    ensures r.Ok? ==> AlgorithmOf(r.value.encType) == RsaOaep(if sha256 then OaepSha256 else OaepSha1)
  {
    var (t, padding) := if sha256 then (Rsa2048_OaepSha256, OaepSha256) else (Rsa2048_OaepSha1, OaepSha1);
    var enc :- Library(c.rsaEncrypt(key, data, padding));
    Ok(EncryptedData(t, enc, None, None))
  }

  /** What `EncryptRsa` produces, `Decrypt` undoes with the matching private key. */
  lemma RsaRoundTrip(c: Crypto, publicKey: seq<byte>, privateKey: seq<byte>, data: seq<byte>, sha256: bool)
    requires Sound(c) && c.isKeyPair(publicKey, privateKey)
    requires EncryptRsa(c, publicKey, data, sha256).Ok?
    ensures Decrypt(c, privateKey, EncryptRsa(c, publicKey, data, sha256).value) == Ok(data)
  {
  }

  // ---- Key material ----

  /** `span.CopyTo`: `src` written over `dst` from position `at`. */
  method CopyTo(src: seq<byte>, dst: array<byte>, at: nat)
    requires at + |src| <= dst.Length
    modifies dst
    ensures dst[..] == old(dst[..at]) + src + old(dst[at + |src|..])
  {
    var i := 0;
    while i < |src|
      invariant 0 <= i <= |src|
      invariant dst[..at] == old(dst[..at])
      invariant dst[at..at + i] == src[..i]
      invariant dst[at + |src|..] == old(dst[at + |src|..])
    {
      dst[at + i] := src[i];
      i := i + 1;
    }
    assert dst[..] == dst[..at] + dst[at..at + |src|] + dst[at + |src|..];
  }

  /**
   * `GenerateKeyData`: 64 random bytes in one call when `simple`, otherwise
   * two generated AES-256 keys, one after the other. The randomness is the
   * parameters: `noise` for `Random.Shared.NextBytes`, `firstKey` and
   * `secondKey` for the two `GenerateKey` calls.
   */
  method GenerateKeyData(simple: bool, noise: Bytes64, firstKey: Bytes32, secondKey: Bytes32) returns (key: array<byte>)
    ensures fresh(key) && key.Length == 64
    ensures key[..] == if simple then noise else firstKey + secondKey
  {
    if simple {
      var buffer := new byte[64];
      CopyTo(noise, buffer, 0);
      return buffer;
    }
    key := new byte[64];
    CopyTo(firstKey, key, 0);
    CopyTo(secondKey, key, 32);
  }
}
