/**
 * The symmetric key record of src/SymmetricCryptoKey.cs: an encryption
 * sub-key and an optional authentication (MAC) sub-key, cut from or
 * joined into one byte array.
 */
module SymmetricKeys {
  import opened Wrappers
  import opened Bytes
  import opened VwTypes

  datatype SymmetricCryptoKey = SymmetricCryptoKey(encType: EncryptionType, encKey: seq<byte>, authKey: Option<seq<byte>>)
  {
    /** `ToBytes`: the encryption key, then the authentication key when there is one. */
    function ToBytes(): (r: seq<byte>)
      ensures |r| == |encKey| + |authKey.GetOr([])|
      ensures r[..|encKey|] == encKey && r[|encKey|..] == authKey.GetOr([])
    {
      encKey + authKey.GetOr([])
    }
  }

  /**
   * `From`: 32 bytes are one AES-256 key without a MAC key; 64 bytes are an
   * AES-256 key followed by a 32-byte HMAC key; any other length throws.
   */
  function From(data: seq<byte>): (r: Result<SymmetricCryptoKey>)
    ensures r.Ok? <==> |data| == 32 || |data| == 64
    ensures r.Err? ==> r.error == InvalidData
    ensures |data| == 32 ==> r == Ok(SymmetricCryptoKey(AesCbc256, data, None))
    ensures |data| == 64 ==>
      r.Ok? && r.value.encType == AesCbc256_HmacSha256 && r.value.authKey.Some? &&
      |r.value.encKey| == 32 && r.value.encKey + r.value.authKey.value == data
  {
    if |data| == 32 then Ok(SymmetricCryptoKey(AesCbc256, data, None))
    else if |data| == 64 then
      assert data == data[..32] + data[32..];
      Ok(SymmetricCryptoKey(AesCbc256_HmacSha256, data[..32], Some(data[32..])))
    else Err(InvalidData)
  }

  /** The keys `From` can build: an unsigned 32-byte AES key, or 32 + 32 bytes of AES and HMAC key. */
  predicate IsStoredShape(k: SymmetricCryptoKey) {
    (k.encType == AesCbc256 && |k.encKey| == 32 && k.authKey.None?) ||
    (k.encType == AesCbc256_HmacSha256 && |k.encKey| == 32 && k.authKey.Some? && |k.authKey.value| == 32)
  }

  /** Joining a key `From` built gives back the bytes it was built from. */
  lemma ToBytesOfFrom(data: seq<byte>)
    requires |data| == 32 || |data| == 64
    ensures From(data).Ok? && IsStoredShape(From(data).value)
    ensures From(data).value.ToBytes() == data
  {
  }

  /** Cutting the bytes of a stored-shape key gives back that key, and only those keys round-trip. */
  lemma FromOfToBytes(k: SymmetricCryptoKey)
    ensures From(k.ToBytes()) == Ok(k) <==> IsStoredShape(k)
  {
    var b := k.ToBytes();
    if IsStoredShape(k) {
      if k.authKey.Some? {
        assert b[..32] == k.encKey && b[32..] == k.authKey.value;
      } else {
        assert b == k.encKey;
      }
    }
    if From(b) == Ok(k) {
      ToBytesOfFrom(b);
    }
  }
}
