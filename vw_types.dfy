/**
 * The shared enumerations and configuration records of src/VwTypes.cs.
 *
 * A C# enum is a 32-bit integer with some named values: a cast such as
 * `(EncryptionType)n` yields an enum value whether or not `n` is named, and
 * `Enum.IsDefined` tells the two apart. Each enum is therefore a newtype over
 * the 32-bit range, its members are constants, and `IsDefined…` is a predicate.
 */
module VwTypes {
  import opened Wrappers

  newtype int32 = x: int | -0x8000_0000 <= x < 0x8000_0000
  newtype int64 = x: int | -0x8000_0000_0000_0000 <= x < 0x8000_0000_0000_0000

  /** The scheme id at the head of every encrypted value. */
  newtype EncryptionType = x: int | -0x8000_0000 <= x < 0x8000_0000

  const AesCbc256: EncryptionType := 0
  const AesCbc128_HmacSha256: EncryptionType := 1
  const AesCbc256_HmacSha256: EncryptionType := 2
  const Rsa2048_OaepSha256: EncryptionType := 3
  const Rsa2048_OaepSha1: EncryptionType := 4
  const Rsa2048_OaepSha256_HmacSha256: EncryptionType := 5
  const Rsa2048_OaepSha1_HmacSha256: EncryptionType := 6

  /** `Enum.IsDefined` for EncryptionType: exactly the seven named schemes. */
  predicate IsDefinedEncryptionType(t: EncryptionType)
    ensures IsDefinedEncryptionType(t) <==>
      t in {AesCbc256, AesCbc128_HmacSha256, AesCbc256_HmacSha256, Rsa2048_OaepSha256,
            Rsa2048_OaepSha1, Rsa2048_OaepSha256_HmacSha256, Rsa2048_OaepSha1_HmacSha256}
  {
    0 <= t <= 6
  }

  /** The kind of a vault item. */
  newtype CipherType = x: int | -0x8000_0000 <= x < 0x8000_0000

  const Login: CipherType := 1
  const SecureNote: CipherType := 2
  const Card: CipherType := 3
  const Identity: CipherType := 4
  const SshKey: CipherType := 5

  predicate IsDefinedCipherType(t: CipherType)
    ensures IsDefinedCipherType(t) <==> t in {Login, SecureNote, Card, Identity, SshKey}
  {
    1 <= t <= 5
  }

  /** The password-based key derivation an account is configured with. */
  newtype KdfType = x: int | -0x8000_0000 <= x < 0x8000_0000

  const Pbkdf2: KdfType := 0
  const Argon2id: KdfType := 1

  predicate IsDefinedKdfType(t: KdfType)
    ensures IsDefinedKdfType(t) <==> t in {Pbkdf2, Argon2id}
  {
    0 <= t <= 1
  }

  /** The state of a user's membership in an organization. */
  newtype MembershipStatus = x: int | -0x8000_0000 <= x < 0x8000_0000

  const Revoked: MembershipStatus := -1
  const Invited: MembershipStatus := 0
  const Accepted: MembershipStatus := 1
  const Confirmed: MembershipStatus := 2

  predicate IsDefinedMembershipStatus(s: MembershipStatus)
    ensures IsDefinedMembershipStatus(s) <==> s in {Revoked, Invited, Accepted, Confirmed}
  {
    -1 <= s <= 2
  }

  /** The key-derivation parameters of an account. */
  datatype KdfConfig = KdfConfig(
    kdf: KdfType,
    kdfIterations: int32,
    kdfMemory: Option<int64>,
    kdfParallelism: Option<int64>)

  /** The prelogin answer is a KdfConfig with the same four fields. */
  type PreloginResult = KdfConfig

  /** C#'s implicit `int?` to `long?` conversion. */
  function Widen(x: Option<int32>): (r: Option<int64>)
    ensures r.Some? <==> x.Some?
    ensures x.Some? ==> r.value as int == x.value as int
  {
    match x
    case Some(v) => Some(v as int64)
    case None => None
  }

  /** The token returned for a client-credentials login; only the fields this model reads. */
  datatype ClientCredentialsConnectTokenResult = ClientCredentialsConnectTokenResult(
    accessToken: string,
    kdf: KdfType, kdfIterations: int32, kdfMemory: Option<int32>, kdfParallelism: Option<int32>,
    key: string, privateKey: string)
  {
    /** The four KDF fields, copied unchanged into a KdfConfig. */
    function ToKdfConfig(): (r: KdfConfig)
      ensures r.kdf == kdf && r.kdfIterations == kdfIterations
      ensures r.kdfMemory.Some? <==> kdfMemory.Some?
      ensures kdfMemory.Some? ==> r.kdfMemory.value as int == kdfMemory.value as int
      ensures r.kdfParallelism.Some? <==> kdfParallelism.Some?
      ensures kdfParallelism.Some? ==> r.kdfParallelism.value as int == kdfParallelism.value as int
    {
      KdfConfig(kdf, kdfIterations, Widen(kdfMemory), Widen(kdfParallelism))
    }
  }

  /** The token returned for a password login; only the fields this model reads. */
  datatype PasswordConnectTokenResult = PasswordConnectTokenResult(
    accessToken: string,
    kdf: KdfType, kdfIterations: int32, kdfMemory: Option<int32>, kdfParallelism: Option<int32>,
    key: string, privateKey: string,
    refreshToken: string)
  {
    /** The four KDF fields, copied unchanged into a KdfConfig. */
    function ToKdfConfig(): (r: KdfConfig)
      ensures r.kdf == kdf && r.kdfIterations == kdfIterations
      ensures r.kdfMemory.Some? <==> kdfMemory.Some?
      ensures kdfMemory.Some? ==> r.kdfMemory.value as int == kdfMemory.value as int
      ensures r.kdfParallelism.Some? <==> kdfParallelism.Some?
      ensures kdfParallelism.Some? ==> r.kdfParallelism.value as int == kdfParallelism.value as int
    {
      KdfConfig(kdf, kdfIterations, Widen(kdfMemory), Widen(kdfParallelism))
    }
  }
}
