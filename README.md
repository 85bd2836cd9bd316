# VwConnector core, modelled in Dafny

This project models the client-side logic of VwConnector, a C# client for a
Vaultwarden (Bitwarden-compatible) password server:

- the text format of an encrypted value, `<type>.<part1>` followed by up to two more parts, each after a `|`,
  with its parser (`EncryptedData.TryParse`/`Parse`) and its builder
  (`BuildString`), and the helpers it uses:
  - `TakeSkipToken`;
  - base64 as in section 4 of RFC 4648;
  - `TryParseNumber`;
- the symmetric key container (`SymmetricCryptoKey.From`/`ToBytes`);
- the key derivation and scheme dispatch of `IVwUtility`:
  - master key, password hash and stretched key;
  - scheme selection and MAC in `EncryptAes`;
  - `EncryptRsa`;
  - the algorithm choice in `Decrypt`;
  - `GenerateKeyData`;
- the shared enumerations and `KdfConfig` records of `VwTypes.cs`;
- `VaultwardenAgent`:
  - the key-unwrap chain at login;
  - per-item key selection and the decryption cascade for items, logins,
    cards, SSH keys and collections;
  - the linear search of `FindItemAsync`;
  - the organization-id guards;
  - the requests the create operations send;
  - the in-place updates of the session's `Folders` and `Orgs` dictionaries;
- the `Set-Cookie` scan of `IVwAdmin.GetTokenAsync`, which finds the
  `VW_ADMIN` token.

Modules, one per file:

| File | Module |
|---|---|
| wrappers.dfy | `Wrappers` |
| bytes.dfy | `Bytes` |
| vw_types.dfy | `VwTypes` |
| base64.dfy | `Base64` |
| internal_extensions.dfy | `InternalExtensions` |
| encrypted_data.dfy | `EncryptedDataCodec` |
| symmetric_crypto_key.dfy | `SymmetricKeys` |
| vw_utility.dfy | `VwUtility` |
| vaultwarden_agent.dfy | `Agent` |
| vw_admin.dfy | `Admin` |

How the C# maps onto Dafny:

- **Exceptions** are `Result` values. `Error` has one constructor per
  exception type the code throws.
- **Null** is `Option`.
- **Enums.** A C# enum is a 32-bit integer, so each enum is a newtype over
  that range and has named constants. `Enum.IsDefined` is a predicate.
- **Cryptographic library calls** are uninterpreted function fields of a
  `Crypto` value:
  - PBKDF2, HMAC-SHA256, AES-CBC, RSA-OAEP;
  - UTF-8 encoding and decoding.

  The ghost predicate `VwUtility.Sound` states the few library facts the
  proofs use:
  - tag and key lengths;
  - decryption undoes encryption;
  - UTF-8 decoding undoes encoding.
- **Argument checks of the library** are modelled explicitly, because the
  code's behaviour depends on them:
  - `Aes.Key` accepts only 16-, 24- and 32-byte keys;
  - an IV must be 16 bytes.
- **Randomness** is a parameter: generated IVs, key data and RSA key pairs.
- **Server answers** are parameters.
- **`StringBuilder`** becomes a small class, because `BuildString` builds
  the text step by step.
- **`VaultwardenAgent`** becomes a class:
  - its session keys are constant fields;
  - the two dictionaries are `map` fields that its methods reassign.
- **`GenerateKeyData`** fills a 64-byte `array`.
- **The cookie scan** has two methods whose loops follow the C# `while` and
  `foreach`, with their early exits.

## Model

| member | source | states |
|---|---|---|
| VwTypes.IsDefinedEncryptionType | src/VwTypes.cs:23-32 | `Enum.IsDefined` holds exactly for the ids 0 to 6, AesCbc256 through Rsa2048_OaepSha1_HmacSha256 |
| VwTypes.IsDefinedCipherType | src/VwTypes.cs:286-293 | the defined cipher types are exactly Login 1, SecureNote 2, Card 3, Identity 4 and SshKey 5 |
| VwTypes.IsDefinedKdfType | src/VwTypes.cs:151-155 | the defined KDF types are exactly Pbkdf2 0 and Argon2id 1 |
| VwTypes.IsDefinedMembershipStatus | src/VwTypes.cs:6-12 | the defined statuses are exactly Revoked -1, Invited 0, Accepted 1 and Confirmed 2 |
| VwTypes.Widen | src/VwTypes.cs:106 | converting `int?` to `long?` keeps null as null and keeps the value |
| VwTypes.ClientCredentialsConnectTokenResult.ToKdfConfig | src/VwTypes.cs:99-107 | the config carries the token's Kdf, KdfIterations, KdfMemory and KdfParallelism unchanged, and null stays null |
| VwTypes.PasswordConnectTokenResult.ToKdfConfig | src/VwTypes.cs:111-122 | the same four fields, copied unchanged |
| Base64.CharOf | src/InternalExtensions.cs:41-43 | every sextet has an alphabet character, and the character decodes back to it |
| Base64.RemoveSpaces | src/InternalExtensions.cs:25-39 | the text the decoder reads is no longer than its input and contains no white space |
| Base64.DecodeGroups | src/InternalExtensions.cs:27-32 | group decoding succeeds only on text whose length is a multiple of 4, giving at most 3 bytes per 4 characters |
| Base64.Decode | src/InternalExtensions.cs:25-39 | empty text decodes to no bytes, and a decoding has at most 3 bytes per 4 characters of the input, the size of the buffer the source allocates |
| Base64.Encode | src/InternalExtensions.cs:41-43 | the encoding of n bytes has 4 times ceil(n/3) characters |
| Base64.QuadRoundTrip | src/InternalExtensions.cs:25-43 | three bytes encode to four alphabet characters that decode back to the same three bytes |
| Base64.EncodeHasNoSpaces | src/InternalExtensions.cs:41-43 | an encoding contains no character the decoder skips |
| Base64.NoSpacesFixed | src/InternalExtensions.cs:25-39 | text without white space reaches the decoder unchanged |
| Base64.DecodeEncode | src/InternalExtensions.cs:25-43 | decoding an encoding gives back the original bytes, for every byte sequence |
| Base64.DecodeGroupsEncode | src/InternalExtensions.cs:25-43 | the 4-character groups of an encoding decode to the original bytes |
| Base64.DecodeOneByte | src/InternalExtensions.cs:25-43 | a final group with two `=` decodes to its single byte |
| Base64.DecodeTwoBytes | src/InternalExtensions.cs:25-43 | a final group with one `=` decodes to its two bytes |
| Base64.DecodeGroupsStep | src/InternalExtensions.cs:25-43 | three bytes put in front of a tail whose encoding decodes back also decode back, together with the tail |
| Base64.DecodeGroupsCons | src/InternalExtensions.cs:25-43 | a full group of four alphabet characters in front of decodable text decodes to its three bytes in front of the text's bytes |
| Base64.PaddedSplit | src/InternalExtensions.cs:27-32 | padding is allowed only in the last group: a long text is well padded exactly when its first group is all alphabet and the rest is well padded |
| Base64.FinalShape | src/InternalExtensions.cs:27-32 | a last group decodes exactly when it is well shaped |
| Base64.DecodeGroupsShape | src/InternalExtensions.cs:27-32 | a sequence of groups decodes exactly when it is well shaped |
| Base64.DecodeSucceedsIffValid | src/InternalExtensions.cs:27-32 | decoding succeeds if and only if the text is valid base64 |
| Base64.EncodeAlphabet | src/InternalExtensions.cs:41-43 | every character of an encoding is in the alphabet or is `=` |
| InternalExtensions.IndexOf | src/InternalExtensions.cs:14 | gives the first position of the character, or -1 exactly when the character is absent |
| InternalExtensions.TakeSkipToken | src/InternalExtensions.cs:12-23 | the token contains no separator; when the separator is present, token, separator and rest rebuild the input; when it is absent, the token is the whole input and the rest is empty; the rest is shorter than a non-empty input |
| InternalExtensions.TakeSkipTokenFirst | src/InternalExtensions.cs:14-22 | the split is at the first separator: a prefix without the separator comes back as the token and everything after as the rest |
| InternalExtensions.SkipWhiteSpace | src/IVwAdmin.cs:21-23 | from a position, the scan passes only white space and stops at the end or at the first character that is not white space |
| InternalExtensions.BackWhiteSpace | src/IVwAdmin.cs:21-23 | scanning back from a position, everything passed is white space and the scan stops at the lower bound or after a character that is not white space |
| InternalExtensions.Trim | src/IVwAdmin.cs:21-23 | the result is a slice of the input; everything before it and everything after it is white space; it neither starts nor ends with white space |
| InternalExtensions.TrimKeepsTrimmed | src/IVwAdmin.cs:21-23 | text that neither starts nor ends with white space is left unchanged |
| InternalExtensions.DecodeBase64 | src/InternalExtensions.cs:25-39 | the result is non-null exactly for valid base64, and empty text decodes to an empty array |
| InternalExtensions.EncodeBase64 | src/InternalExtensions.cs:41-43 | null maps to null, and a non-null array's text decodes back to it and contains neither the part separator nor the dot |
| InternalExtensions.EncodeUtf8 | src/InternalExtensions.cs:45-47 | null maps to null, and otherwise the result is the UTF-8 encoding of the text |
| InternalExtensions.DropNumberWhiteStart | src/InternalExtensions.cs:49-50 | leading white space allowed by the number parser is dropped |
| InternalExtensions.DropNumberWhiteEnd | src/InternalExtensions.cs:49-50 | trailing white space allowed by the number parser is dropped |
| InternalExtensions.TryParseNumber | src/InternalExtensions.cs:49-50 | a number is parsed only from text that contains a decimal digit; `TryParseNumberIff` states exactly which texts parse |
| InternalExtensions.DropStartSlice | src/InternalExtensions.cs:49-50 | the leading strip removes a prefix made only of number white space |
| InternalExtensions.DropEndSlice | src/InternalExtensions.cs:49-50 | the trailing strip removes a suffix made only of number white space |
| InternalExtensions.CoreBounds | src/InternalExtensions.cs:49-50 | after both strips a slice of the text is left, with only number white space before and after it |
| InternalExtensions.DropStartAt | src/InternalExtensions.cs:49-50 | the leading strip stops exactly at the first character that is not number white space |
| InternalExtensions.DropEndAt | src/InternalExtensions.cs:49-50 | the trailing strip stops exactly after the last character that is not number white space |
| InternalExtensions.CoreIs | src/InternalExtensions.cs:49-50 | both strips together leave exactly the slice between the surrounding number white space |
| InternalExtensions.SignedRunParses | src/InternalExtensions.cs:49-50 | an optional sign followed by digits reads as the digits' value, negated after `-`, and is null outside the 32-bit range |
| InternalExtensions.LayoutParses | src/InternalExtensions.cs:49-50 | text of the integer layout (white space, optional sign, digits, white space) parses to its value when that fits in 32 bits, and fails otherwise |
| InternalExtensions.ParsedLayout | src/InternalExtensions.cs:49-50 | every parsed number comes from text of the integer layout whose value it is |
| InternalExtensions.TryParseNumberIff | src/InternalExtensions.cs:49-50 | the parse gives n exactly when the text has the integer layout and denotes n, both directions |
| InternalExtensions.NoLayoutNoNumber | src/InternalExtensions.cs:49-50 | text that has no integer layout does not parse, for example "1a" or "" |
| InternalExtensions.DecimalDigits | src/EncryptedData.cs:56 | a number is written as a non-empty string of digits |
| InternalExtensions.DigitsOfDecimal | src/EncryptedData.cs:56 | the digits written for n read back as n |
| InternalExtensions.NoNumberWhite | src/InternalExtensions.cs:49-50 | text that neither starts nor ends with white space is not trimmed |
| InternalExtensions.ParseNumberOfText | src/InternalExtensions.cs:49-50 | every 32-bit integer written in decimal, negative ones included, parses back to itself |
| InternalExtensions.ParseNumberOfDigits | src/InternalExtensions.cs:49-50 | a digit string whose value fits in 32 bits parses to that value |
| EncryptedDataCodec.TryConstruct | src/EncryptedData.cs:24-33 | succeeds exactly when the data part is valid base64; the value then holds the decoded data, and the IV and MAC hold their decodings, or null when a part is not base64 |
| EncryptedDataCodec.FromTokens | src/EncryptedData.cs:35-50 | for a defined type it reads data, IV and MAC from the parts that type's layout names, and fails only when the data part is not base64 |
| EncryptedDataCodec.TryParse | src/EncryptedData.cs:11-51 | blank text fails; a head that is not an integer fails; an integer head outside 0 to 6 fails; a defined head selects the layout, so the result is that type's reading of the three parts; a parsed value has the parsed head as its type |
| EncryptedDataCodec.Parse | src/EncryptedData.cs:8-9 | succeeds exactly when `TryParse` does and returns its value; otherwise it fails with the parse exception |
| EncryptedDataCodec.WireFormat | src/EncryptedData.cs:53-81 | the text is produced exactly for the seven defined types; any other type gives NotImplementedException |
| EncryptedDataCodec.TokensSeparatorFree | src/EncryptedData.cs:16-22 | the head `TryParse` reads contains no dot and none of the three parts contains the pipe character that separates them |
| EncryptedDataCodec.StringBuilder.constructor | src/EncryptedData.cs:55 | a new builder holds empty text |
| EncryptedDataCodec.StringBuilder.Append | src/EncryptedData.cs:60-76 | appends the string, and null appends nothing |
| EncryptedDataCodec.StringBuilder.AppendChar | src/EncryptedData.cs:56-75 | appends one character |
| EncryptedDataCodec.StringBuilder.AppendInt | src/EncryptedData.cs:56 | appends the decimal text of the number |
| EncryptedDataCodec.BuildString | src/EncryptedData.cs:53-82 | the appended text equals the wire format of the value, with the per-type layouts and the NotImplementedException for other types |
| EncryptedDataCodec.PartRoundTrip | src/EncryptedData.cs:59-76 | a written part contains no part separator, and it reads back as the bytes, with an absent part as an empty array |
| EncryptedDataCodec.HeadOfDefined | src/EncryptedData.cs:16-19 | a defined type's number contains no `.` and parses back to the type |
| EncryptedDataCodec.TokenizeOne | src/EncryptedData.cs:16-22 | a head, a dot and one part split into the head and that single part |
| EncryptedDataCodec.TokenizeTwo | src/EncryptedData.cs:16-22 | a head, a dot and two parts joined by the separator split into the head and those two parts |
| EncryptedDataCodec.TokenizeThree | src/EncryptedData.cs:16-22 | a head, a dot and three parts joined by the separator split into the head and those three parts |
| EncryptedDataCodec.TryParseHead | src/EncryptedData.cs:16-47 | text whose head is a defined type's number parses by that type's layout |
| EncryptedDataCodec.RoundTripAes | src/EncryptedData.cs:59-62 | type 0 written and parsed keeps type, IV and data; the MAC comes back as an empty array |
| EncryptedDataCodec.RoundTripAesMac | src/EncryptedData.cs:63-68 | types 1 and 2 written and parsed keep type, IV, data and MAC |
| EncryptedDataCodec.RoundTripRsa | src/EncryptedData.cs:69-72 | types 3 and 4 keep type and data; the IV and MAC come back as empty arrays |
| EncryptedDataCodec.WireRsaMac | src/EncryptedData.cs:73-77 | types 5 and 6 are written as the id, a dot, the data, the separator and the MAC |
| EncryptedDataCodec.ParseRsaMacText | src/EncryptedData.cs:45-47 | for types 5 and 6, text of the id, a dot, data, separator and MAC parses by the type's layout with data as the first part and the MAC as the second |
| EncryptedDataCodec.RoundTripRsaMac | src/EncryptedData.cs:73-77 | types 5 and 6 keep type, data and MAC; the IV comes back as an empty array |
| EncryptedDataCodec.ParseBuildRoundTrip | src/EncryptedData.cs:8-82 | for each of the seven types, building succeeds and parsing the text gives back the value, with the fields outside the type's layout reset to empty arrays |
| EncryptedDataCodec.TokenizeIgnoresRest | src/EncryptedData.cs:20-22 | only three separator-delimited parts are read, and text after a third separator is ignored |
| EncryptedDataCodec.NonNumericTypeFails | src/EncryptedData.cs:16-17 | a head without a digit fails to parse |
| EncryptedDataCodec.HeadNotIntegerFails | src/EncryptedData.cs:16-17 | text whose head is not of the integer layout fails to parse |
| EncryptedDataCodec.HeadOutOfRangeFails | src/EncryptedData.cs:16-19 | text whose head is an integer outside 0 to 6 fails to parse |
| EncryptedDataCodec.HeadInRangeSelects | src/EncryptedData.cs:16-50 | non-blank text whose head is an integer from 0 to 6 parses as that type's reading of its parts |
| EncryptedDataCodec.AbcDoesNotParse | test/EncryptedDataTests.cs:125 | the test's text `"abc"` does not parse |
| SymmetricKeys.SymmetricCryptoKey.ToBytes | src/SymmetricCryptoKey.cs:12 | the bytes are EncKey followed by AuthKey, or EncKey alone when AuthKey is null |
| SymmetricKeys.From | src/SymmetricCryptoKey.cs:5-10 | 32 bytes give AesCbc256 with EncKey the input and no AuthKey; 64 bytes give AesCbc256_HmacSha256 split 32/32; any other length throws InvalidDataException |
| SymmetricKeys.ToBytesOfFrom | src/SymmetricCryptoKey.cs:5-12 | `From(d).ToBytes() == d` for 32 and 64 bytes |
| SymmetricKeys.FromOfToBytes | src/SymmetricCryptoKey.cs:5-12 | `From(k.ToBytes()) == k` exactly for keys of the shapes `From` builds |
| VwUtility.CreateMasterKey | src/IVwUtility.cs:47-54 | succeeds only for Pbkdf2 with a positive iteration count; any other KDF throws NotSupportedException and a non-positive count ArgumentOutOfRangeException; the key is the 32-byte PBKDF2-SHA256 of the UTF-8 password, salted with the UTF-8 e-mail, over the configured iterations |
| VwUtility.CreatePasswordHash | src/IVwUtility.cs:37-45 | fails exactly as the master key does; otherwise it is one more 32-byte PBKDF2 round over the master key, salted with the password |
| VwUtility.CreateExpandKey | src/IVwUtility.cs:56-62 | the expanded key is 32 bytes |
| VwUtility.HkdfBlocks | src/IVwUtility.cs:56-62 | n HKDF-Expand blocks are 32n bytes |
| VwUtility.HkdfExpand | src/IVwUtility.cs:56-62 | HKDF-Expand gives the requested length |
| VwUtility.ExpandKeyIsHkdfExpand | src/IVwUtility.cs:56-62 | HMAC of `utf8(info) ‖ 0x01` is the 32-byte HKDF-Expand of section 2.3 of RFC 5869 |
| VwUtility.CreateStretchKey | src/IVwUtility.cs:71-77 | the type is AesCbc256_HmacSha256, EncKey is the "enc" expansion and AuthKey is the "mac" expansion, in the shape `From` builds |
| VwUtility.StretchKeyRoundTrip | src/IVwUtility.cs:71-77 | a stretched key is 64 bytes, and `From` rebuilds it from its bytes |
| VwUtility.CreateStretchKeyFor | src/IVwUtility.cs:64-69 | it is the stretched master key, and it fails exactly as the master key does |
| VwUtility.AlgorithmOf | src/IVwUtility.cs:132-157 | types 0/1/2 go to AES-CBC, 4/6 to RSA-OAEP-SHA1, 3/5 to RSA-OAEP-SHA256, and anything else is unknown |
| VwUtility.Library | src/IVwUtility.cs:137-154 | a library failure becomes CryptographicException |
| VwUtility.Decrypt | src/IVwUtility.cs:130-159 | an undefined type throws InvalidDataException; AES types need a key `Aes.Key` accepts and a stored IV (ArgumentNullException without one) and use the stored IV; RSA types use the matching padding; the MAC is never read |
| VwUtility.DecryptIgnoresMac | src/IVwUtility.cs:132-155 | changing the MAC of a value does not change its decryption |
| VwUtility.MakeMac | src/IVwUtility.cs:97-102 | the MAC is HMAC-SHA256 over IV ‖ ciphertext, 32 bytes |
| VwUtility.AesScheme | src/IVwUtility.cs:110-116 | with a MAC, 16- and 32-byte keys give types 1 and 2; without one, only the unsigned length is accepted; the chosen type has an IV, and a MAC exactly when one is requested |
| VwUtility.EncryptAesWith | src/IVwUtility.cs:95-119 | parametric in the length accepted unsigned: the type comes from the key length; a supplied IV is used, otherwise the generated one; the MAC uses AuthKey or an empty key; the result decrypts to the plaintext |
| VwUtility.EncryptAes | src/IVwUtility.cs:95-119 | as written, with a MAC: succeeds exactly for 16- and 32-byte keys with a 16-byte or absent IV, and the result decrypts to the plaintext |
| VwUtility.UnsignedEncryptAesAlwaysFails | src/IVwUtility.cs:105-118 | as written, encryption without a MAC fails for every key |
| VwUtility.SixtyFourByteKeyRefused | src/IVwUtility.cs:105-116 | the 64-byte key the unsigned branch asks for is refused by `Aes.Key` |
| VwUtility.EncryptAesIntended | src/IVwUtility.cs:95-119 | corrected: without a MAC, a 32-byte key gives type 0 with no MAC, and every result decrypts to the plaintext |
| VwUtility.IntendedAgreesWithMac | src/IVwUtility.cs:108-113 | the correction leaves encryption with a MAC exactly as written |
| VwUtility.EncryptRsa | src/IVwUtility.cs:121-128 | type 3 when sha256 is set and type 4 otherwise, with no IV and no MAC, and Decrypt dispatches it to the same padding |
| VwUtility.RsaRoundTrip | src/IVwUtility.cs:121-158 | with a matching key pair, `Decrypt` undoes `EncryptRsa` |
| VwUtility.CopyTo | src/IVwUtility.cs:23-25 | the source bytes are copied into the array at the offset, and the rest of the array is unchanged |
| VwUtility.GenerateKeyData | src/IVwUtility.cs:9-27 | 64 bytes: the random buffer when `simple`, else the two generated 32-byte AES keys one after the other |
| Agent.DecryptEncText | src/Agent/VaultwardenAgent.cs:300-306 | null or white-space text gives null without parsing; otherwise a parse failure throws, a decryption failure is rethrown unchanged, and success means the parse and the decryption both succeed, with the UTF-8 decoding of the plaintext as the result |
| Agent.EncryptText | src/Agent/VaultwardenAgent.cs:245 | text encryption with a MAC succeeds exactly for 16- and 32-byte keys |
| Agent.EncryptOptionalText | src/Agent/VaultwardenAgent.cs:245 | null stays null, and other text is encrypted as by `EncryptText` |
| Agent.WireDecrypts | src/EncryptedData.cs:8-82 | a value sent in wire format and parsed back decrypts exactly as the value itself |
| Agent.EncryptTextRoundTrip | src/Agent/VaultwardenAgent.cs:245-248 | text the agent encrypts decrypts under the same key to the same text |
| Agent.EncryptOptionalTextRoundTrip | src/Agent/VaultwardenAgent.cs:245-248 | the same round trip with nulls: null stays null |
| Agent.AllOk | src/Agent/VaultwardenAgent.cs:318-349 | field decryptions in sequence: all values in order exactly when every field succeeds, otherwise the exception of the first field that fails |
| Agent.DecryptTexts | src/Agent/VaultwardenAgent.cs:318-349 | fields are decrypted independently: the record fails exactly when a field does, each result is that field's decryption, and an absent field stays null |
| Agent.DecryptLogin | src/Agent/VaultwardenAgent.cs:318-326 | a null login gives null; otherwise username, password and totp are each decrypted with the key |
| Agent.LoginDecrypts | src/Agent/VaultwardenAgent.cs:318-326 | a login whose username, password and totp each decrypt decrypts as a whole |
| Agent.DecryptCard | src/Agent/VaultwardenAgent.cs:328-339 | a null card gives null; otherwise its six fields are each decrypted with the key |
| Agent.DecryptSshKey | src/Agent/VaultwardenAgent.cs:341-349 | a null SSH key gives null; otherwise fingerprint, private key and public key are each decrypted with the key |
| Agent.NonNull | src/Agent/VaultwardenAgent.cs:77 | dropping nulls never lengthens the list |
| Agent.DecryptCollections | src/Agent/VaultwardenAgent.cs:108-111 | one collection per fetched entry, in order, with id, org id and external ids copied and the name decrypted ("" for null); fails exactly when a name fails |
| Agent.OrgKeyOf | src/Agent/VaultwardenAgent.cs:293 | an org key is the profile's key text parsed, decrypted with the private key and cut by `From`; it fails exactly when a step does |
| Agent.Unwrapped | src/Agent/VaultwardenAgent.cs:291-294 | each profile is paired, in order, with the outcome of unwrapping its key |
| Agent.EntryIdsTail | src/Agent/VaultwardenAgent.cs:208-211 | the ids of a list are the head's id plus the ids of the tail |
| Agent.LoadOrgs | src/Agent/VaultwardenAgent.cs:207-212 | the map only grows, by ids of the reloaded profiles; an exception returned is that of some profile whose key fails to unwrap |
| Agent.LoadOrgsShape | src/Agent/VaultwardenAgent.cs:207-212 | the insert loop files every entry under its own id; it stops exactly when a key fails; a finished loop holds exactly the old ids and the loaded ones |
| Agent.LoadOrgsLastWins | src/Agent/VaultwardenAgent.cs:211 | after a finished loop, an id holds the last profile with that id and its key |
| Agent.LoadOrgsKeeps | src/Agent/VaultwardenAgent.cs:211 | an entry whose id no loaded profile has is left unchanged |
| Agent.FreshTail | src/Agent/VaultwardenAgent.cs:291-294 | ids are fresh for a map exactly when the head's id is new and the tail's ids are fresh once the head is stored |
| Agent.OrgDictionaryAgrees | src/Agent/VaultwardenAgent.cs:291-294 | with distinct ids, `ToDictionary` at login and the reload loop build the same map and fail on the same key; a repeated id, after keys that all unwrap, throws ArgumentException |
| Agent.OrgDictionary | src/Agent/VaultwardenAgent.cs:291-294 | on success, every key unwrapped and the dictionary holds exactly the starting ids and the profiles' ids |
| Agent.FreshFolderTail | src/Agent/VaultwardenAgent.cs:295 | folder ids are fresh for a map exactly when the head's id is new and the tail's ids are fresh once the head is stored |
| Agent.FolderIdsCons | src/Agent/VaultwardenAgent.cs:295 | the ids of a non-empty folder list are the head's id together with the tail's ids |
| Agent.FolderDictionary | src/Agent/VaultwardenAgent.cs:295 | `ToDictionary(f => f.id)` succeeds exactly for distinct new ids; it then holds each folder under its id and keeps the existing entries; otherwise it throws ArgumentException |
| Agent.OpenSession | src/Agent/VaultwardenAgent.cs:286-296 | a KDF failure propagates; a successful session has the decoded public key (empty when not base64) and the folder and org dictionaries over the unwrapped private key |
| Agent.OpenSessionRecoversKeys | src/Agent/VaultwardenAgent.cs:288-295 | a profile holding the user key under the stretched key, and the private key under the user key, opens with exactly those keys; only the dictionaries can still throw |
| Agent.NonNullResults | src/Agent/VaultwardenAgent.cs:77 | the filtered list is produced exactly when no element throws |
| Agent.NonNullResultsFrom | src/Agent/VaultwardenAgent.cs:77 | when every entry decrypts, the k-th result comes from the k-th non-null entry, and there is one result per non-null entry |
| Agent.VaultwardenAgent.constructor | src/Agent/VaultwardenAgent.cs:125-131 | the agent holds the session's keys and dictionaries |
| Agent.VaultwardenAgent.ItemTextKey | src/Agent/VaultwardenAgent.cs:308-313 | a blank org id gives the user key and a known org id gives the org key; an unknown org id gives no key, with no fallback |
| Agent.VaultwardenAgent.ItemKey | src/Agent/VaultwardenAgent.cs:356-357 | a known org id gives the org key; a null or unknown one falls back to the user key |
| Agent.VaultwardenAgent.KeySelectionsCompared | src/Agent/VaultwardenAgent.cs:308-357 | the two selections agree except on unknown orgs (none vs. the user key) and on a blank id that is a key of `Orgs` |
| Agent.VaultwardenAgent.DecryptCipherItemText | src/Agent/VaultwardenAgent.cs:308-316 | no key gives null; otherwise it is `decryptEncText` under the selected key |
| Agent.VaultwardenAgent.FolderOf | src/Agent/VaultwardenAgent.cs:355 | the folder is found exactly when the id is non-null and present in `Folders` |
| Agent.VaultwardenAgent.OrgOf | src/Agent/VaultwardenAgent.cs:356 | the org is found exactly when the id is non-null and present in `Orgs` |
| Agent.VaultwardenAgent.DecryptCipherItem | src/Agent/VaultwardenAgent.cs:351-375 | null gives null; id and type are copied; Deleted is true iff deletedDate is present; Name is the given name, else the decrypted one, else ""; OrgName is the org's name or null; the folder name is always under the user key and null without a known folder; memo and sub-records use the item key; it throws exactly when one of these decryptions does |
| Agent.VaultwardenAgent.DecryptEach | src/Agent/VaultwardenAgent.cs:77 | each entry is decrypted on its own, in order |
| Agent.VaultwardenAgent.GetItems | src/Agent/VaultwardenAgent.cs:74-79 | throws exactly when some entry's decryption does; otherwise returns one item per non-null entry, in order, and the k-th item is the decryption of the k-th non-null entry |
| Agent.FirstTrue | src/Agent/VaultwardenAgent.cs:93-101 | a scan over per-entry outcomes stops at the first true one after only false ones, reports none when all are false, and surfaces the first exception met before any match |
| Agent.VaultwardenAgent.MatchTest | src/Agent/VaultwardenAgent.cs:93-96 | a null entry throws NullReferenceException; an entry of another type does not match; an entry of the type whose name fails to decrypt throws that exception; otherwise the outcome is true exactly when the entry's name decrypts to `name` |
| Agent.VaultwardenAgent.FindFrom | src/Agent/VaultwardenAgent.cs:93-101 | the index found is the first matching entry (same type, name decrypting to exactly `name`), every earlier entry tests false without throwing, and no index means every entry tests false; an exception is that of the first entry whose test throws (a null entry or a name that fails to decrypt), with every entry before it testing false |
| Agent.VaultwardenAgent.FindItem | src/Agent/VaultwardenAgent.cs:90-102 | no match gives null; an exception of the scan (a null entry, a failing name decryption) is the result; otherwise the result is the decryption of the first match `FindFrom` finds, with its name as decrypted; a found item has the searched name and type |
| Agent.VaultwardenAgent.FindItemAsync | src/Agent/VaultwardenAgent.cs:90-102 | the `foreach` with early return computes exactly `FindItem` |
| Agent.VaultwardenAgent.UnknownOrgNeverFound | src/Agent/VaultwardenAgent.cs:95-96 | an item of an org the session does not know is never the one found |
| Agent.VaultwardenAgent.GetItem | src/Agent/VaultwardenAgent.cs:81-88 | a failed fetch is swallowed: it and a null answer both give null; otherwise the item is decrypted |
| Agent.VaultwardenAgent.GetCollections | src/Agent/VaultwardenAgent.cs:104-113 | an org id missing from `Orgs` throws NotSupportedException; otherwise names are decrypted with the org key |
| Agent.VaultwardenAgent.CreateCollection | src/Agent/VaultwardenAgent.cs:216-230 | an unknown org id throws ArgumentException; the request name is under the org key; the caller is the one managing member; the answer's id and org id are copied and its name decrypted ("" for null) |
| Agent.VaultwardenAgent.CreatedCollectionName | src/Agent/VaultwardenAgent.cs:220-228 | a collection stored with the name sent comes back with the caller's name |
| Agent.VaultwardenAgent.ConfirmMember | src/Agent/VaultwardenAgent.cs:232-240 | an unknown org id throws ArgumentException; otherwise it succeeds exactly when RSA-OAEP-SHA256 of the org key's bytes under the member's decoded public key does |
| Agent.VaultwardenAgent.ConfirmedMemberGetsOrgKey | src/Agent/VaultwardenAgent.cs:237-238 | a member whose profile holds the sent key text unwraps exactly the organization's key with their private key |
| Agent.VaultwardenAgent.CreateFolder | src/Agent/VaultwardenAgent.cs:179-186 | `Orgs` is unchanged; after a successful encryption, `Folders` gains the answered folder under its id, with every other entry unchanged, even when its name then fails to decrypt; the result is id and decrypted name, "" for null |
| Agent.VaultwardenAgent.LoginRequestFields | src/Agent/VaultwardenAgent.cs:148-153 | each login field is encrypted with the user key, and null stays null |
| Agent.VaultwardenAgent.LoginRequest | src/Agent/VaultwardenAgent.cs:138-159 | type Login; every text under the user key whatever OrgId says; folder and org ids passed on; null collection list becomes empty |
| Agent.VaultwardenAgent.NotesRequest | src/Agent/VaultwardenAgent.cs:161-177 | type SecureNote with note marker 0 and no login; texts under the user key; ids passed on; null collection list becomes empty |
| Agent.VaultwardenAgent.LoginRequestReadsBack | src/Agent/VaultwardenAgent.cs:140-152 | every text of a login request decrypts under the user key to the caller's value, null to null |
| Agent.VaultwardenAgent.StoredItem | src/Agent/VaultwardenAgent.cs:157 | the item the server stores carries the request's type, ids, name, notes and login |
| Agent.VaultwardenAgent.CreatedLoginReadsBack | src/Agent/VaultwardenAgent.cs:138-159 | a created login of no known org reads back through item decryption with the caller's name and notes and no org name; without a folder it always reads back |
| Agent.VaultwardenAgent.DefaultCollectionName | src/Agent/VaultwardenAgent.cs:194 | "DefaultCollection" for a null or empty name, else the caller's, so never empty |
| Agent.VaultwardenAgent.OrgRequest | src/Agent/VaultwardenAgent.cs:190-204 | succeeds exactly when RSA encryption of the new key under the user's public key does; name, billing e-mail and Free plan are set; the public key is its base64 |
| Agent.VaultwardenAgent.OrgRequestReadsBack | src/Agent/VaultwardenAgent.cs:190-204 | the sent key text unwraps under the user's private key to the new org key; the private half and the collection name decrypt under that key |
| Agent.VaultwardenAgent.ReloadOrgs | src/Agent/VaultwardenAgent.cs:207-212 | `Orgs` is cleared, then each profile's entry is stored under its id until a key fails to unwrap; `Folders` is unchanged |
| Agent.VaultwardenAgent.CreateOrganization | src/Agent/VaultwardenAgent.cs:188-214 | nothing changes when the request fails; otherwise `Orgs` is rebuilt from the refetched profiles and the answer is returned unless a key fails |
| Agent.VaultwardenAgent.ReloadedOrgs | src/Agent/VaultwardenAgent.cs:207-212 | after a reload, `Orgs` holds exactly the refetched ids, each filed under its own id with the last profile and its unwrapped key |
| Admin.AsciiUpper | src/IVwAdmin.cs:21 | lower-case ASCII letters are upper-cased and all other characters are kept |
| Admin.UpperAscii | src/IVwAdmin.cs:21 | upper-cases the string character by character, keeping its length |
| Admin.EqualsIgnoreCase | src/IVwAdmin.cs:21 | two texts are equal ignoring case exactly when they have the same length and agree character by character after upper-casing |
| Admin.EqualsIgnoreCaseIsUpperEquality | src/IVwAdmin.cs:21 | `OrdinalIgnoreCase` equality holds exactly when the upper-cased strings are equal |
| Admin.SplitEntry | src/IVwAdmin.cs:20-23 | the key has no `=`; an entry without `=` has an empty value |
| Admin.SplitEntryWritten | src/IVwAdmin.cs:20-23 | `key=value` splits at its first `=` into the trimmed key and the trimmed value, so further `=` stay in the value |
| Admin.CookieEntries | src/IVwAdmin.cs:17-19 | a cookie has entries exactly when it is non-empty |
| Admin.SplitEntries | src/IVwAdmin.cs:19-20 | one entry per piece |
| Admin.EntriesJoinRoundTrip | src/IVwAdmin.cs:17-19 | `;`-joined entries split back into the same entries |
| Admin.FirstAdminValueIsFirst | src/IVwAdmin.cs:21-24 | the value found is that of the first entry whose key is `VW_ADMIN` |
| Admin.FirstAdminValue | src/IVwAdmin.cs:21-24 | a value is found exactly when some entry's key is `VW_ADMIN` ignoring case, and it is the value of such an entry |
| Admin.CookieToken | src/IVwAdmin.cs:16-25 | one cookie yields a token exactly when one of its entries has the key `VW_ADMIN` |
| Admin.FirstFound | src/IVwAdmin.cs:14-28 | nothing is found exactly when no cookie yields a token |
| Admin.FirstFoundWins | src/IVwAdmin.cs:27 | the token of the first cookie that yields one wins, and later cookies are not consulted |
| Admin.FirstFoundAppend | src/IVwAdmin.cs:27 | cookies after the first one that yields a token do not change the result |
| Admin.FirstFoundStep | src/IVwAdmin.cs:14-28 | one more cookie either gives the token or leaves nothing found |
| Admin.TokenOf | src/IVwAdmin.cs:12-29 | a missing header or no match throws "failed to get token"; otherwise the token is the first match's value |
| Admin.LeadingEntryToken | src/IVwAdmin.cs:19-23 | a cookie starting with a `VW_ADMIN` entry yields that entry's trimmed value |
| Admin.LeadingAdminEntry | src/IVwAdmin.cs:19-27 | a first header starting with a `VW_ADMIN` entry gives its trimmed value, whatever follows |
| Admin.ScanCookie | src/IVwAdmin.cs:16-25 | the `while` loop over one cookie, leaving at the first match, yields exactly the first `VW_ADMIN` value |
| Admin.GetToken | src/IVwAdmin.cs:12-29 | the nested loops with both `break`s compute exactly `TokenOf` |

## Left out

- Cryptographic primitives are uninterpreted functions:
  - PBKDF2, HMAC-SHA256, AES-CBC/PKCS7 and RSA-OAEP;
  - `GenerateRsaKeyPair`;
  - `EncryptPublicKey` and `DecryptPrivateKey`, which no modelled code calls.
- `Sound` states the only facts assumed of them: HMAC-SHA256 tags are 32 bytes, PBKDF2 returns the length asked for, AES-CBC decryption undoes encryption under the same key and IV, RSA decryption with the matching private key undoes encryption, and UTF-8 decoding undoes encoding. Nothing is assumed of `GenerateRsaKeyPair`, `EncryptPublicKey` or `DecryptPrivateKey`.
- UTF-8 encoding and decoding are uninterpreted functions, with decoding undoing encoding.
- Randomness (`Random.Shared`, `Aes.GenerateKey`/`GenerateIV`, RSA key generation) is supplied as parameters.
- HTTP, JSON, `async`/`CancellationToken`, `Dispose` and the `Environment.MachineName` defaults are not modelled:
  - server answers are parameters;
  - `createConnectionAsync`'s fetches are the inputs of `Agent.OpenSession`;
  - so are the token request with its base64 password hash, and the storing of `ToKdfConfig` in the session.
- The endpoint wrappers and account registration (`IVwAccount`, `IVwUser`, `IVwCipher`, `IVwOrganization`, `IVwIdentity`, `IVwPublic`, `IVwRaw`, `IVwScope`, `VaultwardenConnector`) are not part of this model. They are transport code.
- The request parts of `GetTokenAsync` and the `InviteAsync`/`UsersAsync` calls are not modelled. The scan works on the header values.
- Admin.EqualsIgnoreCase: `OrdinalIgnoreCase` also folds non-ASCII letters. The model folds ASCII letters only, since Dafny has no Unicode case table. The key compared, `VW_ADMIN`, is ASCII.
- InternalExtensions.TryParseNumber: the model covers `int.TryParse`'s integer style in the invariant culture: white space U+0009 to U+000D and U+0020 around the number, an optional `+` or `-`, decimal digits and a 32-bit range check. Its own contract states only that a parsed text contains a digit; the full characterization, both directions, is the lemma `TryParseNumberIff`, because stating it on the function would put an existential into every caller's proof. .NET's tolerance of trailing NUL characters is not modelled.
- Base64.Decode: .NET skips white space inside base64 and does not check that unused bits are zero. The model follows this for space, tab, CR and LF.
- `DecryptItem` (src/Agent/VaultwardenAgent.cs:71-72) only forwards to `dcryptChiperItem` and has no member of its own.
- Agent.VaultwardenAgent.CreatedLoginReadsBack: does not restate the login sub-record's read-back. That sub-record is stated field by field in `LoginRequestReadsBack`, and `DecryptCipherItem` decrypts each field with the same key.
- Agent.VaultwardenAgent.CreateFolder: the read-back of the folder name is not a separate lemma. It follows from `EncryptTextRoundTrip`.
- Agent.VaultwardenAgent.OrgRequest: `KeysData` is sent as a two-element list. The model keeps its two texts as two fields.
- The model encrypts the agent's texts with `EncryptAesIntended`, the corrected member of the finding below, as the rest of the model uses corrected members. `IntendedAgreesWithMac` shows it is identical to `EncryptAes` when a MAC is requested, and the agent always requests one, so the agent's behaviour is the source's.

## Findings

| source | as written | input that shows it | evidently intended | confidence | as-written member | corrected member |
|---|---|---|---|---|---|---|
| src/IVwUtility.cs:105-118 | without a MAC, `EncryptAes` accepts only a 64-byte EncKey, but `aes.Key = key.EncKey` (line 105) has already thrown for any key that is not 16, 24 or 32 bytes | `EncryptAes(From(64 bytes), data, hmac: false)`: `Aes.Key` refuses the 64-byte key, and any other length reaches the `_ => throw` arm, so every call throws | a 32-byte EncKey gives type AesCbc256 (0), with no MAC, and decrypts back | not executed | VwUtility.EncryptAes (with VwUtility.UnsignedEncryptAesAlwaysFails, VwUtility.SixtyFourByteKeyRefused) | VwUtility.EncryptAesIntended (with VwUtility.IntendedAgreesWithMac) |
