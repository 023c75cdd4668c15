/** The signing capability the tool calls into: key types, seeds, key derivation, signing
    and verification. The real algorithms (ed25519, secp256k1, SHA-512-Half) are not part
    of this model. Each operation is a deterministic stand-in; what the tool relies on --
    a key pair is consistent with derivation, and a signature made with a secret verifies
    under the public key derived from it -- is proved below. */
module Crypto {
  import opened Wrappers
  import opened Bytes

  /** The closed set of key types; `KeyType::invalid` is `None` where a parse can fail. */
  datatype KeyType = Secp256k1 | Ed25519

  /** 16 bytes of randomness from which keys are regenerated. */
  type Seed = s: seq<byte> | |s| == 16 witness [0, 0, 0, 0, 0, 0, 0, 0, 0, 0, 0, 0, 0, 0, 0, 0]

  type SecretKey = s: seq<byte> | |s| == 32 witness Zeros(32)

  /** 33 bytes: a type prefix then the key. */
  type PublicKey = s: seq<byte> | |s| == 33 witness Zeros(33)

  /** `to_string(KeyType)` */
  function KeyTypeToString(kt: KeyType): string
  {
    match kt
    case Secp256k1 => "secp256k1"
    case Ed25519 => "ed25519"
  }

  /** `keyTypeFromString`: exactly the two names are recognised. */
  function KeyTypeFromString(s: string): (r: Option<KeyType>)
    ensures r.Some? <==> s == "secp256k1" || s == "ed25519"
  {
    if s == "secp256k1" then Some(Secp256k1)
    else if s == "ed25519" then Some(Ed25519)
    else None
  }

  lemma KeyTypeStringRoundTrip(kt: KeyType)
    ensures KeyTypeFromString(KeyTypeToString(kt)) == Some(kt)
  {
  }

  function TypeByte(kt: KeyType): byte
  {
    match kt
    case Secp256k1 => 0x02
    case Ed25519 => 0xED
  }

  /** `derivePublicKey(type, sk)`: the stand-in is the type prefix followed by the secret;
      all the model needs is that it is a function of the key type and the secret. */
  function DerivePublicKey(kt: KeyType, sk: SecretKey): (pk: PublicKey)
    ensures pk[0] == TypeByte(kt)
  {
    [TypeByte(kt)] + sk
  }

  /** `generateSecretKey(type, seed)`: the secret a seed regenerates. */
  function GenerateSecretKey(kt: KeyType, seed: Seed): SecretKey
  {
    [1, TypeByte(kt)] + seed + Zeros(14)
  }

  /** `generateKeyPair(type, seed)`, as (public, secret). For secp256k1 the secret is not the
      one `generateSecretKey` gives (the library takes the first key of a deterministic
      generator), so the stand-in keeps the two apart; the public half is always derived
      from the secret half. */
  function GenerateKeyPair(kt: KeyType, seed: Seed): (kp: (PublicKey, SecretKey))
    ensures kp.0 == DerivePublicKey(kt, kp.1)
  {
    var sk: SecretKey := if kt == Ed25519 then GenerateSecretKey(kt, seed) else [2, TypeByte(kt)] + seed + Zeros(14);
    (DerivePublicKey(kt, sk), sk)
  }

  /** A 32-byte digest stand-in: byte i mixes every byte of the input with salt i. */
  function Digest(data: seq<byte>): (d: seq<byte>)
    ensures |d| == 32
  {
    seq(32, i requires 0 <= i => Mix(data, i))
  }

  function Mix(data: seq<byte>, salt: nat): byte
    decreases |data|
  {
    if data == [] then salt % 0x100
    else (data[0] * (salt + 1) + Mix(data[1..], salt + 7) * 31) % 0x100
  }

  /** The 64-byte signature of `message` under the key pair whose public half is `pk`. */
  function SignatureFor(pk: PublicKey, message: seq<byte>): (sig: seq<byte>)
    ensures |sig| == 64
  {
    Digest(pk + message) + Digest(message + pk)
  }

  /** `sign(type, sk, message)` */
  function Sign(kt: KeyType, sk: SecretKey, message: seq<byte>): (sig: seq<byte>)
    ensures |sig| == 64
  {
    SignatureFor(DerivePublicKey(kt, sk), message)
  }

  /** `verify(pk, message, sig)`: needs only the public key. */
  predicate Verify(pk: PublicKey, message: seq<byte>, sig: seq<byte>)
  {
    sig == SignatureFor(pk, message)
  }

  /** A signature verifies under the public key derived from the secret that made it. */
  lemma SignThenVerify(kt: KeyType, sk: SecretKey, message: seq<byte>)
    ensures Verify(DerivePublicKey(kt, sk), message, Sign(kt, sk, message))
  {
  }
}
