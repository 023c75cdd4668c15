# validator-keys-tool, modelled in Dafny

`validator-keys-tool` manages the long-term master identity of an XRP Ledger validator.
The identity is a key type, a master secret, the master public key and a sequence number,
and it lives in a JSON key file. The tool has three commands:

- `create_master_keys` writes a fresh ed25519 identity at sequence 0. It refuses when the
  key file already exists.
- `create_signing_keys` loads the identity and moves its sequence on by one. It then makes a
  secp256k1 ephemeral key and prints the settings for `rippled.cfg`: the seed, the ephemeral
  public key and a base64 manifest. The manifest is signed by both the ephemeral key and the
  master key. Finally the tool writes the identity back with the new sequence.
- `revoke_master_keys` does the same, but moves the sequence to 0xFFFFFFFF, which means the
  master key is revoked, and prints a warning.

The model has ten modules, one per file:

| file | module | what it holds |
|---|---|---|
| `wrappers.dfy` | `Wrappers` | `Option` and `Result` |
| `bytes.dfy` | `Bytes` | bytes, 32-bit values, big-endian encoding |
| `base64.dfy` | `Base64` | base64 as RFC 4648 section 4 defines it, with padding, and its decoder |
| `crypto.dfy` | `Crypto` | key types, seeds, key derivation, signing and verification (stand-ins) |
| `tokens.dfy` | `Tokens` | node public and node private key tokens (a stand-in for Base58Check) |
| `stobject.dfy` | `STObjects` | the manifest record, its serialisation and parser, the `Serializer` buffer and the `sign`/`verify` helpers |
| `json.dfy` | `Json` | the JSON values the loader sees and the conversions it applies |
| `keyfile.dfy` | `KeyFiles` | the key file as a mutable object with a value view (`Store`) |
| `validator_keys.dfy` | `Validator` | `ValidatorKeys`: create, load, compare, write and `createEphemeralKeys` |
| `key_tool.dfy` | `KeyTool` | `main.cpp`: the sequence rules, `signManifest`, `createKeyFile`, `runCommand` and the 72-column manifest wrapping |

Each imperative operation of the source is a method. `MakeValidatorKeys`, `WriteToFile`,
`CreateEphemeralKeys`, `WrapManifest`, `SignManifest`, `CreateKeyFile` and `RunCommand`
each run the source's own sequence of steps. Each is proved equal to a pure specification
function, such as `Load`, `WriteSpec`, `EphemeralFor`, `Lines` or `SignManifestSpec`. The
properties that matter are lemmas about those functions:

- the sequence only moves forward;
- a revoked identity stays revoked;
- a failed run leaves the key file as it was;
- loading what was written gives back the identity;
- both manifest signatures verify;
- an existing key file is never overwritten.

Random seeds come in as parameters. `randomSeed()` becomes `seed`, and the environment's
answer to "can the directory be made / can the file be opened" is part of `Store`.

One behaviour of the code worth noting: revocation passes the sequence 0xFFFFFFFF. When
the stored sequence is already 0xFFFFFFFF, `signManifest` fails its `sequence <= current`
test (src/main.cpp:82) before the branch that reports "Sequence is already at maximum
value" is reached. So revoking twice reports "Sequence should exceed current sequence".
`KeyTool.RevokedIdentityIsFinal` states this.

## Model

| member | source | states |
|---|---|---|
| Crypto.KeyTypeFromString | src/ValidatorKeys.cpp:87-88 | a key type is recognised exactly when the text is `secp256k1` or `ed25519` |
| Crypto.KeyTypeStringRoundTrip | src/ValidatorKeys.cpp:132 | the key-type name written to the file parses back to the same key type |
| Crypto.GenerateKeyPair | src/ValidatorKeys.cpp:34-38 | the public half of a generated pair is the key derived from its secret half |
| Crypto.SignThenVerify | src/test/ValidatorKeys_test.cpp:232-236 | a signature verifies under the public key derived from the secret that made it |
| Tokens.ParseToBase58 | src/ValidatorKeys.cpp:129-131 | decoding a key token returns the payload it was made from |
| Tokens.ParseSecretKey | src/ValidatorKeys.cpp:96-99 | a secret is accepted only from a node private token, whose payload is that secret |
| Tokens.SecretKeyRoundTrip | src/ValidatorKeys.cpp:96-99 | the written master secret parses back unchanged, and a node public token is never accepted as a secret |
| Bytes.FromBigEndian32Inverse | src/ValidatorKeys.cpp:163 | a 32-bit sequence read back from its four big-endian bytes is the same value |
| Json.AsString | src/ValidatorKeys.cpp:87 | a JSON string reads as itself; a number reads as text beginning with a digit or a minus sign, so it is never a key-type name or a token |
| Json.FromUInt | src/ValidatorKeys.cpp:133 | the stored sequence is integral and reads back as the sequence |
| KeyFiles.KeyFile.Replace | src/ValidatorKeys.cpp:146-151 | writing the file replaces its contents and nothing else |
| Base64.ValueOf | src/ValidatorKeys.cpp:177 | a decoded character value maps back to that character in the base64 alphabet |
| Base64.ValueOfCharOf | src/ValidatorKeys.cpp:177 | every alphabet character decodes to its own value |
| Base64.Encode | src/ValidatorKeys.cpp:177 | base64 output comes in whole 4-character groups and is empty only for empty input |
| Base64.DecodeEncode | src/ValidatorKeys.cpp:177 | decoding the base64 manifest returns exactly the serialised bytes, for every input |
| Base64.EncodeTestVectors | src/ValidatorKeys.cpp:177 | the encoder reproduces the base64 test vectors of section 10 of RFC 4648, fixing the alphabet, the bit order and the padding |
| Base64.EncodeAlphabet | src/ValidatorKeys.cpp:177 | every character of the manifest is an alphabet character or padding |
| STObjects.ParseSerialize | src/ValidatorKeys.cpp:172-173 | parsing a serialised record returns exactly that record |
| STObjects.ParseSerializeIn | src/ValidatorKeys.cpp:172-173 | serialising fields in a repetition-free order parses back to the record restricted to those fields |
| STObjects.Parse | src/test/ValidatorKeys_test.cpp:227-230 | any record parsed from bytes is well formed: each field holds a value of its own type |
| STObjects.SigningDataIgnoresSignatures | src/ValidatorKeys.cpp:167-170 | adding a signature field changes neither what is signed nor well-formedness, so both signatures cover the same data |
| STObjects.Serializer.Append | src/ValidatorKeys.cpp:172-173 | the buffer grows by exactly the appended bytes |
| STObjects.STObject.Set | src/ValidatorKeys.cpp:162-165 | setting a field stores that value and keeps the record well formed |
| STObjects.STObject.Sign | src/ValidatorKeys.cpp:167-170 | signing stores in the chosen field the signature of the signing data as it was before the call |
| STObjects.STObject.AddTo | src/ValidatorKeys.cpp:173 | the buffer gains the record's canonical serialisation |
| Validator.Fresh | src/ValidatorKeys.cpp:30-39 | a new identity has the requested key type, sequence 0, and a public key derived from its secret |
| Validator.EqualIgnoresSecret | src/ValidatorKeys.h:61-66 | identities that differ only in the master secret compare equal |
| Validator.EqualIsEquivalence | src/ValidatorKeys.h:61-66 | `operator==` is reflexive, symmetric and transitive |
| Validator.FirstMissingNone | src/ValidatorKeys.cpp:71-85 | no required field is reported missing exactly when all are present |
| Validator.LoadObject | src/ValidatorKeys.cpp:87-119 | a loaded identity is consistent, and each of its fields is the one parsed from the file's key_type, master_secret and sequence |
| Validator.Load | src/ValidatorKeys.cpp:53-69 | whatever the file holds, a successful load yields a public key derived from the secret |
| Validator.MakeValidatorKeys | src/ValidatorKeys.cpp:53-120 | the loader, step by step, returns what `Load` specifies for the file's contents, errors included |
| Validator.MissingFieldFirst | src/ValidatorKeys.cpp:71-85 | the first missing field in the order key_type, master_secret, sequence is reported before any other check |
| Validator.InvalidValueOrder | src/ValidatorKeys.cpp:87-115 | with all fields present, a bad key type is reported before a bad secret, and a bad secret before a bad sequence |
| Validator.LoadSucceedsIff | src/ValidatorKeys.cpp:71-119 | loading succeeds if and only if all three fields are present and each passes its check |
| Validator.LoadIgnoresOtherFields | src/ValidatorKeys.cpp:107 | a field the loader does not require, `validation_public_key` included, has no effect on the result |
| Validator.SecretCheckIgnoresKeyType | src/ValidatorKeys.cpp:96-105 | whether the secret is refused does not depend on which valid key type the file names |
| Validator.ToRecord | src/ValidatorKeys.cpp:128-133 | the record has exactly four fields, and each decodes back to the identity's secret, public key, key type and sequence |
| Validator.LoadToRecord | src/test/ValidatorKeys_test.cpp:131-135 | loading the record written for a consistent identity gives back that identity exactly |
| Validator.WriteToFile | src/ValidatorKeys.cpp:122-152 | the write replaces the file only when the directory step and the open both succeed, and otherwise reports which one failed |
| Validator.UnsignedManifest | src/ValidatorKeys.cpp:162-165 | the unsigned manifest record is well formed |
| Validator.ManifestFields | src/ValidatorKeys.cpp:162-170 | the signed manifest record is well formed |
| Validator.DecodeManifest | src/test/ValidatorKeys_test.cpp:227-230 | a decoded manifest is a well-formed record |
| Validator.EphemeralForHonours | src/ValidatorKeys.cpp:154-178 | the manifest decodes to a record holding exactly the identity's sequence, its master key and the ephemeral key; the returned seed regenerates the ephemeral key; the ephemeral signature verifies, and the master signature does too for a consistent identity |
| Validator.CreateEphemeralKeys | src/ValidatorKeys.cpp:154-178 | building the record in an `STObject`, signing it twice, serialising and base64-encoding gives the manifest `EphemeralFor` specifies, with the same decoding and signature guarantees |
| KeyTool.Advance | src/main.cpp:80-95 | a requested sequence is taken if and only if it exceeds the current one; otherwise the next one is taken if and only if the current one is below the maximum; every success is strictly greater |
| KeyTool.RevokeFromActive | src/main.cpp:135-136 | revoking an active identity moves it to the maximum sequence |
| KeyTool.RevokeWhenRevoked | src/main.cpp:80-85 | revoking at the maximum fails as a non-increasing sequence |
| KeyTool.RevocationIsTerminal | src/main.cpp:80-95 | no advance leaves the maximum sequence |
| KeyTool.LinesWrap | src/main.cpp:109-111 | the wrapped lines join back into the manifest; all but the last are 72 characters; the last has 1 to 72; an empty manifest gives no lines |
| KeyTool.WrapManifest | src/main.cpp:109-111 | the printing loop produces exactly `Lines(manifest)`, with the joining and width guarantees |
| KeyTool.ParseCommand | src/main.cpp:119-141 | zero arguments and more than one are distinct errors; each verb is chosen exactly when it is the single argument; anything else is unknown |
| KeyTool.CreateKeyFile | src/main.cpp:54-71 | the method leaves the file and reports the error as `CreateKeyFileSpec` says |
| KeyTool.SignManifest | src/main.cpp:73-117 | the method's steps leave the file and produce output and error as `SignManifestSpec` says |
| KeyTool.RunCommand | src/main.cpp:119-141 | dispatch leaves the file and produces output and error as `RunCommandSpec` says |
| KeyTool.SignManifestMovesForward | src/main.cpp:78-116 | when a signing run rewrites the file, the stored identity keeps its key type, secret and public key with a strictly greater sequence |
| KeyTool.SignManifestOrdering | src/main.cpp:78-116 | an error leaves the file unchanged; output is shown exactly when loading and the advance succeed; without an error the file holds the loaded identity at the shown sequence |
| KeyTool.SignManifestShows | src/main.cpp:97-111 | the shown manifest carries the new sequence and the master key, both its signatures verify, and its lines join back into it |
| KeyTool.RevokedIdentityIsFinal | src/main.cpp:80-95 | at the maximum sequence both signing commands fail, with their own distinct errors, and leave the file unchanged |
| KeyTool.RevokeStoresMaximum | src/main.cpp:97-98 | revoking an active identity shows the maximum sequence with the warning, and stores it when the file is writable |
| KeyTool.CreateKeyFileNeverOverwrites | src/main.cpp:59-67 | an existing key file is refused and left unchanged; into an absent one a fresh ed25519 identity at sequence 0 is written and loads back unchanged |
| KeyTool.CreateThenSign | src/main.cpp:131-134 | creating the keys and then signing stores and shows sequence 1, and the manifest's master signature verifies under the new master key |

## Left out

- Cryptography is out of scope. `Crypto` is a deterministic stand-in for ed25519,
  secp256k1 and SHA-512-Half. The model relies only on two shapes: a public key is a
  function of key type and secret, and a signature verifies under the derived public key.
  It does not model that forging is infeasible.
- Crypto.GenerateKeyPair: the secp256k1 derivation that can throw on an invalid scalar is
  not modelled; derivation never fails here.
- Base58Check is not modelled. `Tokens` is a hex stand-in that keeps the type-prefix,
  payload round trip and length checks.
- The real binary layout of `STObject` and the bytes of `HashPrefix::manifest` are library
  definitions. The model uses a layout of the same shape (canonical field order, field
  headers, big-endian integers, length-prefixed blobs) and the prefix 'M' 'A' 'N' 0.
- Which fields a signature covers is decided inside the library's `sign`, which the source
  only calls (src/ValidatorKeys.cpp:167-170). The model's choice for that library code: the
  signing data is the hash prefix followed by the serialised sequence, master public key
  and signing public key, and the two signature fields are excluded. So in the model the
  master signature does not cover the ephemeral one.
  `STObjects.SigningDataIgnoresSignatures` is a property of this choice.
- Reading the file's text and JSON parsing are not modelled. A key file holds either an
  object or text that does not parse. A top level that is valid JSON but not an object is
  not modelled.
- Json.IsIntegral: the JSON library's exact `isIntegral`/`asUInt` range behaviour is not
  shown. The model accepts exactly integers in 0..0xFFFFFFFF, which is how the sequence is
  written. Booleans and negative or larger numbers are refused.
- Json.AsString: the text of a boolean or number only has to be a key type or a token; the
  model renders it plainly.
- File system effects are reduced to two flags: whether the parent directory exists or can
  be created, and whether the file opens for writing. Paths, `HOME`, `--keyfile`, directory
  creation itself and the styled JSON text are not modelled.
- Console output other than the manifest lines is not modelled. That covers the
  `rippled.cfg` header, the seed and public key tokens, the "stored in" message and error
  messages. `SigningOutput` carries the values those lines print.
- `main`'s option parsing, `--help`, `--unittest` and exit codes are not modelled.
