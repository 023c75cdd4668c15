/** A validator's master identity (`ValidatorKeys`): creating one, loading it from the key
    file, writing it back, comparing two, and building a signed manifest for its current
    sequence (`createEphemeralKeys`). */
module Validator {
  import opened Wrappers
  import opened Bytes
  import opened Crypto
  import opened Tokens
  import opened Json
  import opened KeyFiles
  import opened STObjects
  import Base64

  /** The master identity. `validationPublicKey` is the master public key. */
  datatype ValidatorKeys = ValidatorKeys(
    keyType: KeyType,
    masterSecret: SecretKey,
    validationPublicKey: PublicKey,
    sequence: uint32)

  /** What `createEphemeralKeys` returns: the seed that regenerates the ephemeral secret,
      the base64 manifest, and the ephemeral public key. */
  datatype EphemeralKeys = EphemeralKeys(seed: Seed, manifest: string, validationPublicKey: PublicKey)

  /** The `std::runtime_error`s `make_ValidatorKeys` throws, one variant per message. */
  datatype LoadError =
    | FailedToOpen
    | UnableToParse
    | MissingField(name: string)
    | InvalidKeyType(keyType: JValue)
    | InvalidMasterSecret(secret: JValue)
    | InvalidSequence(sequence: JValue)

  /** The master public key is the one derived from the master secret. */
  predicate Consistent(k: ValidatorKeys)
  {
    k.validationPublicKey == DerivePublicKey(k.keyType, k.masterSecret)
  }

  /** `ValidatorKeys(keyType)`: a new key pair from `seed` (the tool's `randomSeed()`),
      sequence 0. */
  function Fresh(kt: KeyType, seed: Seed): (k: ValidatorKeys)
    ensures k.keyType == kt && k.sequence == 0
    ensures Consistent(k)
  {
    var kp := GenerateKeyPair(kt, seed);
    ValidatorKeys(kt, kp.1, kp.0, 0)
  }

  /** `operator==`: the master secret is not compared. */
  predicate Equal(a: ValidatorKeys, b: ValidatorKeys)
  {
    a.sequence == b.sequence && a.keyType == b.keyType && a.validationPublicKey == b.validationPublicKey
  }

  /** Identities that differ only in their secret are equal. */
  lemma EqualIgnoresSecret(k: ValidatorKeys, otherSecret: SecretKey)
    ensures Equal(k, k.(masterSecret := otherSecret))
    ensures k.(masterSecret := otherSecret) != k <==> otherSecret != k.masterSecret
  {
  }

  /** `operator==` is an equivalence relation. */
  lemma EqualIsEquivalence(a: ValidatorKeys, b: ValidatorKeys, c: ValidatorKeys)
    ensures Equal(a, a)
    ensures Equal(a, b) ==> Equal(b, a)
    ensures Equal(a, b) && Equal(b, c) ==> Equal(a, c)
  {
  }

  // ---------------------------------------------------------------------------------
  // Loading: make_ValidatorKeys

  const RequiredFields: seq<string> := ["key_type", "master_secret", "sequence"]

  /** The first of `names` that `m` lacks. */
  function FirstMissing(m: JObject, names: seq<string>): Option<string>
  {
    if names == [] then None
    else if names[0] !in m then Some(names[0])
    else FirstMissing(m, names[1..])
  }

  lemma {:induction false} FirstMissingAt(m: JObject, names: seq<string>, i: nat)
    requires i < |names| && names[i] !in m
    requires forall j :: 0 <= j < i ==> names[j] in m
    ensures FirstMissing(m, names) == Some(names[i])
  {
    if i > 0 {
      FirstMissingAt(m, names[1..], i - 1);
    }
  }

  lemma {:induction false} FirstMissingNone(m: JObject, names: seq<string>)
    ensures FirstMissing(m, names).None? <==> forall j :: 0 <= j < |names| ==> names[j] in m
  {
    if names != [] {
      FirstMissingNone(m, names[1..]);
      if names[0] in m {
        forall j | 0 <= j < |names| ensures names[j] in m <== (forall k :: 0 <= k < |names[1..]| ==> names[1..][k] in m) {
          if j > 0 { assert names[j] == names[1..][j - 1]; }
        }
      }
    }
  }

  /** Fields other than `names` do not affect which of `names` is missing first. */
  lemma {:induction false} FirstMissingIgnores(m: JObject, names: seq<string>, other: string, v: JValue)
    requires other !in names
    ensures FirstMissing(m[other := v], names) == FirstMissing(m, names)
  {
    if names != [] {
      assert names[0] != other;
      FirstMissingIgnores(m, names[1..], other, v);
    }
  }

  lemma RequiredAllPresent(m: JObject)
    requires "key_type" in m && "master_secret" in m && "sequence" in m
    ensures FirstMissing(m, RequiredFields).None?
  {
    FirstMissingNone(m, RequiredFields);
    assert forall j :: 0 <= j < |RequiredFields| ==> RequiredFields[j] in m by {
      assert RequiredFields == ["key_type", "master_secret", "sequence"];
    }
  }

  lemma RequiredPresent(m: JObject)
    requires FirstMissing(m, RequiredFields).None?
    ensures "key_type" in m && "master_secret" in m && "sequence" in m
  {
    FirstMissingNone(m, RequiredFields);
    assert RequiredFields[0] in m && RequiredFields[1] in m && RequiredFields[2] in m;
  }

  /** Validation of a parsed key file, in the order the loader checks: required fields
      (first missing one reported), key type, master secret, sequence. The public key is
      derived from the secret; a `validation_public_key` field is never read. */
  function LoadObject(m: JObject): (r: Result<ValidatorKeys, LoadError>)
    ensures r.Ok? ==> Consistent(r.value)
    ensures r.Ok? ==>
      && "key_type" in m && "master_secret" in m && "sequence" in m
      && KeyTypeFromString(AsString(m["key_type"])) == Some(r.value.keyType)
      && ParseSecretKey(AsString(m["master_secret"])) == Some(r.value.masterSecret)
      && m["sequence"] == JInt(r.value.sequence)
  {
    match FirstMissing(m, RequiredFields)
    case Some(name) => Err(MissingField(name))
    case None =>
      RequiredPresent(m);
      match KeyTypeFromString(AsString(m["key_type"]))
      case None => Err(InvalidKeyType(m["key_type"]))
      case Some(keyType) =>
        match ParseSecretKey(AsString(m["master_secret"]))
        case None => Err(InvalidMasterSecret(m["master_secret"]))
        case Some(masterSecret) =>
          if !IsIntegral(m["sequence"]) then Err(InvalidSequence(m["sequence"]))
          else Ok(ValidatorKeys(keyType, masterSecret, DerivePublicKey(keyType, masterSecret), AsUInt(m["sequence"])))
  }

  /** `make_ValidatorKeys(keyFile)` as a function of what the file holds. */
  function Load(contents: Option<Document>): (r: Result<ValidatorKeys, LoadError>)
    ensures r.Ok? ==> Consistent(r.value)
  {
    match contents
    case None => Err(FailedToOpen)
    case Some(Unparseable) => Err(UnableToParse)
    case Some(Object(m)) => LoadObject(m)
  }

  /** `make_ValidatorKeys(keyFile)` */
  method MakeValidatorKeys(file: KeyFile) returns (r: Result<ValidatorKeys, LoadError>)
    ensures r == Load(file.contents)
  {
    if file.contents.None? {
      return Err(FailedToOpen);
    }
    if file.contents.value.Unparseable? {
      return Err(UnableToParse);
    }
    var jKeys := file.contents.value.members;
    for i := 0 to |RequiredFields|
      invariant forall j :: 0 <= j < i ==> RequiredFields[j] in jKeys
    {
      if RequiredFields[i] !in jKeys {
        FirstMissingAt(jKeys, RequiredFields, i);
        return Err(MissingField(RequiredFields[i]));
      }
    }
    FirstMissingNone(jKeys, RequiredFields);
    RequiredPresent(jKeys);
    var keyType := KeyTypeFromString(AsString(jKeys["key_type"]));
    if keyType.None? {
      return Err(InvalidKeyType(jKeys["key_type"]));
    }
    var masterSecret := ParseSecretKey(AsString(jKeys["master_secret"]));
    if masterSecret.None? {
      return Err(InvalidMasterSecret(jKeys["master_secret"]));
    }
    var validationPublicKey := DerivePublicKey(keyType.value, masterSecret.value);
    if !IsIntegral(jKeys["sequence"]) {
      return Err(InvalidSequence(jKeys["sequence"]));
    }
    return Ok(ValidatorKeys(keyType.value, masterSecret.value, validationPublicKey, AsUInt(jKeys["sequence"])));
  }

  /** A missing field is reported before anything else, the first one in the order
      key_type, master_secret, sequence. */
  lemma MissingFieldFirst(m: JObject)
    ensures "key_type" !in m ==> LoadObject(m) == Err(MissingField("key_type"))
    ensures "key_type" in m && "master_secret" !in m ==> LoadObject(m) == Err(MissingField("master_secret"))
    ensures "key_type" in m && "master_secret" in m && "sequence" !in m ==> LoadObject(m) == Err(MissingField("sequence"))
  {
    if "key_type" !in m {
      FirstMissingAt(m, RequiredFields, 0);
    } else if "master_secret" !in m {
      FirstMissingAt(m, RequiredFields, 1);
    } else if "sequence" !in m {
      FirstMissingAt(m, RequiredFields, 2);
    }
  }

  /** With every field present: an invalid key type is reported before an invalid secret,
      and an invalid secret before an invalid sequence. */
  lemma InvalidValueOrder(m: JObject)
    requires "key_type" in m && "master_secret" in m && "sequence" in m
    ensures KeyTypeFromString(AsString(m["key_type"])).None? ==>
      LoadObject(m) == Err(InvalidKeyType(m["key_type"]))
    ensures KeyTypeFromString(AsString(m["key_type"])).Some? && ParseSecretKey(AsString(m["master_secret"])).None? ==>
      LoadObject(m) == Err(InvalidMasterSecret(m["master_secret"]))
    ensures (KeyTypeFromString(AsString(m["key_type"])).Some? && ParseSecretKey(AsString(m["master_secret"])).Some?
      && !IsIntegral(m["sequence"])) ==>
      LoadObject(m) == Err(InvalidSequence(m["sequence"]))
  {
    RequiredAllPresent(m);
  }

  /** Loading succeeds exactly when every check passes, and then yields the identity the
      fields describe, complete: there is no partially filled result. */
  lemma LoadSucceedsIff(m: JObject)
    ensures LoadObject(m).Ok? <==>
      && "key_type" in m && "master_secret" in m && "sequence" in m
      && KeyTypeFromString(AsString(m["key_type"])).Some?
      && ParseSecretKey(AsString(m["master_secret"])).Some?
      && IsIntegral(m["sequence"])
  {
    MissingFieldFirst(m);
    if "key_type" in m && "master_secret" in m && "sequence" in m {
      RequiredAllPresent(m);
    }
  }

  /** Fields the loader does not require -- `validation_public_key` among them -- change
      nothing: the stored public key is never trusted. */
  lemma LoadIgnoresOtherFields(m: JObject, name: string, v: JValue)
    requires name !in RequiredFields
    ensures LoadObject(m[name := v]) == LoadObject(m)
  {
    FirstMissingIgnores(m, RequiredFields, name, v);
    assert name != "key_type" && name != "master_secret" && name != "sequence";
  }

  /** The secret check does not consult the key type: a secret that is refused is refused
      under either key type, and one that is accepted is accepted under either. */
  lemma SecretCheckIgnoresKeyType(m: JObject, a: KeyType, b: KeyType)
    requires "master_secret" in m && "sequence" in m
    ensures var ma, mb := m["key_type" := JString(KeyTypeToString(a))], m["key_type" := JString(KeyTypeToString(b))];
      LoadObject(ma) == Err(InvalidMasterSecret(m["master_secret"])) <==>
      LoadObject(mb) == Err(InvalidMasterSecret(m["master_secret"]))
  {
    var ma, mb := m["key_type" := JString(KeyTypeToString(a))], m["key_type" := JString(KeyTypeToString(b))];
    InvalidValueOrder(ma);
    InvalidValueOrder(mb);
    LoadSucceedsIff(ma);
    LoadSucceedsIff(mb);
  }

  // ---------------------------------------------------------------------------------
  // Writing: writeToFile

  /** The four-field record `writeToFile` stores. */
  function ToRecord(k: ValidatorKeys): (r: JObject)
    ensures r.Keys == {"master_secret", "validation_public_key", "key_type", "sequence"}
    ensures ParseSecretKey(AsString(r["master_secret"])) == Some(k.masterSecret)
    ensures ParseBase58(NodePublic, AsString(r["validation_public_key"])) == Some(k.validationPublicKey)
    ensures KeyTypeFromString(AsString(r["key_type"])) == Some(k.keyType)
    ensures IsIntegral(r["sequence"]) && AsUInt(r["sequence"]) == k.sequence
  {
    SecretKeyRoundTrip(k.masterSecret, k.validationPublicKey);
    ParseToBase58(NodePublic, k.validationPublicKey);
    KeyTypeStringRoundTrip(k.keyType);
    map[
      "master_secret" := JString(ToBase58(NodePrivate, k.masterSecret)),
      "validation_public_key" := JString(ToBase58(NodePublic, k.validationPublicKey)),
      "key_type" := JString(KeyTypeToString(k.keyType)),
      "sequence" := FromUInt(k.sequence)]
  }

  /** Round trip: loading what was written gives back the identity, provided its public
      key is the one derived from its secret. */
  lemma LoadToRecord(k: ValidatorKeys)
    requires Consistent(k)
    ensures Load(Some(Object(ToRecord(k)))) == Ok(k)
  {
    var m := ToRecord(k);
    FirstMissingNone(m, RequiredFields);
  }

  /** The store after `writeToFile`, and the error it throws. The key file is replaced
      only when both the directory step and the open succeed. */
  function WriteSpec(s: Store, k: ValidatorKeys): (Store, Option<PersistenceError>)
  {
    if !s.directoryReady then (s, Some(CannotCreateDirectory))
    else if !s.openable then (s, Some(CannotOpenForWrite))
    else (s.(contents := Some(Object(ToRecord(k)))), None)
  }

  /** `writeToFile(keyFile)`: builds the record, then replaces the file. `k` is a value, so
      the identity is the same after the call (the method is `const`). */
  method WriteToFile(k: ValidatorKeys, file: KeyFile) returns (error: Option<PersistenceError>)
    modifies file
    ensures (file.State(), error) == WriteSpec(old(file.State()), k)
  {
    var jv: JObject := map[];
    jv := jv["master_secret" := JString(ToBase58(NodePrivate, k.masterSecret))];
    jv := jv["validation_public_key" := JString(ToBase58(NodePublic, k.validationPublicKey))];
    jv := jv["key_type" := JString(KeyTypeToString(k.keyType))];
    jv := jv["sequence" := FromUInt(k.sequence)];
    assert jv == ToRecord(k);

    if !file.directoryReady {
      return Some(CannotCreateDirectory);
    }
    if !file.openable {
      return Some(CannotOpenForWrite);
    }
    file.Replace(Object(jv));
    return None;
  }

  // ---------------------------------------------------------------------------------
  // The manifest: createEphemeralKeys

  /** `HashPrefix::manifest`: the bytes 'M' 'A' 'N' 0. */
  const ManifestPrefix: seq<byte> := [0x4D, 0x41, 0x4E, 0x00]

  /** The manifest record before either signature: sequence, master key, signing key. */
  function UnsignedManifest(k: ValidatorKeys, spk: PublicKey): (f: Fields)
    ensures WellFormed(f)
  {
    map[Sequence := UInt32(k.sequence), PublicKey := Blob(k.validationPublicKey), SigningPubKey := Blob(spk)]
  }

  /** The manifest record after the ephemeral signature and then the master signature
      have been added, each over the signing data of the record as it stood. */
  function ManifestFields(k: ValidatorKeys, ephKeyType: KeyType, seed: Seed): (f: Fields)
    ensures WellFormed(f)
  {
    var ssk := GenerateSecretKey(ephKeyType, seed);
    var unsigned := UnsignedManifest(k, DerivePublicKey(ephKeyType, ssk));
    var signed := unsigned[Signature := Blob(Sign(ephKeyType, ssk, SigningData(ManifestPrefix, unsigned)))];
    signed[MasterSignature := Blob(Sign(k.keyType, k.masterSecret, SigningData(ManifestPrefix, signed)))]
  }

  /** The ephemeral keys for `k`, `ephKeyType` and the random `seed`. */
  function EphemeralFor(k: ValidatorKeys, ephKeyType: KeyType, seed: Seed): EphemeralKeys
  {
    EphemeralKeys(
      seed,
      Base64.Encode(Serialize(ManifestFields(k, ephKeyType, seed))),
      DerivePublicKey(ephKeyType, GenerateSecretKey(ephKeyType, seed)))
  }

  /** What a reader of the manifest does: base64-decode, then parse the record. */
  function DecodeManifest(manifest: string): (r: Option<Fields>)
    ensures r.Some? ==> WellFormed(r.value)
  {
    match Base64.Decode(manifest)
    case None => None
    case Some(bytes) => Parse(bytes)
  }

  /** The manifest decodes to the record built; it carries the identity's sequence and
      master key and the returned ephemeral key; the ephemeral key is the one the returned
      seed regenerates; the ephemeral signature verifies under the ephemeral key, and the
      master signature under the master key when that key is derived from the secret. */
  lemma EphemeralForHonours(k: ValidatorKeys, ephKeyType: KeyType, seed: Seed)
    ensures var e := EphemeralFor(k, ephKeyType, seed);
      && e.seed == seed
      && e.validationPublicKey == DerivePublicKey(ephKeyType, GenerateSecretKey(ephKeyType, e.seed))
      && DecodeManifest(e.manifest) == Some(ManifestFields(k, ephKeyType, seed))
    ensures var e, st := EphemeralFor(k, ephKeyType, seed), ManifestFields(k, ephKeyType, seed);
      && st.Keys == {Sequence, PublicKey, SigningPubKey, Signature, MasterSignature}
      && st[Sequence] == UInt32(k.sequence)
      && st[PublicKey] == Blob(k.validationPublicKey)
      && st[SigningPubKey] == Blob(e.validationPublicKey)
      && VerifyField(st, ManifestPrefix, e.validationPublicKey, Signature)
      && (Consistent(k) ==> VerifyField(st, ManifestPrefix, k.validationPublicKey, MasterSignature))
  {
    var ssk := GenerateSecretKey(ephKeyType, seed);
    var spk := DerivePublicKey(ephKeyType, ssk);
    var unsigned := UnsignedManifest(k, spk);
    var data := SigningData(ManifestPrefix, unsigned);
    var ephSig := Blob(Sign(ephKeyType, ssk, data));
    var signed := unsigned[Signature := ephSig];
    SigningDataIgnoresSignatures(ManifestPrefix, unsigned, Signature, ephSig);
    var masterSig := Blob(Sign(k.keyType, k.masterSecret, data));
    var st := signed[MasterSignature := masterSig];
    assert st == ManifestFields(k, ephKeyType, seed);
    SigningDataIgnoresSignatures(ManifestPrefix, signed, MasterSignature, masterSig);
    assert SigningData(ManifestPrefix, st) == data;
    SignThenVerify(ephKeyType, ssk, data);
    SignThenVerify(k.keyType, k.masterSecret, data);
    var bytes := Serialize(st);
    ParseSerialize(st);
    Base64.DecodeEncode(bytes);
  }

  /** `createEphemeralKeys(ephKeyType)`, with `seed` standing for `randomSeed()`. `k` is a
      value, so the identity is the same after the call (the method is `const`). */
  method CreateEphemeralKeys(k: ValidatorKeys, ephKeyType: KeyType, seed: Seed) returns (e: EphemeralKeys)
    ensures e == EphemeralFor(k, ephKeyType, seed)
    ensures e.seed == seed
    ensures e.validationPublicKey == DerivePublicKey(ephKeyType, GenerateSecretKey(ephKeyType, seed))
    ensures var st := DecodeManifest(e.manifest);
      && st == Some(ManifestFields(k, ephKeyType, seed))
      && st.value[Sequence] == UInt32(k.sequence)
      && st.value[PublicKey] == Blob(k.validationPublicKey)
      && st.value[SigningPubKey] == Blob(e.validationPublicKey)
      && VerifyField(st.value, ManifestPrefix, e.validationPublicKey, Signature)
      && (Consistent(k) ==> VerifyField(st.value, ManifestPrefix, k.validationPublicKey, MasterSignature))
  {
    var ssk := GenerateSecretKey(ephKeyType, seed);
    var spk := DerivePublicKey(ephKeyType, ssk);

    var st := new STObject();
    st.Set(Sequence, UInt32(k.sequence));
    st.Set(PublicKey, Blob(k.validationPublicKey));
    st.Set(SigningPubKey, Blob(spk));
    assert st.fields == UnsignedManifest(k, spk);

    st.Sign(ManifestPrefix, ephKeyType, ssk, Signature);
    st.Sign(ManifestPrefix, k.keyType, k.masterSecret, MasterSignature);
    assert st.fields == ManifestFields(k, ephKeyType, seed);

    var s := new Serializer();
    st.AddTo(s);
    assert s.data == [] + Serialize(ManifestFields(k, ephKeyType, seed));
    assert [] + Serialize(ManifestFields(k, ephKeyType, seed)) == Serialize(ManifestFields(k, ephKeyType, seed));

    e := EphemeralKeys(seed, Base64.Encode(s.data), spk);
    EphemeralForHonours(k, ephKeyType, seed);
  }
}
