/** The command-line tool's logic: the three commands, the sequence-advance and revocation
    rules, the order in which a signing run loads, advances, signs, shows and persists, the
    refusal to overwrite a key file, and the 72-column wrapping of the manifest.
    Console output other than the manifest lines is not modelled; what `signManifest`
    shows is returned as a `SigningOutput`. */
module KeyTool {
  import opened Wrappers
  import opened Bytes
  import opened Crypto
  import opened Json
  import opened KeyFiles
  import opened STObjects
  import opened Validator

  // ---------------------------------------------------------------------------------
  // Sequence rules

  datatype SequenceError =
    | SequenceNotIncreasing(current: uint32)  // "Sequence should exceed current sequence"
    | SequenceExhausted                       // "Sequence is already at maximum value"

  /** The sequence a signing run moves to from `current`: the requested one, which must
      exceed `current`, or else the next one, which must not pass the maximum. */
  function Advance(current: uint32, requested: Option<uint32>): (r: Result<uint32, SequenceError>)
    ensures r.Ok? ==> current < r.value
    ensures requested.Some? ==>
      && (r.Ok? <==> current < requested.value)
      && (r.Ok? ==> r.value == requested.value)
      && (r.Err? ==> r.error == SequenceNotIncreasing(current))
    ensures requested.None? ==>
      && (r.Ok? <==> current < MaxUInt32)
      && (r.Ok? ==> r.value == current + 1)
      && (r.Err? ==> r.error == SequenceExhausted)
  {
    match requested
    case Some(s) => if s <= current then Err(SequenceNotIncreasing(current)) else Ok(s)
    case None => if current == MaxUInt32 then Err(SequenceExhausted) else Ok(current + 1)
  }

  /** Revoking from an active sequence moves to the maximum. */
  lemma RevokeFromActive(current: uint32)
    requires current < MaxUInt32
    ensures Advance(current, Some(MaxUInt32)) == Ok(MaxUInt32)
  {
  }

  /** Revoking a revoked identity fails as a non-increasing sequence, not as exhaustion. */
  lemma RevokeWhenRevoked()
    ensures Advance(MaxUInt32, Some(MaxUInt32)) == Err(SequenceNotIncreasing(MaxUInt32))
  {
  }

  /** No advance out of the maximum succeeds. */
  lemma RevocationIsTerminal(requested: Option<uint32>)
    ensures Advance(MaxUInt32, requested).Err?
  {
  }

  // ---------------------------------------------------------------------------------
  // Wrapping the manifest for display

  const LineWidth := 72

  /** The manifest from offset `i` on, cut into lines of `LineWidth` characters, the last
      one shorter. */
  function LinesFrom(s: string, i: nat): seq<string>
    decreases |s| - i
  {
    if i >= |s| then []
    else if i + LineWidth < |s| then [s[i..i + LineWidth]] + LinesFrom(s, i + LineWidth)
    else [s[i..]]
  }

  function Lines(s: string): seq<string>
  {
    LinesFrom(s, 0)
  }

  function Concat(lines: seq<string>): string
  {
    if lines == [] then "" else lines[0] + Concat(lines[1..])
  }

  /** One turn of the printing loop: the line at offset `i`, then the lines after it. */
  lemma LinesFromStep(s: string, i: nat)
    requires i < |s|
    ensures var end := if i + LineWidth < |s| then i + LineWidth else |s|;
      LinesFrom(s, i) == [s[i..end]] + LinesFrom(s, i + LineWidth)
  {
    if i + LineWidth >= |s| {
      assert LinesFrom(s, i + LineWidth) == [];
      assert s[i..|s|] == s[i..];
    }
  }

  lemma {:induction false} LinesFromConcat(s: string, i: nat)
    requires i <= |s|
    ensures Concat(LinesFrom(s, i)) == s[i..]
    decreases |s| - i
  {
    var ls := LinesFrom(s, i);
    if i + LineWidth < |s| {
      LinesFromConcat(s, i + LineWidth);
      var line, tail := s[i..i + LineWidth], LinesFrom(s, i + LineWidth);
      assert ls == [line] + tail;
      assert ls[0] == line && ls[1..] == tail;
      assert Concat(ls) == line + Concat(tail);
      assert line + s[i + LineWidth..] == s[i..];
    } else if i < |s| {
      assert ls == [s[i..]];
      assert Concat(ls) == s[i..] + "";
    }
  }

  lemma {:induction false} LinesFromWidths(s: string, i: nat)
    ensures LinesFrom(s, i) == [] <==> i >= |s|
    ensures forall k :: 0 <= k < |LinesFrom(s, i)| - 1 ==> |LinesFrom(s, i)[k]| == LineWidth
    ensures |LinesFrom(s, i)| > 0 ==> 0 < |LinesFrom(s, i)[|LinesFrom(s, i)| - 1]| <= LineWidth
    decreases |s| - i
  {
    var ls := LinesFrom(s, i);
    if i + LineWidth < |s| {
      LinesFromWidths(s, i + LineWidth);
      var tail := LinesFrom(s, i + LineWidth);
      assert ls == [s[i..i + LineWidth]] + tail;
      forall k | 0 <= k < |ls| - 1 ensures |ls[k]| == LineWidth {
        if k > 0 { assert ls[k] == tail[k - 1]; }
      }
      assert ls[|ls| - 1] == tail[|tail| - 1];
    } else if i < |s| {
      assert ls == [s[i..]];
    }
  }

  /** The lines put back together are the manifest; all but the last are full, the last
      holds 1 to 72 characters; an empty manifest gives no lines. */
  lemma LinesWrap(s: string)
    ensures Concat(Lines(s)) == s
    ensures forall k :: 0 <= k < |Lines(s)| - 1 ==> |Lines(s)[k]| == LineWidth
    ensures |Lines(s)| > 0 ==> 0 < |Lines(s)[|Lines(s)| - 1]| <= LineWidth
    ensures Lines(s) == [] <==> s == []
  {
    LinesFromConcat(s, 0);
    LinesFromWidths(s, 0);
    assert s[0..] == s;
  }

  /** The loop that prints the manifest, `substr(i, 72)` for i = 0, 72, 144, ... */
  method WrapManifest(manifest: string) returns (lines: seq<string>)
    ensures lines == Lines(manifest)
    ensures Concat(lines) == manifest
    ensures forall k :: 0 <= k < |lines| - 1 ==> |lines[k]| == LineWidth
    ensures |lines| > 0 ==> 0 < |lines[|lines| - 1]| <= LineWidth
    ensures lines == [] <==> manifest == []
  {
    lines := [];
    var i := 0;
    while i < |manifest|
      invariant lines + LinesFrom(manifest, i) == Lines(manifest)
    {
      var end := if i + LineWidth < |manifest| then i + LineWidth else |manifest|;
      var line := manifest[i..end];
      LinesFromStep(manifest, i);
      assert lines + ([line] + LinesFrom(manifest, i + LineWidth)) == (lines + [line]) + LinesFrom(manifest, i + LineWidth);
      lines := lines + [line];
      i := i + LineWidth;
    }
    assert lines + [] == lines;
    LinesWrap(manifest);
  }

  // ---------------------------------------------------------------------------------
  // The commands

  datatype Command = CreateMasterKeys | CreateSigningKeys | RevokeMasterKeys

  /** The `std::runtime_error`s the command layer reports. */
  datatype ToolError =
    | NoCommand
    | WrongParameterCount
    | UnknownCommand
    | RefusingToOverwrite
    | LoadFailed(loadError: LoadError)
    | SequenceFailed(sequenceError: SequenceError)
    | WriteFailed(writeError: PersistenceError)

  /** What a signing run shows: the ephemeral keys (seed, public key and manifest), the new
      sequence, whether the revocation warning is printed, and the manifest's lines. */
  datatype SigningOutput = SigningOutput(
    ephemeral: EphemeralKeys,
    sequence: uint32,
    revokes: bool,
    manifestLines: seq<string>)

  /** The key file afterwards, what was shown, and the error reported, if any. */
  datatype Outcome = Outcome(store: Store, shown: Option<SigningOutput>, error: Option<ToolError>)

  function WriteError(e: Option<PersistenceError>): Option<ToolError>
  {
    match e
    case None => None
    case Some(pe) => Some(WriteFailed(pe))
  }

  /** The command named by the positional arguments. */
  function ParseCommand(args: seq<string>): (r: Result<Command, ToolError>)
    ensures |args| == 0 ==> r == Err(NoCommand)
    ensures |args| > 1 ==> r == Err(WrongParameterCount)
    ensures r == Ok(CreateMasterKeys) <==> args == ["create_master_keys"]
    ensures r == Ok(CreateSigningKeys) <==> args == ["create_signing_keys"]
    ensures r == Ok(RevokeMasterKeys) <==> args == ["revoke_master_keys"]
    ensures |args| == 1 && args[0] !in {"create_master_keys", "create_signing_keys", "revoke_master_keys"} ==>
      r == Err(UnknownCommand)
    ensures r.Err? ==> r.error in {NoCommand, WrongParameterCount, UnknownCommand}
  {
    if |args| == 0 then Err(NoCommand)
    else if |args| != 1 then Err(WrongParameterCount)
    else if args[0] == "create_master_keys" then Ok(CreateMasterKeys)
    else if args[0] == "create_signing_keys" then Ok(CreateSigningKeys)
    else if args[0] == "revoke_master_keys" then Ok(RevokeMasterKeys)
    else Err(UnknownCommand)
  }

  /** `createKeyFile`: refuses when the file exists; otherwise writes a fresh ed25519
      identity made from `seed`. */
  function CreateKeyFileSpec(s: Store, seed: Seed): Outcome
  {
    if s.contents.Some? then Outcome(s, None, Some(RefusingToOverwrite))
    else
      var (s', e) := WriteSpec(s, Fresh(Ed25519, seed));
      Outcome(s', None, WriteError(e))
  }

  /** `signManifest`: load, advance the sequence, build the manifest with a secp256k1
      ephemeral key from `seed`, show it, then write the identity back. */
  function SignManifestSpec(s: Store, requested: Option<uint32>, seed: Seed): Outcome
  {
    match Load(s.contents)
    case Err(e) => Outcome(s, None, Some(LoadFailed(e)))
    case Ok(keys) =>
      match Advance(keys.sequence, requested)
      case Err(e) => Outcome(s, None, Some(SequenceFailed(e)))
      case Ok(n) =>
        var next := keys.(sequence := n);
        var ephemeral := EphemeralFor(next, Secp256k1, seed);
        var shown := SigningOutput(ephemeral, n, n == MaxUInt32, Lines(ephemeral.manifest));
        var (s', e) := WriteSpec(s, next);
        Outcome(s', Some(shown), WriteError(e))
  }

  /** `runCommand`: no argument, more than one, or an unknown verb is an error; the verbs
      create a key file, advance the sequence by one, or advance it to the maximum. */
  function RunCommandSpec(s: Store, args: seq<string>, seed: Seed): Outcome
  {
    match ParseCommand(args)
    case Err(e) => Outcome(s, None, Some(e))
    case Ok(CreateMasterKeys) => CreateKeyFileSpec(s, seed)
    case Ok(CreateSigningKeys) => SignManifestSpec(s, None, seed)
    case Ok(RevokeMasterKeys) => SignManifestSpec(s, Some(MaxUInt32), seed)
  }

  /** `createKeyFile(keyFile)`, with `seed` standing for `randomSeed()`. */
  method CreateKeyFile(file: KeyFile, seed: Seed) returns (error: Option<ToolError>)
    modifies file
    ensures Outcome(file.State(), None, error) == CreateKeyFileSpec(old(file.State()), seed)
  {
    if file.contents.Some? {
      return Some(RefusingToOverwrite);
    }
    var keys := Fresh(Ed25519, seed);
    var writeError := WriteToFile(keys, file);
    error := WriteError(writeError);
  }

  /** `signManifest(keyFile, sequence)`, with `seed` standing for `randomSeed()`. */
  method SignManifest(file: KeyFile, requested: Option<uint32>, seed: Seed)
    returns (shown: Option<SigningOutput>, error: Option<ToolError>)
    modifies file
    ensures Outcome(file.State(), shown, error) == SignManifestSpec(old(file.State()), requested, seed)
  {
    var loaded := MakeValidatorKeys(file);
    if loaded.Err? {
      return None, Some(LoadFailed(loaded.error));
    }
    var keys := loaded.value;

    if requested.Some? {
      if requested.value <= keys.sequence {
        return None, Some(SequenceFailed(SequenceNotIncreasing(keys.sequence)));
      }
      keys := keys.(sequence := requested.value);
    } else {
      if keys.sequence == MaxUInt32 {
        return None, Some(SequenceFailed(SequenceExhausted));
      }
      keys := keys.(sequence := keys.sequence + 1);
    }

    SignManifestPastAdvance(file.State(), requested, seed, loaded.value, keys.sequence);
    var revokes := keys.sequence == MaxUInt32;
    var ephemeralKeys := CreateEphemeralKeys(keys, Secp256k1, seed);
    var lines := WrapManifest(ephemeralKeys.manifest);
    shown := Some(SigningOutput(ephemeralKeys, keys.sequence, revokes, lines));

    // Overwrite the key file with the updated sequence
    var writeError := WriteToFile(keys, file);
    error := WriteError(writeError);
  }

  /** `runCommand(args, keyFile)` */
  method RunCommand(args: seq<string>, file: KeyFile, seed: Seed)
    returns (shown: Option<SigningOutput>, error: Option<ToolError>)
    modifies file
    ensures Outcome(file.State(), shown, error) == RunCommandSpec(old(file.State()), args, seed)
  {
    var command := ParseCommand(args);
    match command
    case Err(e) =>
      return None, Some(e);
    case Ok(CreateMasterKeys) =>
      shown := None;
      error := CreateKeyFile(file, seed);
    case Ok(CreateSigningKeys) =>
      shown, error := SignManifest(file, None, seed);
    case Ok(RevokeMasterKeys) =>
      shown, error := SignManifest(file, Some(MaxUInt32), seed);
  }

  // ---------------------------------------------------------------------------------
  // Properties of a run

  /** Whenever a signing run rewrites the key file, it stores the identity it loaded --
      same key type, same master secret, same public key -- with a strictly greater
      sequence; a run that does not write leaves the file as it was. */
  lemma SignManifestMovesForward(s: Store, requested: Option<uint32>, seed: Seed)
    ensures var o := SignManifestSpec(s, requested, seed);
      && o.store.directoryReady == s.directoryReady && o.store.openable == s.openable
      && (o.store.contents != s.contents ==>
        && Load(s.contents).Ok? && Load(o.store.contents).Ok?
        && Load(s.contents).value.sequence < Load(o.store.contents).value.sequence
        && Load(o.store.contents).value.keyType == Load(s.contents).value.keyType
        && Load(o.store.contents).value.masterSecret == Load(s.contents).value.masterSecret
        && Load(o.store.contents).value.validationPublicKey == Load(s.contents).value.validationPublicKey)
  {
    var o := SignManifestSpec(s, requested, seed);
    if o.store.contents != s.contents {
      var keys := Load(s.contents).value;
      var n := Advance(keys.sequence, requested).value;
      LoadToRecord(keys.(sequence := n));
    }
  }

  /** Any error leaves the key file as it was; without an error the file holds the loaded
      identity at the advanced sequence. Something is shown exactly when loading and the
      advance succeed, and then the manifest was built before the write was attempted. */
  lemma SignManifestOrdering(s: Store, requested: Option<uint32>, seed: Seed)
    ensures var o := SignManifestSpec(s, requested, seed);
      && (o.error.Some? ==> o.store == s)
      && (o.shown.Some? && s.directoryReady && s.openable ==> o.error.None?)
      && (o.shown.Some? <==> Load(s.contents).Ok? && Advance(Load(s.contents).value.sequence, requested).Ok?)
      && (o.error.None? ==>
        && o.shown.Some?
        && Load(o.store.contents) == Ok(Load(s.contents).value.(sequence := o.shown.value.sequence)))
  {
    var o := SignManifestSpec(s, requested, seed);
    if Load(s.contents).Ok? && Advance(Load(s.contents).value.sequence, requested).Ok? {
      var keys := Load(s.contents).value;
      LoadToRecord(keys.(sequence := Advance(keys.sequence, requested).value));
    }
  }

  /** A run that gets past the sequence check shows the manifest for the advanced identity
      with a secp256k1 ephemeral key, then writes that identity. */
  lemma SignManifestPastAdvance(s: Store, requested: Option<uint32>, seed: Seed, keys: ValidatorKeys, n: uint32)
    requires Load(s.contents) == Ok(keys) && Advance(keys.sequence, requested) == Ok(n)
    ensures var next := keys.(sequence := n);
      var e := EphemeralFor(next, Secp256k1, seed);
      SignManifestSpec(s, requested, seed) ==
        Outcome(WriteSpec(s, next).0, Some(SigningOutput(e, n, n == MaxUInt32, Lines(e.manifest))), WriteError(WriteSpec(s, next).1))
  {
  }

  /** What a signing run shows: the new sequence, the revocation warning exactly at the
      maximum, a manifest that carries that sequence and the master key and whose two
      signatures verify, and lines that put together give the manifest. */
  lemma SignManifestShows(s: Store, requested: Option<uint32>, seed: Seed)
    requires SignManifestSpec(s, requested, seed).shown.Some?
    ensures var keys, out := Load(s.contents).value, SignManifestSpec(s, requested, seed).shown.value;
      && Advance(keys.sequence, requested) == Ok(out.sequence)
      && out.revokes == (out.sequence == MaxUInt32)
      && Concat(out.manifestLines) == out.ephemeral.manifest
      && DecodeManifest(out.ephemeral.manifest).Some?
      && var st := DecodeManifest(out.ephemeral.manifest).value;
      && st.Keys == {Sequence, PublicKey, SigningPubKey, Signature, MasterSignature}
      && st[Sequence] == UInt32(out.sequence)
      && st[PublicKey] == Blob(keys.validationPublicKey)
      && VerifyField(st, ManifestPrefix, out.ephemeral.validationPublicKey, Signature)
      && VerifyField(st, ManifestPrefix, keys.validationPublicKey, MasterSignature)
  {
    SignManifestOrdering(s, requested, seed);
    var keys := Load(s.contents).value;
    var n := Advance(keys.sequence, requested).value;
    var next := keys.(sequence := n);
    SignManifestPastAdvance(s, requested, seed, keys, n);
    var out := SignManifestSpec(s, requested, seed).shown.value;
    assert out.ephemeral == EphemeralFor(next, Secp256k1, seed) && out.sequence == n;
    EphemeralForHonours(next, Secp256k1, seed);
    LinesWrap(out.ephemeral.manifest);
  }

  /** Once the stored sequence is the maximum, both signing commands fail and leave the key
      file as it was. */
  lemma RevokedIdentityIsFinal(s: Store, seed: Seed)
    requires Load(s.contents).Ok? && Load(s.contents).value.sequence == MaxUInt32
    ensures RunCommandSpec(s, ["create_signing_keys"], seed)
      == Outcome(s, None, Some(SequenceFailed(SequenceExhausted)))
    ensures RunCommandSpec(s, ["revoke_master_keys"], seed)
      == Outcome(s, None, Some(SequenceFailed(SequenceNotIncreasing(MaxUInt32))))
  {
  }

  /** Revoking an active identity shows a manifest at the maximum sequence with the
      warning, and stores the maximum when the file can be written. */
  lemma RevokeStoresMaximum(s: Store, seed: Seed)
    requires Load(s.contents).Ok? && Load(s.contents).value.sequence < MaxUInt32
    ensures var o := RunCommandSpec(s, ["revoke_master_keys"], seed);
      && o.shown.Some? && o.shown.value.sequence == MaxUInt32 && o.shown.value.revokes
      && (s.directoryReady && s.openable ==>
        o.error.None? && Load(o.store.contents).Ok? && Load(o.store.contents).value.sequence == MaxUInt32)
  {
    assert RunCommandSpec(s, ["revoke_master_keys"], seed) == SignManifestSpec(s, Some(MaxUInt32), seed);
    var keys := Load(s.contents).value;
    SignManifestPastAdvance(s, Some(MaxUInt32), seed, keys, MaxUInt32);
    LoadToRecord(keys.(sequence := MaxUInt32));
  }

  /** `createKeyFile` never replaces an existing file; into an absent one it writes a fresh
      ed25519 identity at sequence 0 that loads back unchanged. */
  lemma CreateKeyFileNeverOverwrites(s: Store, seed: Seed)
    ensures s.contents.Some? ==>
      RunCommandSpec(s, ["create_master_keys"], seed) == Outcome(s, None, Some(RefusingToOverwrite))
    ensures s.contents.None? && s.directoryReady && s.openable ==>
      var o := RunCommandSpec(s, ["create_master_keys"], seed);
      && o.error.None? && o.shown.None?
      && Load(o.store.contents) == Ok(Fresh(Ed25519, seed))
      && Load(o.store.contents).value.sequence == 0
      && Load(o.store.contents).value.keyType == Ed25519
  {
    LoadToRecord(Fresh(Ed25519, seed));
  }

  /** A new key file followed by `create_signing_keys` stores sequence 1 and shows a
      manifest at sequence 1 whose signatures verify. */
  lemma CreateThenSign(s: Store, keySeed: Seed, signingSeed: Seed)
    requires s.contents.None? && s.directoryReady && s.openable
    ensures var created := RunCommandSpec(s, ["create_master_keys"], keySeed).store;
      var o := RunCommandSpec(created, ["create_signing_keys"], signingSeed);
      && o.error.None? && o.shown.Some? && o.shown.value.sequence == 1 && !o.shown.value.revokes
      && Load(o.store.contents).Ok? && Load(o.store.contents).value.sequence == 1
      && DecodeManifest(o.shown.value.ephemeral.manifest).Some?
      && Sequence in DecodeManifest(o.shown.value.ephemeral.manifest).value
      && DecodeManifest(o.shown.value.ephemeral.manifest).value[Sequence] == UInt32(1)
      && VerifyField(DecodeManifest(o.shown.value.ephemeral.manifest).value, ManifestPrefix,
           Fresh(Ed25519, keySeed).validationPublicKey, MasterSignature)
  {
    var initial := Fresh(Ed25519, keySeed);
    LoadToRecord(initial);
    var created := RunCommandSpec(s, ["create_master_keys"], keySeed).store;
    assert Load(created.contents) == Ok(initial);
    SignManifestOrdering(created, None, signingSeed);
    SignManifestShows(created, None, signingSeed);
  }
}
