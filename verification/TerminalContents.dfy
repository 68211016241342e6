/** What a DKG terminal job says, and exactly when the live path and the startup path complete. */
module TerminalContents {
  import opened Common
  import opened Base64
  import Hex
  import opened Artifacts
  import opened DkgTerminal

  /** The job carries this terminal result: its canonical bytes, their fingerprint and the request body around both. */
  predicate Carries(lib: Lib, t: TerminalLib, job: Job, r: TerminalResult) {
    var raw := t.canonical(r);
    && raw.Some? && job.fingerprint == lib.sha256(raw.value) && t.marshal(raw.value, DigestText(job.fingerprint)) == Some(job.body)
    && job.intentId == r.intentId && job.status == r.status
  }

  /** The result has canonical bytes and a request body. */
  predicate Encodable(lib: Lib, t: TerminalLib, r: TerminalResult) {
    var raw := t.canonical(r);
    raw.Some? && t.marshal(raw.value, DigestText(lib.sha256(raw.value))).Some?
  }

  /** The share inside an artifact, where it opens and Core can inspect it. */
  function ShareOf(lib: Lib, purpose: Purpose, raw: Bytes): Option<KeyMaterial> {
    var payload := lib.open(purpose, raw);
    if payload.None? then None else lib.inspectShare(payload.value.shareBlob)
  }

  /** The artifact opens for this party, session and descriptor, and its share has the descriptor's chain code hash. */
  predicate Intact(lib: Lib, purpose: Purpose, party: string, i: Listed, raw: Option<Bytes>) {
    var d := ParseDescriptor(lib, i.descriptorBytes);
    && raw.Some? && d.Some? && d.value.keyId == i.keyId && i.sessionId != ""
    && var payload := lib.open(purpose, raw.value);
       && payload.Some? && payload.value.sessionId == i.sessionId && payload.value.partyId == party
       && payload.value.descriptorBytes == i.descriptorBytes
       && ShareOf(lib, purpose, raw.value).Some?
       && d.value.chainCodeHash == DigestText(ShareOf(lib, purpose, raw.value).value.chainCodeHash)
  }

  /** Both artifacts are intact and hold shares of one key. */
  predicate SharesAgree(lib: Lib, i: Listed, primary: Option<Bytes>, recovery: Option<Bytes>) {
    && Intact(lib, PrimaryPurpose, "co-signer-primary", i, primary)
    && Intact(lib, RecoveryPurpose, "co-signer-recovery", i, recovery)
    && var p, r := ShareOf(lib, PrimaryPurpose, primary.value).value, ShareOf(lib, RecoveryPurpose, recovery.value).value;
       p.accountPublicKey == r.accountPublicKey && p.codecVersion == r.codecVersion
  }

  /** The COMPLETED result over two intact artifacts. */
  function CompletedOver(lib: Lib, i: Listed, primary: Bytes, recovery: Bytes): TerminalResult
    requires SharesAgree(lib, i, Some(primary), Some(recovery))
  {
    TerminalResult(i.intentId, i.keyId,
      Some(CompletedResult(
        Hex.Encode(ShareOf(lib, PrimaryPurpose, primary).value.accountPublicKey),
        [ArtifactResult(DigestText(lib.sha256(primary)), "co-signer-primary", "primary"),
         ArtifactResult(DigestText(lib.sha256(recovery)), "co-signer-recovery", "recovery")],
        ParseDescriptor(lib, i.descriptorBytes).value.chainCodeHash, DigestText(lib.sha256(i.descriptorBytes)))),
      i.sessionId, CompletedStatus)
  }

  function FailedOver(i: Listed): TerminalResult {
    TerminalResult(i.intentId, i.keyId, None, i.sessionId, FailedStatus)
  }

  /** Inspection succeeds exactly on intact artifacts, and what it yields is read off them. */
  lemma InspectExactly(lib: Lib, purpose: Purpose, i: Listed, raw: Option<Bytes>)
    ensures Inspect(lib, purpose, ExpectedOf(i), raw).Some? <==>
              lib.isKeyId(i.keyId) && Intact(lib, purpose, PartyFor(purpose), i, raw)
    ensures Intact(lib, purpose, PartyFor(purpose), i, raw) && lib.isKeyId(i.keyId) ==>
              var e, share := Inspect(lib, purpose, ExpectedOf(i), raw).value, ShareOf(lib, purpose, raw.value).value;
              e == Evidence(i.sessionId, i.keyId, PartyFor(purpose), purpose, lib.sha256(i.descriptorBytes),
                            share.accountPublicKey, share.chainCodeHash, share.codecVersion, lib.sha256(raw.value))
  {
    hide ParseDigest, DigestText, ValidDescriptor;
    if raw.Some? && ShareOf(lib, purpose, raw.value).Some? && ParseDescriptor(lib, i.descriptorBytes).Some? {
      DigestRoundTrip(ParseDescriptor(lib, i.descriptorBytes).value.chainCodeHash, ShareOf(lib, purpose, raw.value).value.chainCodeHash);
    }
  }

  /** The listed fingerprint is the text of the descriptor's digest. */
  predicate FingerprintOk(lib: Lib, i: Listed) {
    i.descriptorFingerprint == DigestText(lib.sha256(i.descriptorBytes))
  }

  /**
    A startup job is COMPLETED if and only if the fingerprint is right, both
    artifacts are intact with shares of one key, and the result can be encoded; it
    then carries exactly that result, and otherwise the FAILED one.
  */
  lemma StartupJobSays(s: Setting, i: Listed, primary: Option<Bytes>, recovery: Option<Bytes>)
    requires Reconstruct(s, i, primary, recovery).Some?
    ensures var job, lib := Reconstruct(s, i, primary, recovery).value, s.lib;
            && (job.status == CompletedStatus <==>
                  && FingerprintOk(lib, i) && SharesAgree(lib, i, primary, recovery)
                  && Encodable(lib, s.terminal, CompletedOver(lib, i, primary.value, recovery.value)))
            && Carries(lib, s.terminal, job,
                       if job.status == CompletedStatus then CompletedOver(lib, i, primary.value, recovery.value) else FailedOver(i))
  {
    hide Inspect, ParseDigest, DigestText, Hex.Encode, ParseDescriptor, Intact;
    InspectExactly(s.lib, PrimaryPurpose, i, primary);
    InspectExactly(s.lib, RecoveryPurpose, i, recovery);
    DigestRoundTrip(i.descriptorFingerprint, s.lib.sha256(i.descriptorBytes));
    if SharesAgree(s.lib, i, primary, recovery) {
      IntactNamesKey(s.lib, PrimaryPurpose, "co-signer-primary", i, primary);
      IntactHash(s.lib, PrimaryPurpose, "co-signer-primary", i, primary);
      IntactHash(s.lib, RecoveryPurpose, "co-signer-recovery", i, recovery);
      DigestTextInjective(ShareOf(s.lib, PrimaryPurpose, primary.value).value.chainCodeHash,
                          ShareOf(s.lib, RecoveryPurpose, recovery.value).value.chainCodeHash);
    }
    FingerprintParses(s.lib, i);
  }

  lemma FingerprintParses(lib: Lib, i: Listed)
    ensures ParseDigest(i.descriptorFingerprint) == Some(lib.sha256(i.descriptorBytes)) <==> FingerprintOk(lib, i)
  {
    hide ParseDigest, DigestText;
    DigestRoundTrip(i.descriptorFingerprint, lib.sha256(i.descriptorBytes));
  }

  lemma IntactNamesKey(lib: Lib, purpose: Purpose, party: string, i: Listed, raw: Option<Bytes>)
    requires Intact(lib, purpose, party, i, raw)
    ensures lib.isKeyId(i.keyId)
  {
    hide ParseDigest, DigestText;
  }

  lemma IntactHash(lib: Lib, purpose: Purpose, party: string, i: Listed, raw: Option<Bytes>)
    requires Intact(lib, purpose, party, i, raw)
    ensures ParseDescriptor(lib, i.descriptorBytes).Some? && raw.Some? && ShareOf(lib, purpose, raw.value).Some?
    ensures ParseDescriptor(lib, i.descriptorBytes).value.chainCodeHash == DigestText(ShareOf(lib, purpose, raw.value).value.chainCodeHash)
  {
    hide ParseDigest, DigestText;
  }

  lemma DigestTextInjective(a: Digest, b: Digest)
    requires DigestText(a) == DigestText(b)
    ensures a == b
  {
    hide ParseDigest, DigestText;
    DigestRoundTrip(DigestText(a), a);
    DigestRoundTrip(DigestText(a), b);
  }

  // ---- The live path ----

  function ListedAs(i: LiveIntent): Listed {
    Listed(i.intentId, i.sessionId, i.keyId, i.descriptorBytes, i.descriptorFingerprint)
  }

  /** The chain code is 32 bytes in lower-case hexadecimal, and hashes to what intent and descriptor say. */
  predicate ChainCodeOk(lib: Lib, i: LiveIntent, d: Descriptor) {
    var code := Hex.Decode(i.chainCode);
    && code.Some? && |code.value| == 32 && Hex.Encode(code.value) == i.chainCode
    && DigestText(lib.sha256(code.value)) == i.chainCodeHash == d.chainCodeHash
  }

  /** What a DKG intent must be for the protocol to run. */
  predicate Runnable(s: Setting, i: LiveIntent, now: int) {
    var d := ParseDescriptor(s.lib, i.descriptorBytes);
    && i.wellTyped && !s.blank(i.sessionId) && !s.blank(i.org) && i.descriptorBytes != []
    && i.expiresAt != s.zero && i.expiresAt > now
    && s.parties == Parties("mpc-signer", "co-signer-primary", "co-signer-recovery")
    && d.Some? && d.value.keyId == i.keyId && FingerprintOk(s.lib, ListedAs(i)) && ChainCodeOk(s.lib, i, d.value)
  }

  /** A valid descriptor is an ECDSA key on secp256k1, two of the three standard parties, with BIP-32 derivation. */
  lemma DescriptorContract(lib: Lib, raw: Bytes)
    requires ParseDescriptor(lib, raw).Some?
    ensures var d := ParseDescriptor(lib, raw).value;
            && d.kind == "mpc-key-descriptor" && d.descriptorVersion == 1 && d.protocolVersion == 1
            && d.algorithm == "ECDSA" && d.curve == "secp256k1" && d.threshold == 2
            && d.derivationScheme == "bip32_secp256k1" && d.publicKeyFormat == "compressed_sec1" && lib.isKeyId(d.keyId)
            && (exists h :: d.chainCodeHash == DigestText(h))
            && d.parties == [Party("mpc-signer", "platform"), Party("co-signer-primary", "primary"), Party("co-signer-recovery", "recovery")]
  {
    hide ParseDigest, DigestText;
    var d := ParseDescriptor(lib, raw).value;
    DigestRoundTrip(d.chainCodeHash, ParseDigest(d.chainCodeHash).value);
  }

  lemma RunnableExactly(s: Setting, i: LiveIntent, now: int)
    ensures RuntimeContext(s.lib, s.parties, s.blank, s.zero, i, now).Some? <==> Runnable(s, i, now)
    ensures Runnable(s, i, now) ==> RuntimeContext(s.lib, s.parties, s.blank, s.zero, i, now) == ParseDescriptor(s.lib, i.descriptorBytes)
  {
    hide ParseDescriptor, ParseDigest, DigestText, Hex.Encode, Hex.Decode;
    if ParseDescriptor(s.lib, i.descriptorBytes).Some? {
      DescriptorContract(s.lib, i.descriptorBytes);
      DigestTextNonEmpty(s.lib.sha256(i.descriptorBytes));
    }
  }

  lemma DigestTextNonEmpty(d: Digest)
    ensures DigestText(d) != ""
  {
    hide ParseDigest;
    DigestRoundTrip("", d);
  }

  /**
    A live job is COMPLETED if and only if the protocol succeeded on a runnable
    intent and both artifacts are intact with shares of one key. It then carries
    the two artifact fingerprints, primary first, the key, and the chain code hash
    and descriptor fingerprint the intent asked for; otherwise the FAILED result.
  */
  lemma LiveJobSays(s: Setting, i: LiveIntent, now: int, protocolOk: bool, primary: Option<Bytes>, recovery: Option<Bytes>)
    requires LiveJob(s, i, now, protocolOk, primary, recovery).Some?
    ensures var job, l := LiveJob(s, i, now, protocolOk, primary, recovery).value, ListedAs(i);
            && (job.status == CompletedStatus <==> protocolOk && Runnable(s, i, now) && SharesAgree(s.lib, l, primary, recovery))
            && Carries(s.lib, s.terminal, job,
                       if job.status == CompletedStatus then CompletedOver(s.lib, l, primary.value, recovery.value) else FailedOver(l))
            && (job.status == CompletedStatus ==>
                  var result := CompletedOver(s.lib, l, primary.value, recovery.value).result.value;
                  result.chainCodeHash == i.chainCodeHash && result.descriptorFingerprint == i.descriptorFingerprint)
  {
    hide Inspect, ParseDigest, DigestText, Hex.Encode, Hex.Decode, ParseDescriptor, Intact, RuntimeContext;
    var l := ListedAs(i);
    RunnableExactly(s, i, now);
    InspectExactly(s.lib, PrimaryPurpose, l, primary);
    InspectExactly(s.lib, RecoveryPurpose, l, recovery);
    if SharesAgree(s.lib, l, primary, recovery) {
      IntactNamesKey(s.lib, PrimaryPurpose, "co-signer-primary", l, primary);
      IntactHash(s.lib, PrimaryPurpose, "co-signer-primary", l, primary);
      IntactHash(s.lib, RecoveryPurpose, "co-signer-recovery", l, recovery);
      DigestTextInjective(ShareOf(s.lib, PrimaryPurpose, primary.value).value.chainCodeHash,
                          ShareOf(s.lib, RecoveryPurpose, recovery.value).value.chainCodeHash);
    }
  }
}
