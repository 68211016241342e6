/** The two ways a DKG result becomes terminal bytes: after a live run, and from artifacts at startup. */
module DkgTerminal {
  import opened Common
  import opened Base64
  import Hex
  import opened Artifacts

  // ---- Terminal jobs ----

  datatype Status = CompletedStatus | FailedStatus

  datatype ArtifactResult = ArtifactResult(artifactFingerprint: string, partyId: string, purpose: string)

  datatype CompletedResult = CompletedResult(
    accountPublicKey: string, artifacts: seq<ArtifactResult>, chainCodeHash: string, descriptorFingerprint: string)

  datatype TerminalResult = TerminalResult(
    intentId: string, keyId: string, result: Option<CompletedResult>, sessionId: string, status: Status)

  datatype Job = Job(intentId: string, body: Bytes, status: Status, fingerprint: Digest)

  /** Canonical bytes of a terminal result, where it is well formed, and the request body around them. */
  datatype TerminalLib = TerminalLib(canonical: TerminalResult -> Option<Bytes>, marshal: (Bytes, string) -> Option<Bytes>)

  function NewJob(lib: Lib, t: TerminalLib, r: TerminalResult): Option<Job> {
    var raw := t.canonical(r);
    if raw.None? then None
    else
      var fingerprint := lib.sha256(raw.value);
      var body := t.marshal(raw.value, DigestText(fingerprint));
      if body.None? then None else Some(Job(r.intentId, body.value, r.status, fingerprint))
  }

  function FailedJob(lib: Lib, t: TerminalLib, intentId: string, sessionId: string, keyId: string): Option<Job> {
    NewJob(lib, t, TerminalResult(intentId, keyId, None, sessionId, FailedStatus))
  }

  function ArtifactOf(e: Evidence): ArtifactResult {
    ArtifactResult(DigestText(e.artifactFingerprint), e.partyId, PurposeText(e.purpose))
  }

  function CompletedJob(lib: Lib, t: TerminalLib, intentId: string, sessionId: string, keyId: string,
                        primary: Evidence, recovery: Evidence): Option<Job> {
    NewJob(lib, t, TerminalResult(intentId, keyId,
      Some(CompletedResult(Hex.Encode(primary.accountPublicKey), [ArtifactOf(primary), ArtifactOf(recovery)],
                           DigestText(primary.chainCodeHash), DigestText(primary.descriptorFingerprint))),
      sessionId, CompletedStatus))
  }

  // ---- The live path ----

  /** A claimed DKG intent. `wellTyped` and `blank` are the trimmed text checks. */
  datatype LiveIntent = LiveIntent(
    wellTyped: bool, intentId: string, sessionId: string, org: string, keyId: string, descriptorBytes: Bytes,
    descriptorFingerprint: string, chainCode: string, chainCodeHash: string, expiresAt: int)

  datatype Parties = Parties(platform: string, primary: string, recovery: string)

  /** `validateRuntimeContext`; `blank` says that a text is empty once trimmed, and the zero time is `zero`. */
  function RuntimeContext(lib: Lib, parties: Parties, blank: string -> bool, zero: int, i: LiveIntent, now: int): Option<Descriptor> {
    if !i.wellTyped || blank(i.sessionId) || blank(i.org) || |i.descriptorBytes| == 0
       || i.expiresAt == zero || i.expiresAt <= now then None
    else
      var d := ParseDescriptor(lib, i.descriptorBytes);
      if d.None? then None
      else if d.value.keyId != i.keyId || d.value.threshold != 2 || |d.value.parties| != 3
           || d.value.parties[0].partyId != parties.platform || d.value.parties[1].partyId != parties.primary
           || d.value.parties[2].partyId != parties.recovery then None
      else if i.descriptorFingerprint == "" || i.descriptorFingerprint != DigestText(lib.sha256(i.descriptorBytes)) then None
      else
        var chainCode := Hex.Decode(i.chainCode);
        if chainCode.None? || |chainCode.value| != 32 || Hex.Encode(chainCode.value) != i.chainCode then None
        else if i.chainCodeHash != d.value.chainCodeHash || DigestText(lib.sha256(chainCode.value)) != d.value.chainCodeHash then None
        else d
  }

  /** `compareEvidence`. */
  predicate EvidenceAgrees(lib: Lib, parties: Parties, i: LiveIntent, d: Descriptor, primary: Evidence, recovery: Evidence) {
    && primary.sessionId == i.sessionId && recovery.sessionId == i.sessionId
    && primary.keyId == d.keyId && recovery.keyId == d.keyId
    && primary.descriptorFingerprint == lib.sha256(i.descriptorBytes)
    && recovery.descriptorFingerprint == lib.sha256(i.descriptorBytes)
    && primary.accountPublicKey == recovery.accountPublicKey
    && primary.chainCodeHash == recovery.chainCodeHash && DigestText(primary.chainCodeHash) == d.chainCodeHash
    && primary.codecVersion == recovery.codecVersion
    && primary.partyId == parties.primary && primary.purpose == PrimaryPurpose
    && recovery.partyId == parties.recovery && recovery.purpose == RecoveryPurpose
  }

  datatype Setting = Setting(lib: Lib, terminal: TerminalLib, parties: Parties, blank: string -> bool, zero: int)

  /** What the coordinator returns once the protocol itself succeeded. */
  function LiveEvidence(s: Setting, i: LiveIntent, now: int, primary: Option<Bytes>, recovery: Option<Bytes>): Option<(Evidence, Evidence)> {
    var d := RuntimeContext(s.lib, s.parties, s.blank, s.zero, i, now);
    if d.None? then None
    else
      var expected := Expected(i.sessionId, d.value.keyId, i.descriptorBytes);
      var p, r := Inspect(s.lib, PrimaryPurpose, expected, primary), Inspect(s.lib, RecoveryPurpose, expected, recovery);
      if p.None? || r.None? || !EvidenceAgrees(s.lib, s.parties, i, d.value, p.value, r.value) then None
      else Some((p.value, r.value))
  }

  /** The job of the live path: `protocolOk` is whether both parties' protocol runs and the router succeeded. */
  function LiveJob(s: Setting, i: LiveIntent, now: int, protocolOk: bool, primary: Option<Bytes>, recovery: Option<Bytes>): Option<Job> {
    var evidence := if protocolOk then LiveEvidence(s, i, now, primary, recovery) else None;
    if evidence.None? then FailedJob(s.lib, s.terminal, i.intentId, i.sessionId, i.keyId)
    else CompletedJob(s.lib, s.terminal, i.intentId, i.sessionId, i.keyId, evidence.value.0, evidence.value.1)
  }

  // ---- The startup path ----

  /** One listed intent, as far as its terminal result depends on it. */
  datatype Listed = Listed(intentId: string, sessionId: string, keyId: string, descriptorBytes: Bytes, descriptorFingerprint: string)

  /** `evidenceMatches`. */
  predicate EvidenceMatches(i: Listed, primary: Evidence, recovery: Evidence) {
    var expected := ParseDigest(i.descriptorFingerprint);
    && expected.Some?
    && primary.sessionId == i.sessionId && recovery.sessionId == i.sessionId
    && primary.keyId == i.keyId && recovery.keyId == i.keyId
    && primary.partyId == "co-signer-primary" && recovery.partyId == "co-signer-recovery"
    && primary.purpose == PrimaryPurpose && recovery.purpose == RecoveryPurpose
    && primary.descriptorFingerprint == expected.value && recovery.descriptorFingerprint == expected.value
    && primary.chainCodeHash == recovery.chainCodeHash && primary.codecVersion == recovery.codecVersion
    && primary.accountPublicKey == recovery.accountPublicKey
  }

  function ExpectedOf(i: Listed): Expected {
    Expected(i.sessionId, i.keyId, i.descriptorBytes)
  }

  /** `reconstructClaimed` over the bytes it managed to read; a zero job stands for a failed job that cannot be built. */
  function Reconstruct(s: Setting, i: Listed, primary: Option<Bytes>, recovery: Option<Bytes>): Option<Job> {
    var p, r := Inspect(s.lib, PrimaryPurpose, ExpectedOf(i), primary), Inspect(s.lib, RecoveryPurpose, ExpectedOf(i), recovery);
    var completed :=
      if p.None? || r.None? || !EvidenceMatches(i, p.value, r.value) then None
      else CompletedJob(s.lib, s.terminal, i.intentId, i.sessionId, i.keyId, p.value, r.value);
    if completed.Some? then completed else FailedJob(s.lib, s.terminal, i.intentId, i.sessionId, i.keyId)
  }

  /** The listing repeats the identity of the claimed intent. */
  predicate SameIdentity(i: LiveIntent, l: Listed) {
    l == Listed(i.intentId, i.sessionId, i.keyId, i.descriptorBytes, i.descriptorFingerprint)
  }

  // ---- The two paths agree ----

  lemma NewJobHasStatus(lib: Lib, t: TerminalLib, r: TerminalResult)
    ensures NewJob(lib, t, r).Some? ==> NewJob(lib, t, r).value.status == r.status
  {
  }

  /**
    Under a validated runtime context, and on evidence the strict inspection
    produced, the live comparison and the startup comparison decide alike.
  */
  lemma EvidenceChecksAgree(s: Setting, i: LiveIntent, now: int, l: Listed, primary: Option<Bytes>, recovery: Option<Bytes>)
    requires RuntimeContext(s.lib, s.parties, s.blank, s.zero, i, now).Some? && SameIdentity(i, l)
    requires Inspect(s.lib, PrimaryPurpose, ExpectedOf(l), primary).Some?
    requires Inspect(s.lib, RecoveryPurpose, ExpectedOf(l), recovery).Some?
    ensures var p, r := Inspect(s.lib, PrimaryPurpose, ExpectedOf(l), primary).value, Inspect(s.lib, RecoveryPurpose, ExpectedOf(l), recovery).value;
            var d := RuntimeContext(s.lib, s.parties, s.blank, s.zero, i, now).value;
            EvidenceAgrees(s.lib, s.parties, i, d, p, r) <==> EvidenceMatches(l, p, r)
  {
    hide Inspect, ParseDigest, DigestText;
    EvidenceIsBound(s.lib, PrimaryPurpose, ExpectedOf(l), primary);
    EvidenceIsBound(s.lib, RecoveryPurpose, ExpectedOf(l), recovery);
    DigestRoundTrip(l.descriptorFingerprint, s.lib.sha256(i.descriptorBytes));
    ContextNamesParties(s, i, now);
  }

  /** The descriptor contract fixes the parties, so the configured ones are the standard ones. */
  lemma ContextNamesParties(s: Setting, i: LiveIntent, now: int)
    requires RuntimeContext(s.lib, s.parties, s.blank, s.zero, i, now).Some?
    ensures s.parties == Parties("mpc-signer", "co-signer-primary", "co-signer-recovery")
    ensures ParseDescriptor(s.lib, i.descriptorBytes) == RuntimeContext(s.lib, s.parties, s.blank, s.zero, i, now)
    ensures i.keyId == RuntimeContext(s.lib, s.parties, s.blank, s.zero, i, now).value.keyId
    ensures i.descriptorFingerprint == DigestText(s.lib.sha256(i.descriptorBytes))
  {
    hide ParseDigest, DigestText;
  }

  /**
    If the live path built a COMPLETED job, startup reconstruction over the same
    artifacts and the same listed identity builds the same job, byte for byte.
  */
  lemma RestartRepeatsTheLiveJob(s: Setting, i: LiveIntent, now: int, protocolOk: bool, l: Listed,
                                 primary: Option<Bytes>, recovery: Option<Bytes>)
    requires SameIdentity(i, l)
    requires LiveJob(s, i, now, protocolOk, primary, recovery).Some?
    requires LiveJob(s, i, now, protocolOk, primary, recovery).value.status == CompletedStatus
    ensures Reconstruct(s, l, primary, recovery) == LiveJob(s, i, now, protocolOk, primary, recovery)
  {
    hide Inspect, ParseDigest, DigestText, EvidenceMatches, EvidenceAgrees, RuntimeContext, NewJob, CompletedJob;
    NewJobHasStatus(s.lib, s.terminal, TerminalResult(i.intentId, i.keyId, None, i.sessionId, FailedStatus));
    assert protocolOk && LiveEvidence(s, i, now, primary, recovery).Some?;
    ContextNamesParties(s, i, now);
    EvidenceChecksAgree(s, i, now, l, primary, recovery);
  }

  /**
    The same with reads that can fail at startup: where the live job completed,
    the startup job is that job exactly when both artifacts were read, and a
    FAILED job otherwise.
  */
  lemma UnreadableArtifactsFailExactly(s: Setting, i: LiveIntent, now: int, l: Listed, primary: Bytes, recovery: Bytes,
                                       readsPrimary: bool, readsRecovery: bool)
    requires SameIdentity(i, l)
    requires LiveJob(s, i, now, true, Some(primary), Some(recovery)).Some?
    requires LiveJob(s, i, now, true, Some(primary), Some(recovery)).value.status == CompletedStatus
    ensures var job := Reconstruct(s, l, if readsPrimary then Some(primary) else None, if readsRecovery then Some(recovery) else None);
            && (job == LiveJob(s, i, now, true, Some(primary), Some(recovery)) <==> readsPrimary && readsRecovery)
            && (!(readsPrimary && readsRecovery) ==> job == FailedJob(s.lib, s.terminal, l.intentId, l.sessionId, l.keyId))
  {
    NewJobHasStatus(s.lib, s.terminal, TerminalResult(i.intentId, i.keyId, None, i.sessionId, FailedStatus));
    if readsPrimary && readsRecovery {
      RestartRepeatsTheLiveJob(s, i, now, true, l, Some(primary), Some(recovery));
    }
  }

  /** Conversely a COMPLETED startup job is what a live run over those artifacts would have published. */
  lemma StartupJobIsTheLiveJob(s: Setting, i: LiveIntent, now: int, l: Listed, primary: Option<Bytes>, recovery: Option<Bytes>)
    requires SameIdentity(i, l) && RuntimeContext(s.lib, s.parties, s.blank, s.zero, i, now).Some?
    requires Reconstruct(s, l, primary, recovery).Some? && Reconstruct(s, l, primary, recovery).value.status == CompletedStatus
    ensures LiveJob(s, i, now, true, primary, recovery) == Reconstruct(s, l, primary, recovery)
  {
    hide Inspect, ParseDigest, DigestText, EvidenceMatches, EvidenceAgrees, RuntimeContext, NewJob, CompletedJob;
    NewJobHasStatus(s.lib, s.terminal, TerminalResult(i.intentId, i.keyId, None, i.sessionId, FailedStatus));
    ContextNamesParties(s, i, now);
    EvidenceChecksAgree(s, i, now, l, primary, recovery);
  }

  /** The artifact a store holds for a key. */
  function Held(d: Disk, key: string): Option<Bytes> {
    if key in d.visible then Some(d.visible[key]) else None
  }

  /** The history of one store around the publication of one artifact. */
  datatype Publication = Publication(before: seq<Event>, raw: Bytes, fails: Stage -> bool)

  function Published(p: Publication, key: string): (Disk, bool, bool) {
    Publish(Run(Disk(map[], map[]), p.before), key, p.raw, p.fails)
  }

  /**
    From publication to restart: once both artifacts were published and a live
    run over the stores, whatever happened to them since, completed, startup over
    the stores after any further publications, write-backs and power losses
    rebuilds the live run's job, byte for byte.
  */
  lemma RestartRepeatsTheLiveJobFromDisk(s: Setting, i: LiveIntent, now: int, protocolOk: bool, l: Listed,
                                         primary: Publication, recovery: Publication,
                                         live: (seq<Event>, seq<Event>), later: (seq<Event>, seq<Event>))
    requires SameIdentity(i, l) && Published(primary, i.keyId).2 && Published(recovery, i.keyId).2
    requires var job := LiveJob(s, i, now, protocolOk, Held(Run(Published(primary, i.keyId).0, live.0), i.keyId),
                                Held(Run(Published(recovery, i.keyId).0, live.1), i.keyId));
             job.Some? && job.value.status == CompletedStatus
    ensures Reconstruct(s, l, Held(Run(Published(primary, i.keyId).0, later.0), i.keyId),
                        Held(Run(Published(recovery, i.keyId).0, later.1), i.keyId))
         == LiveJob(s, i, now, protocolOk, Held(Run(Published(primary, i.keyId).0, live.0), i.keyId),
                    Held(Run(Published(recovery, i.keyId).0, live.1), i.keyId))
  {
    hide LiveJob, Reconstruct, Run, Publish;
    ArtifactsNeverChange(primary.before, i.keyId, primary.raw, primary.fails, live.0);
    ArtifactsNeverChange(primary.before, i.keyId, primary.raw, primary.fails, later.0);
    ArtifactsNeverChange(recovery.before, i.keyId, recovery.raw, recovery.fails, live.1);
    ArtifactsNeverChange(recovery.before, i.keyId, recovery.raw, recovery.fails, later.1);
    RestartRepeatsTheLiveJob(s, i, now, protocolOk, l, Some(primary.raw), Some(recovery.raw));
  }
}
