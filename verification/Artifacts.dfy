/** Immutable key-share artifacts: how they are published, and what inspecting one yields. */
module Artifacts {
  import opened Common
  import opened Base64

  type Bytes = seq<byte>

  datatype Purpose = PrimaryPurpose | RecoveryPurpose

  function PartyFor(p: Purpose): string {
    match p
    case PrimaryPurpose => "co-signer-primary"
    case RecoveryPurpose => "co-signer-recovery"
  }

  function PurposeText(p: Purpose): string {
    match p
    case PrimaryPurpose => "primary"
    case RecoveryPurpose => "recovery"
  }

  datatype Party = Party(partyId: string, purpose: string)

  datatype Descriptor = Descriptor(
    algorithm: string, chainCodeHash: string, curve: string, derivationScheme: string, kind: string,
    descriptorVersion: int, keyId: string, parties: seq<Party>, protocolVersion: int, publicKeyFormat: string, threshold: int)

  datatype Payload = Payload(sessionId: string, partyId: string, descriptorBytes: Bytes, shareBlob: Bytes)

  datatype KeyMaterial = KeyMaterial(accountPublicKey: Bytes, chainCodeHash: Digest, codecVersion: nat)

  datatype Expected = Expected(sessionId: string, keyId: string, descriptorBytes: Bytes)

  datatype Evidence = Evidence(
    sessionId: string, keyId: string, partyId: string, purpose: Purpose, descriptorFingerprint: Digest,
    accountPublicKey: Bytes, chainCodeHash: Digest, codecVersion: nat, artifactFingerprint: Digest)

  /**
    The libraries: strict canonical JSON of a descriptor, the key-identifier
    pattern, SHA-256, opening and decrypting an envelope, and Core's inspection
    of an encoded share.
  */
  datatype Lib = Lib(
    decodeDescriptor: Bytes -> Option<Descriptor>, isKeyId: string -> bool, sha256: Bytes -> Digest,
    open: (Purpose, Bytes) -> Option<Payload>, inspectShare: Bytes -> Option<KeyMaterial>)

  const PARTIES := [Party("mpc-signer", "platform"), Party("co-signer-primary", "primary"), Party("co-signer-recovery", "recovery")]

  /** The one descriptor contract there is. */
  predicate ValidDescriptor(lib: Lib, d: Descriptor) {
    && d.kind == "mpc-key-descriptor" && d.descriptorVersion == 1 && d.protocolVersion == 1
    && d.algorithm == "ECDSA" && d.curve == "secp256k1" && d.threshold == 2
    && d.derivationScheme == "bip32_secp256k1" && d.publicKeyFormat == "compressed_sec1"
    && lib.isKeyId(d.keyId) && ParseDigest(d.chainCodeHash).Some? && d.parties == PARTIES
  }

  /** `ParseCanonicalDescriptor`; the fingerprint is the digest of the bytes. */
  function ParseDescriptor(lib: Lib, raw: Bytes): Option<Descriptor> {
    var d := lib.decodeDescriptor(raw);
    if d.None? || !ValidDescriptor(lib, d.value) then None else d
  }

  /** `InspectExisting` on the bytes found, if any: a function of purpose, context and bytes. */
  function Inspect(lib: Lib, purpose: Purpose, expected: Expected, raw: Option<Bytes>): Option<Evidence> {
    if !lib.isKeyId(expected.keyId) || raw.None? then None
    else
      var payload := lib.open(purpose, raw.value);
      if payload.None? || payload.value.sessionId == "" || payload.value.partyId != PartyFor(purpose) then None
      else
        var descriptor := ParseDescriptor(lib, payload.value.descriptorBytes);
        if descriptor.None? || expected.sessionId == "" || expected.keyId != descriptor.value.keyId
           || payload.value.sessionId != expected.sessionId || payload.value.descriptorBytes != expected.descriptorBytes then None
        else
          var material := lib.inspectShare(payload.value.shareBlob);
          if material.None? || ParseDigest(descriptor.value.chainCodeHash) != Some(material.value.chainCodeHash) then None
          else Some(Evidence(payload.value.sessionId, descriptor.value.keyId, payload.value.partyId, purpose,
                             lib.sha256(payload.value.descriptorBytes), material.value.accountPublicKey,
                             material.value.chainCodeHash, material.value.codecVersion, lib.sha256(raw.value)))
  }

  /** Evidence is bound to the context it was asked for, to the store and to the descriptor. */
  lemma EvidenceIsBound(lib: Lib, purpose: Purpose, expected: Expected, raw: Option<Bytes>)
    requires Inspect(lib, purpose, expected, raw).Some?
    ensures var e := Inspect(lib, purpose, expected, raw).value;
            && ParseDescriptor(lib, expected.descriptorBytes).Some? && raw.Some?
            && e.sessionId == expected.sessionId && e.keyId == expected.keyId
            && e.purpose == purpose && e.partyId == PartyFor(purpose)
            && e.descriptorFingerprint == lib.sha256(expected.descriptorBytes)
            && DigestText(e.chainCodeHash) == ParseDescriptor(lib, expected.descriptorBytes).value.chainCodeHash
            && e.artifactFingerprint == lib.sha256(raw.value)
  {
    var e := Inspect(lib, purpose, expected, raw).value;
    DigestRoundTrip(ParseDescriptor(lib, expected.descriptorBytes).value.chainCodeHash, e.chainCodeHash);
  }

  // ---- Publication ----

  /** A store directory: what is visible, and what of it survives a power loss. */
  datatype Disk = Disk(visible: map<string, Bytes>, durable: map<string, Bytes>)

  datatype Stage = CreateTemp | Chmod | Write | ShortWrite | SyncTemp | CloseTemp | Rename | SyncDirectory

  /** `publishDurablyTracked`: whether the name was taken by this call, and whether it succeeded. */
  function Publish(d: Disk, key: string, raw: Bytes, fails: Stage -> bool): (Disk, bool, bool) {
    if fails(CreateTemp) || fails(Chmod) || fails(Write) || fails(ShortWrite) || fails(SyncTemp) || fails(CloseTemp)
       || fails(Rename) || key in d.visible then (d, false, false)
    else
      var renamed := d.visible[key := raw];
      if fails(SyncDirectory) then (Disk(renamed, d.durable), true, false) else (Disk(renamed, renamed), true, true)
  }

  datatype Event =
    | PublishArtifact(key: string, raw: Bytes, fails: Stage -> bool)
    | Writeback(keys: set<string>)
    | Crash(kept: set<string>)

  function Restrict(m: map<string, Bytes>, keys: set<string>): map<string, Bytes> {
    map k | k in m && k in keys :: m[k]
  }

  /** Other publications, the kernel writing entries back, and a power loss that keeps any of the rest. */
  function Step(d: Disk, e: Event): Disk {
    match e
    case PublishArtifact(key, raw, fails) => Publish(d, key, raw, fails).0
    case Writeback(keys) => Disk(d.visible, d.durable + Restrict(d.visible, keys))
    case Crash(kept) => var left := Restrict(d.visible, kept) + d.durable; Disk(left, left)
  }

  function Run(d: Disk, events: seq<Event>): Disk
    decreases events
  {
    if events == [] then d else Run(Step(d, events[0]), events[1..])
  }

  predicate Consistent(d: Disk) {
    forall k | k in d.durable :: k in d.visible && d.visible[k] == d.durable[k]
  }

  /** A store object; each publication leaves what the specification says. */
  class Store {
    var visible: map<string, Bytes>
    var durable: map<string, Bytes>

    ghost function At(): Disk
      reads this
    {
      Disk(visible, durable)
    }

    constructor ()
      ensures At() == Disk(map[], map[])
    {
      visible, durable := map[], map[];
    }

    method PublishDurably(key: string, raw: Bytes, fails: Stage -> bool) returns (published: bool, ok: bool)
      modifies this
      ensures (At(), published, ok) == Publish(old(At()), key, raw, fails)
      ensures ok ==> key in durable && durable[key] == raw && key !in old(visible)
      ensures forall k | k in old(visible) :: k in visible && visible[k] == old(visible)[k]
    {
      published, ok := false, false;
      if fails(CreateTemp) || fails(Chmod) || fails(Write) || fails(ShortWrite) || fails(SyncTemp) || fails(CloseTemp) {
        return;
      }
      if fails(Rename) || key in visible {
        return;
      }
      visible := visible[key := raw];
      published := true;
      if fails(SyncDirectory) {
        return;
      }
      durable := visible;
      ok := true;
    }
  }

  lemma {:induction false} DurableStays(d: Disk, events: seq<Event>, key: string)
    requires Consistent(d) && key in d.durable
    ensures var d' := Run(d, events);
            Consistent(d') && key in d'.durable && d'.durable[key] == d.durable[key] && d'.visible[key] == d.durable[key]
    decreases events
  {
    if events != [] {
      assert Consistent(Step(d, events[0]));
      DurableStays(Step(d, events[0]), events[1..], key);
    }
  }

  lemma {:induction false} RunStaysConsistent(d: Disk, events: seq<Event>)
    requires Consistent(d)
    ensures Consistent(Run(d, events))
    decreases events
  {
    if events != [] {
      RunStaysConsistent(Step(d, events[0]), events[1..]);
    }
  }

  /**
    Once a publication succeeded, every later inspection of that key, after any
    failed or repeated publications and any power losses, gives the same answer.
  */
  lemma ArtifactsNeverChange(before: seq<Event>, key: string, raw: Bytes, fails: Stage -> bool, after: seq<Event>)
    requires Publish(Run(Disk(map[], map[]), before), key, raw, fails).2
    ensures var d := Run(Publish(Run(Disk(map[], map[]), before), key, raw, fails).0, after);
            key in d.visible && d.visible[key] == raw && key in d.durable
  {
    var d := Run(Disk(map[], map[]), before);
    RunStaysConsistent(Disk(map[], map[]), before);
    DurableStays(Publish(d, key, raw, fails).0, after, key);
  }

  /** Every stage of a publication up to the directory sync. */
  ghost predicate ReachesSync(fails: Stage -> bool) {
    forall s: Stage | s != SyncDirectory :: !fails(s)
  }

  /**
    A name is taken exactly when it is free and no stage before the directory sync
    fails, and the publication succeeds exactly when that stage does not fail
    either; a call that takes no name changes nothing.
  */
  lemma PublishExactly(d: Disk, key: string, raw: Bytes, fails: Stage -> bool)
    ensures var (d', published, ok) := Publish(d, key, raw, fails);
            && (published <==> key !in d.visible && ReachesSync(fails)) && (ok <==> published && !fails(SyncDirectory))
            && d'.visible == (if published then d.visible[key := raw] else d.visible)
            && d'.durable == if ok then d'.visible else d.durable
  {
  }
}
