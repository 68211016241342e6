/** From the sign gate's agreement to the transaction: what is bound for execution is a transfer that was approved. */
module ApprovedSigning {
  import opened Common
  import Records = JournalRecords
  import opened JournalSpec
  import opened JournalInvariant
  import Gate = SignGate
  import opened GateEvidence
  import Authorization
  import opened Prepared
  import opened PreparedTerms
  import Base64
  import Decimals
  import Hex

  /** How an intent spells its check, and which fields of a verified authorization the gate compares. */
  datatype Wiring = Wiring(libs: Libs, check: Gate.Intent -> Check, fields: Authorization.Auth -> Gate.Authorization)

  /** The gate verifies prepared transactions by `VerifyPrepared`, on the evidence and the digest of the intent. */
  ghost predicate WiredTo(gate: Gate.GateLib, w: Wiring) {
    && (forall i :: gate.verifyPrepared(i) ==
          var a := VerifyPrepared(w.libs, w.check(i));
          if a.None? then None else Some(w.fields(a.value)))
    && (forall i: Gate.Intent | i.approval.Some? ::
          && w.check(i).execution.requestId == i.approval.value.request
          && w.check(i).execution.authorizationHash == i.approval.value.authorizationHash
          && w.check(i).digest == i.payload.digest)
  }

  /** The bytes whose digest the intent carries are this authorization's transfer. */
  ghost predicate IsTransferOf(w: Wiring, i: Gate.Intent, a: Authorization.Auth) {
    var c := w.check(i);
    match c.payload
    case EthereumPayload =>
      && EthereumApproval(w.libs, c, a) && Decimals.Canonical(a.maxNetworkFeeAtomic)
      && exists raw, tx :: EthereumTransfer(w.libs, c, a, raw, tx)
    case TronPayloadType =>
      && TronApproval(w.libs, c, a) && Decimals.Canonical(a.maxNetworkFeeAtomic)
      && exists raw, rates, fee :: TronTransfer(w.libs, c, a, raw, rates, fee)
    case OtherPayload => false
  }

  /**
    Whatever the gate agrees to, under any failures: the digest it binds for
    execution is that of a transaction which is, in every term, the transfer of an
    authorization whose hash is the one admitted and approved on disk.
  */
  lemma BoundIsApproved(lib: Records.Lib, d: Dir, c: Gate.Call, w: Wiring) returns (a: Authorization.Auth)
    requires Records.Faithful(lib) && DurableIsVisible(d) && Gate.Authorize(lib, d, c).1.Done? && WiredTo(c.gate, w)
    ensures WellFormed(c.intent) && IsTransferOf(w, c.intent, a) && a.requestId == c.intent.approval.value.request
    ensures var i, disk := c.intent, Gate.Authorize(lib, d, c).0.durable;
            var canonical, admission, x := w.libs.canonicalize(w.check(i).execution.authorization),
                                           AdmissionAt(lib, disk, KeyOf(lib, i)), ExecutionAt(lib, disk, KeyOf(lib, i));
            && canonical.Some? && w.libs.auth.parseShape(canonical.value) == Some(a)
            && admission.Some? && admission.value.authorizationHash == Hex.Encode(w.libs.sha256(canonical.value))
            && x.Some? && x.value.executionDigest == Base64.StdEncode(w.check(i).digest)
            && ApprovalStored(lib, disk, KeyOf(lib, i), i.approval.value) && ApplicationStored(lib, disk, KeyOf(lib, i))
  {
    hide Gate.Authorize, VerifyPrepared, Records.Faithful, EthereumTransfer, TronTransfer, EthereumTerms, TronTerms, Hex.Encode, Base64.StdEncode;
    AuthorizedOnEvidence(lib, d, c);
    AuthorizedBinding(lib, d, c);
    var k := w.check(c.intent);
    a := VerifyPrepared(w.libs, k).value;
    match k.payload
    case EthereumPayload =>
      var raw, tx := EthereumAccepted(w.libs, k);
    case TronPayloadType =>
      var raw, rates, fee := TronAccepted(w.libs, k);
    case OtherPayload =>
      OtherIsRefused(w.libs, k);
  }

  lemma OtherIsRefused(libs: Libs, c: Check)
    requires c.payload == OtherPayload
    ensures VerifyPrepared(libs, c).None?
  {
    hide Approved, PolicyIsApproved, WithinCap, TransactionBytes, Decimals.Canonical;
  }
}
