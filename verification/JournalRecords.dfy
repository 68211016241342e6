/**
  The five write-once records the approval journal keeps for one
  (organization, request) pair, and their validators.

  Go strings and byte slices are both byte sequences; both are `Bytes` here.
  JSON, SHA-256, Ed25519 and the wire parsers are libraries: they appear as the
  function-valued fields of `Lib`, so every theorem holds for every choice of
  them that meets the hypotheses it names.
*/
module JournalRecords {
  import opened Common

  type Bytes = string

  datatype Error = Integrity | Conflict | Io | Prepared | ApplicationPending | Cancelled

  datatype Admission = Admission(
    version: int, org: string, request: string, authorizationHash: string,
    mode: string, endpoint: Option<string>, admittedAt: string)

  datatype SavedReceipt = SavedReceipt(
    version: int, org: string, request: string, authorizationHash: string,
    signingKeyId: string, publicKey: Bytes, body: Bytes)

  datatype DeliveryAck = DeliveryAck(
    version: int, org: string, request: string, receiptHash: string, application: Bytes)

  datatype ExecutionKnown = ExecutionKnown(
    version: int, org: string, request: string, authorizationHash: string, bindingHash: string)

  datatype ExecutionBinding = ExecutionBinding(
    version: int, org: string, request: string, outgoingId: string, authorizationHash: string,
    executionDigest: string, payloadType: string, hashAlgorithm: string)

  datatype Kind = AdmissionKind | ReceiptKind | AckKind | KnownKind | ExecutionKind

  /** Publication order of the five records. */
  function Rank(k: Kind): nat {
    match k
    case AdmissionKind => 0
    case ReceiptKind => 1
    case AckKind => 2
    case KnownKind => 3
    case ExecutionKind => 4
  }

  /** What `ParseReceipt` extracts from a signed decision body. */
  datatype ParsedReceipt = ParsedReceipt(envelope: Bytes, signature: Bytes, decision: string)

  /** What `ParseDecisionApplication` extracts from a backend acknowledgement. */
  datatype Application = Application(request: string, disposition: string)

  datatype Codec<!T> = Codec(encode: T -> Bytes, decode: Bytes -> Option<T>)

  /** The value survives encoding and decoding. */
  predicate RoundTrips<T(==)>(c: Codec<T>, x: T) {
    c.decode(c.encode(x)) == Some(x)
  }

  datatype Lib = Lib(
    sha256: Bytes -> string,
    admission: Codec<Admission>,
    receipt: Codec<SavedReceipt>,
    ack: Codec<DeliveryAck>,
    known: Codec<ExecutionKnown>,
    execution: Codec<ExecutionBinding>,
    validReference: string -> bool,
    validAuthorizationHash: string -> bool,
    validTimestamp: string -> bool,
    validEndpoint: string -> bool,
    validExecutionDigest: string -> bool,
    /* Ed25519 verification of a receipt against an admission and key; yields the envelope's source. */
    verifyReceipt: (Admission, SavedReceipt) -> Option<string>,
    parseReceipt: Bytes -> Option<ParsedReceipt>,
    parseApplication: Bytes -> Option<Application>)

  function RecordKey(lib: Lib, org: string, request: string): string {
    lib.sha256(org + "\U{0}" + request)
  }

  predicate ValidAdmission(lib: Lib, a: Admission) {
    && a.version == 1
    && lib.validReference(a.org)
    && lib.validReference(a.request)
    && lib.validAuthorizationHash(a.authorizationHash)
    && lib.validTimestamp(a.admittedAt)
    && (|| (a.mode == "auto_approve" && a.endpoint.None?)
        || (a.mode == "external" && a.endpoint.Some? && lib.validEndpoint(a.endpoint.value)))
  }

  predicate ValidReceipt(lib: Lib, a: Admission, r: SavedReceipt) {
    && r.version == 1
    && r.org == a.org
    && r.request == a.request
    && r.authorizationHash == a.authorizationHash
    && lib.verifyReceipt(a, r) == Some(a.mode)
  }

  /** Empty input never parses. */
  function ParseApplication(lib: Lib, raw: Bytes): Option<Application> {
    if raw == [] then None else lib.parseApplication(raw)
  }

  predicate ValidApplication(lib: Lib, raw: Bytes, request: string) {
    var parsed := ParseApplication(lib, raw);
    parsed.Some? && parsed.value.request == request
  }

  predicate ValidPayloadHash(payloadType: string, hashAlgorithm: string) {
    || (payloadType == "ethereum-transaction" && hashAlgorithm == "keccak256")
    || (payloadType == "tron-transaction" && hashAlgorithm == "sha256")
  }

  /** An absent application is the empty byte string, as in the source. */
  datatype State = State(
    admission: Option<Admission>, receipt: Option<SavedReceipt>,
    application: Bytes, execution: Option<ExecutionBinding>)

  predicate ValidExecution(lib: Lib, s: State, x: ExecutionBinding) {
    && s.admission.Some?
    && s.receipt.Some?
    && s.application != []
    && (var app := ParseApplication(lib, s.application); app.Some? && app.value.disposition == "APPLIED")
    && (var parsed := lib.parseReceipt(s.receipt.value.body); parsed.Some? && parsed.value.decision == "APPROVED")
    && x.version == 1
    && x.org == s.admission.value.org
    && x.request == s.admission.value.request
    && x.authorizationHash == s.admission.value.authorizationHash
    && lib.validReference(x.outgoingId)
    && ValidPayloadHash(x.payloadType, x.hashAlgorithm)
    && lib.validExecutionDigest(x.executionDigest)
  }

  // ---- Records that are ever written ----

  ghost predicate IsHash(lib: Lib, h: string) {
    exists raw :: lib.sha256(raw) == h
  }

  ghost predicate WritableAck(lib: Lib, ack: DeliveryAck) {
    && ack.version == 1 && lib.validReference(ack.org) && lib.validReference(ack.request)
    && IsHash(lib, ack.receiptHash) && ValidApplication(lib, ack.application, ack.request)
  }

  ghost predicate WritableKnown(lib: Lib, known: ExecutionKnown) {
    && known.version == 1 && lib.validReference(known.org) && lib.validReference(known.request)
    && lib.validAuthorizationHash(known.authorizationHash) && IsHash(lib, known.bindingHash)
  }

  predicate WritableBinding(lib: Lib, x: ExecutionBinding) {
    && x.version == 1 && lib.validReference(x.org) && lib.validReference(x.request) && lib.validReference(x.outgoingId)
    && lib.validAuthorizationHash(x.authorizationHash) && ValidPayloadHash(x.payloadType, x.hashAlgorithm)
    && lib.validExecutionDigest(x.executionDigest)
  }

  /** JSON decoding inverts JSON encoding on the records that pass the validators, and so are ever written. */
  ghost predicate Faithful(lib: Lib) {
    && (forall a | ValidAdmission(lib, a) :: RoundTrips(lib.admission, a))
    && (forall a, r | ValidAdmission(lib, a) && ValidReceipt(lib, a, r) :: RoundTrips(lib.receipt, r))
    && (forall ack | WritableAck(lib, ack) :: RoundTrips(lib.ack, ack))
    && (forall known | WritableKnown(lib, known) :: RoundTrips(lib.known, known))
    && (forall x | WritableBinding(lib, x) :: RoundTrips(lib.execution, x))
  }
}
