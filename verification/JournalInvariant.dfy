/**
  What every journal operation keeps, under every pattern of I/O failures:
  each record is published only once its predecessors are durable, and every
  visible record is one that `Load` would accept.
*/
module JournalInvariant {
  import opened Common
  import opened JournalRecords
  import opened JournalSpec

  function AdmissionAt(lib: Lib, v: map<Name, Bytes>, key: string): Option<Admission> {
    if Name(key, AdmissionKind) in v then lib.admission.decode(v[Name(key, AdmissionKind)]) else None
  }

  function ReceiptAt(lib: Lib, v: map<Name, Bytes>, key: string): Option<SavedReceipt> {
    if Name(key, ReceiptKind) in v then lib.receipt.decode(v[Name(key, ReceiptKind)]) else None
  }

  function AckAt(lib: Lib, v: map<Name, Bytes>, key: string): Option<DeliveryAck> {
    if Name(key, AckKind) in v then lib.ack.decode(v[Name(key, AckKind)]) else None
  }

  function KnownAt(lib: Lib, v: map<Name, Bytes>, key: string): Option<ExecutionKnown> {
    if Name(key, KnownKind) in v then lib.known.decode(v[Name(key, KnownKind)]) else None
  }

  function ExecutionAt(lib: Lib, v: map<Name, Bytes>, key: string): Option<ExecutionBinding> {
    if Name(key, ExecutionKind) in v then lib.execution.decode(v[Name(key, ExecutionKind)]) else None
  }

  function EvidenceAt(lib: Lib, v: map<Name, Bytes>, key: string): State {
    var ack := AckAt(lib, v, key);
    State(AdmissionAt(lib, v, key), ReceiptAt(lib, v, key), if ack.Some? then ack.value.application else [], None)
  }

  /** The record at `n` is valid for the records published before it under the same key. */
  predicate RecordOk(lib: Lib, v: map<Name, Bytes>, n: Name)
    requires n in v
  {
    && 0 < |v[n]| <= MAX_RECORD
    && var a := AdmissionAt(lib, v, n.key);
    && a.Some?
    && match n.kind
       case AdmissionKind =>
         ValidAdmission(lib, a.value) && RecordKey(lib, a.value.org, a.value.request) == n.key
       case ReceiptKind =>
         var r := ReceiptAt(lib, v, n.key);
         r.Some? && ValidReceipt(lib, a.value, r.value)
       case AckKind =>
         var r, ack := ReceiptAt(lib, v, n.key), AckAt(lib, v, n.key);
         && r.Some? && ack.Some?
         && ack.value.version == 1 && ack.value.org == a.value.org && ack.value.request == a.value.request
         && ack.value.receiptHash == lib.sha256(r.value.body)
         && ValidApplication(lib, ack.value.application, a.value.request)
       case KnownKind =>
         var known := KnownAt(lib, v, n.key);
         && known.Some?
         && known.value.version == 1 && known.value.org == a.value.org && known.value.request == a.value.request
         && known.value.authorizationHash == a.value.authorizationHash
       case ExecutionKind =>
         var known, x := KnownAt(lib, v, n.key), ExecutionAt(lib, v, n.key);
         && known.Some? && x.Some?
         && ValidExecution(lib, EvidenceAt(lib, v, n.key), x.value)
         && known.value.bindingHash == lib.sha256(v[n])
  }

  ghost predicate DurableIsVisible(d: Dir) {
    forall n | n in d.durable :: n in d.visible && d.visible[n] == d.durable[n]
  }

  /** A visible record has every predecessor of its key already durable. */
  ghost predicate PredecessorsDurable(d: Dir) {
    forall n: Name, earlier: Kind | n in d.visible && Rank(earlier) < Rank(n.kind) :: Name(n.key, earlier) in d.durable
  }

  ghost predicate Ordered(d: Dir) {
    DurableIsVisible(d) && PredecessorsDurable(d)
  }

  ghost predicate AllValid(lib: Lib, v: map<Name, Bytes>) {
    forall n | n in v :: RecordOk(lib, v, n)
  }

  ghost predicate Inv(lib: Lib, d: Dir) {
    Ordered(d) && AllValid(lib, d.visible)
  }

  /** Both maps hold the same bytes, or nothing, at the name. */
  predicate Agree(v: map<Name, Bytes>, w: map<Name, Bytes>, n: Name) {
    (n in v <==> n in w) && (n in v ==> v[n] == w[n])
  }

  /** A record's validity depends only on its own key, up to its own rank. */
  lemma RecordOkFrame(lib: Lib, v: map<Name, Bytes>, w: map<Name, Bytes>, n: Name)
    requires n in v && n in w
    requires forall kind: Kind | Rank(kind) <= Rank(n.kind) :: Agree(v, w, Name(n.key, kind))
    requires RecordOk(lib, v, n)
    ensures RecordOk(lib, w, n)
  {
    assert Agree(v, w, Name(n.key, AdmissionKind));
    assert n == Name(n.key, n.kind);
    match n.kind
    case AdmissionKind =>
    case ReceiptKind =>
    case AckKind =>
      assert Agree(v, w, Name(n.key, ReceiptKind));
    case KnownKind =>
    case ExecutionKind =>
      assert Agree(v, w, Name(n.key, ReceiptKind)) && Agree(v, w, Name(n.key, AckKind)) && Agree(v, w, Name(n.key, KnownKind));
      assert EvidenceAt(lib, v, n.key) == EvidenceAt(lib, w, n.key);
  }

  /** Adding one valid next record keeps the records of every key valid. */
  lemma NewRecordKeepsValid(lib: Lib, d: Dir, n: Name, raw: Bytes)
    requires Ordered(d) && AllValid(lib, d.visible) && n !in d.visible
    requires RecordOk(lib, d.visible[n := raw], n)
    ensures AllValid(lib, d.visible[n := raw])
  {
    hide RecordOk;
    var v := d.visible[n := raw];
    forall m | m in v
      ensures RecordOk(lib, v, m)
    {
      if m != n {
        forall kind: Kind | Rank(kind) <= Rank(m.kind)
          ensures Agree(d.visible, v, Name(m.key, kind))
        {
          if Rank(kind) < Rank(m.kind) { assert Name(m.key, kind) in d.durable; }
        }
        RecordOkFrame(lib, d.visible, v, m);
      }
    }
  }

  lemma PutKeepsInv(lib: Lib, d: Dir, n: Name, raw: Bytes, closed: bool, io: Faults)
    requires Inv(lib, d) && d.durable == d.visible
    requires forall earlier: Kind | Rank(earlier) < Rank(n.kind) :: Name(n.key, earlier) in d.visible
    requires n !in d.visible && 0 < |raw| <= MAX_RECORD ==> RecordOk(lib, d.visible[n := raw], n)
    ensures Inv(lib, PutBytes(d, n, raw, closed, io).0)
    ensures PutBytes(d, n, raw, closed, io).1.Done? ==>
              var d' := PutBytes(d, n, raw, closed, io).0;
              0 < |raw| <= MAX_RECORD && d'.durable == d'.visible == d.visible[n := raw]
  {
    hide RecordOk;
    if 0 < |raw| <= MAX_RECORD && n !in d.visible {
      NewRecordKeepsValid(lib, d, n, raw);
      assert Ordered(Dir(d.visible[n := raw], d.durable));
    } else if n in d.visible && d.visible[n] == raw {
      assert d.visible[n := raw] == d.visible;
    }
  }

  /** A successful load returned what the files decode to. */
  lemma LoadedRecords(lib: Lib, v: map<Name, Bytes>, org: string, request: string, io: Faults)
    requires LoadRecords(lib, v, org, request, io).Ok?
    ensures var s := LoadRecords(lib, v, org, request, io).value;
            var key := RecordKey(lib, org, request);
            && s.admission == AdmissionAt(lib, v, key)
            && s.receipt == ReceiptAt(lib, v, key)
            && s.application == EvidenceAt(lib, v, key).application
            && s.execution == ExecutionAt(lib, v, key)
            && (s.admission.Some? ==> s.admission.value.org == org && s.admission.value.request == request && ValidAdmission(lib, s.admission.value))
            && (s.admission.Some? <==> Name(key, AdmissionKind) in v)
            && (s.receipt.Some? <==> Name(key, ReceiptKind) in v)
            && (s.application != [] <==> Name(key, AckKind) in v)
            && (s.execution.Some? <==> Name(key, ExecutionKind) in v)
            && (Name(key, ExecutionKind) in v <==> Name(key, KnownKind) in v)
  {
    var admission := LoadAdmission(lib, v, org, request, io).value;
    var receipt := LoadReceipt(lib, v, org, request, admission, io).value;
    var application := LoadAcknowledgement(lib, v, org, request, receipt, io).value;
    var s := State(admission, receipt, application, None);
    assert LoadExecution(lib, v, org, request, s, io).Ok?;
  }

  /** A load changes nothing in view; when it succeeds, all it returned is durable. */
  lemma LoadKeepsInv(lib: Lib, d: Dir, closed: bool, org: string, request: string, io: Faults)
    requires Inv(lib, d)
    ensures var (d', s) := Load(lib, d, closed, org, request, io);
            && Inv(lib, d')
            && d'.visible == d.visible
            && (s.Ok? ==> d'.durable == d'.visible && LoadRecords(lib, d.visible, org, request, io) == s)
            && (s.Err? ==> d' == d)
  {
  }

  lemma AdmitKeepsInv(lib: Lib, d: Dir, closed: bool, a: Admission, io: Faults)
    requires Faithful(lib) && Inv(lib, d)
    ensures Inv(lib, Admit(lib, d, closed, a, io).0)
  {
    hide LoadRecords;
    LoadKeepsInv(lib, d, closed, a.org, a.request, io);
    var (d', s) := Load(lib, d, closed, a.org, a.request, io);
    if ValidAdmission(lib, a) && s.Ok? && s.value.admission.None? {
      LoadedRecords(lib, d.visible, a.org, a.request, io);
      var n, raw := PathOf(lib, a.org, a.request, AdmissionKind), lib.admission.encode(a);
      assert RoundTrips(lib.admission, a);
      assert AdmissionAt(lib, d.visible[n := raw], n.key) == Some(a);
      PutKeepsInv(lib, d', n, raw, closed, io);
    }
  }

  lemma SaveReceiptKeepsInv(lib: Lib, d: Dir, closed: bool, r: SavedReceipt, io: Faults)
    requires Faithful(lib) && Inv(lib, d)
    ensures var (d', saved) := SaveReceipt(lib, d, closed, r, io);
            && Inv(lib, d')
            && (saved.Done? ==> ReceiptAt(lib, d'.durable, RecordKey(lib, r.org, r.request)) == Some(r))
  {
    hide RecordOk, LoadRecords;
    LoadKeepsInv(lib, d, closed, r.org, r.request, io);
    var (d', s) := Load(lib, d, closed, r.org, r.request, io);
    if s.Ok? && s.value.admission.Some? && ValidReceipt(lib, s.value.admission.value, r) {
      LoadedRecords(lib, d.visible, r.org, r.request, io);
      var n, raw := PathOf(lib, r.org, r.request, ReceiptKind), lib.receipt.encode(r);
      if 0 < |raw| <= MAX_RECORD { NextReceiptOk(lib, d.visible, n, r); }
      PredecessorsPresent(d, Name(n.key, AdmissionKind));
      PutKeepsInv(lib, d', n, raw, closed, io);
    }
  }

  lemma AcknowledgeKeepsInv(lib: Lib, d: Dir, closed: bool, org: string, request: string, application: Bytes, io: Faults)
    requires Faithful(lib) && Inv(lib, d)
    ensures Inv(lib, Acknowledge(lib, d, closed, org, request, application, io).0)
  {
    hide RecordOk, LoadRecords;
    LoadKeepsInv(lib, d, closed, org, request, io);
    var (d', s) := Load(lib, d, closed, org, request, io);
    if s.Ok? && s.value.receipt.Some? && ValidApplication(lib, application, request) {
      LoadedRecords(lib, d.visible, org, request, io);
      var ack := DeliveryAck(1, org, request, lib.sha256(s.value.receipt.value.body), application);
      var n, raw := PathOf(lib, org, request, AckKind), lib.ack.encode(ack);
      PredecessorsPresent(d, Name(n.key, ReceiptKind));
      if 0 < |raw| <= MAX_RECORD { NextAckOk(lib, d.visible, n, ack); }
      PutKeepsInv(lib, d', n, raw, closed, io);
    }
  }

  lemma PredecessorsPresent(d: Dir, n: Name)
    requires Ordered(d) && n in d.visible
    ensures forall kind: Kind | Rank(kind) <= Rank(n.kind) :: Name(n.key, kind) in d.visible
  {
    forall kind: Kind | Rank(kind) <= Rank(n.kind)
      ensures Name(n.key, kind) in d.visible
    {
      if kind == n.kind {
        assert Name(n.key, kind) == n;
      } else {
        assert Name(n.key, kind) in d.durable;
      }
    }
  }

  lemma NextReceiptOk(lib: Lib, v: map<Name, Bytes>, n: Name, r: SavedReceipt)
    requires Faithful(lib) && n.kind == ReceiptKind && 0 < |lib.receipt.encode(r)| <= MAX_RECORD
    requires var a := AdmissionAt(lib, v, n.key); a.Some? && ValidAdmission(lib, a.value) && ValidReceipt(lib, a.value, r)
    ensures RecordOk(lib, v[n := lib.receipt.encode(r)], n)
  {
    assert RoundTrips(lib.receipt, r);
    var w := v[n := lib.receipt.encode(r)];
    assert ReceiptAt(lib, w, n.key) == Some(r) && AdmissionAt(lib, w, n.key) == AdmissionAt(lib, v, n.key);
  }

  lemma NextAckOk(lib: Lib, v: map<Name, Bytes>, n: Name, ack: DeliveryAck)
    requires Faithful(lib) && n.kind == AckKind && 0 < |lib.ack.encode(ack)| <= MAX_RECORD
    requires var a, r := AdmissionAt(lib, v, n.key), ReceiptAt(lib, v, n.key);
             && a.Some? && ValidAdmission(lib, a.value) && r.Some?
             && ack.version == 1 && ack.org == a.value.org && ack.request == a.value.request
             && ack.receiptHash == lib.sha256(r.value.body) && ValidApplication(lib, ack.application, a.value.request)
    ensures RecordOk(lib, v[n := lib.ack.encode(ack)], n)
  {
    assert IsHash(lib, ack.receiptHash);
    assert RoundTrips(lib.ack, ack);
    var w := v[n := lib.ack.encode(ack)];
    assert AckAt(lib, w, n.key) == Some(ack);
    assert AdmissionAt(lib, w, n.key) == AdmissionAt(lib, v, n.key) && ReceiptAt(lib, w, n.key) == ReceiptAt(lib, v, n.key);
  }

  lemma NextKnownOk(lib: Lib, v: map<Name, Bytes>, n: Name, known: ExecutionKnown)
    requires Faithful(lib) && n.kind == KnownKind && 0 < |lib.known.encode(known)| <= MAX_RECORD
    requires var a := AdmissionAt(lib, v, n.key);
             && a.Some? && known.version == 1 && known.org == a.value.org && known.request == a.value.request
             && known.authorizationHash == a.value.authorizationHash && ValidAdmission(lib, a.value) && IsHash(lib, known.bindingHash)
    ensures RecordOk(lib, v[n := lib.known.encode(known)], n)
  {
    assert RoundTrips(lib.known, known);
    var w := v[n := lib.known.encode(known)];
    assert KnownAt(lib, w, n.key) == Some(known) && AdmissionAt(lib, w, n.key) == AdmissionAt(lib, v, n.key);
  }

  lemma NextExecutionOk(lib: Lib, v: map<Name, Bytes>, n: Name, x: ExecutionBinding)
    requires Faithful(lib) && n.kind == ExecutionKind && 0 < |lib.execution.encode(x)| <= MAX_RECORD
    requires var known := KnownAt(lib, v, n.key);
             && known.Some? && known.value.bindingHash == lib.sha256(lib.execution.encode(x))
             && WritableBinding(lib, x) && ValidExecution(lib, EvidenceAt(lib, v, n.key), x)
    ensures RecordOk(lib, v[n := lib.execution.encode(x)], n)
  {
    assert RoundTrips(lib.execution, x);
    var w := v[n := lib.execution.encode(x)];
    assert ExecutionAt(lib, w, n.key) == Some(x) && KnownAt(lib, w, n.key) == KnownAt(lib, v, n.key);
    assert EvidenceAt(lib, w, n.key) == EvidenceAt(lib, v, n.key);
  }

  lemma BindKeepsInv(lib: Lib, d: Dir, closed: bool, x: ExecutionBinding, io: Faults)
    requires Faithful(lib) && Inv(lib, d)
    ensures Inv(lib, BindExecution(lib, d, closed, x, io).0)
  {
    hide RecordOk, LoadRecords;
    LoadKeepsInv(lib, d, closed, x.org, x.request, io);
    var (d', s) := Load(lib, d, closed, x.org, x.request, io);
    if s.Ok? && ValidExecution(lib, s.value, x) {
      LoadedRecords(lib, d.visible, x.org, x.request, io);
      BindPublishesKeepInv(lib, d', closed, s.value, x, io);
    }
  }

  /** A binding accepted for a validated admission is one that may be written. */
  lemma AcceptedIsWritable(lib: Lib, s: State, x: ExecutionBinding)
    requires ValidExecution(lib, s, x) && ValidAdmission(lib, s.admission.value)
    ensures WritableBinding(lib, x)
  {
  }

  /** The two publications of `BindExecution`, after its load. */
  lemma BindPublishesKeepInv(lib: Lib, d: Dir, closed: bool, s: State, x: ExecutionBinding, io: Faults)
    requires Faithful(lib) && Inv(lib, d) && d.durable == d.visible && ValidExecution(lib, s, x) && ValidAdmission(lib, s.admission.value)
    requires s.(execution := None) == EvidenceAt(lib, d.visible, RecordKey(lib, x.org, x.request))
    requires Name(RecordKey(lib, x.org, x.request), AckKind) in d.visible
    ensures var (d', known) := PutBytes(d, PathOf(lib, x.org, x.request, KnownKind), lib.known.encode(KnownFor(lib, x)), closed, io);
            && Inv(lib, d')
            && (known.Done? ==> Inv(lib, PutBytes(d', PathOf(lib, x.org, x.request, ExecutionKind), lib.execution.encode(x), closed, io).0))
  {
    hide RecordOk, PutBytes, ValidExecution;
    var k, e := PathOf(lib, x.org, x.request, KnownKind), PathOf(lib, x.org, x.request, ExecutionKind);
    PredecessorsPresent(d, Name(k.key, AckKind));
    KnownIsNext(lib, d, s, x);
    PutKeepsInv(lib, d, k, lib.known.encode(KnownFor(lib, x)), closed, io);
    var (d', r) := PutBytes(d, k, lib.known.encode(KnownFor(lib, x)), closed, io);
    if r.Done? {
      ExecutionIsNext(lib, d.visible, s, x);
      PredecessorsPresent(d', k);
      PutKeepsInv(lib, d', e, lib.execution.encode(x), closed, io);
    }
  }

  lemma KnownIsNext(lib: Lib, d: Dir, s: State, x: ExecutionBinding)
    requires Faithful(lib) && ValidExecution(lib, s, x) && ValidAdmission(lib, s.admission.value)
    requires s.(execution := None) == EvidenceAt(lib, d.visible, RecordKey(lib, x.org, x.request))
    ensures var k, raw := PathOf(lib, x.org, x.request, KnownKind), lib.known.encode(KnownFor(lib, x));
            0 < |raw| <= MAX_RECORD ==> RecordOk(lib, d.visible[k := raw], k)
  {
    hide RecordOk;
    var k, known := PathOf(lib, x.org, x.request, KnownKind), KnownFor(lib, x);
    assert IsHash(lib, known.bindingHash);
    if 0 < |lib.known.encode(known)| <= MAX_RECORD { NextKnownOk(lib, d.visible, k, known); }
  }

  lemma ExecutionIsNext(lib: Lib, v: map<Name, Bytes>, s: State, x: ExecutionBinding)
    requires Faithful(lib) && ValidExecution(lib, s, x) && ValidAdmission(lib, s.admission.value)
    requires s.(execution := None) == EvidenceAt(lib, v, RecordKey(lib, x.org, x.request))
    requires 0 < |lib.known.encode(KnownFor(lib, x))| <= MAX_RECORD
    ensures var k, e := PathOf(lib, x.org, x.request, KnownKind), PathOf(lib, x.org, x.request, ExecutionKind);
            var w, raw := v[k := lib.known.encode(KnownFor(lib, x))], lib.execution.encode(x);
            0 < |raw| <= MAX_RECORD ==> RecordOk(lib, w[e := raw], e)
  {
    hide RecordOk;
    var k, e := PathOf(lib, x.org, x.request, KnownKind), PathOf(lib, x.org, x.request, ExecutionKind);
    var w := v[k := lib.known.encode(KnownFor(lib, x))];
    AcceptedIsWritable(lib, s, x);
    assert IsHash(lib, KnownFor(lib, x).bindingHash);
    assert RoundTrips(lib.known, KnownFor(lib, x));
    assert KnownAt(lib, w, e.key) == Some(KnownFor(lib, x));
    assert EvidenceAt(lib, w, e.key) == EvidenceAt(lib, v, e.key);
    if 0 < |lib.execution.encode(x)| <= MAX_RECORD { NextExecutionOk(lib, w, e, x); }
  }

  lemma CrashKeepsInv(lib: Lib, d: Dir, kept: set<Name>)
    requires Inv(lib, d)
    ensures Inv(lib, Crash(d, kept))
  {
    var d' := Crash(d, kept);
    forall n | n in d'.visible
      ensures RecordOk(lib, d'.visible, n)
    {
      forall kind: Kind | Rank(kind) <= Rank(n.kind)
        ensures Agree(d.visible, d'.visible, Name(n.key, kind))
      {
        if kind == n.kind {
          assert Name(n.key, kind) == n;
        } else {
          assert Name(n.key, kind) in d.durable;
        }
      }
      RecordOkFrame(lib, d.visible, d'.visible, n);
    }
  }

  lemma WritebackKeepsInv(lib: Lib, d: Dir, flushed: set<Name>)
    requires Inv(lib, d)
    ensures Inv(lib, Writeback(d, flushed))
  {
  }

  /** Number of consecutive records present under a key, from admission on. */
  function PrefixLength(v: map<Name, Bytes>, key: string): (n: nat)
    ensures n <= 5
  {
    if Name(key, AdmissionKind) !in v then 0
    else if Name(key, ReceiptKind) !in v then 1
    else if Name(key, AckKind) !in v then 2
    else if Name(key, KnownKind) !in v then 3
    else if Name(key, ExecutionKind) !in v then 4
    else 5
  }

  ghost predicate IsPrefix(v: map<Name, Bytes>, key: string) {
    forall kind: Kind :: Name(key, kind) in v <==> Rank(kind) < PrefixLength(v, key)
  }

  lemma DownwardClosedIsPrefix(v: map<Name, Bytes>, key: string)
    requires forall kind: Kind, earlier: Kind | Name(key, kind) in v && Rank(earlier) < Rank(kind) :: Name(key, earlier) in v
    ensures IsPrefix(v, key)
  {
    forall kind: Kind
      ensures Name(key, kind) in v <==> Rank(kind) < PrefixLength(v, key)
    {
      match kind
      case AdmissionKind =>
      case ReceiptKind =>
      case AckKind =>
      case KnownKind =>
      case ExecutionKind =>
    }
  }

  /** The records of a key are always a prefix of the publication order, on disk and in view, at most one apart. */
  lemma RecordsArePrefixes(lib: Lib, d: Dir, key: string)
    requires Inv(lib, d)
    ensures IsPrefix(d.visible, key) && IsPrefix(d.durable, key)
    ensures PrefixLength(d.durable, key) <= PrefixLength(d.visible, key) <= PrefixLength(d.durable, key) + 1
  {
    DownwardClosedIsPrefix(d.visible, key);
    DownwardClosedIsPrefix(d.durable, key);
    var m, n := PrefixLength(d.durable, key), PrefixLength(d.visible, key);
    if n > 0 {
      assert Name(key, KindOfRank(n - 1)) in d.visible;
      assert n > 1 ==> Name(key, KindOfRank(n - 2)) in d.durable;
    }
    if m > 0 {
      assert Name(key, KindOfRank(m - 1)) in d.durable;
    }
  }

  function KindOfRank(i: nat): (k: Kind)
    requires i < 5
    ensures Rank(k) == i
  {
    if i == 0 then AdmissionKind else if i == 1 then ReceiptKind else if i == 2 then AckKind
    else if i == 3 then KnownKind else ExecutionKind
  }

  /** With no I/O failure the first three loaders fail only on a foreign admission. */
  lemma LoadsFirstThree(lib: Lib, v: map<Name, Bytes>, org: string, request: string, io: Faults)
    requires forall p: Point :: !io(p)
    requires var key := RecordKey(lib, org, request);
             forall kind: Kind | Name(key, kind) in v && Rank(kind) < 3 :: RecordOk(lib, v, Name(key, kind))
    ensures var key := RecordKey(lib, org, request);
            var a := AdmissionAt(lib, v, key);
            var admission := LoadAdmission(lib, v, org, request, io);
            && (admission.Ok? <==> (Name(key, AdmissionKind) in v ==> a.Some? && a.value.org == org && a.value.request == request))
            && (admission.Ok? ==> admission.value == a)
            && (admission.Ok? ==>
                  var receipt := LoadReceipt(lib, v, org, request, a, io);
                  && receipt == Ok(ReceiptAt(lib, v, key))
                  && LoadAcknowledgement(lib, v, org, request, receipt.value, io) == Ok(EvidenceAt(lib, v, key).application))
  {
    var key := RecordKey(lib, org, request);
    assert Name(key, AdmissionKind) in v ==> RecordOk(lib, v, Name(key, AdmissionKind));
    assert Name(key, ReceiptKind) in v ==> RecordOk(lib, v, Name(key, ReceiptKind));
    assert Name(key, AckKind) in v ==> RecordOk(lib, v, Name(key, AckKind));
  }

  lemma LoadsExecution(lib: Lib, v: map<Name, Bytes>, org: string, request: string, io: Faults)
    requires forall p: Point :: !io(p)
    requires var key := RecordKey(lib, org, request);
             && (forall kind: Kind | Name(key, kind) in v && Rank(kind) >= 3 :: RecordOk(lib, v, Name(key, kind)))
             && (Name(key, ExecutionKind) in v ==> Name(key, KnownKind) in v)
             && (Name(key, KnownKind) in v ==>
                   var a := AdmissionAt(lib, v, key); a.Some? && a.value.org == org && a.value.request == request)
    ensures var key := RecordKey(lib, org, request);
            LoadExecution(lib, v, org, request, EvidenceAt(lib, v, key), io).Ok? <==>
              (Name(key, KnownKind) in v ==> Name(key, ExecutionKind) in v)
  {
    hide ValidExecution;
    var key := RecordKey(lib, org, request);
    assert Name(key, KnownKind) in v ==> RecordOk(lib, v, Name(key, KnownKind));
    assert Name(key, ExecutionKind) in v ==> RecordOk(lib, v, Name(key, ExecutionKind));
  }

  /**
    With no I/O failure, an open journal loads a request exactly when its prefix
    does not stop at execution-known and its key is not taken by the admission
    of another request with the same hash.
  */
  lemma LoadRejectsExactly(lib: Lib, d: Dir, org: string, request: string, io: Faults)
    requires Inv(lib, d)
    requires forall p: Point :: !io(p)
    requires lib.validReference(org) && lib.validReference(request)
    ensures var key := RecordKey(lib, org, request);
            var a := AdmissionAt(lib, d.visible, key);
            Load(lib, d, false, org, request, io).1.Ok? <==>
              && PrefixLength(d.visible, key) != 4
              && (PrefixLength(d.visible, key) == 0 || (a.Some? && a.value.org == org && a.value.request == request))
  {
    hide RecordOk, LoadAdmission, LoadReceipt, LoadAcknowledgement, LoadExecution;
    var key, v := RecordKey(lib, org, request), d.visible;
    RecordsArePrefixes(lib, d, key);
    assert IsPrefix(v, key);
    LoadsFirstThree(lib, v, org, request, io);
    if LoadAdmission(lib, v, org, request, io).Ok? {
      LoadsExecution(lib, v, org, request, io);
    }
  }
}
