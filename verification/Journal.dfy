/** The journal object: each method runs under its mutex and works stage by stage on the directory. */
module Journal {
  import opened Common
  import opened JournalRecords
  import opened JournalSpec
  import opened JournalInvariant

  /** What one directory read yields. */
  datatype Entry = RecordEntry(name: Name) | OtherEntry | EndOfDirectory | ReadError

  /** The scan gets to entry `i`. */
  ghost predicate Reached(entries: nat -> Entry, i: nat) {
    forall k: nat | k <= i :: entries(k) != EndOfDirectory
  }

  /** The entry is no receipt, or one whose delivery is acknowledged. */
  predicate Settled(v: map<Name, Bytes>, entry: Entry) {
    entry.RecordEntry? && entry.name.kind == ReceiptKind ==> Name(entry.name.key, AckKind) in v
  }

  /** The entry can be read and, where it is a receipt, its request loads. */
  predicate Readable(lib: Lib, d: Dir, entry: Entry, io: Faults) {
    && entry != ReadError
    && (entry.RecordEntry? && entry.name.kind == ReceiptKind ==>
          var stored := ReadRecord(d.visible, entry.name, lib.receipt, io(ReadOld(ReceiptKind)));
          && stored.Ok? && stored.value.Some?
          && entry.name == PathOf(lib, stored.value.value.org, stored.value.value.request, ReceiptKind)
          && Load(lib, d, false, stored.value.value.org, stored.value.value.request, io).1.Ok?)
  }

  /** Entry `i` is the file of a receipt that loads and whose delivery is not acknowledged. */
  ghost predicate PendingAt(lib: Lib, d: Dir, entries: nat -> Entry, io: nat -> Faults, i: nat, r: SavedReceipt) {
    && Reached(entries, i) && entries(i).RecordEntry? && entries(i).name.kind == ReceiptKind && Readable(lib, d, entries(i), io(i))
    && ReceiptAt(lib, d.visible, entries(i).name.key) == Some(r) && Name(entries(i).name.key, AckKind) !in d.visible
  }

  /** The first pending receipt the scan meets within its limit, before any directory read fails. */
  ghost predicate FirstPending(lib: Lib, d: Dir, entries: nat -> Entry, io: nat -> Faults, limit: int, r: SavedReceipt) {
    exists i: nat :: i < limit && PendingAt(lib, d, entries, io, i, r) && NothingBefore(lib, d, entries, io, i)
  }

  ghost predicate NothingBefore(lib: Lib, d: Dir, entries: nat -> Entry, io: nat -> Faults, i: nat) {
    forall k: nat | k < i :: Passed(lib, d, entries, io, k)
  }

  /** The scan goes on after entry `k`: it can be read, and it is no pending receipt. */
  ghost predicate Passed(lib: Lib, d: Dir, entries: nat -> Entry, io: nat -> Faults, k: nat) {
    entries(k) != ReadError && forall r: SavedReceipt :: !PendingAt(lib, d, entries, io, k, r)
  }

  /** Some entry the scan gets to, before any pending receipt, cannot be read. */
  ghost predicate ScanFails(lib: Lib, d: Dir, entries: nat -> Entry, io: nat -> Faults, limit: int) {
    exists i: nat :: i < limit && FailsAt(lib, d, entries, io, i)
  }

  ghost predicate FailsAt(lib: Lib, d: Dir, entries: nat -> Entry, io: nat -> Faults, i: nat) {
    Reached(entries, i) && NothingBefore(lib, d, entries, io, i) && !Readable(lib, d, entries(i), io(i))
  }

  class Journal {
    const lib: Lib
    var dir: Dir
    var closed: bool
    var scanning: bool

    constructor (lib: Lib, dir: Dir)
      ensures this.lib == lib && this.dir == dir && !closed && !scanning
    {
      this.lib := lib;
      this.dir := dir;
      closed := false;
      scanning := false;
    }

    method Close()
      modifies this`closed, this`scanning
      ensures closed && (old(closed) || !scanning)
    {
      if closed { return; }
      closed := true;
      scanning := false;
    }

    /** `publishJournalFile`: temp file, write, fsync, rename without replacement, directory fsync. */
    method PublishFile(n: Name, raw: Bytes, io: Stage -> bool) returns (r: Published)
      modifies this`dir
      ensures (dir, r) == Publish(old(dir), n, raw, closed, io)
    {
      if closed || io(CheckDirectory) { return PublishFailed; }
      if io(CreateTemp) { return PublishFailed; }
      var temp: Bytes := [];
      if io(Chmod) { return PublishFailed; }
      if io(Write) || io(ShortWrite) { return PublishFailed; }
      temp := raw;
      if io(SyncTemp) { return PublishFailed; }
      if io(CloseTemp) { return PublishFailed; }
      if io(Rename) { return PublishFailed; }
      if n in dir.visible { return Exists; }
      dir := dir.(visible := dir.visible[n := temp]);
      if io(SyncDirectory) { return PublishFailed; }
      dir := dir.(durable := dir.visible);
      return Published;
    }

    method PutRecord(n: Name, raw: Bytes, io: Faults) returns (r: Outcome<Error>)
      modifies this`dir
      ensures (dir, r) == PutBytes(old(dir), n, raw, closed, io)
    {
      if |raw| == 0 || |raw| > MAX_RECORD { return Failed(Integrity); }
      var stages := (s: Stage) => io(Put(n.kind, s));
      var p := PublishFile(n, raw, stages);
      if p != Exists { return if p == Published then Done else Failed(Io); }
      if io(ReadOld(n.kind)) || n !in dir.visible { return Failed(Io); }
      if dir.visible[n] != raw { return Failed(Conflict); }
      if io(Resync(n.kind)) { return Failed(Io); }
      dir := dir.(durable := dir.visible);
      return Done;
    }

    method LoadState(org: string, request: string, io: Faults) returns (r: Result<State, Error>)
      modifies this`dir
      ensures (dir, r) == Load(lib, old(dir), closed, org, request, io)
    {
      if !lib.validReference(org) || !lib.validReference(request) { return Err(Integrity); }
      if closed { return Err(Integrity); }
      if io(LoadCheck) { return Err(Io); }
      var admission := LoadAdmission(lib, dir.visible, org, request, io);
      if admission.Err? { return Err(admission.error); }
      var receipt := LoadReceipt(lib, dir.visible, org, request, admission.value, io);
      if receipt.Err? { return Err(receipt.error); }
      var application := LoadAcknowledgement(lib, dir.visible, org, request, receipt.value, io);
      if application.Err? { return Err(application.error); }
      var s := State(admission.value, receipt.value, application.value, None);
      var execution := LoadExecution(lib, dir.visible, org, request, s, io);
      if execution.Err? { return Err(execution.error); }
      if io(LoadSync) { return Err(Io); }
      dir := dir.(durable := dir.visible);
      return Ok(s.(execution := execution.value));
    }

    method AdmitRequest(a: Admission, io: Faults) returns (r: Outcome<Error>)
      modifies this`dir
      ensures (dir, r) == Admit(lib, old(dir), closed, a, io)
    {
      if !ValidAdmission(lib, a) { return Failed(Integrity); }
      var s := LoadState(a.org, a.request, io);
      if s.Err? { return Failed(s.error); }
      if s.value.admission.Some? {
        var earlier := s.value.admission.value;
        var pinned := a.(admittedAt := earlier.admittedAt);
        if lib.admission.encode(earlier) != lib.admission.encode(pinned) { return Failed(Conflict); }
        return Done;
      }
      r := PutRecord(PathOf(lib, a.org, a.request, AdmissionKind), lib.admission.encode(a), io);
    }

    method SaveDecision(receipt: SavedReceipt, io: Faults) returns (r: Outcome<Error>)
      modifies this`dir
      ensures (dir, r) == SaveReceipt(lib, old(dir), closed, receipt, io)
    {
      var s := LoadState(receipt.org, receipt.request, io);
      if s.Err? { return Failed(s.error); }
      if s.value.admission.None? { return Failed(Integrity); }
      if !ValidReceipt(lib, s.value.admission.value, receipt) { return Failed(Integrity); }
      r := PutRecord(PathOf(lib, receipt.org, receipt.request, ReceiptKind), lib.receipt.encode(receipt), io);
    }

    method AcknowledgeDelivery(org: string, request: string, application: Bytes, io: Faults) returns (r: Outcome<Error>)
      modifies this`dir
      ensures (dir, r) == Acknowledge(lib, old(dir), closed, org, request, application, io)
    {
      var s := LoadState(org, request, io);
      if s.Err? { return Failed(s.error); }
      if s.value.receipt.None? { return Failed(Integrity); }
      if !ValidApplication(lib, application, request) { return Failed(Integrity); }
      var ack := DeliveryAck(1, org, request, lib.sha256(s.value.receipt.value.body), application);
      r := PutRecord(PathOf(lib, org, request, AckKind), lib.ack.encode(ack), io);
    }

    method Bind(x: ExecutionBinding, io: Faults) returns (r: Outcome<Error>)
      modifies this`dir
      ensures (dir, r) == BindExecution(lib, old(dir), closed, x, io)
    {
      var s := LoadState(x.org, x.request, io);
      if s.Err? { return Failed(s.error); }
      if !ValidExecution(lib, s.value, x) { return Failed(Integrity); }
      r := PutRecord(PathOf(lib, x.org, x.request, KnownKind), lib.known.encode(KnownFor(lib, x)), io);
      if r.Failed? { return; }
      r := PutRecord(PathOf(lib, x.org, x.request, ExecutionKind), lib.execution.encode(x), io);
    }

    /**
      `PendingReceipts`: reads at most `limit` directory entries from wherever
      the persistent scan stands, and stops at the first saved receipt whose
      delivery is not acknowledged. The receipt it returns is durable.
    */
    method PendingReceipts(limit: int, entries: nat -> Entry, openFault: bool, io: nat -> Faults)
      returns (receipts: seq<SavedReceipt>, failed: bool)
      requires Inv(lib, dir)
      modifies this`dir, this`scanning
      ensures dir == old(dir) || dir == Sync(old(dir))
      ensures |receipts| <= 1
      ensures receipts != [] ==>
                var key := RecordKey(lib, receipts[0].org, receipts[0].request);
                && dir.durable == dir.visible
                && ReceiptAt(lib, dir.visible, key) == Some(receipts[0])
                && Name(key, AckKind) !in dir.visible
      ensures !closed && 1 <= limit <= 1000 && !openFault ==>
                forall r :: receipts == [r] <==> FirstPending(lib, old(dir), entries, io, limit, r)
      ensures !closed && 1 <= limit <= 1000 && !openFault ==> (failed <==> ScanFails(lib, old(dir), entries, io, limit))
      ensures closed || limit < 1 || limit > 1000 || openFault ==> receipts == [] && failed
      ensures receipts == [] && !failed ==> forall i: nat | i < limit && Reached(entries, i) :: Settled(old(dir.visible), entries(i))
      ensures !closed && 1 <= limit <= 1000 && !openFault && (forall i: nat | i < limit && Reached(entries, i) :: Readable(lib, old(dir), entries(i), io(i))) ==>
                !failed
    {
      hide Readable, Inv, PendingAt, FailsAt;
      receipts, failed := [], false;
      if limit < 1 || limit > 1000 || closed || openFault { return [], true; }
      scanning := true;
      var ended := false;
      for i := 0 to limit
        invariant (dir == old(dir) || dir == Sync(old(dir))) && Inv(lib, dir)
        invariant receipts == [] && !ended
        invariant !failed ==> forall k: nat | k < i :: Settled(old(dir.visible), entries(k))
        invariant failed ==> exists k: nat :: k < i && Reached(entries, k) && !Readable(lib, old(dir), entries(k), io(k))
        invariant failed <==> exists k: nat :: k < i && FailsAt(lib, old(dir), entries, io, k)
        invariant forall k: nat | k < i :: entries(k) != EndOfDirectory
        invariant NothingBefore(lib, old(dir), entries, io, i)
      {
        var entry := entries(i);
        if entry == EndOfDirectory {
          NoneFirst(lib, old(dir), entries, io, i, limit);
          FailsNoFurther(lib, old(dir), entries, io, i);
          ended := true;
          break;
        }
        assert Reached(entries, i);
        if entry == ReadError {
          assert !Readable(lib, old(dir), entries(i), io(i)) by { ReadErrorIsUnreadable(lib, old(dir), io(i)); }
          NoneFirst(lib, old(dir), entries, io, i, limit);
          FailsHere(lib, old(dir), entries, io, i);
          return [], true;
        }
        if entry.OtherEntry? || entry.name.kind != ReceiptKind {
          NotPending(lib, old(dir), entries, io, i);
          FailsHere(lib, old(dir), entries, io, i);
          continue;
        }
        ReadableIgnoresDurable(lib, old(dir), dir, entry, io(i));
        var found, ok := Examine(entry.name, io(i));
        FailsHere(lib, old(dir), entries, io, i);
        if !ok {
          NotPending(lib, old(dir), entries, io, i);
          failed := true;
          continue;
        }
        if found.Some? {
          receipts := [found.value];
          IsPending(lib, old(dir), entries, io, i, found.value);
          FoundFirst(lib, old(dir), entries, io, limit, i, found.value);
          FailsNoFurther(lib, old(dir), entries, io, i);
          break;
        }
        NotPending(lib, old(dir), entries, io, i);
      }
      if receipts == [] && !ended { NoneFirst(lib, old(dir), entries, io, limit, limit); }
      if ended { scanning := false; }
    }

    /** One receipt file of the scan: the receipt, if its delivery is not acknowledged. */
    method Examine(name: Name, io: Faults) returns (found: Option<SavedReceipt>, ok: bool)
      requires Inv(lib, dir) && name.kind == ReceiptKind && !closed
      modifies this`dir
      ensures (dir == old(dir) || dir == Sync(old(dir))) && Inv(lib, dir)
      ensures ok <==> Readable(lib, old(dir), RecordEntry(name), io)
      ensures ok && found.None? ==> Name(name.key, AckKind) in dir.visible
      ensures found.Some? ==>
                && ok && name.key == RecordKey(lib, found.value.org, found.value.request) && dir.durable == dir.visible
                && ReceiptAt(lib, dir.visible, name.key) == Some(found.value) && Name(name.key, AckKind) !in dir.visible
    {
      hide RecordOk, LoadRecords;
      found, ok := None, false;
      var stored := ReadRecord(dir.visible, name, lib.receipt, io(ReadOld(ReceiptKind)));
      if stored.Err? || stored.value.None? { return; }
      var receipt := stored.value.value;
      if name != PathOf(lib, receipt.org, receipt.request, ReceiptKind) { return; }
      LoadKeepsInv(lib, dir, closed, receipt.org, receipt.request, io);
      var s := LoadState(receipt.org, receipt.request, io);
      if s.Err? { return; }
      LoadedRecords(lib, dir.visible, receipt.org, receipt.request, io);
      ok := true;
      if s.value.application == [] {
        found := s.value.receipt;
      }
    }
  }

  lemma ReadErrorIsUnreadable(lib: Lib, d: Dir, io: Faults)
    ensures !Readable(lib, d, ReadError, io)
  {
  }

  lemma FailsHere(lib: Lib, d: Dir, entries: nat -> Entry, io: nat -> Faults, i: nat)
    requires Reached(entries, i) && NothingBefore(lib, d, entries, io, i)
    ensures FailsAt(lib, d, entries, io, i) <==> !Readable(lib, d, entries(i), io(i))
    ensures entries(i).OtherEntry? || (entries(i).RecordEntry? && entries(i).name.kind != ReceiptKind) ==> !FailsAt(lib, d, entries, io, i)
  {
    hide Load, ReadRecord;
  }

  /** A scan that ends at an entry, or finds a pending receipt there, fails at none from there on. */
  lemma FailsNoFurther(lib: Lib, d: Dir, entries: nat -> Entry, io: nat -> Faults, i: nat)
    requires entries(i) == EndOfDirectory || exists r :: PendingAt(lib, d, entries, io, i, r)
    ensures forall k: nat | k >= i :: !FailsAt(lib, d, entries, io, k)
  {
    hide Readable;
    forall k: nat | k >= i
      ensures !FailsAt(lib, d, entries, io, k)
    {
      assert k > i && NothingBefore(lib, d, entries, io, k) ==> Passed(lib, d, entries, io, i);
    }
  }

  /** Reading depends on what is visible only. */
  lemma ReadableIgnoresDurable(lib: Lib, d: Dir, d': Dir, entry: Entry, io: Faults)
    requires d.visible == d'.visible
    ensures Readable(lib, d, entry, io) <==> Readable(lib, d', entry, io)
  {
    hide LoadRecords;
  }

  lemma NotPending(lib: Lib, d: Dir, entries: nat -> Entry, io: nat -> Faults, i: nat)
    requires entries(i).OtherEntry? || (entries(i).RecordEntry? && entries(i).name.kind != ReceiptKind)
          || (entries(i).RecordEntry? && (!Readable(lib, d, entries(i), io(i)) || Name(entries(i).name.key, AckKind) in d.visible))
    requires NothingBefore(lib, d, entries, io, i)
    ensures NothingBefore(lib, d, entries, io, i + 1)
  {
    hide Readable;
    assert Passed(lib, d, entries, io, i);
    assert forall k: nat | k < i + 1 :: k == i || Passed(lib, d, entries, io, k);
  }

  lemma IsPending(lib: Lib, d: Dir, entries: nat -> Entry, io: nat -> Faults, i: nat, r: SavedReceipt)
    requires Reached(entries, i) && entries(i).RecordEntry? && entries(i).name.kind == ReceiptKind && Readable(lib, d, entries(i), io(i))
    requires ReceiptAt(lib, d.visible, entries(i).name.key) == Some(r) && Name(entries(i).name.key, AckKind) !in d.visible
    ensures PendingAt(lib, d, entries, io, i, r)
  {
    hide Readable;
  }

  /** A scan that ends at its limit, at the end of the directory or at a read error has met no pending receipt. */
  lemma NoneFirst(lib: Lib, d: Dir, entries: nat -> Entry, io: nat -> Faults, i: nat, limit: int)
    requires NothingBefore(lib, d, entries, io, i) && (i >= limit || entries(i) == EndOfDirectory || entries(i) == ReadError)
    ensures forall r: SavedReceipt :: !FirstPending(lib, d, entries, io, limit, r)
  {
    hide PendingAt, NothingBefore, Reached;
    forall r: SavedReceipt, k: nat | k < limit
      ensures !(PendingAt(lib, d, entries, io, k, r) && NothingBefore(lib, d, entries, io, k))
    {
      NotFirst(lib, d, entries, io, i, limit, k, r);
    }
  }

  lemma NotFirst(lib: Lib, d: Dir, entries: nat -> Entry, io: nat -> Faults, i: nat, limit: int, k: nat, r: SavedReceipt)
    requires NothingBefore(lib, d, entries, io, i) && (i >= limit || entries(i) == EndOfDirectory || entries(i) == ReadError)
    requires k < limit
    ensures !(PendingAt(lib, d, entries, io, k, r) && NothingBefore(lib, d, entries, io, k))
  {
    hide Readable;
    assert k < i ==> Passed(lib, d, entries, io, k);
    assert NothingBefore(lib, d, entries, io, k) && i < k ==> Passed(lib, d, entries, io, i);
  }

  lemma FoundFirst(lib: Lib, d: Dir, entries: nat -> Entry, io: nat -> Faults, limit: int, i: nat, found: SavedReceipt)
    requires i < limit && PendingAt(lib, d, entries, io, i, found) && NothingBefore(lib, d, entries, io, i)
    ensures forall r: SavedReceipt :: FirstPending(lib, d, entries, io, limit, r) <==> r == found
  {
    hide Readable;
    forall r: SavedReceipt | FirstPending(lib, d, entries, io, limit, r)
      ensures r == found
    {
      var k: nat :| k < limit && PendingAt(lib, d, entries, io, k, r) && NothingBefore(lib, d, entries, io, k);
      assert k < i ==> Passed(lib, d, entries, io, k);
      assert i < k ==> Passed(lib, d, entries, io, i);
    }
  }
}
