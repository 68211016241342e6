/** What every delivery and every processed request leaves behind, whatever fails. */
module DispatcherLaws {
  import opened Common
  import opened JournalRecords
  import opened JournalSpec
  import opened JournalInvariant
  import opened JournalRuns
  import opened JournalAnswers
  import opened DispatcherProtocol
  import opened DispatcherSpec

  /** The backend's answer is on disk, bound to the request. */
  predicate Answered(lib: Lib, d: Dir, org: string, request: string, application: Bytes) {
    var ack := AckAt(lib, d.durable, RecordKey(lib, org, request));
    ack.Some? && ack.value.application == application && ack.value.request == request
  }

  predicate WaitsUntil(t: Table, key: SuppressionKey, until: int) {
    key in t && t[key].until == until
  }

  /**
    After a delivery the receipt is either settled, with the backend's very answer
    on disk and no entry left, or it waits until the given time wherever the table
    has room. It is reported delivered only if it is settled without conflict.
  */
  lemma SettledOrWaiting(lib: Lib, r: SavedReceipt, reply: Option<Bytes>, until: int, io: Faults, a: Snap, b: Snap, ok: bool)
    requires Faithful(lib) && Inv(lib, a.dir) && Delivers(lib, r, reply, until, io, a, b, ok)
    ensures b.sent == a.sent + [Sent(r.org, r.request, r.body)] && b.evaluations == a.evaluations
    ensures || (reply.Some? && Answered(lib, b.dir, r.org, r.request, reply.value) && SavedKey(r) !in b.table)
            || (!ok && (HasRoom(a.table, SavedKey(r)) ==> WaitsUntil(b.table, SavedKey(r), until)))
    ensures ok ==> && reply.Some? && Answered(lib, b.dir, r.org, r.request, reply.value) && SavedKey(r) !in b.table
                   && lib.parseApplication(reply.value).Some? && lib.parseApplication(reply.value).value.disposition != "TERMINAL_CONFLICT"
  {
    hide Acknowledge, Postponed, Inv, Faithful;
    if reply.Some? && Acknowledge(lib, a.dir, false, r.org, r.request, reply.value, io).1.Done? {
      AcknowledgedAnswer(lib, a.dir, false, r.org, r.request, reply.value, io);
    } else {
      PostponedWaits(a.table, b.table, SavedKey(r), until);
    }
  }

  /** A loaded receipt is the request's own. */
  lemma LoadedReceipt(lib: Lib, d: Dir, org: string, request: string, io: Faults)
    requires Load(lib, d, false, org, request, io).1.Ok? && Load(lib, d, false, org, request, io).1.value.receipt.Some?
    ensures var (d', s) := Load(lib, d, false, org, request, io);
            && s.value.receipt.value.org == org && s.value.receipt.value.request == request
            && d'.durable == d.visible && ReceiptAt(lib, d'.durable, RecordKey(lib, org, request)) == s.value.receipt
  {
    hide ValidAdmission, LoadAcknowledgement, LoadExecution;
    LoadedRecords(lib, d.visible, org, request, io);
  }

  /** What was sent is a body of this request whose receipt is on disk. */
  predicate SentDurably(lib: Lib, d: Dir, org: string, request: string, x: Sent) {
    var r := ReceiptAt(lib, d.durable, RecordKey(lib, org, request));
    x.org == org && x.request == request && r.Some? && r.value.body == x.body
  }

  lemma AcknowledgeKeepsReceipt(lib: Lib, d: Dir, r: SavedReceipt, application: Bytes, io: Faults)
    requires DurableIsVisible(d) && ReceiptAt(lib, d.durable, RecordKey(lib, r.org, r.request)) == Some(r)
    ensures ReceiptAt(lib, Acknowledge(lib, d, false, r.org, r.request, application, io).0.durable, RecordKey(lib, r.org, r.request)) == Some(r)
  {
    hide Acknowledge;
    StepKeepsDurable(lib, d, AcknowledgeEvent(r.org, r.request, application, io));
  }

  lemma DeliversDurably(lib: Lib, r: SavedReceipt, reply: Option<Bytes>, until: int, io: Faults, a: Snap, b: Snap, ok: bool)
    requires Delivers(lib, r, reply, until, io, a, b, ok)
    requires DurableIsVisible(a.dir) && ReceiptAt(lib, a.dir.durable, RecordKey(lib, r.org, r.request)) == Some(r)
    ensures b.sent == a.sent + [Sent(r.org, r.request, r.body)] && SentDurably(lib, b.dir, r.org, r.request, Sent(r.org, r.request, r.body))
  {
    hide Acknowledge, Postponed, DurableIsVisible;
    if reply.Some? { AcknowledgeKeepsReceipt(lib, a.dir, r, reply.value, io); }
  }

  /** A request the organization may be asked about: nothing decided, and nothing waiting. */
  predicate Askable(lib: Lib, c: Config, item: Item, script: Script, a: Snap) {
    && item.org.Some? && c.mode == "external" && PathOf(lib, item.org.value, item.request, ReceiptKind) !in a.dir.visible
    && IsDue(a.table, SuppressionKey(item.org.value, item.request, false), script.now) && SavedHints(a.table) < CAPACITY
  }

  /** The admission of the request is on disk, with this authorization, mode and endpoint. */
  predicate AdmittedAs(lib: Lib, c: Config, item: Item, d: Dir)
    requires item.org.Some?
  {
    var stored := AdmissionAt(lib, d.durable, RecordKey(lib, item.org.value, item.request));
    && stored.Some? && stored.value.authorizationHash == item.authorizationHash && stored.value.mode == c.mode
    && stored.value.endpoint == if c.mode == "external" then Some(c.endpoint) else None
  }

  /**
    One processed request: the organization is asked at most once, and only about
    a request that has no receipt, is not put off and whose admission is on disk
    with the present configuration; at most one body is sent, and it is that of
    the request's receipt on disk.
  */
  lemma ProcessedRequest(lib: Lib, c: Config, item: Item, script: Script, a: Snap, b: Snap, ok: bool)
    requires Faithful(lib) && Inv(lib, a.dir) && Processes(lib, c, item, script, a, b, ok)
    ensures b.evaluations == a.evaluations || (b.evaluations == a.evaluations + 1 && Askable(lib, c, item, script, a) && AdmittedAs(lib, c, item, b.dir))
    ensures b.sent == a.sent
         || (item.org.Some? && |b.sent| == |a.sent| + 1 && b.sent[..|a.sent|] == a.sent
             && SentDurably(lib, b.dir, item.org.value, item.request, b.sent[|a.sent|]))
  {
    hide Load, Delivers, Evaluates, Inv, Faithful;
    if item.org.Some? {
      var org := item.org.value;
      var (d, s) := Load(lib, a.dir, false, org, item.request, script.loadFaults);
      LoadGives(lib, a.dir, org, item.request, script.loadFaults);
      if s.Ok? && SameRequest(s.value, item) {
        if s.value.receipt.Some? {
          LoadedReceipt(lib, a.dir, org, item.request, script.loadFaults);
          if b.sent != a.sent {
            DeliversDurably(lib, s.value.receipt.value, script.reply, script.until, script.ackFaults, a.(dir := d), b, ok);
          }
          if b.evaluations != a.evaluations { DeliversAsksNobody(lib, s.value.receipt.value, script.reply, script.until, script.ackFaults, a.(dir := d), b, ok); }
        } else if b != a.(dir := d) {
          EvaluatedRequest(lib, c, item, script, a.(dir := d), b, ok);
        }
      }
    }
  }

  lemma DeliversAsksNobody(lib: Lib, r: SavedReceipt, reply: Option<Bytes>, until: int, io: Faults, a: Snap, b: Snap, ok: bool)
    requires Delivers(lib, r, reply, until, io, a, b, ok)
    ensures b.evaluations == a.evaluations
  {
    hide Acknowledge, Postponed;
  }

  lemma LoadGives(lib: Lib, d: Dir, org: string, request: string, io: Faults)
    requires Inv(lib, d)
    ensures var (d', s) := Load(lib, d, false, org, request, io);
            && Inv(lib, d') && DurableIsVisible(d') && d'.visible == d.visible
            && (s.Ok? ==> (s.value.receipt.Some? <==> PathOf(lib, org, request, ReceiptKind) in d.visible))
  {
    hide LoadRecords, RecordOk;
    LoadKeepsInv(lib, d, false, org, request, io);
    if Load(lib, d, false, org, request, io).1.Ok? { LoadedRecords(lib, d.visible, org, request, io); }
  }

  lemma EvaluatedRequest(lib: Lib, c: Config, item: Item, script: Script, a: Snap, b: Snap, ok: bool)
    requires item.org.Some? && Faithful(lib) && Inv(lib, a.dir) && Evaluates(lib, c, item, script, a, b, ok)
    ensures b.evaluations == a.evaluations || (b.evaluations == a.evaluations + 1 && c.mode == "external" && AdmittedAs(lib, c, item, b.dir))
    ensures b.sent == a.sent
         || (&& |b.sent| == |a.sent| + 1 && b.sent[..|a.sent|] == a.sent
             && SentDurably(lib, b.dir, item.org.value, item.request, b.sent[|a.sent|]))
  {
    hide Admit, SavesAndDelivers, Postponed, Inv, Faithful, AdmittedAs;
    var adm := AdmissionFor(c, item, script);
    var (d, admitted) := Admit(lib, a.dir, false, adm, script.admitFaults);
    if admitted.Done? {
      AdmittedNow(lib, c, item, script, a.dir);
      var next := a.(dir := d, evaluations := if c.mode == "external" then a.evaluations + 1 else a.evaluations);
      if c.mode != "external" || script.answer.Decided? {
        SavedAndSent(lib, c, adm, item, script, next, b, ok);
      }
    }
  }

  lemma AdmittedNow(lib: Lib, c: Config, item: Item, script: Script, d: Dir)
    requires item.org.Some? && Faithful(lib) && Inv(lib, d) && Admit(lib, d, false, AdmissionFor(c, item, script), script.admitFaults).1.Done?
    ensures var d' := Admit(lib, d, false, AdmissionFor(c, item, script), script.admitFaults).0; Inv(lib, d') && AdmittedAs(lib, c, item, d')
  {
    hide Admit, Inv, Faithful;
    AdmittedTerms(lib, d, false, AdmissionFor(c, item, script), script.admitFaults);
    AdmitKeepsInv(lib, d, false, AdmissionFor(c, item, script), script.admitFaults);
  }

  lemma AdmittedStays(lib: Lib, c: Config, item: Item, d: Dir, d': Dir)
    requires item.org.Some? && AdmittedAs(lib, c, item, d) && KeepsDurable(d, d')
    ensures AdmittedAs(lib, c, item, d')
  {
    assert PathOf(lib, item.org.value, item.request, AdmissionKind) in d.durable;
  }

  lemma SavedAndSent(lib: Lib, c: Config, adm: Admission, item: Item, script: Script, a: Snap, b: Snap, ok: bool)
    requires Faithful(lib) && Inv(lib, a.dir) && SavesAndDelivers(lib, c, adm, script, a, b, ok)
    requires item.org == Some(adm.org) && item.request == adm.request && AdmittedAs(lib, c, item, a.dir)
    ensures b.evaluations == a.evaluations && AdmittedAs(lib, c, item, b.dir)
    ensures b.sent == a.sent
         || (&& |b.sent| == |a.sent| + 1 && b.sent[..|a.sent|] == a.sent && SentDurably(lib, b.dir, adm.org, adm.request, b.sent[|a.sent|]))
  {
    hide SaveReceipt, Delivers, Inv, Faithful, AdmittedAs;
    if script.answer.Decided? && script.answer.body.Some? {
      var r := SavedReceipt(1, adm.org, adm.request, adm.authorizationHash, c.keyId, c.publicKey, script.answer.body.value);
      SavedNow(lib, c, item, a.dir, r, script.saveFaults);
      var (d, saved) := SaveReceipt(lib, a.dir, false, r, script.saveFaults);
      if saved.Done? {
        var before := a.(dir := d, table := a.table - {SuppressionKey(adm.org, adm.request, false)});
        DeliversDurably(lib, r, script.reply, script.until, script.ackFaults, before, b, ok);
        DeliveryKeepsAdmission(lib, c, item, r, script.reply, script.until, script.ackFaults, before, b, ok);
      }
    }
  }

  lemma SavedNow(lib: Lib, c: Config, item: Item, d: Dir, r: SavedReceipt, io: Faults)
    requires item.org.Some? && Faithful(lib) && Inv(lib, d) && AdmittedAs(lib, c, item, d)
    ensures var (d', saved) := SaveReceipt(lib, d, false, r, io);
            && DurableIsVisible(d') && AdmittedAs(lib, c, item, d')
            && (saved.Done? ==> ReceiptAt(lib, d'.durable, RecordKey(lib, r.org, r.request)) == Some(r))
  {
    hide SaveReceipt, AdmittedAs, RecordOk, Faithful;
    SaveReceiptKeepsInv(lib, d, false, r, io);
    StepKeepsDurable(lib, d, SaveReceiptEvent(r, io));
    AdmittedStays(lib, c, item, d, SaveReceipt(lib, d, false, r, io).0);
  }

  lemma DeliveryKeepsAdmission(lib: Lib, c: Config, item: Item, r: SavedReceipt, reply: Option<Bytes>, until: int, io: Faults, a: Snap, b: Snap, ok: bool)
    requires item.org.Some? && DurableIsVisible(a.dir) && AdmittedAs(lib, c, item, a.dir) && Delivers(lib, r, reply, until, io, a, b, ok)
    ensures b.evaluations == a.evaluations && AdmittedAs(lib, c, item, b.dir)
  {
    hide Acknowledge, Postponed, AdmittedAs;
    if reply.Some? {
      StepKeepsDurable(lib, a.dir, AcknowledgeEvent(r.org, r.request, reply.value, io));
      AdmittedStays(lib, c, item, a.dir, b.dir);
    }
  }

  /** A stored receipt whose delivery is neither acknowledged nor put off is sent whenever its request is processed. */
  lemma DueReceiptIsSent(lib: Lib, c: Config, item: Item, script: Script, a: Snap, b: Snap, ok: bool, r: SavedReceipt)
    requires Faithful(lib) && Inv(lib, a.dir) && Processes(lib, c, item, script, a, b, ok)
    requires item.org.Some? && NoFaults(script.loadFaults) && Loadable(lib, a.dir.visible, item.org.value, item.request)
    requires var key := RecordKey(lib, item.org.value, item.request);
             && AdmissionAt(lib, a.dir.visible, key).Some? && AdmissionAt(lib, a.dir.visible, key).value.authorizationHash == item.authorizationHash
             && Unacknowledged(lib, a.dir.visible, r) && KeyOf(lib, r) == key
    requires IsDue(a.table, SuppressionKey(item.org.value, item.request, true), script.now)
    ensures b.sent == a.sent + [Sent(r.org, r.request, r.body)] && b.evaluations == a.evaluations
  {
    hide Load, Inv, Faithful, Loadable, Evaluates, Acknowledge, Postponed;
    LoadExactly(lib, a.dir, item.org.value, item.request, script.loadFaults);
  }
}
