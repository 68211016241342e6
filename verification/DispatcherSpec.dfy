/** What each dispatcher call does to the journal directory, the suppression table and the record of what was sent. */
module DispatcherSpec {
  import opened Common
  import opened JournalRecords
  import opened JournalSpec
  import opened JournalInvariant
  import opened DispatcherProtocol
  import J = Journal

  const CAPACITY := 1000
  const MAX_ATTEMPTS := 1024
  const PAGE_LIMIT := 50

  datatype SuppressionKey = SuppressionKey(org: string, request: string, savedReceipt: bool)

  datatype Suppression = Suppression(attempts: nat, until: int, sequence: nat)

  type Table = map<SuppressionKey, Suppression>

  /** The table is bounded and its entries were numbered in the order they were made. */
  ghost predicate TableOk(t: Table, sequence: nat) {
    && |t| <= CAPACITY
    && (forall k | k in t :: t[k].sequence <= sequence)
    && (forall k, l | k in t && l in t && t[k].sequence == t[l].sequence :: k == l)
  }

  ghost predicate OldestFresh(t: Table, k: SuppressionKey) {
    k in t && !k.savedReceipt && forall l | l in t && !l.savedReceipt :: t[k].sequence <= t[l].sequence
  }

  /** `s` is recorded; a full table first gives up its oldest fresh entry, and drops `s` if it has none. */
  ghost predicate Recorded(t: Table, t': Table, key: SuppressionKey, s: Suppression) {
    if key in t || |t| < CAPACITY then t' == t[key := s]
    else if exists k :: k in t && !k.savedReceipt then exists k :: OldestFresh(t, k) && t' == (t - {k})[key := s]
    else t' == t
  }

  function AttemptsAfter(t: Table, key: SuppressionKey): nat {
    var before := if key in t then t[key].attempts else 0;
    if before < MAX_ATTEMPTS then before + 1 else before
  }

  /** The key is put off until then, one attempt later. */
  ghost predicate Postponed(t: Table, t': Table, key: SuppressionKey, until: int) {
    exists s: Suppression :: s.until == until && s.attempts == AttemptsAfter(t, key) && Recorded(t, t', key, s)
  }

  /** The table has room for the key: it is there, the table is not full, or a fresh entry can go. */
  predicate HasRoom(t: Table, key: SuppressionKey) {
    key in t || |t| < CAPACITY || exists k :: k in t && !k.savedReceipt
  }

  lemma SavedEntriesStay(t: Table, t': Table, key: SuppressionKey, until: int, saved: SuppressionKey)
    requires Postponed(t, t', key, until) && saved in t && saved.savedReceipt && saved != key
    ensures saved in t' && t'[saved] == t[saved]
  {
  }

  /** What is put off waits exactly until then, wherever there is room; otherwise nothing changes. */
  lemma PostponedWaits(t: Table, t': Table, key: SuppressionKey, until: int)
    requires Postponed(t, t', key, until)
    ensures HasRoom(t, key) ==> key in t' && t'[key].until == until && t'[key].attempts == AttemptsAfter(t, key)
    ensures !HasRoom(t, key) ==> t' == t && forall k | k in t :: k.savedReceipt
  {
  }

  predicate IsDue(t: Table, key: SuppressionKey, now: int) {
    key in t ==> now >= t[key].until
  }

  /** Some saved receipt's delivery may be tried again. */
  ghost predicate AnyDue(t: Table, now: int) {
    exists k :: k in t && k.savedReceipt && IsDue(t, k, now)
  }

  /** The due saved-receipt entry that has waited longest. */
  ghost predicate LongestDue(t: Table, k: SuppressionKey, now: int) {
    && k in t && k.savedReceipt && IsDue(t, k, now)
    && forall l | l in t && l.savedReceipt && IsDue(t, l, now) :: t[k].sequence <= t[l].sequence
  }

  /** What the organization answered; a decision comes with the signed receipt body built from it, if it could be built. */
  datatype Answer = NoAnswer | StillPending | Decided(body: Option<Bytes>)

  /** A discovered request; `org` is what its authorization proves, `None` if that does not validate. */
  datatype Item = Item(org: Option<string>, request: string, authorizationHash: string)

  /** Everything outside the process that one item meets: clock, I/O failures, organization, backend. */
  datatype Script = Script(
    now: int, admittedAt: string, until: int,
    loadFaults: Faults, admitFaults: Faults, saveFaults: Faults, ackFaults: Faults,
    answer: Answer, reply: Option<Bytes>)

  datatype Config = Config(mode: string, endpoint: string, keyId: string, publicKey: Bytes)

  /** What a call can change. */
  datatype Snap = Snap(dir: Dir, table: Table, sent: seq<Sent>, evaluations: nat)

  function SavedKey(r: SavedReceipt): SuppressionKey {
    SuppressionKey(r.org, r.request, true)
  }

  /** The backend took the decision and does not contradict it. */
  predicate Agrees(lib: Lib, application: Bytes) {
    var parsed := ParseApplication(lib, application);
    parsed.Some? && parsed.value.disposition != "TERMINAL_CONFLICT"
  }

  /** What follows a body that was sent: a failed answer or acknowledgement puts the receipt off, a recorded one settles it. */
  ghost predicate Concludes(lib: Lib, r: SavedReceipt, reply: Option<Bytes>, until: int, io: Faults, a: Snap, b: Snap, ok: bool) {
    && b.sent == a.sent && b.evaluations == a.evaluations
    && if reply.None? then !ok && b.dir == a.dir && Postponed(a.table, b.table, SavedKey(r), until)
       else
         var (d, acknowledged) := Acknowledge(lib, a.dir, false, r.org, r.request, reply.value, io);
         && b.dir == d
         && if acknowledged.Failed? then !ok && Postponed(a.table, b.table, SavedKey(r), until)
            else b.table == a.table - {SavedKey(r)} && (ok <==> Agrees(lib, reply.value))
  }

  /** One delivery: exactly the receipt's body is sent, once. */
  ghost predicate Delivers(lib: Lib, r: SavedReceipt, reply: Option<Bytes>, until: int, io: Faults, a: Snap, b: Snap, ok: bool) {
    Concludes(lib, r, reply, until, io, a.(sent := a.sent + [Sent(r.org, r.request, r.body)]), b, ok)
  }

  /** The retry of a hint: put off if its receipt cannot be loaded, dropped if it is acknowledged, delivered otherwise. */
  ghost predicate Retries(lib: Lib, key: SuppressionKey, script: Script, a: Snap, b: Snap, attempted: bool, ok: bool) {
    var (d, s) := Load(lib, a.dir, false, key.org, key.request, script.loadFaults);
    if s.Err? || s.value.receipt.None? then
      attempted && !ok && b == a.(dir := d, table := b.table) && Postponed(a.table, b.table, key, script.until)
    else if s.value.application != [] then
      !attempted && ok && b == a.(dir := d, table := a.table - {key})
    else
      attempted && Delivers(lib, s.value.receipt.value, script.reply, script.until, script.ackFaults, a.(dir := d), b, ok)
  }

  function AdmissionFor(c: Config, item: Item, script: Script): Admission
    requires item.org.Some?
  {
    Admission(1, item.org.value, item.request, item.authorizationHash, c.mode,
              if c.mode == "external" then Some(c.endpoint) else None, script.admittedAt)
  }

  /** A decision is saved as a receipt and then delivered; nothing is sent that was not saved. */
  ghost predicate SavesAndDelivers(lib: Lib, c: Config, adm: Admission, script: Script, a: Snap, b: Snap, ok: bool) {
    if !script.answer.Decided? || script.answer.body.None? then !ok && b == a
    else
      var r := SavedReceipt(1, adm.org, adm.request, adm.authorizationHash, c.keyId, c.publicKey, script.answer.body.value);
      var (d, saved) := SaveReceipt(lib, a.dir, false, r, script.saveFaults);
      if saved.Failed? then !ok && b == a.(dir := d)
      else Delivers(lib, r, script.reply, script.until, script.ackFaults,
                    a.(dir := d, table := a.table - {SuppressionKey(adm.org, adm.request, false)}), b, ok)
  }

  /** A request without receipt: admitted, evaluated once if the mode is external, and decided or put off. */
  ghost predicate Evaluates(lib: Lib, c: Config, item: Item, script: Script, a: Snap, b: Snap, ok: bool)
    requires item.org.Some?
  {
    var adm := AdmissionFor(c, item, script);
    var (d, admitted) := Admit(lib, a.dir, false, adm, script.admitFaults);
    if admitted.Failed? then !ok && b == a.(dir := d)
    else if c.mode != "external" then SavesAndDelivers(lib, c, adm, script, a.(dir := d), b, ok)
    else
      var asked := a.(dir := d, evaluations := a.evaluations + 1);
      if script.answer.Decided? then SavesAndDelivers(lib, c, adm, script, asked, b, ok)
      else
        && b == asked.(table := b.table) && (ok <==> script.answer == StillPending)
        && Postponed(a.table, b.table, SuppressionKey(adm.org, adm.request, false), script.until)
  }

  /** The stored admission, if any, is of the request the page names. */
  predicate SameRequest(s: State, item: Item) {
    s.admission.Some? ==> s.admission.value.authorizationHash == item.authorizationHash
  }

  function SavedHints(t: Table): nat {
    |set k | k in t && k.savedReceipt|
  }

  /**
    One discovered request. With a stored receipt nobody is asked: it is
    delivered if it is unacknowledged and due. Without one the request waits
    while saved receipts fill the table or while it is put off, and is evaluated
    otherwise.
  */
  ghost predicate Processes(lib: Lib, c: Config, item: Item, script: Script, a: Snap, b: Snap, ok: bool) {
    if item.org.None? then !ok && b == a
    else
      var (d, s) := Load(lib, a.dir, false, item.org.value, item.request, script.loadFaults);
      var loaded := a.(dir := d);
      if s.Err? || !SameRequest(s.value, item) then !ok && b == loaded
      else if s.value.receipt.Some? then
        if s.value.application == [] && IsDue(a.table, SuppressionKey(item.org.value, item.request, true), script.now)
        then Delivers(lib, s.value.receipt.value, script.reply, script.until, script.ackFaults, loaded, b, ok)
        else ok && b == loaded
      else if SavedHints(a.table) >= CAPACITY then !ok && b == loaded
      else if !IsDue(a.table, SuppressionKey(item.org.value, item.request, false), script.now) then ok && b == loaded
      else Evaluates(lib, c, item, script, loaded, b, ok)
  }
}
