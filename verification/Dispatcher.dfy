/**
  The dispatcher object: its bounded suppression table, saved-receipt recovery
  and fresh evaluation. Every method keeps `Valid`, which says that what the
  dispatcher has done so far is a play of `DispatcherProtocol`.
*/
module Dispatcher {
  import opened Common
  import opened JournalRecords
  import opened JournalSpec
  import opened JournalInvariant
  import opened DispatcherProtocol
  import opened DispatcherSpec
  import J = Journal

  lemma {:induction false} SubsetSize<T>(a: set<T>, b: set<T>)
    requires a <= b
    ensures |a| <= |b|
  {
    if a != {} {
      var x :| x in a;
      SubsetSize(a - {x}, b - {x});
    }
  }

  lemma RecordedSize(t: Table, k: SuppressionKey, key: SuppressionKey, s: Suppression)
    requires k in t && key !in t && |t| <= CAPACITY
    ensures |(t - {k})[key := s]| == |t|
  {
    assert ((t - {k})[key := s]).Keys == t.Keys - {k} + {key};
    assert |t.Keys| == |t| && |((t - {k})[key := s]).Keys| == |(t - {k})[key := s]|;
  }

  lemma EntryKeepsTable(t: Table, sequence: nat, key: SuppressionKey, s: Suppression)
    requires TableOk(t, sequence) && s.sequence == sequence + 1 && (key in t || |t| < CAPACITY)
    ensures TableOk(t[key := s], sequence + 1)
  {
    assert t[key := s].Keys == t.Keys + {key};
    assert |t[key := s]| == |t[key := s].Keys| && |t| == |t.Keys|;
  }

  lemma EvictionKeepsTable(t: Table, sequence: nat, k: SuppressionKey, key: SuppressionKey, s: Suppression)
    requires TableOk(t, sequence) && s.sequence == sequence + 1 && k in t && key !in t
    ensures TableOk((t - {k})[key := s], sequence + 1)
  {
    RecordedSize(t, k, key, s);
  }

  lemma TableGrowsSequence(t: Table, sequence: nat)
    requires TableOk(t, sequence)
    ensures TableOk(t, sequence + 1)
  {
  }

  datatype Page = PageOk(items: seq<Item>, nextCursor: Option<string>) | PageFailed | InvalidCursor

  class Dispatcher {
    const config: Config
    const journal: J.Journal
    var backoff: Table
    var sequence: nat
    var recoveryTurn: bool
    var cursor: string
    var sent: seq<Sent>
    var evaluations: nat
    ghost var start: Sys
    ghost var moves: seq<Move>

    /** The moves so far lead from the start to the present state with this work in hand. */
    ghost predicate Busy(w: Work)
      reads this, journal
    {
      && Faithful(journal.lib) && !journal.closed
      && SysInv(journal.lib, start)
      && Play(journal.lib, start, moves) == Some(Sys(journal.dir, w, sent, evaluations))
      && TableOk(backoff, sequence)
    }

    ghost predicate Valid()
      reads this, journal
    {
      Busy(Idle)
    }

    constructor (config: Config, journal: J.Journal)
      requires Faithful(journal.lib) && !journal.closed && Inv(journal.lib, journal.dir)
      ensures Valid() && this.journal == journal && this.config == config
      ensures sent == [] && evaluations == 0 && backoff == map[] && cursor == ""
    {
      this.config, this.journal := config, journal;
      backoff, sequence, recoveryTurn, cursor := map[], 0, false, "";
      sent, evaluations := [], 0;
      start, moves := Sys(journal.dir, Idle, [], 0), [];
    }

    ghost function Now(): Snap
      reads this, journal
    {
      Snap(journal.dir, backoff, sent, evaluations)
    }

    lemma BusyInv(w: Work)
      requires Busy(w)
      ensures SysInv(journal.lib, Sys(journal.dir, w, sent, evaluations))
    {
      PlayKeepsInv(journal.lib, start, moves);
    }

    lemma Extend(before: Sys, m: Move)
      requires Play(journal.lib, start, moves) == Some(before)
      ensures Play(journal.lib, start, moves + [m]) == Next(journal.lib, before, m)
    {
      PlayAppend(journal.lib, start, moves, [m]);
      var next := Next(journal.lib, before, m);
      assert Play(journal.lib, before, [m]) == if next.None? then None else Play(journal.lib, next.value, [m][1..]);
    }

    function Due(key: SuppressionKey, now: int): bool
      reads this
    {
      IsDue(backoff, key, now)
    }

    method FindOldestFresh() returns (oldest: Option<SuppressionKey>)
      requires TableOk(backoff, sequence)
      ensures oldest.Some? ==> OldestFresh(backoff, oldest.value)
      ensures oldest.None? ==> forall k | k in backoff :: k.savedReceipt
    {
      oldest := None;
      var keys := backoff.Keys;
      while keys != {}
        invariant keys <= backoff.Keys
        invariant oldest.Some? ==> oldest.value in backoff && !oldest.value.savedReceipt
        invariant forall k | k in backoff && k !in keys && !k.savedReceipt ::
                    oldest.Some? && backoff[oldest.value].sequence <= backoff[k].sequence
      {
        var k :| k in keys;
        keys := keys - {k};
        if !k.savedReceipt && (oldest.None? || backoff[k].sequence < backoff[oldest.value].sequence) {
          oldest := Some(k);
        }
      }
    }

    method Suppress(key: SuppressionKey, until: int) returns (ghost s: Suppression)
      requires TableOk(backoff, sequence)
      modifies this`backoff, this`sequence
      ensures TableOk(backoff, sequence) && sequence == old(sequence) + 1
      ensures s.until == until && s.sequence == sequence && s.attempts == AttemptsAfter(old(backoff), key)
      ensures Recorded(old(backoff), backoff, key, s)
    {
      hide TableOk;
      var attempts := if key in backoff then backoff[key].attempts else 0;
      if attempts < MAX_ATTEMPTS { attempts := attempts + 1; }
      var oldest := FindOldestFresh();
      sequence := sequence + 1;
      var entry := Suppression(attempts, until, sequence);
      s := entry;
      if key !in backoff && |backoff| >= CAPACITY {
        if oldest.None? {
          TableGrowsSequence(backoff, sequence - 1);
          return;
        }
        EvictionKeepsTable(backoff, sequence - 1, oldest.value, key, entry);
        backoff := (backoff - {oldest.value})[key := entry];
        return;
      }
      EntryKeepsTable(backoff, sequence - 1, key, entry);
      backoff := backoff[key := entry];
    }

    /** A delivery that failed waits, wherever the table has room; every other saved entry stays as it is. */
    method Postpone(key: SuppressionKey, until: int)
      requires TableOk(backoff, sequence)
      modifies this`backoff, this`sequence
      ensures TableOk(backoff, sequence) && Postponed(old(backoff), backoff, key, until)
      ensures HasRoom(old(backoff), key) ==> key in backoff && backoff[key].until == until
      ensures !HasRoom(old(backoff), key) ==> backoff == old(backoff)
      ensures forall k | k in old(backoff) && k.savedReceipt && k != key :: k in backoff && backoff[k] == old(backoff[k])
    {
      hide Recorded, TableOk;
      ghost var s := Suppress(key, until);
      assert Postponed(old(backoff), backoff, key, until);
      PostponedWaits(old(backoff), backoff, key, until);
      forall k | k in old(backoff) && k.savedReceipt && k != key
        ensures k in backoff && backoff[k] == old(backoff[k])
      {
        SavedEntriesStay(old(backoff), backoff, key, until, k);
      }
    }

    method DeliveryHints() returns (n: nat)
      ensures n == SavedHints(backoff)
    {
      n := 0;
      var keys := backoff.Keys;
      ghost var counted: set<SuppressionKey> := {};
      while keys != {}
        invariant keys <= backoff.Keys && counted == set k | k in backoff && k !in keys && k.savedReceipt
        invariant n == |counted|
      {
        var k :| k in keys;
        keys := keys - {k};
        if k.savedReceipt {
          counted := counted + {k};
          n := n + 1;
        }
      }
      assert counted == set k | k in backoff && k.savedReceipt;
    }

    /** The due saved-receipt hint that has waited longest. */
    method FindDueHint(now: int) returns (hint: Option<SuppressionKey>)
      ensures hint.Some? ==> LongestDue(backoff, hint.value, now)
      ensures hint.None? ==> forall k | k in backoff && k.savedReceipt :: !Due(k, now)
    {
      hint := None;
      var keys := backoff.Keys;
      while keys != {}
        invariant keys <= backoff.Keys
        invariant hint.Some? ==> hint.value in backoff && hint.value.savedReceipt && Due(hint.value, now)
        invariant forall k | k in backoff && k !in keys && k.savedReceipt && Due(k, now) ::
                    hint.Some? && backoff[hint.value].sequence <= backoff[k].sequence
      {
        var k :| k in keys;
        keys := keys - {k};
        if k.savedReceipt && Due(k, now) && (hint.None? || backoff[k].sequence < backoff[hint.value].sequence) {
          hint := Some(k);
        }
      }
    }

    /** One delivery attempt of a durable receipt: exactly its body is sent, once. */
    method Deliver(r: SavedReceipt, reply: Option<Bytes>, until: int, io: Faults) returns (ok: bool)
      requires Busy(Delivering(r))
      modifies this`backoff, this`sequence, this`sent, this`moves, journal`dir
      ensures Valid()
      ensures Delivers(journal.lib, r, reply, until, io, old(Now()), Now(), ok)
      ensures sent == old(sent) + [Sent(r.org, r.request, r.body)]
      ensures ok ==> SavedKey(r) !in backoff && PathOf(journal.lib, r.org, r.request, AckKind) in journal.dir.durable
      ensures reply.None? && HasRoom(old(backoff), SavedKey(r)) ==> SavedKey(r) in backoff && backoff[SavedKey(r)].until == until
      ensures forall k | k in old(backoff) && k.savedReceipt && k != SavedKey(r) :: k in backoff && backoff[k] == old(backoff[k])
    {
      hide Next, Play, SysInv, TableOk, Acknowledge, Postponed, Faithful;
      var key := SavedKey(r);
      ghost var before := Sys(journal.dir, Delivering(r), sent, evaluations);
      Extend(before, Send(reply));
      sent := sent + [Sent(r.org, r.request, r.body)];
      moves := moves + [Send(reply)];
      SendMove(journal.lib, before, reply);
      if reply.None? {
        Postpone(key, until);
        return false;
      }
      ok := FinishDelivery(r, reply.value, until, io);
    }

    /** Records the acknowledgement of a body that was sent. */
    method FinishDelivery(r: SavedReceipt, application: Bytes, until: int, io: Faults) returns (ok: bool)
      requires Busy(Delivered(r, application))
      modifies this`backoff, this`sequence, this`moves, journal`dir
      ensures Valid()
      ensures Concludes(journal.lib, r, Some(application), until, io, old(Now()), Now(), ok)
      ensures ok ==> SavedKey(r) !in backoff && PathOf(journal.lib, r.org, r.request, AckKind) in journal.dir.durable
      ensures Acknowledge(journal.lib, old(journal.dir), false, r.org, r.request, application, io).1.Failed? && HasRoom(old(backoff), SavedKey(r)) ==>
                SavedKey(r) in backoff && backoff[SavedKey(r)].until == until
      ensures forall k | k in old(backoff) && k.savedReceipt && k != SavedKey(r) :: k in backoff && backoff[k] == old(backoff[k])
    {
      hide Next, Play, SysInv, TableOk, Acknowledge, Postponed, Faithful, ParseApplication;
      var key := SavedKey(r);
      ghost var before := Sys(journal.dir, Delivered(r, application), sent, evaluations);
      Extend(before, Ack(io));
      AckMove(journal.lib, before, io);
      var acknowledged := journal.AcknowledgeDelivery(r.org, r.request, application, io);
      moves := moves + [Ack(io)];
      if acknowledged.Failed? {
        Postpone(key, until);
        return false;
      }
      AckIsDurable(journal.lib, before.dir, r.org, r.request, application, io);
      RemovalKeepsTable(backoff, sequence, key);
      backoff := backoff - {key};
      var parsed := ParseApplication(journal.lib, application);
      return parsed.Some? && parsed.value.disposition != "TERMINAL_CONFLICT";
    }

    /** Retries the longest-waiting due hint, from the receipt on disk and never from memory. */
    method RetrySavedHint(script: Script) returns (attempted: bool, ok: bool, ghost hint: Option<SuppressionKey>)
      requires Valid()
      modifies this`backoff, this`sequence, this`sent, this`moves, journal`dir
      ensures Valid()
      ensures hint.None? ==> !AnyDue(old(backoff), script.now) && !attempted && ok && Now() == old(Now())
      ensures hint.Some? ==> LongestDue(old(backoff), hint.value, script.now) && Retries(journal.lib, hint.value, script, old(Now()), Now(), attempted, ok)
      ensures sent == old(sent) || (attempted && |sent| == |old(sent)| + 1 && old(sent) < sent)
      ensures attempted && sent == old(sent) ==> !ok
    {
      hide Next, Play, SysInv, TableOk, LoadRecords, Postponed, Acknowledge;
      var due := FindDueHint(script.now);
      hint := due;
      if due.None? { return false, true, None; }
      var key := due.value;
      BusyInv(Idle);
      ghost var before := Sys(journal.dir, Idle, sent, evaluations);
      LoadMove(journal.lib, before, key.org, key.request, script.loadFaults);
      var s := journal.LoadState(key.org, key.request, script.loadFaults);
      ghost var m := LoadedScan(s);
      Extend(before, m);
      moves := moves + [m];
      if s.Err? {
        Postpone(key, script.until);
        return true, false, hint;
      }
      if s.value.receipt.None? {
        Postpone(key, script.until);
        return true, false, hint;
      }
      if s.value.application != [] {
        RemovalKeepsTable(backoff, sequence, key);
        backoff := backoff - {key};
        return false, true, hint;
      }
      ok := Deliver(s.value.receipt.value, script.reply, script.until, script.ackFaults);
      return true, ok, hint;
    }

    /** Reads on in the directory; delivers the first unacknowledged receipt if it is due. */
    method RecoverScanned(script: Script, entries: nat -> J.Entry, openFault: bool, io: nat -> Faults)
      returns (attempted: bool, ok: bool, ghost found: Option<SavedReceipt>)
      requires Valid()
      modifies this`backoff, this`sequence, this`sent, this`moves, journal`dir, journal`scanning
      ensures Valid()
      ensures found.Some? <==> (!openFault && exists r :: J.FirstPending(journal.lib, old(journal.dir), entries, io, PAGE_LIMIT, r))
      ensures found.Some? ==> J.FirstPending(journal.lib, old(journal.dir), entries, io, PAGE_LIMIT, found.value)
      ensures attempted <==> found.Some? && IsDue(old(backoff), SavedKey(found.value), script.now)
      ensures attempted ==> exists delivered ::
                && Delivers(journal.lib, found.value, script.reply, script.until, script.ackFaults, old(Now()).(dir := Sync(old(journal.dir))), Now(), delivered)
                && (ok <==> delivered && !J.ScanFails(journal.lib, old(journal.dir), entries, io, PAGE_LIMIT))
      ensures !attempted ==> Now() == old(Now()).(dir := journal.dir) && (journal.dir == old(journal.dir) || journal.dir == Sync(old(journal.dir)))
      ensures ok && found.None? ==> forall i: nat | i < PAGE_LIMIT && J.Reached(entries, i) :: J.Settled(old(journal.dir.visible), entries(i))
      ensures !attempted ==> (ok <==> !openFault && !J.ScanFails(journal.lib, old(journal.dir), entries, io, PAGE_LIMIT))
    {
      hide Next, Play, SysInv, TableOk, Faithful, Inv, J.FirstPending, J.ScanFails, J.Reached, J.Readable, Delivers;
      BusyInv(Idle);
      ghost var before := Sys(journal.dir, Idle, sent, evaluations);
      SysInvGivesInv(journal.lib, before);
      var receipts, failed := journal.PendingReceipts(PAGE_LIMIT, entries, openFault, io);
      found := if receipts == [] then None else Some(receipts[0]);
      assert receipts != [] ==> receipts == [receipts[0]];
      if receipts != [] && Due(SuppressionKey(receipts[0].org, receipts[0].request, true), script.now) {
        ghost var hit := Scan(Some(receipts[0]), true);
        ScanMove(journal.lib, before, Some(receipts[0]), true);
        Extend(before, hit);
        moves := moves + [hit];
        assert journal.dir == Sync(old(journal.dir));
        assert Now() == old(Now()).(dir := Sync(old(journal.dir)));
        var delivered := Deliver(receipts[0], script.reply, script.until, script.ackFaults);
        return true, delivered && !failed, found;
      }
      ghost var nothing := Scan(None, journal.dir == Sync(before.dir));
      ScanMove(journal.lib, before, None, nothing.synced);
      Extend(before, nothing);
      moves := moves + [nothing];
      return false, !failed, found;
    }

    /** Alternates due hints with the streaming scan; delivers at most one receipt. */
    method RecoverSaved(script: Script, entries: nat -> J.Entry, openFault: bool, io: nat -> Faults) returns (ok: bool)
      requires Valid()
      modifies this`backoff, this`sequence, this`sent, this`moves, this`recoveryTurn, journal`dir, journal`scanning
      ensures Valid()
      ensures recoveryTurn == !old(recoveryTurn) && evaluations == old(evaluations)
      ensures |sent| <= |old(sent)| + 1 && old(sent) <= sent
      ensures forall k, r | recoveryTurn && LongestDue(old(backoff), k, script.now) && Undelivered(journal.lib, old(journal.dir), k, script.loadFaults, r) ::
                sent == old(sent) + [Sent(r.org, r.request, r.body)]
      ensures forall r | !recoveryTurn && !openFault && J.FirstPending(journal.lib, old(journal.dir), entries, io, PAGE_LIMIT, r)
                         && IsDue(old(backoff), SavedKey(r), script.now) ::
                sent == old(sent) + [Sent(r.org, r.request, r.body)]
      ensures !recoveryTurn && ok ==> !openFault && !J.ScanFails(journal.lib, old(journal.dir), entries, io, PAGE_LIMIT)
      ensures ok && sent == old(sent) ==> !AnyDue(old(backoff), script.now) || exists k :: k in old(backoff) && k !in backoff
    {
      hide Next, Play, SysInv, TableOk, Faithful, Load, J.FirstPending, J.ScanFails, Postponed, Acknowledge;
      recoveryTurn := !recoveryTurn;
      if recoveryTurn {
        var attempted, done, hint := RetrySavedHint(script);
        if hint.Some? { OneLongestDue(old(backoff), old(sequence), hint.value, script.now); }
        if attempted || !done { return done; }
      }
      var attempted, scanned, found := RecoverScanned(script, entries, openFault, io);
      if !recoveryTurn && found.Some? { OneFirstPending(journal.lib, old(journal.dir), entries, io, found.value); }
      if attempted { return scanned; }
      var _, done, _ := RetrySavedHint(script);
      return done && scanned;
    }

    /**
      One discovered request. The organization is asked at most once, and not at
      all while a receipt of the request is visible; at most one body is sent.
    */
    method Process(item: Item, script: Script) returns (ok: bool)
      requires Valid()
      modifies this`backoff, this`sequence, this`sent, this`evaluations, this`moves, journal`dir
      ensures Valid()
      ensures Processes(journal.lib, config, item, script, old(Now()), Now(), ok)
      ensures |sent| <= |old(sent)| + 1 && old(sent) <= sent
      ensures old(evaluations) <= evaluations <= old(evaluations) + 1
    {
      hide Next, Play, SysInv, TableOk, LoadRecords, Admit, SaveReceipt, Delivers, Evaluates;
      if item.org.None? { return false; }
      var org := item.org.value;
      var lib := journal.lib;
      ghost var before := Sys(journal.dir, Idle, sent, evaluations);
      ghost var lookup := Lookup(org, item.request, item.authorizationHash, script.loadFaults);
      Extend(before, lookup);
      LookupMove(lib, before, lookup);
      BusyInv(Idle);
      SysInvGivesInv(lib, before);
      var s := journal.LoadState(org, item.request, script.loadFaults);
      moves := moves + [lookup];
      if s.Err? { return false; }
      if s.value.admission.Some? && s.value.admission.value.authorizationHash != item.authorizationHash { return false; }
      if s.value.receipt.Some? {
        if s.value.application == [] {
          if Due(SuppressionKey(org, item.request, true), script.now) {
            ok := Deliver(s.value.receipt.value, script.reply, script.until, script.ackFaults);
            return;
          }
          Abandon(Delivering(s.value.receipt.value));
        }
        return true;
      }
      LoadedRecords(lib, before.dir.visible, org, item.request, script.loadFaults);
      var hints := DeliveryHints();
      var key := SuppressionKey(org, item.request, false);
      if hints >= CAPACITY || !Due(key, script.now) {
        Abandon(Fresh(org, item.request, item.authorizationHash));
        return hints < CAPACITY;
      }
      ok := EvaluateFresh(key, item, script);
    }

    /** Admission, evaluation, receipt and first delivery of a request with no receipt. */
    method EvaluateFresh(key: SuppressionKey, item: Item, script: Script) returns (ok: bool)
      requires item.org.Some? && key == SuppressionKey(item.org.value, item.request, false) && Busy(Fresh(item.org.value, item.request, item.authorizationHash))
      modifies this`backoff, this`sequence, this`sent, this`evaluations, this`moves, journal`dir
      ensures Valid()
      ensures Evaluates(journal.lib, config, item, script, old(Now()), Now(), ok)
      ensures |sent| <= |old(sent)| + 1 && old(sent) <= sent
      ensures old(evaluations) <= evaluations <= old(evaluations) + 1
    {
      hide Next, Play, SysInv, TableOk, Faithful, Admit, SavesAndDelivers, Recorded;
      var a := AdmissionFor(config, item, script);
      ghost var before := Sys(journal.dir, Fresh(a.org, a.request, a.authorizationHash), sent, evaluations);
      ghost var admit := AdmitMove(a, script.admitFaults);
      Extend(before, admit);
      AdmitMoveNext(journal.lib, before, a, script.admitFaults);
      var admitted := journal.AdmitRequest(a, script.admitFaults);
      moves := moves + [admit];
      if admitted.Failed? { return false; }
      if a.mode != "external" {
        ok := SaveAndDeliver(key, a, Admitted(a), script);
        return;
      }
      before := Sys(journal.dir, Admitted(a), sent, evaluations);
      Extend(before, Evaluate);
      EvaluateMove(journal.lib, before);
      evaluations := evaluations + 1;
      moves := moves + [Evaluate];
      if script.answer.Decided? {
        ok := SaveAndDeliver(key, a, Evaluated(a), script);
        return;
      }
      Abandon(Evaluated(a));
      Postpone(key, script.until);
      return script.answer == StillPending;
    }

    /** Signs and saves the decision, then delivers it. */
    method SaveAndDeliver(key: SuppressionKey, a: Admission, ghost w: Work, script: Script) returns (ok: bool)
      requires Busy(w) && key == SuppressionKey(a.org, a.request, false) && (w == Evaluated(a) || (w == Admitted(a) && a.mode != "external"))
      modifies this`backoff, this`sequence, this`sent, this`moves, journal`dir
      ensures Valid()
      ensures SavesAndDelivers(journal.lib, config, a, script, old(Now()), Now(), ok)
      ensures |sent| <= |old(sent)| + 1 && old(sent) <= sent
    {
      hide Next, Play, SysInv, TableOk, Faithful, SaveReceipt, Delivers;
      if !script.answer.Decided? || script.answer.body.None? { Abandon(w); return false; }
      var receipt := SavedReceipt(1, a.org, a.request, a.authorizationHash, config.keyId, config.publicKey, script.answer.body.value);
      ghost var before := Sys(journal.dir, w, sent, evaluations);
      ghost var save := Save(receipt, script.saveFaults);
      Extend(before, save);
      SaveMove(journal.lib, before, receipt, script.saveFaults);
      var saved := journal.SaveDecision(receipt, script.saveFaults);
      moves := moves + [save];
      if saved.Failed? { return false; }
      RemovalKeepsTable(backoff, sequence, key);
      backoff := backoff - {key};
      ok := Deliver(receipt, script.reply, script.until, script.ackFaults);
    }

    ghost method Abandon(w: Work)
      requires Busy(w)
      modifies this`moves
      ensures Valid()
    {
      hide Next, Play, SysInv, TableOk;
      ghost var before := Sys(journal.dir, w, sent, evaluations);
      Extend(before, GiveUp);
      GiveUpMove(journal.lib, before);
      moves := moves + [GiveUp];
    }

    /**
      One scheduled step: bounded recovery, then one fresh page; `ends` is when
      the context ends before an item. `trail` holds the state before the first
      item and after every item that was processed.
    */
    method Step(cancelled: bool, recovery: Script, entries: nat -> J.Entry, openFault: bool, io: nat -> Faults, page: Page, ends: nat -> bool, scripts: nat -> Script)
      returns (ok: bool, ghost trail: seq<Snap>, ghost answers: seq<bool>)
      requires Valid()
      modifies this`backoff, this`sequence, this`sent, this`evaluations, this`moves, this`recoveryTurn, this`cursor, journal`dir, journal`scanning
      ensures Valid()
      ensures cancelled ==> !ok && Now() == old(Now()) && recoveryTurn == old(recoveryTurn)
      ensures !cancelled ==> recoveryTurn == !old(recoveryTurn)
      ensures old(sent) <= sent && |sent| <= |old(sent)| + 1 + PAGE_LIMIT && evaluations <= old(evaluations) + PAGE_LIMIT
      ensures page.InvalidCursor? && !cancelled ==> cursor == ""
      ensures page.PageFailed? || cancelled ==> cursor == old(cursor)
      ensures page.PageOk? && !cancelled && |page.items| <= PAGE_LIMIT ==>
                && |trail| == |answers| + 1 && trail[|answers|] == Now() && |answers| <= |page.items|
                && (forall i | 0 <= i < |answers| ::
                      !ends(i) && Processes(journal.lib, config, page.items[i], scripts(i), trail[i], trail[i + 1], answers[i]))
                && (|answers| < |page.items| ==> ends(|answers|) && !ok && cursor == old(cursor))
                && (|answers| == |page.items| ==> cursor == if page.nextCursor.Some? then page.nextCursor.value else "")
                && (ok ==> forall i | 0 <= i < |answers| :: answers[i])
    {
      hide Next, Play, SysInv, TableOk, Processes, J.FirstPending, Undelivered, LongestDue;
      trail, answers := [], [];
      if cancelled { return false, [], []; }
      ok := RecoverSaved(recovery, entries, openFault, io);
      if page.InvalidCursor? { cursor := ""; return false, [], []; }
      if page.PageFailed? { return false, [], []; }
      if |page.items| > PAGE_LIMIT { return false, [], []; }
      trail := [Now()];
      for i := 0 to |page.items|
        invariant Valid() && old(sent) <= sent && recoveryTurn == !old(recoveryTurn)
        invariant |sent| <= |old(sent)| + 1 + i && evaluations <= old(evaluations) + i
        invariant cursor == old(cursor) && |answers| == i && |trail| == i + 1 && trail[i] == Now()
        invariant forall k | 0 <= k < i :: !ends(k) && Processes(journal.lib, config, page.items[k], scripts(k), trail[k], trail[k + 1], answers[k])
        invariant ok ==> forall k | 0 <= k < i :: answers[k]
      {
        if ends(i) { return false, trail, answers; }
        var processed := Process(page.items[i], scripts(i));
        ok := ok && processed;
        answers := answers + [processed];
        trail := trail + [Now()];
      }
      cursor := if page.nextCursor.Some? then page.nextCursor.value else "";
    }
  }

  /** The hint's receipt loads and its delivery is not acknowledged. */
  ghost predicate Undelivered(lib: Lib, d: Dir, key: SuppressionKey, io: Faults, r: SavedReceipt) {
    var s := Load(lib, d, false, key.org, key.request, io).1;
    s.Ok? && s.value.receipt == Some(r) && s.value.application == []
  }

  lemma OneLongestDue(t: Table, sequence: nat, k: SuppressionKey, now: int)
    requires TableOk(t, sequence) && LongestDue(t, k, now)
    ensures forall l | LongestDue(t, l, now) :: l == k
  {
  }

  lemma OneFirstPending(lib: Lib, d: Dir, entries: nat -> J.Entry, io: nat -> Faults, r: SavedReceipt)
    requires J.FirstPending(lib, d, entries, io, PAGE_LIMIT, r)
    ensures forall q | J.FirstPending(lib, d, entries, io, PAGE_LIMIT, q) :: q == r
  {
    hide J.Readable, J.PendingAt;
    var i: nat :| i < PAGE_LIMIT && J.PendingAt(lib, d, entries, io, i, r) && J.NothingBefore(lib, d, entries, io, i);
    J.FoundFirst(lib, d, entries, io, PAGE_LIMIT, i, r);
  }

  lemma AckIsDurable(lib: Lib, d: Dir, org: string, request: string, application: Bytes, io: Faults)
    requires Acknowledge(lib, d, false, org, request, application, io).1.Done?
    ensures PathOf(lib, org, request, AckKind) in Acknowledge(lib, d, false, org, request, application, io).0.durable
  {
    hide LoadRecords, ValidApplication;
  }

  lemma RemovalKeepsTable(t: Table, sequence: nat, key: SuppressionKey)
    requires TableOk(t, sequence)
    ensures TableOk(t - {key}, sequence)
  {
    assert (t - {key}).Keys <= t.Keys;
    SubsetSize((t - {key}).Keys, t.Keys);
    assert |(t - {key}).Keys| == |t - {key}| && |t.Keys| == |t|;
  }

  lemma SendMove(lib: Lib, s: Sys, reply: Option<Bytes>)
    requires s.work.Delivering?
    ensures var r := s.work.receipt;
            Next(lib, s, Send(reply)) == Some(s.(sent := s.sent + [Sent(r.org, r.request, r.body)],
                                                 work := if reply.Some? then Delivered(r, reply.value) else Idle))
  {
  }

  lemma AckMove(lib: Lib, s: Sys, io: Faults)
    requires s.work.Delivered?
    ensures Next(lib, s, Ack(io)) ==
            Some(s.(dir := Acknowledge(lib, s.dir, false, s.work.receipt.org, s.work.receipt.request, s.work.application, io).0, work := Idle))
  {
  }

  lemma GiveUpMove(lib: Lib, s: Sys)
    ensures Next(lib, s, GiveUp) == Some(s.(work := Idle))
  {
  }

  lemma EvaluateMove(lib: Lib, s: Sys)
    requires s.work.Admitted? && s.work.admission.mode == "external"
    ensures Next(lib, s, Evaluate) == Some(s.(work := Evaluated(s.work.admission), evaluations := s.evaluations + 1))
  {
  }

  lemma AdmitMoveNext(lib: Lib, s: Sys, a: Admission, io: Faults)
    requires s.work == Fresh(a.org, a.request, a.authorizationHash)
    ensures var (d, r) := Admit(lib, s.dir, false, a, io);
            Next(lib, s, AdmitMove(a, io)) == Some(s.(dir := d, work := if r.Done? then Admitted(a) else Idle))
  {
  }

  lemma SaveMove(lib: Lib, s: Sys, r: SavedReceipt, io: Faults)
    requires s.work.Evaluated? || (s.work.Admitted? && s.work.admission.mode != "external")
    requires r.org == s.work.admission.org && r.request == s.work.admission.request
    ensures var (d, saved) := SaveReceipt(lib, s.dir, false, r, io);
            Next(lib, s, Save(r, io)) == Some(s.(dir := d, work := if saved.Done? then Delivering(r) else Idle))
  {
  }

  lemma ScanMove(lib: Lib, s: Sys, found: Option<SavedReceipt>, synced: bool)
    requires s.work == Idle
    requires found.Some? ==> synced && ReceiptAt(lib, s.dir.visible, KeyOf(lib, found.value)) == found && Name(KeyOf(lib, found.value), AckKind) !in s.dir.visible
    ensures Next(lib, s, Scan(found, synced)) ==
            Some(s.(dir := if synced then Sync(s.dir) else s.dir, work := if found.Some? then Delivering(found.value) else Idle))
  {
  }

  lemma LookupMove(lib: Lib, s: Sys, m: Move)
    requires s.work == Idle && m.Lookup?
    ensures var (d, r) := Load(lib, s.dir, false, m.org, m.request, m.io);
            Next(lib, s, m) == Some(s.(dir := d, work :=
              if r.Err? then Idle
              else if r.value.admission.Some? && r.value.admission.value.authorizationHash != m.authorizationHash then Idle
              else if r.value.receipt.None? then Fresh(m.org, m.request, m.authorizationHash)
              else if r.value.application == [] then Delivering(r.value.receipt.value)
              else Idle))
  {
  }

  lemma SysInvGivesInv(lib: Lib, s: Sys)
    requires SysInv(lib, s)
    ensures Inv(lib, s.dir)
  {
  }

  /** A load by key, seen as a scan step that found its unacknowledged receipt. */
  function LoadedScan(s: Result<State, Error>): Move {
    if s.Err? then Scan(None, false)
    else if s.value.receipt.Some? && s.value.application == [] then Scan(s.value.receipt, true)
    else Scan(None, true)
  }

  lemma LoadMove(lib: Lib, s: Sys, org: string, request: string, io: Faults)
    requires SysInv(lib, s) && s.work == Idle
    ensures var (d, r) := Load(lib, s.dir, false, org, request, io);
            Next(lib, s, LoadedScan(r)) ==
            Some(s.(dir := d, work := if LoadedScan(r).found.Some? then Delivering(LoadedScan(r).found.value) else Idle))
  {
    hide LoadRecords, RecordOk;
    LoadKeepsInv(lib, s.dir, false, org, request, io);
    var (d, r) := Load(lib, s.dir, false, org, request, io);
    if r.Ok? {
      LoadedRecords(lib, s.dir.visible, org, request, io);
      if r.value.receipt.Some? {
        ReceiptOwner(lib, s.dir, RecordKey(lib, org, request));
      }
    }
  }
}
