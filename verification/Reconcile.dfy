/** Startup reconciliation of the actionable listing against the artifact stores. */
module Reconcile {
  import opened Common
  import opened Base64
  import opened Artifacts
  import opened DkgTerminal
  import opened ListingOrder

  datatype Item = Item(
    intent: Listed, typeText: string, status: string, org: string, createdAt: int, deadline: int, deadlineRaw: string)

  datatype Listing = Listing(httpStatus: int, ownClaimed: seq<Item>, pending: seq<Item>)

  datatype Claim = Claim(
    httpStatus: int, status: string, typeText: string, intent: Listed, org: string, deadline: int, deadlineRaw: string)

  datatype ClaimAnswer = Claimed(claim: Claim) | ClaimUnclear | ClaimError

  datatype Preflight = PreflightOk | PreflightFailed | PreflightCancelled

  /** Everything outside: the libraries, the answers of the backend and of the stores, and the clock. */
  datatype World = World(
    setting: Setting, parseTime: string -> Option<int>, now: int,
    listing: Option<Listing>, preflight: Preflight,
    primaryExists: string -> Option<bool>, recoveryExists: string -> Option<bool>,
    primaryBytes: string -> Option<Bytes>, recoveryBytes: string -> Option<Bytes>,
    claim: string -> ClaimAnswer)

  datatype Disposition = Eligible | PublicationRequired | Deferred | FreshPoll | Integrity

  datatype Report = Errored | Report(disposition: Disposition, job: Option<Job>, deadlineRaw: string)

  /** The calls reconciliation makes, in order. */
  datatype Call = ListCall | PreflightCall | PrimaryLookup(key: string) | RecoveryLookup(key: string) | ClaimCall(id: string)

  /** `validateDKGIntent`. */
  predicate DkgItemOk(w: World, i: Item) {
    var d := ParseDescriptor(w.setting.lib, i.intent.descriptorBytes);
    && i.intent.intentId != "" && i.intent.sessionId != "" && i.intent.keyId != "" && i.org != ""
    && i.deadline != w.setting.zero && i.deadlineRaw != ""
    && FailedJob(w.setting.lib, w.setting.terminal, i.intent.intentId, i.intent.sessionId, i.intent.keyId).Some?
    && w.parseTime(i.deadlineRaw) == Some(i.deadline)
    && d.Some? && ParseDigest(i.intent.descriptorFingerprint) == Some(w.setting.lib.sha256(i.intent.descriptorBytes))
    && d.value.keyId == i.intent.keyId
  }

  /** An own claimed item, or a pending one. */
  predicate ItemOk(w: World, claimed: bool, i: Item) {
    if claimed then i.typeText == "DKG" && i.status == "CLAIMED" && DkgItemOk(w, i)
    else i.status == "PENDING" && (i.typeText == "SIGN" || (i.typeText == "DKG" && DkgItemOk(w, i) && i.deadline > w.now))
  }

  function All(l: Listing): seq<Item> {
    l.ownClaimed + l.pending
  }

  predicate ItemsOk(w: World, claimed: nat, items: seq<Item>) {
    forall i | 0 <= i < |items| :: ItemOk(w, i < claimed, items[i])
  }

  predicate DistinctIds(items: seq<Item>) {
    forall i, j | 0 <= i < j < |items| :: items[i].intent.intentId != items[j].intent.intentId
  }

  function StampOf(i: Item): Stamp {
    Stamp(i.createdAt, i.intent.intentId)
  }

  predicate InOrder(items: seq<Item>) {
    forall i, j | 0 <= i < j < |items| :: !Before(StampOf(items[j]), StampOf(items[i]))
  }

  /** What a listing has to be, without the order of the checks. */
  predicate GoodListing(w: World, l: Listing) {
    && l.httpStatus == 200 && |l.ownClaimed| <= 1
    && ItemsOk(w, |l.ownClaimed|, All(l)) && DistinctIds(All(l)) && InOrder(l.pending)
  }

  method CheckItems(w: World, claimed: nat, items: seq<Item>) returns (ok: bool)
    ensures ok <==> ItemsOk(w, claimed, items) && DistinctIds(items)
  {
    hide ItemOk;
    var seen: set<string> := {};
    for n := 0 to |items|
      invariant forall i | 0 <= i < n :: ItemOk(w, i < claimed, items[i])
      invariant forall i, j | 0 <= i < j < n :: items[i].intent.intentId != items[j].intent.intentId
      invariant forall i | 0 <= i < n :: items[i].intent.intentId in seen
      invariant forall id | id in seen :: exists i :: 0 <= i < n && items[i].intent.intentId == id
    {
      if !ItemOk(w, n < claimed, items[n]) || items[n].intent.intentId in seen {
        return false;
      }
      seen := seen + {items[n].intent.intentId};
    }
    return true;
  }

  /** `validateListing`. */
  method ValidateListing(w: World, l: Listing) returns (ok: bool)
    ensures ok <==> GoodListing(w, l)
  {
    hide ItemsOk, DistinctIds, Before;
    if l.httpStatus != 200 || |l.ownClaimed| > 1 {
      return false;
    }
    ok := CheckItems(w, |l.ownClaimed|, All(l));
    if ok {
      var stamps := seq(|l.pending|, i requires 0 <= i < |l.pending| => StampOf(l.pending[i]));
      assert forall i | 0 <= i < |l.pending| :: stamps[i] == StampOf(l.pending[i]);
      ok := IsOrdered(stamps);
    }
  }

  // ---- The decision ----

  /** A listed DKG intent, with whether it is already claimed by this co-signer. */
  datatype Actionable = Actionable(item: Item, claimed: bool)

  function OwnClaimed(items: seq<Item>): seq<Actionable> {
    seq(|items|, i requires 0 <= i < |items| => Actionable(items[i], true))
  }

  function PendingDkg(items: seq<Item>): seq<Actionable> {
    if items == [] then []
    else
      var last := items[|items| - 1];
      PendingDkg(items[..|items| - 1]) + (if last.typeText == "DKG" then [Actionable(last, false)] else [])
  }

  function ActionableOf(l: Listing): seq<Actionable> {
    OwnClaimed(l.ownClaimed) + PendingDkg(l.pending)
  }

  function KeyOf(a: Actionable): string {
    a.item.intent.keyId
  }

  predicate LookupFails(w: World, a: Actionable) {
    w.primaryExists(KeyOf(a)).None? || w.recoveryExists(KeyOf(a)).None?
  }

  /** Something of this intent may have to be published. */
  predicate Candidate(w: World, a: Actionable) {
    a.claimed || w.primaryExists(KeyOf(a)) == Some(true) || w.recoveryExists(KeyOf(a)) == Some(true)
  }

  /** `validateClaim`. */
  predicate ClaimMatches(i: Item, c: Claim) {
    && c.httpStatus == 200 && c.status == "CLAIMED" && c.typeText == "DKG"
    && c.intent == i.intent && c.org == i.org && c.deadlineRaw == i.deadlineRaw && c.deadline == i.deadline
  }

  function StartupJob(w: World, i: Item): Option<Job> {
    var key := i.intent.keyId;
    if w.primaryExists(key) != Some(true) || w.recoveryExists(key) != Some(true)
    then FailedJob(w.setting.lib, w.setting.terminal, i.intent.intentId, i.intent.sessionId, key)
    else Reconstruct(w.setting, i.intent, w.primaryBytes(key), w.recoveryBytes(key))
  }

  /** What becomes of the only candidate. */
  predicate Resolution(w: World, a: Actionable, r: Report, claims: seq<Call>) {
    var i := a.item;
    if a.claimed then
      claims == [] && r == Report(PublicationRequired, StartupJob(w, i), i.deadlineRaw)
    else
      && claims == [ClaimCall(i.intent.intentId)]
      && match w.claim(i.intent.intentId)
         case ClaimUnclear => r == Report(FreshPoll, None, i.deadlineRaw)
         case ClaimError => r == Errored
         case Claimed(c) =>
           if !ClaimMatches(i, c) then r == Report(Integrity, None, i.deadlineRaw)
           else r == Report(PublicationRequired,
                            FailedJob(w.setting.lib, w.setting.terminal, i.intent.intentId, i.intent.sessionId, i.intent.keyId),
                            i.deadlineRaw)
  }

  function Lookups(a: seq<Actionable>): seq<Call> {
    if a == [] then []
    else
      var key := KeyOf(a[|a| - 1]);
      Lookups(a[..|a| - 1]) + [PrimaryLookup(key), RecoveryLookup(key)]
  }

  function FirstPendingDeadline(a: seq<Actionable>): string {
    if a == [] then "" else if !a[0].claimed then a[0].item.deadlineRaw else FirstPendingDeadline(a[1..])
  }

  ghost predicate Unique(w: World, a: seq<Actionable>, k: nat) {
    k < |a| && forall m | 0 <= m < |a| :: Candidate(w, a[m]) <==> m == k
  }

  ghost predicate NoCandidate(w: World, a: seq<Actionable>) {
    forall m | 0 <= m < |a| :: !Candidate(w, a[m])
  }

  /** What reconciliation may answer once every lookup succeeded. */
  ghost predicate Decided(w: World, a: seq<Actionable>, r: Report, claims: seq<Call>) {
    || (NoCandidate(w, a) && claims == [] && r == Report(Eligible, None, FirstPendingDeadline(a)))
    || (exists k: nat :: Unique(w, a, k) && Resolution(w, a[k], r, claims))
    || (!NoCandidate(w, a) && !(exists k: nat :: Unique(w, a, k)) && claims == [] && r == Report(Integrity, None, ""))
  }

  /** The lookup of item `n` is the first to fail. */
  ghost predicate FirstFailure(w: World, a: seq<Actionable>, n: nat) {
    n < |a| && LookupFails(w, a[n]) && forall m | 0 <= m < n :: !LookupFails(w, a[m])
  }

  predicate NoClaim(log: seq<Call>) {
    forall i | 0 <= i < |log| :: !log[i].ClaimCall?
  }

  /** The answer and the calls of a reconciliation, for every world. */
  ghost predicate Right(w: World, r: Report, log: seq<Call>) {
    if w.listing.None? then r == Errored && log == [ListCall]
    else if !GoodListing(w, w.listing.value) then r == Report(Integrity, None, "") && log == [ListCall]
    else if w.preflight != PreflightOk then
      log == [ListCall, PreflightCall] && r == if w.preflight == PreflightCancelled then Errored else Report(Deferred, None, "")
    else
      var a := ActionableOf(w.listing.value);
      || (exists n: nat :: FirstFailure(w, a, n) && r == Report(Deferred, None, a[n].item.deadlineRaw) && NoClaim(log))
      || ((forall m | 0 <= m < |a| :: !LookupFails(w, a[m]))
          && exists claims: seq<Call> :: log == [ListCall, PreflightCall] + Lookups(a) + claims && Decided(w, a, r, claims))
  }

  // ---- The reconciler ----

  method CollectActionable(l: Listing) returns (a: seq<Actionable>)
    ensures a == ActionableOf(l)
  {
    a := [];
    for i := 0 to |l.ownClaimed|
      invariant a == OwnClaimed(l.ownClaimed)[..i]
    {
      a := a + [Actionable(l.ownClaimed[i], true)];
    }
    ghost var own := a;
    for i := 0 to |l.pending|
      invariant a == own + PendingDkg(l.pending[..i])
    {
      assert l.pending[..i + 1][..i] == l.pending[..i];
      if l.pending[i].typeText == "DKG" {
        a := a + [Actionable(l.pending[i], false)];
      }
    }
    assert l.pending[..|l.pending|] == l.pending;
  }

  function Count(w: World, a: seq<Actionable>): nat {
    if a == [] then 0 else Count(w, a[..|a| - 1]) + (if Candidate(w, a[|a| - 1]) then 1 else 0)
  }

  /** The lookups: how many candidates there are, or the first lookup that failed. */
  method LookUp(w: World, a: seq<Actionable>) returns (candidates: nat, failed: Option<nat>, log: seq<Call>)
    ensures NoClaim(log)
    ensures failed.Some? ==> FirstFailure(w, a, failed.value)
    ensures failed.None? ==> (forall m | 0 <= m < |a| :: !LookupFails(w, a[m])) && candidates == Count(w, a) && log == Lookups(a)
  {
    candidates, failed, log := 0, None, [];
    for n := 0 to |a|
      invariant (forall m | 0 <= m < n :: !LookupFails(w, a[m])) && NoClaim(log)
      invariant candidates == Count(w, a[..n]) && log == Lookups(a[..n]) && failed.None?
    {
      assert a[..n + 1][..n] == a[..n];
      var key := KeyOf(a[n]);
      log := log + [PrimaryLookup(key)];
      var primary := w.primaryExists(key);
      if primary.None? {
        failed := Some(n);
        return;
      }
      log := log + [RecoveryLookup(key)];
      var recovery := w.recoveryExists(key);
      if recovery.None? {
        failed := Some(n);
        return;
      }
      if a[n].claimed || primary.value || recovery.value {
        candidates := candidates + 1;
      }
    }
    assert a[..|a|] == a;
  }

  lemma {:induction false} CountZero(w: World, a: seq<Actionable>)
    ensures Count(w, a) == 0 <==> NoCandidate(w, a)
  {
    if a != [] {
      var front := a[..|a| - 1];
      CountZero(w, front);
      assert forall m | 0 <= m < |front| :: front[m] == a[m];
    }
  }

  lemma {:induction false} CountOne(w: World, a: seq<Actionable>, k: nat)
    requires k < |a| && Candidate(w, a[k])
    ensures Count(w, a) >= 1 && (Count(w, a) == 1 <==> Unique(w, a, k))
  {
    var front := a[..|a| - 1];
    assert forall m | 0 <= m < |front| :: front[m] == a[m];
    if k == |a| - 1 {
      CountZero(w, front);
    } else {
      CountOne(w, front, k);
    }
  }

  /** The startup job of a validated claimed intent always exists. */
  lemma StartupJobExists(w: World, i: Item)
    requires DkgItemOk(w, i)
    ensures StartupJob(w, i).Some?
  {
    hide Inspect, ParseDigest, EvidenceMatches, CompletedJob, NewJob, ParseDescriptor;
  }

  method ResolveCandidate(w: World, a: Actionable) returns (r: Report, claims: seq<Call>)
    requires ItemOk(w, a.claimed, a.item) && a.item.typeText == "DKG"
    ensures Resolution(w, a, r, claims)
  {
    hide Reconstruct, FailedJob, DkgItemOk;
    var i := a.item;
    claims := [];
    if a.claimed {
      return Report(PublicationRequired, StartupJob(w, i), i.deadlineRaw), [];
    }
    claims := [ClaimCall(i.intent.intentId)];
    match w.claim(i.intent.intentId)
    case ClaimUnclear => r := Report(FreshPoll, None, i.deadlineRaw);
    case ClaimError => r := Errored;
    case Claimed(c) =>
      if !ClaimMatches(i, c) {
        r := Report(Integrity, None, i.deadlineRaw);
      } else {
        var job := FailedJob(w.setting.lib, w.setting.terminal, c.intent.intentId, c.intent.sessionId, c.intent.keyId);
        assert job.Some? by { ItemHasFailedJob(w, i); }
        r := Report(PublicationRequired, job, i.deadlineRaw);
      }
  }

  lemma ItemHasFailedJob(w: World, i: Item)
    requires DkgItemOk(w, i)
    ensures FailedJob(w.setting.lib, w.setting.terminal, i.intent.intentId, i.intent.sessionId, i.intent.keyId).Some?
  {
  }

  /** Every actionable item of a good listing is a validated DKG item. */
  lemma ActionableItemsOk(w: World, l: Listing, k: nat)
    requires GoodListing(w, l) && k < |ActionableOf(l)|
    ensures var a := ActionableOf(l)[k]; a.item.typeText == "DKG" && ItemOk(w, a.claimed, a.item) && DkgItemOk(w, a.item)
  {
    hide DkgItemOk, DistinctIds, InOrder;
    var own := OwnClaimed(l.ownClaimed);
    if k < |own| {
      assert All(l)[k] == l.ownClaimed[k] && ActionableOf(l)[k] == own[k];
    } else {
      var p := PendingComesFrom(l.pending, k - |own|);
      assert All(l)[|l.ownClaimed| + p] == l.pending[p];
    }
  }

  lemma {:induction false} PendingComesFrom(items: seq<Item>, k: nat) returns (p: nat)
    requires k < |PendingDkg(items)|
    ensures p < |items| && items[p].typeText == "DKG" && PendingDkg(items)[k] == Actionable(items[p], false)
  {
    var front := items[..|items| - 1];
    if k < |PendingDkg(front)| {
      p := PendingComesFrom(front, k);
    } else {
      p := |items| - 1;
    }
  }

  /** `Reconcile`: list, validate, preflight, look everything up, then decide. */
  method Reconcile(w: World) returns (r: Report, log: seq<Call>)
    ensures Right(w, r, log)
  {
    hide GoodListing, ActionableOf, LookupFails, Candidate, Resolution, Count, FirstPendingDeadline, ItemOk;
    log := [ListCall];
    if w.listing.None? {
      return Errored, log;
    }
    var good := ValidateListing(w, w.listing.value);
    if !good {
      return Report(Integrity, None, ""), log;
    }
    log := log + [PreflightCall];
    if w.preflight != PreflightOk {
      return if w.preflight == PreflightCancelled then Errored else Report(Deferred, None, ""), log;
    }
    var a := CollectActionable(w.listing.value);
    var candidates, failed, looked := LookUp(w, a);
    log := log + looked;
    if failed.Some? {
      return Report(Deferred, None, a[failed.value].item.deadlineRaw), log;
    }
    var claims;
    r, claims := Decide(w, w.listing.value, a, candidates);
    log := log + claims;
  }

  /** The decision once every lookup succeeded; the trailing answer after the second pass is never reached. */
  method Decide(w: World, l: Listing, a: seq<Actionable>, candidates: nat) returns (r: Report, claims: seq<Call>)
    requires GoodListing(w, l) && a == ActionableOf(l) && candidates == Count(w, a)
    ensures Decided(w, a, r, claims)
  {
    hide GoodListing, ActionableOf, LookupFails, Candidate, Resolution, Count, FirstPendingDeadline, ItemOk;
    claims := [];
    CountZero(w, a);
    if candidates == 0 {
      var deadline := FirstPending(a);
      return Report(Eligible, None, deadline), [];
    }
    if candidates > 1 {
      forall k | 0 <= k < |a| && Candidate(w, a[k])
        ensures !Unique(w, a, k)
      {
        CountOne(w, a, k);
      }
      return Report(Integrity, None, ""), [];
    }
    for k := 0 to |a|
      invariant forall m | 0 <= m < k :: !Candidate(w, a[m])
    {
      if Candidate(w, a[k]) {
        CountOne(w, a, k);
        ActionableItemsOk(w, l, k);
        r, claims := ResolveCandidate(w, a[k]);
        assert Unique(w, a, k);
        return;
      }
    }
    assert false;
  }

  method FirstPending(a: seq<Actionable>) returns (deadline: string)
    ensures deadline == FirstPendingDeadline(a)
  {
    for i := 0 to |a|
      invariant FirstPendingDeadline(a) == FirstPendingDeadline(a[i..])
    {
      if !a[i].claimed {
        return a[i].item.deadlineRaw;
      }
      assert a[i..][1..] == a[i + 1..];
    }
    return "";
  }

  // ---- Main results ----

  /**
    A claim is made at most once, as the last call, only for a listing that is
    good, after the preflight and after both lookups of every actionable intent.
  */
  lemma ClaimComesLast(w: World, r: Report, log: seq<Call>, i: nat)
    requires Right(w, r, log) && i < |log| && log[i].ClaimCall?
    ensures w.listing.Some? && GoodListing(w, w.listing.value) && w.preflight == PreflightOk
    ensures i == |log| - 1 && log[..i] == [ListCall, PreflightCall] + Lookups(ActionableOf(w.listing.value))
  {
    hide GoodListing, ActionableOf, LookupFails, Candidate, StartupJob, FailedJob, FirstPendingDeadline, Lookups;
    var a := ActionableOf(w.listing.value);
    LookupsDoNotClaim(a);
    var prefix := [ListCall, PreflightCall] + Lookups(a);
    var claims: seq<Call> :| log == prefix + claims && Decided(w, a, r, claims);
    assert |claims| <= 1;
    assert i >= |prefix|;
    assert log[..i] == prefix;
  }

  lemma {:induction false} LookupsDoNotClaim(a: seq<Actionable>)
    ensures NoClaim(Lookups(a))
  {
    if a != [] {
      LookupsDoNotClaim(a[..|a| - 1]);
    }
  }

  /** A job is returned only for the one and only candidate, and it is that intent's job. */
  lemma JobIsTheCandidates(w: World, r: Report, log: seq<Call>) returns (k: nat)
    requires Right(w, r, log) && r.Report? && r.job.Some?
    ensures w.listing.Some? && GoodListing(w, w.listing.value)
    ensures var a := ActionableOf(w.listing.value);
            && Unique(w, a, k) && r.disposition == PublicationRequired
            && r.job == (if a[k].claimed then StartupJob(w, a[k].item)
                         else var i := a[k].item.intent;
                              FailedJob(w.setting.lib, w.setting.terminal, i.intentId, i.sessionId, i.keyId))
            && (!a[k].claimed ==> w.claim(a[k].item.intent.intentId).Claimed?
                                  && ClaimMatches(a[k].item, w.claim(a[k].item.intent.intentId).claim))
  {
    hide GoodListing, ActionableOf, LookupFails, Candidate, StartupJob, FailedJob, FirstPendingDeadline, Lookups;
    var a := ActionableOf(w.listing.value);
    var claims: seq<Call> :| log == [ListCall, PreflightCall] + Lookups(a) + claims && Decided(w, a, r, claims);
    k :| Unique(w, a, k) && Resolution(w, a[k], r, claims);
  }

  /** COMPLETED is only ever reported for an intent this co-signer already owned, with two artifacts that match. */
  lemma CompletedNeedsBothArtifacts(w: World, r: Report, log: seq<Call>) returns (k: nat)
    requires Right(w, r, log) && r.Report? && r.job.Some? && r.job.value.status == CompletedStatus
    ensures w.listing.Some? && k < |w.listing.value.ownClaimed|
    ensures var i := w.listing.value.ownClaimed[k].intent;
            var p := Inspect(w.setting.lib, PrimaryPurpose, ExpectedOf(i), w.primaryBytes(i.keyId));
            var q := Inspect(w.setting.lib, RecoveryPurpose, ExpectedOf(i), w.recoveryBytes(i.keyId));
            && w.primaryExists(i.keyId) == Some(true) && w.recoveryExists(i.keyId) == Some(true)
            && p.Some? && q.Some? && EvidenceMatches(i, p.value, q.value)
            && r.job == CompletedJob(w.setting.lib, w.setting.terminal, i.intentId, i.sessionId, i.keyId, p.value, q.value)
  {
    hide Right, GoodListing, LookupFails, Candidate, Inspect, EvidenceMatches, CompletedJob, NewJob, FirstPendingDeadline;
    k := JobIsTheCandidates(w, r, log);
    var l := w.listing.value;
    var item := ActionableOf(l)[k].item;
    NewJobHasStatus(w.setting.lib, w.setting.terminal,
                    TerminalResult(item.intent.intentId, item.intent.keyId, None, item.intent.sessionId, FailedStatus));
    assert ActionableOf(l)[k].claimed;
    ClaimedAreFirst(l, k);
  }

  lemma ClaimedAreFirst(l: Listing, k: nat)
    requires k < |ActionableOf(l)| && ActionableOf(l)[k].claimed
    ensures k < |l.ownClaimed| && ActionableOf(l)[k].item == l.ownClaimed[k]
  {
    if k >= |l.ownClaimed| {
      var p := PendingComesFrom(l.pending, k - |l.ownClaimed|);
      assert false;
    }
  }

  /** Eligible means that nothing listed needs a terminal publication, and such a world is always eligible. */
  lemma EligibleExactly(w: World, r: Report, log: seq<Call>)
    requires Right(w, r, log)
    ensures (r.Report? && r.disposition == Eligible) <==>
            && w.listing.Some? && GoodListing(w, w.listing.value) && w.preflight == PreflightOk
            && (forall m | 0 <= m < |ActionableOf(w.listing.value)| :: !LookupFails(w, ActionableOf(w.listing.value)[m]))
            && NoCandidate(w, ActionableOf(w.listing.value))
  {
    hide GoodListing, ActionableOf, LookupFails, Candidate, StartupJob, FailedJob, FirstPendingDeadline, Lookups;
  }
}
