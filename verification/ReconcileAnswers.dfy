/** Which listings are accepted, and what reconciliation answers, in terms of the listed items themselves. */
module ReconcileAnswers {
  import opened Common
  import opened Base64
  import opened Artifacts
  import opened DkgTerminal
  import opened TerminalContents
  import opened ListingOrder
  import opened Reconcile

  // ---- Listings ----

  /** Some first difference decides, or the first text ends there. */
  ghost predicate Lexicographic(a: string, b: string) {
    exists k :: 0 <= k <= |a| && k < |b| && a[..k] == b[..k] && (k == |a| || a[k] < b[k])
  }

  lemma {:induction false} TextBeforeExactly(a: string, b: string)
    ensures TextBefore(a, b) <==> Lexicographic(a, b)
  {
    if a != "" && b != "" && a[0] == b[0] {
      TextBeforeExactly(a[1..], b[1..]);
      if Lexicographic(a[1..], b[1..]) {
        var k :| 0 <= k <= |a[1..]| && k < |b[1..]| && a[1..][..k] == b[1..][..k] && (k == |a[1..]| || a[1..][k] < b[1..][k]);
        assert a[..k + 1] == [a[0]] + a[1..][..k] && b[..k + 1] == [b[0]] + b[1..][..k];
      }
      if Lexicographic(a, b) {
        var k :| 0 <= k <= |a| && k < |b| && a[..k] == b[..k] && (k == |a| || a[k] < b[k]);
        assert k > 0 && a[1..][..k - 1] == a[..k][1..] && b[1..][..k - 1] == b[..k][1..];
      }
    } else if b != "" && (a == "" || a[0] < b[0]) {
      assert a[..0] == b[..0];
    } else {
      forall k | 0 < k <= |a| && k < |b|
        ensures a[..k] != b[..k]
      {
        assert a[..k][0] == a[0] && b[..k][0] == b[0];
      }
    }
  }

  /** By creation time, and by identifier within one instant. */
  ghost predicate Sequenced(items: seq<Item>) {
    forall i, j | 0 <= i < j < |items| ::
      && items[i].createdAt <= items[j].createdAt
      && (items[i].createdAt == items[j].createdAt && items[i].intent.intentId != items[j].intent.intentId ==>
            Lexicographic(items[i].intent.intentId, items[j].intent.intentId))
  }

  lemma SequencedExactly(items: seq<Item>)
    ensures InOrder(items) <==> Sequenced(items)
  {
    hide Lexicographic, TextBefore;
    forall i, j | 0 <= i < j < |items|
      ensures !Before(StampOf(items[j]), StampOf(items[i])) <==>
                && items[i].createdAt <= items[j].createdAt
                && (items[i].createdAt == items[j].createdAt && items[i].intent.intentId != items[j].intent.intentId ==>
                      Lexicographic(items[i].intent.intentId, items[j].intent.intentId))
    {
      TextOrderIsTotal(items[i].intent.intentId, items[j].intent.intentId);
      TextBeforeExactly(items[i].intent.intentId, items[j].intent.intentId);
    }
  }

  /** A listed DKG intent is complete, its deadline reads as it says, its failure can be reported, and its descriptor is its key's. */
  predicate Sound(w: World, i: Item) {
    var d := ParseDescriptor(w.setting.lib, i.intent.descriptorBytes);
    && i.intent.intentId != "" && i.intent.sessionId != "" && i.intent.keyId != "" && i.org != ""
    && i.deadlineRaw != "" && i.deadline != w.setting.zero && w.parseTime(i.deadlineRaw) == Some(i.deadline)
    && Encodable(w.setting.lib, w.setting.terminal, FailedOver(i.intent))
    && d.Some? && d.value.keyId == i.intent.keyId && FingerprintOk(w.setting.lib, i.intent)
  }

  lemma SoundExactly(w: World, i: Item)
    ensures DkgItemOk(w, i) <==> Sound(w, i)
  {
    hide ParseDigest, DigestText, ParseDescriptor;
    FingerprintParses(w.setting.lib, i.intent);
  }

  /** At most one own claimed DKG intent, unexpired pending ones in order, and no identifier twice. */
  ghost predicate Acceptable(w: World, l: Listing) {
    && l.httpStatus == 200 && |l.ownClaimed| <= 1 && Sequenced(l.pending)
    && (forall i | i in l.ownClaimed :: i.typeText == "DKG" && i.status == "CLAIMED" && Sound(w, i))
    && (forall i | i in l.pending ::
          && i.status == "PENDING" && (i.typeText == "SIGN" || i.typeText == "DKG")
          && (i.typeText == "DKG" ==> Sound(w, i) && i.deadline > w.now))
    && (forall m, n | 0 <= m < n < |l.pending| :: l.pending[m].intent.intentId != l.pending[n].intent.intentId)
    && (forall i, j | i in l.ownClaimed && j in l.pending :: i.intent.intentId != j.intent.intentId)
  }

  /** A listing is good if and only if it is acceptable, whatever the order of the checks. */
  lemma GoodListingExactly(w: World, l: Listing)
    ensures GoodListing(w, l) <==> Acceptable(w, l)
  {
    hide DkgItemOk, Sound, Sequenced, InOrder;
    SequencedExactly(l.pending);
    forall i ensures DkgItemOk(w, i) <==> Sound(w, i) { SoundExactly(w, i); }
    if |l.ownClaimed| <= 1 {
      var all, own := All(l), |l.ownClaimed|;
      assert forall n | 0 <= n < |all| :: all[n] == if n < own then l.ownClaimed[n] else l.pending[n - own];
      assert forall n | 0 <= n < |l.pending| :: all[own + n] == l.pending[n];
      assert forall n | 0 <= n < own :: all[n] == l.ownClaimed[n];
    }
  }

  // ---- Answers ----

  predicate HasArtifact(w: World, i: Item) {
    w.primaryExists(i.intent.keyId) == Some(true) || w.recoveryExists(i.intent.keyId) == Some(true)
  }

  /** Both stores say whether they hold the key. */
  predicate StoresAnswer(w: World, i: Item) {
    w.primaryExists(i.intent.keyId).Some? && w.recoveryExists(i.intent.keyId).Some?
  }

  predicate Listed(l: Listing, i: Item) {
    i in l.ownClaimed || (i in l.pending && i.typeText == "DKG")
  }

  /** Something of this intent may have to be published: it is claimed already, or an artifact of it exists. */
  predicate NeedsWork(w: World, l: Listing, i: Item) {
    i in l.ownClaimed || (i in l.pending && i.typeText == "DKG" && HasArtifact(w, i))
  }

  lemma {:induction false} PendingIsFound(items: seq<Item>, p: nat) returns (k: nat)
    requires p < |items| && items[p].typeText == "DKG"
    ensures k < |PendingDkg(items)| && PendingDkg(items)[k] == Actionable(items[p], false)
  {
    var front := items[..|items| - 1];
    if p < |front| {
      k := PendingIsFound(front, p);
    } else {
      k := |PendingDkg(front)|;
    }
  }

  /** Every own claimed intent and every pending DKG intent is looked at, and nothing else. */
  lemma ActionableIsListed(l: Listing, i: Item, claimed: bool)
    ensures Actionable(i, claimed) in ActionableOf(l) <==> if claimed then i in l.ownClaimed else i in l.pending && i.typeText == "DKG"
  {
    var own, a := OwnClaimed(l.ownClaimed), ActionableOf(l);
    if Actionable(i, claimed) in a {
      var k :| 0 <= k < |a| && a[k] == Actionable(i, claimed);
      if k >= |own| {
        var p := PendingComesFrom(l.pending, k - |own|);
      }
    }
    if claimed && i in l.ownClaimed {
      var n :| 0 <= n < |l.ownClaimed| && l.ownClaimed[n] == i;
      assert a[n] == own[n] == Actionable(i, true);
    }
    if !claimed && i in l.pending && i.typeText == "DKG" {
      var p :| 0 <= p < |l.pending| && l.pending[p] == i;
      var k := PendingIsFound(l.pending, p);
      assert a[|own| + k] == Actionable(i, false);
    }
  }

  /** The preflight passed and every store answered for every listed DKG intent of a good listing. */
  ghost predicate Answerable(w: World) {
    && w.listing.Some? && Acceptable(w, w.listing.value) && w.preflight == PreflightOk
    && forall i | Listed(w.listing.value, i) :: StoresAnswer(w, i)
  }

  lemma LookupsAnswer(w: World, l: Listing)
    ensures (forall m | 0 <= m < |ActionableOf(l)| :: !LookupFails(w, ActionableOf(l)[m])) <==> (forall i | Listed(l, i) :: StoresAnswer(w, i))
  {
    hide ActionableOf;
    var a := ActionableOf(l);
    if forall m | 0 <= m < |a| :: !LookupFails(w, a[m]) {
      forall i | Listed(l, i)
        ensures StoresAnswer(w, i)
      {
        var x := Actionable(i, i in l.ownClaimed);
        ActionableIsListed(l, i, i in l.ownClaimed);
        assert x in a;
        var m :| 0 <= m < |a| && a[m] == x;
        assert !LookupFails(w, a[m]);
      }
    }
    if forall i | Listed(l, i) :: StoresAnswer(w, i) {
      forall m | 0 <= m < |a|
        ensures !LookupFails(w, a[m])
      {
        assert a[m] == Actionable(a[m].item, a[m].claimed) && a[m] in a;
        ActionableIsListed(l, a[m].item, a[m].claimed);
        assert Listed(l, a[m].item);
      }
    }
  }

  /** The candidates are the intents that need work. */
  lemma CandidateNeedsWork(w: World, l: Listing, m: nat)
    requires m < |ActionableOf(l)|
    ensures var a := ActionableOf(l)[m];
            && (Candidate(w, a) ==> NeedsWork(w, l, a.item))
            && (if a.claimed then a.item in l.ownClaimed else a.item in l.pending && a.item.typeText == "DKG")
            && (!a.claimed ==> (Candidate(w, a) <==> HasArtifact(w, a.item)))
  {
    hide ActionableOf;
    var a := ActionableOf(l)[m];
    assert a == Actionable(a.item, a.claimed) && a in ActionableOf(l);
    ActionableIsListed(l, a.item, a.claimed);
  }

  lemma WorkIsCandidate(w: World, l: Listing, i: Item) returns (m: nat)
    requires NeedsWork(w, l, i)
    ensures m < |ActionableOf(l)| && ActionableOf(l)[m] == Actionable(i, i in l.ownClaimed) && Candidate(w, ActionableOf(l)[m])
  {
    hide ActionableOf;
    ActionableIsListed(l, i, i in l.ownClaimed);
    m :| 0 <= m < |ActionableOf(l)| && ActionableOf(l)[m] == Actionable(i, i in l.ownClaimed);
  }

  /** Reconciliation is eligible if and only if it can be answered and nothing listed needs work. */
  lemma EligibleMeansNoWork(w: World, r: Report, log: seq<Call>)
    requires Right(w, r, log)
    ensures (r.Report? && r.disposition == Eligible) <==> Answerable(w) && forall i | i in All(w.listing.value) :: !NeedsWork(w, w.listing.value, i)
  {
    hide Right, GoodListing, Acceptable, ActionableOf, LookupFails, Candidate;
    EligibleExactly(w, r, log);
    if w.listing.Some? {
      var l := w.listing.value;
      GoodListingExactly(w, l);
      LookupsAnswer(w, l);
      if NoCandidate(w, ActionableOf(l)) {
        forall i | i in All(l)
          ensures !NeedsWork(w, l, i)
        {
          if NeedsWork(w, l, i) { var m := WorkIsCandidate(w, l, i); }
        }
      }
      if forall i | i in All(l) :: !NeedsWork(w, l, i) {
        forall m | 0 <= m < |ActionableOf(l)|
          ensures !Candidate(w, ActionableOf(l)[m])
        {
          CandidateNeedsWork(w, l, m);
        }
      }
    }
  }

  /** Two intents that need work are never resolved: no claim is made and nothing is published. */
  lemma TwoThatNeedWork(w: World, r: Report, log: seq<Call>, i: Item, j: Item)
    requires Right(w, r, log) && Answerable(w) && i != j
    requires NeedsWork(w, w.listing.value, i) && NeedsWork(w, w.listing.value, j)
    ensures r == Report(Integrity, None, "") && NoClaim(log)
  {
    hide GoodListing, Acceptable, ActionableOf, LookupFails, Candidate, StartupJob, FailedJob, FirstPendingDeadline, Lookups, Resolution;
    var l := w.listing.value;
    GoodListingExactly(w, l);
    LookupsAnswer(w, l);
    var m := WorkIsCandidate(w, l, i);
    var n := WorkIsCandidate(w, l, j);
    LookupsDoNotClaim(ActionableOf(l));
    assert m != n;
    assert forall k: nat :: !Unique(w, ActionableOf(l), k);
  }

  /** The one intent that needs work, when no other does. */
  ghost predicate OnlyWork(w: World, l: Listing, i: Item) {
    NeedsWork(w, l, i) && forall j | NeedsWork(w, l, j) :: j == i
  }

  /**
    The only intent that needs work: an own claimed one is published from its
    artifacts without a claim; a pending one is claimed once, and published as
    failed exactly when the claim repeats all of it.
  */
  lemma OnlyWorkIsResolved(w: World, r: Report, log: seq<Call>, i: Item)
    requires Right(w, r, log) && Answerable(w) && OnlyWork(w, w.listing.value, i)
    ensures i in w.listing.value.ownClaimed ==> NoClaim(log) && r == Report(PublicationRequired, StartupJob(w, i), i.deadlineRaw)
    ensures i !in w.listing.value.ownClaimed ==>
              && log != [] && log[|log| - 1] == ClaimCall(i.intent.intentId) && NoClaim(log[..|log| - 1])
              && match w.claim(i.intent.intentId)
                 case ClaimUnclear => r == Report(FreshPoll, None, i.deadlineRaw)
                 case ClaimError => r == Errored
                 case Claimed(c) =>
                   if && c.httpStatus == 200 && c.status == "CLAIMED" && c.typeText == "DKG" && c.org == i.org
                      && c.intent.intentId == i.intent.intentId && c.intent.sessionId == i.intent.sessionId && c.intent.keyId == i.intent.keyId
                      && c.intent.descriptorBytes == i.intent.descriptorBytes && c.intent.descriptorFingerprint == i.intent.descriptorFingerprint
                      && c.deadlineRaw == i.deadlineRaw && c.deadline == i.deadline
                   then r == Report(PublicationRequired, NewJob(w.setting.lib, w.setting.terminal, FailedOver(i.intent)), i.deadlineRaw)
                   else r == Report(Integrity, None, i.deadlineRaw)
  {
    hide GoodListing, Acceptable, ActionableOf, LookupFails, Candidate, StartupJob, FirstPendingDeadline, Lookups, NewJob;
    var l := w.listing.value;
    var a := ActionableOf(l);
    GoodListingExactly(w, l);
    LookupsAnswer(w, l);
    LookupsDoNotClaim(a);
    var m := WorkIsCandidate(w, l, i);
    forall k: nat | Unique(w, a, k)
      ensures k == m
    {
    }
    assert Unique(w, a, m) by { OnlyOneCandidate(w, l, i, m); }
    var claims: seq<Call> :| log == [ListCall, PreflightCall] + Lookups(a) + claims && Decided(w, a, r, claims);
    assert Resolution(w, a[m], r, claims);
    if i !in l.ownClaimed {
      assert log[..|log| - 1] == [ListCall, PreflightCall] + Lookups(a);
    }
  }

  lemma OnlyOneCandidate(w: World, l: Listing, i: Item, m: nat)
    requires Acceptable(w, l) && OnlyWork(w, l, i) && m < |ActionableOf(l)| && ActionableOf(l)[m] == Actionable(i, i in l.ownClaimed)
    requires Candidate(w, ActionableOf(l)[m])
    ensures Unique(w, ActionableOf(l), m)
  {
    hide Acceptable, ActionableOf, Candidate;
    forall k: nat | k < |ActionableOf(l)| && Candidate(w, ActionableOf(l)[k])
      ensures k == m
    {
      CandidateNeedsWork(w, l, k);
      assert ActionableOf(l)[k].item == i;
      SameItemSamePlace(w, l, k, m);
    }
  }

  /** No listed item has two places. */
  lemma SameItemSamePlace(w: World, l: Listing, k: nat, m: nat)
    requires Acceptable(w, l) && k < |ActionableOf(l)| && m < |ActionableOf(l)| && ActionableOf(l)[k].item == ActionableOf(l)[m].item
    ensures k == m
  {
    hide Sound, Sequenced;
    var own := |l.ownClaimed|;
    if k >= own && m >= own {
      PendingPlaces(l.pending, k - own, m - own);
    } else if k >= own {
      var p := PendingComesFrom(l.pending, k - own);
    } else if m >= own {
      var p := PendingComesFrom(l.pending, m - own);
    }
  }

  lemma {:induction false} PendingPlaces(items: seq<Item>, k: nat, m: nat)
    requires forall i, j | 0 <= i < j < |items| :: items[i].intent.intentId != items[j].intent.intentId
    requires k < |PendingDkg(items)| && m < |PendingDkg(items)| && PendingDkg(items)[k].item == PendingDkg(items)[m].item
    ensures k == m
  {
    var front := items[..|items| - 1];
    var n := |PendingDkg(front)|;
    if k < n && m < n {
      PendingPlaces(front, k, m);
    } else if k < n {
      var p := PendingComesFrom(front, k);
    } else if m < n {
      var p := PendingComesFrom(front, m);
    }
  }
}
