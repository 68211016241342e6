/** The stateful replay and conflict validator of the local router. */
module FrameValidator {
  import opened Common
  import opened Decimals
  import opened FrameText

  datatype Config = Config(sessionId: string, platform: string, primary: string, recovery: string, stage: string, protocol: string)

  /** SHA-256, the short payload hash, and Unicode simple case folding. */
  datatype Lib = Lib(sha256: string -> string, payloadHash: seq<byte> -> string, fold: char -> char)

  ghost predicate CollisionFree(lib: Lib) {
    forall x: string, y: string {:trigger lib.sha256(x), lib.sha256(y)} :: lib.sha256(x) == lib.sha256(y) ==> x == y
  }

  predicate IsParty(c: Config, p: string) {
    p == c.platform || p == c.primary || p == c.recovery
  }

  /** What `New` demands of a router configuration. */
  predicate ValidConfig(c: Config) {
    && c.sessionId != "" && c.stage != "" && c.protocol != "" && c.platform != "" && c.primary != "" && c.recovery != ""
    && c.platform != c.primary && c.platform != c.recovery && c.primary != c.recovery
  }

  predicate EqualFold(lib: Lib, a: string, b: string) {
    |a| == |b| && forall i | 0 <= i < |a| :: lib.fold(a[i]) == lib.fold(b[i])
  }

  predicate RecipientOk(c: Config, f: Frame) {
    if f.broadcast then f.toParty == "" else f.toParty != "" && f.toParty != f.fromParty && IsParty(c, f.toParty)
  }

  predicate HeaderOk(c: Config, lib: Lib, f: Frame, sender: string) {
    && f.sessionId == c.sessionId && f.stage == c.stage && EqualFold(lib, f.protocol, c.protocol)
    && f.fromParty == sender && f.messageId != "" && f.seqNo != 0 && (f.round != 0 || f.roundHint != 0) && f.payload != []
    && (f.round == 0 || f.roundHint == 0 || f.round == f.roundHint)
    && HashOk(f, lib.payloadHash(f.payload))
    && RecipientOk(c, f)
  }

  function SequenceDigest(lib: Lib, f: Frame): string {
    lib.sha256(SequenceText(f))
  }

  function Digest(lib: Lib, f: Frame): string {
    lib.sha256(FullText(f))
  }

  datatype Verdict = Accepted | Invalid | Conflict | Duplicate

  /** Largest sequence number accepted from a sender; zero if none. */
  function MaxSeq(accepted: seq<Frame>, sender: string): nat {
    if accepted == [] then 0
    else
      var last, before := accepted[|accepted| - 1], MaxSeq(accepted[..|accepted| - 1], sender);
      if last.fromParty == sender && last.seqNo > before then last.seqNo else before
  }

  ghost predicate OwnedDifferently(lib: Lib, accepted: seq<Frame>, f: Frame) {
    exists g :: g in accepted && g.fromParty == f.fromParty && g.seqNo == f.seqNo
      && !(g.messageId == f.messageId && SequenceDigest(lib, g) == SequenceDigest(lib, f))
  }

  ghost predicate KeyReused(accepted: seq<Frame>, f: Frame) {
    exists g :: g in accepted && Key(g) == Key(f)
  }

  ghost predicate KeyReusedDifferently(lib: Lib, accepted: seq<Frame>, f: Frame) {
    exists g :: g in accepted && Key(g) == Key(f) && Digest(lib, g) != Digest(lib, f)
  }

  /** The verdict as a function of the frames accepted so far, in the order of the checks. */
  ghost function Judge(c: Config, lib: Lib, accepted: seq<Frame>, f: Frame, sender: string): Verdict {
    if !HeaderOk(c, lib, f, sender) then Invalid
    else if f.seqNo < MaxSeq(accepted, f.fromParty) then Invalid
    else if OwnedDifferently(lib, accepted, f) then Conflict
    else if KeyReusedDifferently(lib, accepted, f) then Conflict
    else if KeyReused(accepted, f) then Duplicate
    else Accepted
  }

  datatype Owner = Owner(messageId: string, digest: string)

  ghost predicate SeenAgrees(lib: Lib, seen: map<string, string>, accepted: seq<Frame>) {
    && (forall g | g in accepted :: Key(g) in seen && seen[Key(g)] == Digest(lib, g))
    && (forall k | k in seen :: exists g :: g in accepted && Key(g) == k)
  }

  ghost predicate MaxAgrees(maxSequence: map<string, nat>, accepted: seq<Frame>) {
    forall p: string :: MaxSeq(accepted, p) == if p in maxSequence then maxSequence[p] else 0
  }

  ghost predicate OwnersAgree(lib: Lib, owner: map<string, map<nat, Owner>>, accepted: seq<Frame>) {
    && (forall g | g in accepted ::
          && g.fromParty in owner && g.seqNo in owner[g.fromParty]
          && owner[g.fromParty][g.seqNo] == Owner(g.messageId, SequenceDigest(lib, g)))
    && (forall p, q | p in owner && q in owner[p] :: exists g :: g in accepted && g.fromParty == p && g.seqNo == q)
  }

  /** The three maps, which agree with the frames accepted so far. */
  class Validator {
    const config: Config
    const lib: Lib
    var seen: map<string, string>
    var maxSequence: map<string, nat>
    var sequenceOwner: map<string, map<nat, Owner>>
    ghost var accepted: seq<Frame>

    ghost predicate Valid()
      reads this
    {
      SeenAgrees(lib, seen, accepted) && MaxAgrees(maxSequence, accepted) && OwnersAgree(lib, sequenceOwner, accepted)
    }

    constructor (config: Config, lib: Lib)
      ensures Valid() && accepted == [] && this.config == config && this.lib == lib
    {
      this.config, this.lib := config, lib;
      seen, maxSequence, sequenceOwner, accepted := map[], map[], map[], [];
    }

    method ValidateAndRecord(f: Frame, sender: string) returns (v: Verdict)
      requires Valid()
      modifies this
      ensures Valid()
      ensures v == Judge(config, lib, old(accepted), f, sender)
      ensures accepted == if v == Accepted then old(accepted) + [f] else old(accepted)
    {
      hide HeaderOk, SeenAgrees, MaxAgrees, MaxSeq, OwnersAgree, OwnedDifferently, KeyReused, KeyReusedDifferently, Key, Digest, SequenceDigest;
      if !HeaderOk(config, lib, f, sender) { return Invalid; }
      if f.fromParty !in sequenceOwner {
        OwnersGainParty(lib, sequenceOwner, accepted, f.fromParty);
        sequenceOwner := sequenceOwner[f.fromParty := map[]];
      }
      var owners: map<nat, Owner> := sequenceOwner[f.fromParty];
      var highest := if f.fromParty in maxSequence then maxSequence[f.fromParty] else 0;
      MaxGains(maxSequence, accepted, f);
      if f.seqNo < highest { return Invalid; }
      var owner := Owner(f.messageId, SequenceDigest(lib, f));
      OwnersJudge(lib, sequenceOwner, accepted, f);
      if f.seqNo in owners && owners[f.seqNo] != owner { return Conflict; }
      var key, digest := Key(f), Digest(lib, f);
      SeenJudges(lib, seen, accepted, f);
      if key in seen {
        return if seen[key] != digest then Conflict else Duplicate;
      }
      SeenGains(lib, seen, accepted, f);
      OwnersGainFrame(lib, sequenceOwner, accepted, f);
      seen := seen[key := digest];
      owners := owners[f.seqNo := owner];
      sequenceOwner := sequenceOwner[f.fromParty := owners];
      if f.seqNo > highest {
        maxSequence := maxSequence[f.fromParty := f.seqNo];
      }
      accepted := accepted + [f];
      return Accepted;
    }
  }

  lemma MaxGains(maxSequence: map<string, nat>, accepted: seq<Frame>, f: Frame)
    requires MaxAgrees(maxSequence, accepted)
    ensures var highest := if f.fromParty in maxSequence then maxSequence[f.fromParty] else 0;
            && MaxSeq(accepted, f.fromParty) == highest
            && MaxAgrees(if f.seqNo > highest then maxSequence[f.fromParty := f.seqNo] else maxSequence, accepted + [f])
  {
    MaxSeqAppend(accepted, f);
  }

  lemma SeenJudges(lib: Lib, seen: map<string, string>, accepted: seq<Frame>, f: Frame)
    requires SeenAgrees(lib, seen, accepted)
    ensures KeyReused(accepted, f) <==> Key(f) in seen
    ensures KeyReusedDifferently(lib, accepted, f) <==> Key(f) in seen && seen[Key(f)] != Digest(lib, f)
  {
    hide Key, Digest;
  }

  lemma SeenGains(lib: Lib, seen: map<string, string>, accepted: seq<Frame>, f: Frame)
    requires SeenAgrees(lib, seen, accepted) && Key(f) !in seen
    ensures SeenAgrees(lib, seen[Key(f) := Digest(lib, f)], accepted + [f])
  {
    hide Key, Digest;
    var seen' := seen[Key(f) := Digest(lib, f)];
    forall k | k in seen'
      ensures exists g :: g in accepted + [f] && Key(g) == k
    {
      if k == Key(f) {
        assert f in accepted + [f];
      } else {
        var g :| g in accepted && Key(g) == k;
        assert g in accepted + [f];
      }
    }
  }

  lemma OwnersGainParty(lib: Lib, owner: map<string, map<nat, Owner>>, accepted: seq<Frame>, p: string)
    requires OwnersAgree(lib, owner, accepted) && p !in owner
    ensures OwnersAgree(lib, owner[p := map[]], accepted)
  {
    hide SequenceDigest;
  }

  lemma OwnersJudge(lib: Lib, owner: map<string, map<nat, Owner>>, accepted: seq<Frame>, f: Frame)
    requires OwnersAgree(lib, owner, accepted) && f.fromParty in owner
    ensures OwnedDifferently(lib, accepted, f) <==>
              f.seqNo in owner[f.fromParty] && owner[f.fromParty][f.seqNo] != Owner(f.messageId, SequenceDigest(lib, f))
  {
    hide SequenceDigest;
  }

  lemma OwnersGainFrame(lib: Lib, owner: map<string, map<nat, Owner>>, accepted: seq<Frame>, f: Frame)
    requires OwnersAgree(lib, owner, accepted) && f.fromParty in owner
    requires f.seqNo in owner[f.fromParty] ==> owner[f.fromParty][f.seqNo] == Owner(f.messageId, SequenceDigest(lib, f))
    ensures var owners: map<nat, Owner> := owner[f.fromParty];
            var mine: map<nat, Owner> := owners[f.seqNo := Owner(f.messageId, SequenceDigest(lib, f))];
            OwnersAgree(lib, owner[f.fromParty := mine], accepted + [f])
  {
    hide SequenceDigest;
    var owners: map<nat, Owner> := owner[f.fromParty];
    var mine: map<nat, Owner> := owners[f.seqNo := Owner(f.messageId, SequenceDigest(lib, f))];
    var owner' := owner[f.fromParty := mine];
    forall p, q | p in owner' && q in owner'[p]
      ensures exists g :: g in accepted + [f] && g.fromParty == p && g.seqNo == q
    {
      if p == f.fromParty && q == f.seqNo {
        assert f in accepted + [f];
      } else {
        assert q in owner[p];
        var g :| g in accepted && g.fromParty == p && g.seqNo == q;
        assert g in accepted + [f];
      }
    }
  }

  lemma MaxSeqAppend(accepted: seq<Frame>, f: Frame)
    ensures forall p: string :: MaxSeq(accepted + [f], p) ==
              if f.fromParty == p && f.seqNo > MaxSeq(accepted, p) then f.seqNo else MaxSeq(accepted, p)
  {
    assert (accepted + [f])[..|accepted|] == accepted;
  }

  /** Offered frames with the sender the transport authenticated. */
  datatype Offer = Offer(frame: Frame, sender: string)

  /** The frames a validator accepts out of any sequence of offers. */
  ghost function AcceptedOf(c: Config, lib: Lib, offers: seq<Offer>): seq<Frame>
    decreases |offers|
  {
    if offers == [] then []
    else
      var before, last := AcceptedOf(c, lib, offers[..|offers| - 1]), offers[|offers| - 1];
      if Judge(c, lib, before, last.frame, last.sender) == Accepted then before + [last.frame] else before
  }

  ghost predicate FromParties(c: Config, offers: seq<Offer>) {
    forall o | o in offers :: IsParty(c, o.sender)
  }

  /** What holds of the accepted frames of every trace. */
  ghost predicate Sound(c: Config, lib: Lib, accepted: seq<Frame>) {
    && (forall i | 0 <= i < |accepted| :: HeaderOk(c, lib, accepted[i], accepted[i].fromParty) && IsParty(c, accepted[i].fromParty))
    && (forall i, j | 0 <= i < j < |accepted| && accepted[i].fromParty == accepted[j].fromParty :: accepted[i].seqNo <= accepted[j].seqNo)
    && (forall i, j | 0 <= i < j < |accepted| && accepted[i].fromParty == accepted[j].fromParty && accepted[i].seqNo == accepted[j].seqNo ::
          accepted[i].messageId == accepted[j].messageId && SequenceDigest(lib, accepted[i]) == SequenceDigest(lib, accepted[j]))
    && (forall i, j | 0 <= i < j < |accepted| :: Key(accepted[i]) != Key(accepted[j]))
  }

  lemma {:induction false} MaxSeqBounds(accepted: seq<Frame>, i: nat)
    requires i < |accepted|
    ensures accepted[i].seqNo <= MaxSeq(accepted, accepted[i].fromParty)
  {
    if i < |accepted| - 1 {
      MaxSeqBounds(accepted[..|accepted| - 1], i);
    }
  }

  lemma AcceptKeepsSound(c: Config, lib: Lib, accepted: seq<Frame>, f: Frame, sender: string)
    requires Sound(c, lib, accepted) && IsParty(c, sender) && Judge(c, lib, accepted, f, sender) == Accepted
    ensures Sound(c, lib, accepted + [f])
  {
    hide HeaderOk, Key, SequenceDigest, Digest, Judge, MaxSeq, IsParty;
    forall i | 0 <= i < |accepted|
      ensures FollowsOk(lib, accepted[i], f)
    {
      AcceptedFollows(c, lib, accepted, f, sender, i);
    }
    HeaderOfAccepted(c, lib, accepted, f, sender);
    assert forall i | 0 <= i < |accepted| :: (accepted + [f])[i] == accepted[i];
  }

  /** How a later accepted frame stands to an earlier one. */
  predicate FollowsOk(lib: Lib, earlier: Frame, later: Frame) {
    && (earlier.fromParty == later.fromParty ==> earlier.seqNo <= later.seqNo)
    && (earlier.fromParty == later.fromParty && earlier.seqNo == later.seqNo ==>
          earlier.messageId == later.messageId && SequenceDigest(lib, earlier) == SequenceDigest(lib, later))
    && Key(earlier) != Key(later)
  }

  lemma AcceptedFollows(c: Config, lib: Lib, accepted: seq<Frame>, f: Frame, sender: string, i: nat)
    requires i < |accepted| && Judge(c, lib, accepted, f, sender) == Accepted
    ensures FollowsOk(lib, accepted[i], f)
  {
    hide HeaderOk, Key, SequenceDigest, Digest, MaxSeq;
    MaxSeqBounds(accepted, i);
    assert accepted[i] in accepted;
  }

  lemma HeaderOfAccepted(c: Config, lib: Lib, accepted: seq<Frame>, f: Frame, sender: string)
    requires Judge(c, lib, accepted, f, sender) == Accepted
    ensures f.fromParty == sender && HeaderOk(c, lib, f, f.fromParty)
  {
    hide Key, SequenceDigest, Digest, MaxSeq;
    HeaderNamesSender(c, lib, f, sender);
  }

  lemma HeaderNamesSender(c: Config, lib: Lib, f: Frame, sender: string)
    requires HeaderOk(c, lib, f, sender)
    ensures f.fromParty == sender && HeaderOk(c, lib, f, f.fromParty)
  {
  }

  /** In every trace: sequence numbers per sender never decrease, owners agree, and keys are never reused. */
  lemma {:induction false} EveryTraceIsSound(c: Config, lib: Lib, offers: seq<Offer>)
    requires FromParties(c, offers)
    ensures Sound(c, lib, AcceptedOf(c, lib, offers))
    decreases |offers|
  {
    if offers != [] {
      var rest, last := offers[..|offers| - 1], offers[|offers| - 1];
      EveryTraceIsSound(c, lib, rest);
      if Judge(c, lib, AcceptedOf(c, lib, rest), last.frame, last.sender) == Accepted {
        AcceptKeepsSound(c, lib, AcceptedOf(c, lib, rest), last.frame, last.sender);
      }
    }
  }

  lemma HeadersShareContext(c: Config, lib: Lib, f: Frame, g: Frame)
    requires HeaderOk(c, lib, f, f.fromParty) && HeaderOk(c, lib, g, g.fromParty) && f.fromParty == g.fromParty
    ensures SameContext(f, g)
  {
  }

  /** Accepted frames with one sender and sequence number, barring hash collisions, have one message ID and one sequence text. */
  lemma SameSequenceSameText(c: Config, lib: Lib, accepted: seq<Frame>, i: nat, j: nat)
    requires CollisionFree(lib) && Sound(c, lib, accepted)
    requires i < |accepted| && j < |accepted| && i != j
    requires accepted[i].fromParty == accepted[j].fromParty && accepted[i].seqNo == accepted[j].seqNo
    ensures accepted[i].messageId == accepted[j].messageId
    ensures SequenceText(accepted[i]) == SequenceText(accepted[j]) && SameContext(accepted[i], accepted[j])
  {
    hide HeaderOk, Key, SequenceText, SameContext;
    HeadersShareContext(c, lib, accepted[i], accepted[j]);
    if i < j {
      assert SequenceDigest(lib, accepted[i]) == SequenceDigest(lib, accepted[j]);
    } else {
      assert SequenceDigest(lib, accepted[j]) == SequenceDigest(lib, accepted[i]);
    }
  }

  /**
    In every trace, accepted frames sharing a sender and sequence number agree
    on the message ID and on every field but the recipient, provided the first
    has one reading (in particular, no NUL byte in its free-text fields).
  */
  lemma SequenceNumberIdentifiesMessage(c: Config, lib: Lib, offers: seq<Offer>, i: nat, j: nat)
    requires CollisionFree(lib) && FromParties(c, offers)
    requires var a := AcceptedOf(c, lib, offers);
             && i < |a| && j < |a| && a[i].fromParty == a[j].fromParty && a[i].seqNo == a[j].seqNo
             && OneReading(a[i], lib.payloadHash(a[i].payload))
    ensures var a := AcceptedOf(c, lib, offers); a[i].messageId == a[j].messageId && SameButRecipient(a[i], a[j])
  {
    EveryTraceIsSound(c, lib, offers);
    var a := AcceptedOf(c, lib, offers);
    if i != j {
      SameSequenceSameText(c, lib, a, i, j);
      SequenceTextDetermines(a[i], a[j]);
      ReadingsAgree(a[i], a[j], lib.payloadHash(a[i].payload));
    }
  }

  lemma SameKeyFields(f: Frame, g: Frame)
    requires f.sessionId == g.sessionId && f.fromParty == g.fromParty && Recipient(f) == Recipient(g)
    requires f.messageId == g.messageId && f.seqNo == g.seqNo
    ensures Key(f) == Key(g)
  {
  }

  /** Two accepted frames of one sender and sequence number go to different recipients and are not broadcast. */
  lemma DistinctRecipients(c: Config, lib: Lib, accepted: seq<Frame>, i: nat, j: nat)
    requires CollisionFree(lib) && Sound(c, lib, accepted)
    requires i < j < |accepted|
    requires accepted[i].fromParty == accepted[j].fromParty && accepted[i].seqNo == accepted[j].seqNo
    ensures !accepted[i].broadcast && !accepted[j].broadcast && accepted[i].toParty != accepted[j].toParty
  {
    SameSequenceSameText(c, lib, accepted, i, j);
    SequenceTextDetermines(accepted[i], accepted[j]);
    if accepted[i].broadcast || accepted[i].toParty == accepted[j].toParty {
      SameKeyFields(accepted[i], accepted[j]);
      assert false;
    }
  }

  /** In every trace at most two accepted frames share a sender and sequence number, and only one if it is broadcast. */
  lemma AtMostTwoPerSequence(c: Config, lib: Lib, offers: seq<Offer>, i: nat, j: nat, k: nat)
    requires CollisionFree(lib) && FromParties(c, offers) && ValidConfig(c)
    requires i < j < |AcceptedOf(c, lib, offers)|
    requires var a := AcceptedOf(c, lib, offers); a[i].fromParty == a[j].fromParty && a[i].seqNo == a[j].seqNo
    ensures var a := AcceptedOf(c, lib, offers); !a[i].broadcast && !a[j].broadcast && a[i].toParty != a[j].toParty
    ensures var a := AcceptedOf(c, lib, offers);
            j < k < |a| ==> !(a[k].fromParty == a[i].fromParty && a[k].seqNo == a[i].seqNo)
  {
    EveryTraceIsSound(c, lib, offers);
    var a := AcceptedOf(c, lib, offers);
    DistinctRecipients(c, lib, a, i, j);
    if j < k < |a| && a[k].fromParty == a[i].fromParty && a[k].seqNo == a[i].seqNo {
      DistinctRecipients(c, lib, a, i, k);
      DistinctRecipients(c, lib, a, j, k);
      assert false;
    }
  }

  /**
    The frame is of the router's session, stage and protocol, is numbered, belongs
    to one round, carries a payload, names no other hash than its own, and goes
    from its sender to another party or to all.
  */
  predicate Proper(c: Config, lib: Lib, f: Frame) {
    && f.sessionId == c.sessionId && f.stage == c.stage && |f.protocol| == |c.protocol|
    && (forall k | 0 <= k < |f.protocol| :: lib.fold(f.protocol[k]) == lib.fold(c.protocol[k]))
    && f.messageId != "" && f.seqNo > 0 && f.payload != []
    && (if f.round > 0 && f.roundHint > 0 then f.round == f.roundHint else f.round + f.roundHint > 0)
    && f.payloadHash in {"", lib.payloadHash(f.payload)}
    && if f.broadcast then f.toParty == "" else f.toParty in {c.platform, c.primary, c.recovery} - {"", f.fromParty}
  }

  lemma HeaderExactly(c: Config, lib: Lib, f: Frame, sender: string)
    ensures HeaderOk(c, lib, f, sender) <==> f.fromParty == sender && Proper(c, lib, f)
  {
  }

  /** Every frame accepted in any trace is proper, and comes from a party. */
  lemma AcceptedHeaders(c: Config, lib: Lib, offers: seq<Offer>, i: nat)
    requires FromParties(c, offers) && i < |AcceptedOf(c, lib, offers)|
    ensures var f := AcceptedOf(c, lib, offers)[i]; Proper(c, lib, f) && f.fromParty in {c.platform, c.primary, c.recovery}
  {
    hide SequenceDigest, Key, HeaderOk, Proper;
    EveryTraceIsSound(c, lib, offers);
    var a := AcceptedOf(c, lib, offers);
    SendersAreParties(c, lib, offers, i);
    assert HeaderOk(c, lib, a[i], a[i].fromParty);
    HeaderExactly(c, lib, a[i], a[i].fromParty);
  }

  lemma {:induction false} SendersAreParties(c: Config, lib: Lib, offers: seq<Offer>, i: nat)
    requires FromParties(c, offers) && i < |AcceptedOf(c, lib, offers)|
    ensures IsParty(c, AcceptedOf(c, lib, offers)[i].fromParty)
    decreases |offers|
  {
    hide HeaderOk, SequenceDigest, Key, Digest, MaxSeq;
    var rest, last := offers[..|offers| - 1], offers[|offers| - 1];
    if i < |AcceptedOf(c, lib, rest)| {
      SendersAreParties(c, lib, rest, i);
    } else {
      HeaderOfAccepted(c, lib, AcceptedOf(c, lib, rest), last.frame, last.sender);
    }
  }
}
