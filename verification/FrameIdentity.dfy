/** Which frames a trace can accept under one sequence number, and what a reused key is judged. */
module FrameIdentity {
  import opened Common
  import opened Decimals
  import opened FrameText
  import opened FrameValidator
  import opened FrameKeys
  import Hex

  // ---- One sequence number ----

  /** Every accepted frame that shares this accepted frame's sender and sequence number is the same message, in every trace. */
  ghost predicate AlwaysIdentified(c: Config, lib: Lib, f: Frame) {
    forall offers: seq<Offer>, g: Frame
      | FromParties(c, offers) && f in AcceptedOf(c, lib, offers) && g in AcceptedOf(c, lib, offers)
        && g.fromParty == f.fromParty && g.seqNo == f.seqNo ::
      SameButRecipient(f, g)
  }

  /** The local or remote party that is neither of the two. */
  function ThirdParty(c: Config, a: string, b: string): string {
    if c.platform != a && c.platform != b then c.platform else if c.primary != a && c.primary != b then c.primary else c.recovery
  }

  /** The same frame, reread and sent to the third party. */
  function Twin(c: Config, f: Frame, k: nat, hash: string): Frame
    requires SplitsAt(Middle(f), k, hash)
  {
    Reread(f, k, hash).(toParty := ThirdParty(c, f.fromParty, f.toParty))
  }

  lemma TwinHeader(c: Config, lib: Lib, f: Frame, k: nat, hash: string)
    requires ValidConfig(c) && IsParty(c, f.fromParty) && HeaderOk(c, lib, f, f.fromParty) && !f.broadcast
    requires SplitsAt(Middle(f), k, hash) && (hash == "" || hash == lib.payloadHash(f.payload))
    ensures var g := Twin(c, f, k, hash); HeaderOk(c, lib, g, f.fromParty) && g.toParty != f.toParty && !g.broadcast
  {
    hide Middle, SplitsAt, EqualFold;
  }

  lemma TwinText(c: Config, f: Frame, k: nat, hash: string)
    requires SplitsAt(Middle(f), k, hash) && !(k == |f.messageType| && hash == f.payloadHash)
    ensures var g := Twin(c, f, k, hash); SequenceText(g) == SequenceText(f) && !SameButRecipient(f, g)
  {
    hide Middle, SplitsAt, Hex.Encode;
    SecondReadingMisleads(f, k, hash);
    var r, g := Reread(f, k, hash), Twin(c, f, k, hash);
    assert Middle(g) == Middle(r) by { SameMiddle(r, g); }
    assert Numbers(g, Tail(g)) == Numbers(r, Tail(r));
  }

  lemma SameMiddle(f: Frame, g: Frame)
    requires f.messageType == g.messageType && f.payloadHash == g.payloadHash && f.derivationContextHash == g.derivationContextHash
    ensures Middle(f) == Middle(g)
  {
  }

  /** Two header-valid unicasts of one message and text to different recipients are both accepted. */
  lemma BothAccepted(c: Config, lib: Lib, f: Frame, g: Frame)
    requires HeaderOk(c, lib, f, f.fromParty) && HeaderOk(c, lib, g, f.fromParty)
    requires f.messageId == g.messageId && f.seqNo == g.seqNo && SequenceText(f) == SequenceText(g)
    requires !f.broadcast && !g.broadcast && f.toParty != g.toParty
    ensures AcceptedOf(c, lib, [Offer(f, f.fromParty), Offer(g, f.fromParty)]) == [f, g]
  {
    hide SequenceText, Digest;
    var offers := [Offer(f, f.fromParty), Offer(g, f.fromParty)];
    FirstIsAccepted(c, lib, f, f.fromParty);
    assert offers[..1] == [Offer(f, f.fromParty)];
    if Key(f) == Key(g) {
      SameKeySameRecipient(f, g);
    }
    hide Key, HeaderOk;
    HeaderNamesSender(c, lib, g, f.fromParty);
    assert [f][..0] == [];
    assert MaxSeq([f], g.fromParty) == f.seqNo;
  }

  /**
    A frame the validator accepts shares its sequence number only with the same
    message, in every trace, if and only if it is broadcast or its text has one
    reading.
  */
  lemma IdentifiedExactly(c: Config, lib: Lib, f: Frame)
    requires CollisionFree(lib) && ValidConfig(c) && IsParty(c, f.fromParty) && HeaderOk(c, lib, f, f.fromParty)
    ensures AlwaysIdentified(c, lib, f) <==> f.broadcast || OneReading(f, lib.payloadHash(f.payload))
  {
    hide HeaderOk, SameButRecipient, SequenceText, Middle, SplitsAt, CollisionFree, AcceptedOf, IsParty;
    if f.broadcast || OneReading(f, lib.payloadHash(f.payload)) {
      forall offers: seq<Offer>, g: Frame
        | FromParties(c, offers) && f in AcceptedOf(c, lib, offers) && g in AcceptedOf(c, lib, offers)
          && g.fromParty == f.fromParty && g.seqNo == f.seqNo
        ensures SameButRecipient(f, g)
      {
        Identified(c, lib, offers, f, g);
      }
    } else {
      var k: nat, hash: string :| (hash == "" || hash == lib.payloadHash(f.payload)) && SplitsAt(Middle(f), k, hash)
        && !(k == |f.messageType| && hash == f.payloadHash);
      TwinAccepted(c, lib, f, k, hash);
      var offers := [Offer(f, f.fromParty), Offer(Twin(c, f, k, hash), f.fromParty)];
      assert FromParties(c, offers);
      assert Twin(c, f, k, hash) in AcceptedOf(c, lib, offers) && f in AcceptedOf(c, lib, offers);
    }
  }

  lemma Identified(c: Config, lib: Lib, offers: seq<Offer>, f: Frame, g: Frame)
    requires CollisionFree(lib) && FromParties(c, offers)
    requires f in AcceptedOf(c, lib, offers) && g in AcceptedOf(c, lib, offers) && g.fromParty == f.fromParty && g.seqNo == f.seqNo
    requires f.broadcast || OneReading(f, lib.payloadHash(f.payload))
    ensures SameButRecipient(f, g)
  {
    hide SequenceText, Middle, SplitsAt, HeaderOk, OneReading, AcceptedOf, CollisionFree, Sound;
    var a := AcceptedOf(c, lib, offers);
    var i, j :| 0 <= i < |a| && 0 <= j < |a| && a[i] == f && a[j] == g;
    if OneReading(f, lib.payloadHash(f.payload)) {
      SequenceNumberIdentifiesMessage(c, lib, offers, i, j);
    } else if i != j {
      EveryTraceIsSound(c, lib, offers);
      DistinctRecipients(c, lib, a, if i < j then i else j, if i < j then j else i);
    }
  }

  /** A second reading of a unicast gives a trace of two frames with one sequence number and different contents. */
  lemma TwinAccepted(c: Config, lib: Lib, f: Frame, k: nat, hash: string)
    requires ValidConfig(c) && IsParty(c, f.fromParty) && HeaderOk(c, lib, f, f.fromParty) && !f.broadcast
    requires SplitsAt(Middle(f), k, hash) && (hash == "" || hash == lib.payloadHash(f.payload))
    requires !(k == |f.messageType| && hash == f.payloadHash)
    ensures var g := Twin(c, f, k, hash);
            && g.fromParty == f.fromParty && g.seqNo == f.seqNo && !SameButRecipient(f, g)
            && AcceptedOf(c, lib, [Offer(f, f.fromParty), Offer(g, f.fromParty)]) == [f, g]
  {
    hide HeaderOk, SameButRecipient, SequenceText, Middle, SplitsAt, AcceptedOf, IsParty;
    var g := Twin(c, f, k, hash);
    TwinHeader(c, lib, f, k, hash);
    TwinText(c, f, k, hash);
    BothAccepted(c, lib, f, g);
  }

  /** A unicast of the platform with the given message type and derivation hash. */
  function Sample(c: Config, recipient: string, messageType: string, derivation: string): Frame {
    Frame(c.sessionId, c.stage, c.protocol, c.platform, recipient, "m", 1, 1, 0, false, messageType, "", derivation, [0])
  }

  /** Two accepted frames of one sender and sequence number with different message types: their fields hold NUL. */
  lemma NulFramesBothAccepted(c: Config, lib: Lib)
    requires ValidConfig(c)
    ensures var f, g := Sample(c, c.primary, "", [NUL]), Sample(c, c.recovery, [NUL], "");
            && AcceptedOf(c, lib, [Offer(f, c.platform), Offer(g, c.platform)]) == [f, g]
            && f.seqNo == g.seqNo && !SameButRecipient(f, g)
  {
    hide AcceptedOf;
    var f, g := Sample(c, c.primary, "", [NUL]), Sample(c, c.recovery, [NUL], "");
    assert Middle(f) == [NUL, NUL, NUL] == Middle(g);
    assert Numbers(f, Tail(f)) == Numbers(g, Tail(g));
    BothAccepted(c, lib, f, g);
  }

  // ---- One key ----

  /** A reused key with other contents is a conflict, also from the same sender. */
  lemma ReusedKeyCanConflict(c: Config, lib: Lib)
    requires CollisionFree(lib) && ValidConfig(c)
    ensures var f, g := Probe(c, c.platform, c.primary, "m", [0]), Probe(c, c.platform, c.primary, "m", [1]);
            && Key(f) == Key(g) && HeaderOk(c, lib, g, c.platform)
            && Judge(c, lib, AcceptedOf(c, lib, [Offer(f, c.platform)]), g, c.platform) == Conflict
  {
    hide AcceptedOf, SequenceText, CollisionFree;
    var f, g := Probe(c, c.platform, c.primary, "m", [0]), Probe(c, c.platform, c.primary, "m", [1]);
    ProbeOk(c, lib, c.platform, c.primary, "m", [0]);
    ProbeOk(c, lib, c.platform, c.primary, "m", [1]);
    FirstIsAccepted(c, lib, f, c.platform);
    TextsDiffer(lib, f, g);
    assert f in [f];
    assert [f][..0] == [];
    assert MaxSeq([f], c.platform) == 1;
  }

  lemma TextsDiffer(lib: Lib, f: Frame, g: Frame)
    requires CollisionFree(lib) && SameContext(f, g) && f.payload != g.payload
    ensures SequenceDigest(lib, f) != SequenceDigest(lib, g)
  {
    hide SequenceText;
    if SequenceText(f) == SequenceText(g) {
      SequenceTextDetermines(f, g);
    }
  }

  /** No accepted frame of the same sender and sequence number is another message. */
  ghost predicate Unowned(a: seq<Frame>, f: Frame) {
    forall h | h in a && h.fromParty == f.fromParty && h.seqNo == f.seqNo :: h.messageId == f.messageId && SequenceText(h) == SequenceText(f)
  }

  /**
    The verdict on a reused key, whatever the party names: invalid exactly when
    it comes too late, a duplicate exactly when it is in time, its number belongs
    to no other message and it repeats the whole text of the frame that took the
    key, a conflict otherwise; it is never accepted.
  */
  lemma ReusedKeyVerdictForAnyNames(c: Config, lib: Lib, offers: seq<Offer>, f: Frame, sender: string, g: Frame)
    requires CollisionFree(lib) && FromParties(c, offers)
    requires HeaderOk(c, lib, f, sender) && g in AcceptedOf(c, lib, offers) && Key(g) == Key(f)
    ensures var a := AcceptedOf(c, lib, offers);
            var v, late := Judge(c, lib, a, f, sender), f.seqNo < MaxSeq(a, f.fromParty);
            && (v == Invalid <==> late)
            && (v == Duplicate <==> !late && Unowned(a, f) && FullText(f) == FullText(g))
            && (v == Conflict <==> !late && !(Unowned(a, f) && FullText(f) == FullText(g)))
  {
    hide HeaderOk, Key, SequenceText, FullText, AcceptedOf, MaxSeq;
    var a := AcceptedOf(c, lib, offers);
    EveryTraceIsSound(c, lib, offers);
    assert forall h | h in a && Key(h) == Key(f) :: h == g by { KeysAreUnique(c, lib, a, g); }
    assert forall h :: SequenceDigest(lib, h) == SequenceDigest(lib, f) <==> SequenceText(h) == SequenceText(f);
    assert Digest(lib, g) == Digest(lib, f) <==> FullText(g) == FullText(f);
    assert OwnedDifferently(lib, a, f) <==> !Unowned(a, f);
  }

  lemma KeysAreUnique(c: Config, lib: Lib, a: seq<Frame>, g: Frame)
    requires Sound(c, lib, a) && g in a
    ensures forall h | h in a && Key(h) == Key(g) :: h == g
  {
    hide HeaderOk, Key, SequenceText, Digest;
    var i :| 0 <= i < |a| && a[i] == g;
    forall h | h in a && Key(h) == Key(g)
      ensures h == g
    {
      var j :| 0 <= j < |a| && a[j] == h;
      assert i == j;
    }
  }

  /**
    The verdict on a reused key, with distinguishable senders: invalid exactly
    when it comes too late, a duplicate exactly when it is in time and repeats
    message ID and text, a conflict otherwise; it is never accepted.
  */
  lemma ReusedKeyVerdict(c: Config, lib: Lib, offers: seq<Offer>, f: Frame, sender: string, g: Frame)
    requires CollisionFree(lib) && SendersDistinguishable(c) && FromParties(c, offers) && IsParty(c, sender)
    requires HeaderOk(c, lib, f, sender) && g in AcceptedOf(c, lib, offers) && Key(g) == Key(f)
    ensures var a := AcceptedOf(c, lib, offers);
            var v, repeats := Judge(c, lib, a, f, sender), f.messageId == g.messageId && SequenceText(f) == SequenceText(g);
            && (v == Invalid <==> f.seqNo < MaxSeq(a, f.fromParty))
            && (v == Duplicate <==> f.seqNo == MaxSeq(a, f.fromParty) && repeats)
            && (v == Conflict <==> f.seqNo == MaxSeq(a, f.fromParty) && !repeats)
  {
    hide HeaderOk, Key, SequenceText, Digest, AcceptedOf, MaxSeq, SendersDistinguishable, IsParty;
    var a := AcceptedOf(c, lib, offers);
    EveryTraceIsSound(c, lib, offers);
    HeaderNamesSender(c, lib, f, sender);
    var i :| 0 <= i < |a| && a[i] == g;
    SameKeySameSender(c, lib, f, g);
    SameKeySameSequence(f, g);
    MaxSeqBounds(a, i);
    OwnedExactly(c, lib, a, i, f);
    if !OwnedDifferently(lib, a, f) {
      NoLateConflict(c, lib, offers, f, sender);
    }
  }

  /** Whether a sequence number is owned by another message is decided by any one of its owners. */
  lemma OwnedExactly(c: Config, lib: Lib, a: seq<Frame>, i: nat, f: Frame)
    requires CollisionFree(lib) && Sound(c, lib, a) && i < |a| && a[i].fromParty == f.fromParty && a[i].seqNo == f.seqNo
    ensures OwnedDifferently(lib, a, f) <==> !(f.messageId == a[i].messageId && SequenceText(f) == SequenceText(a[i]))
  {
    hide HeaderOk, Key, SequenceText;
    assert a[i] in a;
    forall h | h in a && h.fromParty == f.fromParty && h.seqNo == f.seqNo
      ensures h.messageId == a[i].messageId && SequenceDigest(lib, h) == SequenceDigest(lib, a[i])
    {
      var j :| 0 <= j < |a| && a[j] == h;
    }
    assert SequenceDigest(lib, f) == SequenceDigest(lib, a[i]) ==> SequenceText(f) == SequenceText(a[i]);
  }

  // ---- Fresh numbers ----

  /** With distinguishable senders, every proper frame with a number above all its sender used so far is accepted. */
  lemma NewNumberIsAccepted(c: Config, lib: Lib, offers: seq<Offer>, f: Frame, sender: string)
    requires CollisionFree(lib) && SendersDistinguishable(c) && FromParties(c, offers) && IsParty(c, sender)
    requires Proper(c, lib, f) && f.fromParty == sender && f.seqNo > MaxSeq(AcceptedOf(c, lib, offers), sender)
    ensures Judge(c, lib, AcceptedOf(c, lib, offers), f, sender) == Accepted
  {
    hide HeaderOk, Proper, Key, SequenceText, Digest, AcceptedOf, MaxSeq, SendersDistinguishable, IsParty;
    var a := AcceptedOf(c, lib, offers);
    HeaderExactly(c, lib, f, sender);
    EveryTraceIsSound(c, lib, offers);
    forall g | g in a
      ensures !(g.fromParty == f.fromParty && g.seqNo == f.seqNo) && Key(g) != Key(f)
    {
      var i :| 0 <= i < |a| && a[i] == g;
      MaxSeqBounds(a, i);
      if Key(g) == Key(f) {
        SameKeySameSender(c, lib, f, g);
        SameKeySameSequence(f, g);
      }
    }
  }
}
