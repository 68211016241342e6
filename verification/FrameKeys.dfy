/**
  When the key check can find other contents under a reused key. The key joins
  party names with "|", so two frames of different senders can share a key
  exactly when one sender-and-recipient head begins with another.
*/
module FrameKeys {
  import opened Common
  import opened Decimals
  import opened FrameText
  import opened FrameValidator
  import Hex

  function KeyHead(sender: string, recipient: string): string {
    sender + "|" + recipient + "|"
  }

  predicate CanAddress(c: Config, sender: string, recipient: string) {
    recipient == "*" || (recipient != "" && recipient != sender && IsParty(c, recipient))
  }

  /** No sender's key head begins with the key head of another sender. */
  ghost predicate SendersDistinguishable(c: Config) {
    forall a: string, t: string, b: string, u: string
      | IsParty(c, a) && IsParty(c, b) && a != b && CanAddress(c, a, t) && CanAddress(c, b, u) ::
      !(KeyHead(a, t) <= KeyHead(b, u))
  }

  lemma KeyShape(f: Frame)
    ensures Key(f) == (f.sessionId + "|") + (KeyHead(f.fromParty, Recipient(f)) + (f.messageId + "|" + Dec(f.seqNo)))
    ensures Key(f) == (f.sessionId + "|" + KeyHead(f.fromParty, Recipient(f)) + f.messageId) + "|" + Dec(f.seqNo)
  {
    var n := f.sessionId + "|" + f.fromParty + "|" + Recipient(f) + "|" + f.messageId;
    assert n == f.sessionId + "|" + KeyHead(f.fromParty, Recipient(f)) + f.messageId;
  }

  lemma LastBar(x: string, y: string, p: nat, q: nat)
    requires x + "|" + Dec(p) == y + "|" + Dec(q)
    ensures x == y && p == q
  {
    var s := x + "|" + Dec(p);
    assert s[|x|] == '|' && s[|y|] == '|';
    assert forall i | |x| < i < |s| :: s[i] == Dec(p)[i - |x| - 1];
    assert forall i | |y| < i < |s| :: s[i] == Dec(q)[i - |y| - 1];
    assert x == s[..|x|] && y == s[..|y|];
    assert Dec(p) == s[|x| + 1..];
    DecInjective(p, q);
  }

  lemma PrefixOfSame(a: string, x: string, b: string, y: string)
    requires a + x == b + y
    ensures a <= b || b <= a
  {
    if |a| <= |b| {
      assert a == (a + x)[..|a|] == (b + y)[..|a|] == b[..|a|];
    } else {
      assert b == (b + y)[..|b|] == (a + x)[..|b|] == a[..|b|];
    }
  }

  lemma CancelLeft(a: string, x: string, y: string)
    requires a + x == a + y
    ensures x == y
  {
    assert x == (a + x)[|a|..] == (a + y)[|a|..] == y;
  }

  lemma CancelRight(x: string, y: string, a: string)
    requires x + a == y + a
    ensures x == y
  {
    assert |x| == |y|;
    assert x == (x + a)[..|x|] == (y + a)[..|y|] == y;
  }

  lemma SameKeySameSender(c: Config, lib: Lib, f: Frame, g: Frame)
    requires SendersDistinguishable(c) && IsParty(c, f.fromParty) && IsParty(c, g.fromParty)
    requires HeaderOk(c, lib, f, f.fromParty) && HeaderOk(c, lib, g, g.fromParty) && Key(f) == Key(g)
    ensures f.fromParty == g.fromParty
  {
    KeyShape(f);
    KeyShape(g);
    var h, k := KeyHead(f.fromParty, Recipient(f)), KeyHead(g.fromParty, Recipient(g));
    var x, y := f.messageId + "|" + Dec(f.seqNo), g.messageId + "|" + Dec(g.seqNo);
    CancelLeft(f.sessionId + "|", h + x, k + y);
    PrefixOfSame(h, x, k, y);
    assert CanAddress(c, f.fromParty, Recipient(f)) && CanAddress(c, g.fromParty, Recipient(g));
  }

  /** One sender, message ID and sequence number, and one key, mean one recipient. */
  lemma SameKeySameRecipient(f: Frame, g: Frame)
    requires f.sessionId == g.sessionId && f.fromParty == g.fromParty && f.messageId == g.messageId
    requires f.seqNo == g.seqNo && Key(f) == Key(g)
    ensures Recipient(f) == Recipient(g)
  {
    var pre, post := f.sessionId + "|" + f.fromParty + "|", "|" + f.messageId + "|" + Dec(f.seqNo);
    assert Key(f) == pre + (Recipient(f) + post) && Key(g) == pre + (Recipient(g) + post);
    CancelLeft(pre, Recipient(f) + post, Recipient(g) + post);
    CancelRight(Recipient(f), Recipient(g), post);
  }

  lemma SameKeySameSequence(f: Frame, g: Frame)
    requires Key(f) == Key(g)
    ensures f.seqNo == g.seqNo
  {
    KeyShape(f);
    KeyShape(g);
    LastBar(f.sessionId + "|" + KeyHead(f.fromParty, Recipient(f)) + f.messageId,
            g.sessionId + "|" + KeyHead(g.fromParty, Recipient(g)) + g.messageId, f.seqNo, g.seqNo);
  }

  /** The last check is reached with a key already seen, and finds a different digest. */
  ghost predicate LateConflict(c: Config, lib: Lib, accepted: seq<Frame>, f: Frame, sender: string) {
    && HeaderOk(c, lib, f, sender) && f.seqNo >= MaxSeq(accepted, f.fromParty)
    && !OwnedDifferently(lib, accepted, f)
    && KeyReusedDifferently(lib, accepted, f)
  }

  lemma ReusedKeyHasSameDigest(c: Config, lib: Lib, f: Frame, g: Frame)
    requires CollisionFree(lib) && SendersDistinguishable(c) && IsParty(c, f.fromParty) && IsParty(c, g.fromParty)
    requires HeaderOk(c, lib, f, f.fromParty) && HeaderOk(c, lib, g, g.fromParty) && Key(f) == Key(g)
    requires f.fromParty == g.fromParty && f.seqNo == g.seqNo ==> f.messageId == g.messageId && SequenceDigest(lib, f) == SequenceDigest(lib, g)
    ensures Digest(lib, f) == Digest(lib, g)
  {
    hide Key, SequenceText, FullText;
    SameKeySameSender(c, lib, f, g);
    SameKeySameSequence(f, g);
    HeadersShareContext(c, lib, f, g);
    SameKeySameRecipient(f, g);
    assert SequenceText(f) == SequenceText(g);
    SequenceTextDetermines(f, g);
    assert f.toParty == g.toParty;
    SameSequenceSameRecipient(f, g);
  }

  /** With distinguishable senders the key check itself never finds other contents under a reused key. */
  lemma NoLateConflict(c: Config, lib: Lib, offers: seq<Offer>, f: Frame, sender: string)
    requires CollisionFree(lib) && SendersDistinguishable(c) && FromParties(c, offers) && IsParty(c, sender)
    ensures !LateConflict(c, lib, AcceptedOf(c, lib, offers), f, sender)
  {
    hide Key, Digest, SequenceDigest;
    EveryTraceIsSound(c, lib, offers);
    var accepted := AcceptedOf(c, lib, offers);
    if HeaderOk(c, lib, f, sender) && !OwnedDifferently(lib, accepted, f) {
      forall g | g in accepted && Key(g) == Key(f)
        ensures Digest(lib, g) == Digest(lib, f)
      {
        ReusedKeyHasSameDigest(c, lib, g, f);
      }
    }
  }

  function Probe(c: Config, sender: string, recipient: string, messageId: string, payload: seq<byte>): Frame {
    Frame(c.sessionId, c.stage, c.protocol, sender, if recipient == "*" then "" else recipient,
          messageId, 1, 1, 0, recipient == "*", "", "", "", payload)
  }

  lemma ProbeOk(c: Config, lib: Lib, sender: string, recipient: string, messageId: string, payload: seq<byte>)
    requires CanAddress(c, sender, recipient) && messageId != "" && payload != []
    ensures HeaderOk(c, lib, Probe(c, sender, recipient, messageId, payload), sender)
    ensures Recipient(Probe(c, sender, recipient, messageId, payload)) == recipient
  {
  }

  function Last(s: string): char
    requires s != ""
  {
    s[|s| - 1]
  }

  lemma FullTextEndsInPayload(f: Frame)
    requires f.payload != []
    ensures FullText(f) != "" && Last(FullText(f)) == Last(Hex.Encode(f.payload))
  {
    var t := Join(f.toParty, Tail(f));
    assert Last(t) == Last(Tail(f)) == Last(Hex.Encode(f.payload));
    NumbersEnd(f, t);
    var n := Numbers(f, t);
    assert Last(Join(f.protocol, n)) == Last(n);
    assert Last(Join(f.stage, Join(f.protocol, n))) == Last(n);
    assert FullText(f) == Join(f.sessionId, Join(f.stage, Join(f.protocol, n)));
  }

  lemma NumbersEnd(f: Frame, t: string)
    requires t != ""
    ensures Numbers(f, t) != "" && Last(Numbers(f, t)) == Last(t)
  {
    var a := Join(f.fromParty, t);
    var b := Join(BoolText(f.broadcast), a);
    var c := Join(Dec(f.roundHint), b);
    var d := Join(Dec(f.round), c);
    assert Last(a) == Last(t) && Last(b) == Last(a) && Last(c) == Last(b) && Last(d) == Last(c);
    assert Numbers(f, t) == Join(Dec(f.seqNo), d);
  }

  lemma ProbesShareKey(c: Config, a: string, t: string, b: string, u: string, x: string, p: seq<byte>, q: seq<byte>)
    requires KeyHead(b, u) == KeyHead(a, t) + x
    requires Recipient(Probe(c, a, t, x + "m", p)) == t && Recipient(Probe(c, b, u, "m", q)) == u
    ensures Key(Probe(c, a, t, x + "m", p)) == Key(Probe(c, b, u, "m", q))
  {
    KeyShape(Probe(c, a, t, x + "m", p));
    KeyShape(Probe(c, b, u, "m", q));
    hide Key, Dec, KeyHead;
    assert KeyHead(a, t) + ((x + "m") + "|" + Dec(1)) == KeyHead(b, u) + ("m" + "|" + Dec(1));
  }

  lemma DifferentPayloadsDiffer(f: Frame, g: Frame)
    requires f.payload == [0] && g.payload == [1]
    ensures FullText(f) != FullText(g)
  {
    hide FullText;
    FullTextEndsInPayload(f);
    FullTextEndsInPayload(g);
    assert Hex.Encode([0]) == ['0', '0'] + Hex.Encode([]) && Hex.Encode([1]) == ['0', '1'] + Hex.Encode([]);
  }

  lemma SharedKeyConflicts(c: Config, lib: Lib, f: Frame, g: Frame)
    requires CollisionFree(lib) && HeaderOk(c, lib, g, g.fromParty) && f.fromParty != g.fromParty && Key(f) == Key(g)
    requires FullText(f) != FullText(g)
    ensures LateConflict(c, lib, [f], g, g.fromParty)
  {
    hide HeaderOk, Key, FullText;
    assert f in [f];
    assert [f][..0] == [];
    assert MaxSeq([f], g.fromParty) == 0;
  }

  /** Where senders are not distinguishable, one accepted frame makes a fresh frame of another sender a conflict. */
  lemma IndistinguishableSendersConflict(c: Config, lib: Lib, a: string, t: string, b: string, u: string)
    returns (first: Frame, second: Frame)
    requires CollisionFree(lib) && IsParty(c, a) && IsParty(c, b) && a != b
    requires CanAddress(c, a, t) && CanAddress(c, b, u) && KeyHead(a, t) <= KeyHead(b, u)
    ensures LateConflict(c, lib, AcceptedOf(c, lib, [Offer(first, a)]), second, b)
  {
    hide HeaderOk, Key, FullText, LateConflict, AcceptedOf, Recipient, CollisionFree;
    var x := KeyHead(b, u)[|KeyHead(a, t)|..];
    first, second := Probe(c, a, t, x + "m", [0]), Probe(c, b, u, "m", [1]);
    ProbeOk(c, lib, a, t, x + "m", [0]);
    ProbeOk(c, lib, b, u, "m", [1]);
    ProbesShareKey(c, a, t, b, u, x, [0], [1]);
    FirstIsAccepted(c, lib, first, a);
    DifferentPayloadsDiffer(first, second);
    SharedKeyConflicts(c, lib, first, second);
  }

  lemma FirstIsAccepted(c: Config, lib: Lib, f: Frame, sender: string)
    requires HeaderOk(c, lib, f, sender)
    ensures AcceptedOf(c, lib, [Offer(f, sender)]) == [f]
  {
    hide HeaderOk;
    var offers := [Offer(f, sender)];
    assert offers[..0] == [];
    assert AcceptedOf(c, lib, []) == [];
  }

  ghost predicate NeverLateConflicts(c: Config, lib: Lib) {
    forall offers: seq<Offer>, f: Frame, sender: string | FromParties(c, offers) && IsParty(c, sender) ::
      !LateConflict(c, lib, AcceptedOf(c, lib, offers), f, sender)
  }

  /**
    In no trace does the key check, the last of the checks, find other contents
    under a reused key, if and only if senders are distinguishable.
  */
  lemma NeverLateConflictExactly(c: Config, lib: Lib)
    requires CollisionFree(lib)
    ensures SendersDistinguishable(c) <==> NeverLateConflicts(c, lib)
  {
    hide LateConflict, AcceptedOf, KeyHead, CanAddress, IsParty;
    if SendersDistinguishable(c) {
      forall offers: seq<Offer>, f: Frame, sender: string | FromParties(c, offers) && IsParty(c, sender)
        ensures !LateConflict(c, lib, AcceptedOf(c, lib, offers), f, sender)
      {
        NoLateConflict(c, lib, offers, f, sender);
      }
    } else {
      var a: string, t: string, b: string, u: string :|
        IsParty(c, a) && IsParty(c, b) && a != b && CanAddress(c, a, t) && CanAddress(c, b, u) && KeyHead(a, t) <= KeyHead(b, u);
      var first, second := IndistinguishableSendersConflict(c, lib, a, t, b, u);
      var offers := [Offer(first, a)];
      assert FromParties(c, offers) && LateConflict(c, lib, AcceptedOf(c, lib, offers), second, b);
    }
  }

  /** Party names without "|", such as the deployed ones, are distinguishable. */
  lemma BarFreeNamesAreDistinguishable(c: Config)
    requires '|' !in c.platform && '|' !in c.primary && '|' !in c.recovery
    ensures SendersDistinguishable(c)
  {
    forall a: string, t: string, b: string, u: string
      | IsParty(c, a) && IsParty(c, b) && a != b && CanAddress(c, a, t) && CanAddress(c, b, u)
      ensures !(KeyHead(a, t) <= KeyHead(b, u))
    {
      var h, k := KeyHead(a, t), KeyHead(b, u);
      assert h[|a|] == '|' && k[|b|] == '|';
      assert forall i | 0 <= i < |a| :: h[i] == a[i];
      assert forall i | 0 <= i < |b| :: k[i] == b[i];
      assert h[..|a|] == a && k[..|b|] == b;
    }
  }
}
