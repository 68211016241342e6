/**
  The texts by which the frame validator identifies frames: the replay key and
  the inputs of the two digests, exactly as they are joined.
*/
module FrameText {
  import opened Common
  import opened Decimals
  import Hex

  datatype Frame = Frame(
    sessionId: string, stage: string, protocol: string, fromParty: string, toParty: string,
    messageId: string, seqNo: nat, round: nat, roundHint: nat, broadcast: bool,
    messageType: string, payloadHash: string, derivationContextHash: string, payload: seq<byte>)

  const NUL: char := '\U{0}'

  function Join(a: string, rest: string): string {
    a + [NUL] + rest
  }

  predicate NulFree(a: string) {
    NUL !in a
  }

  function BoolText(b: bool): string {
    if b then "true" else "false"
  }

  function Recipient(f: Frame): string {
    if f.broadcast then "*" else f.toParty
  }

  /** `frameKey`. */
  function Key(f: Frame): string {
    f.sessionId + "|" + f.fromParty + "|" + Recipient(f) + "|" + f.messageId + "|" + Dec(f.seqNo)
  }

  function Middle(f: Frame): string {
    Join(f.messageType, Join(f.payloadHash, f.derivationContextHash))
  }

  /** What both digests share after the addressing fields. */
  function Tail(f: Frame): string {
    Join(Middle(f), Hex.Encode(f.payload))
  }

  function Numbers(f: Frame, rest: string): string {
    Join(Dec(f.seqNo), Join(Dec(f.round), Join(Dec(f.roundHint), Join(BoolText(f.broadcast), Join(f.fromParty, rest)))))
  }

  function Head(f: Frame, rest: string): string {
    Join(f.sessionId, Join(f.stage, Join(f.protocol, Numbers(f, rest))))
  }

  /** Input of `frameSequenceDigest`: everything but the recipient and the message ID. */
  function SequenceText(f: Frame): string {
    Head(f, Tail(f))
  }

  /** Input of `frameDigest`. */
  function FullText(f: Frame): string {
    Head(f, Join(f.toParty, Tail(f)))
  }

  lemma JoinSameLength(a: string, b: string, x: string, y: string)
    requires |a| == |b| && Join(a, x) == Join(b, y)
    ensures a == b && x == y
  {
    assert Join(a, x)[..|a|] == a && Join(b, y)[..|a|] == b;
    assert Join(a, x)[|a| + 1..] == x && Join(b, y)[|a| + 1..] == y;
  }

  lemma JoinNulFree(a: string, b: string, x: string, y: string)
    requires NulFree(a) && NulFree(b) && Join(a, x) == Join(b, y)
    ensures a == b && x == y
  {
    var s := Join(a, x);
    assert s[|a|] == NUL && s[|b|] == NUL;
    assert forall i | 0 <= i < |a| :: s[i] == a[i];
    assert forall i | 0 <= i < |b| :: s[i] == b[i];
    JoinSameLength(a, b, x, y);
  }

  lemma JoinLast(a: string, b: string, x: string, y: string)
    requires NulFree(x) && NulFree(y) && Join(a, x) == Join(b, y)
    ensures a == b && x == y
  {
    var s := Join(a, x);
    assert s[|a|] == NUL && s[|b|] == NUL;
    assert forall i | |a| < i < |s| :: s[i] == x[i - |a| - 1];
    assert forall i | |b| < i < |s| :: s[i] == y[i - |b| - 1];
    JoinSameLength(a, b, x, y);
  }

  lemma BoolTextInjective(a: bool, b: bool)
    ensures NulFree(BoolText(a))
    ensures BoolText(a) == BoolText(b) ==> a == b
  {
    assert BoolText(a)[0] == if a then 't' else 'f';
    assert BoolText(b)[0] == if b then 't' else 'f';
  }

  lemma NumbersDetermine(f: Frame, g: Frame, x: string, y: string)
    requires f.fromParty == g.fromParty && Numbers(f, x) == Numbers(g, y)
    ensures f.seqNo == g.seqNo && f.round == g.round && f.roundHint == g.roundHint && f.broadcast == g.broadcast && x == y
  {
    var b, c := Join(BoolText(f.broadcast), Join(f.fromParty, x)), Join(BoolText(g.broadcast), Join(g.fromParty, y));
    var h, k := Join(Dec(f.roundHint), b), Join(Dec(g.roundHint), c);
    var r, s := Join(Dec(f.round), h), Join(Dec(g.round), k);
    JoinNulFree(Dec(f.seqNo), Dec(g.seqNo), r, s);
    DecInjective(f.seqNo, g.seqNo);
    JoinNulFree(Dec(f.round), Dec(g.round), h, k);
    DecInjective(f.round, g.round);
    JoinNulFree(Dec(f.roundHint), Dec(g.roundHint), b, c);
    DecInjective(f.roundHint, g.roundHint);
    BoolTextInjective(f.broadcast, g.broadcast);
    BoolTextInjective(g.broadcast, f.broadcast);
    JoinNulFree(BoolText(f.broadcast), BoolText(g.broadcast), Join(f.fromParty, x), Join(g.fromParty, y));
    JoinSameLength(f.fromParty, g.fromParty, x, y);
  }

  /** Frames of one session and sender whose protocol names have one length. */
  predicate SameContext(f: Frame, g: Frame) {
    f.sessionId == g.sessionId && f.stage == g.stage && |f.protocol| == |g.protocol| && f.fromParty == g.fromParty
  }

  predicate SameHead(f: Frame, g: Frame) {
    && SameContext(f, g) && f.protocol == g.protocol
    && f.seqNo == g.seqNo && f.round == g.round && f.roundHint == g.roundHint && f.broadcast == g.broadcast
  }

  lemma HeadDetermines(f: Frame, g: Frame, x: string, y: string)
    requires SameContext(f, g) && Head(f, x) == Head(g, y)
    ensures SameHead(f, g) && x == y
  {
    hide Numbers;
    var p, q := Join(f.protocol, Numbers(f, x)), Join(g.protocol, Numbers(g, y));
    JoinSameLength(f.sessionId, g.sessionId, Join(f.stage, p), Join(g.stage, q));
    JoinSameLength(f.stage, g.stage, p, q);
    JoinSameLength(f.protocol, g.protocol, Numbers(f, x), Numbers(g, y));
    NumbersDetermine(f, g, x, y);
  }

  lemma HexNulFree(b: seq<byte>)
    ensures NulFree(Hex.Encode(b))
  {
  }

  /** Equal sequence texts fix everything but how the middle part splits into its three strings. */
  lemma SequenceTextDetermines(f: Frame, g: Frame)
    requires SameContext(f, g) && SequenceText(f) == SequenceText(g)
    ensures SameHead(f, g) && Middle(f) == Middle(g) && f.payload == g.payload
  {
    HeadDetermines(f, g, Tail(f), Tail(g));
    HexNulFree(f.payload);
    HexNulFree(g.payload);
    JoinLast(Middle(f), Middle(g), Hex.Encode(f.payload), Hex.Encode(g.payload));
    Hex.EncodeInjective(f.payload, g.payload);
  }

  /** With the recipient equal too, the full texts are equal. */
  lemma SameSequenceSameRecipient(f: Frame, g: Frame)
    requires SameContext(f, g) && SequenceText(f) == SequenceText(g) && f.toParty == g.toParty
    ensures FullText(f) == FullText(g)
  {
    SequenceTextDetermines(f, g);
  }

  predicate SameButRecipient(f: Frame, g: Frame) {
    && SameHead(f, g)
    && f.messageType == g.messageType && f.payloadHash == g.payloadHash
    && f.derivationContextHash == g.derivationContextHash && f.payload == g.payload
  }

  /** `s` reads as message type, then this payload hash, then derivation hash, with the message type of length `k`. */
  predicate SplitsAt(s: string, k: nat, hash: string) {
    && k + 2 + |hash| <= |s|
    && s[k] == NUL && s[k + 1 + |hash|] == NUL
    && s[k + 1..k + 1 + |hash|] == hash
  }

  /** The middle part has one reading with a payload hash the validator would accept. */
  ghost predicate OneReading(f: Frame, computed: string) {
    forall k: nat, hash: string | (hash == "" || hash == computed) && SplitsAt(Middle(f), k, hash) ::
      k == |f.messageType| && hash == f.payloadHash
  }

  lemma MiddleSplits(f: Frame)
    ensures SplitsAt(Middle(f), |f.messageType|, f.payloadHash)
  {
    var s, k := Middle(f), |f.messageType|;
    assert s[k + 1..k + 1 + |f.payloadHash|] == f.payloadHash;
  }

  function Reread(f: Frame, k: nat, hash: string): Frame
    requires SplitsAt(Middle(f), k, hash)
  {
    var s := Middle(f);
    f.(messageType := s[..k], payloadHash := hash, derivationContextHash := s[k + 2 + |hash|..])
  }

  lemma RereadSameMiddle(f: Frame, k: nat, hash: string)
    requires SplitsAt(Middle(f), k, hash)
    ensures Middle(Reread(f, k, hash)) == Middle(f)
  {
    var s := Middle(f);
    assert s == s[..k] + [s[k]] + s[k + 1..k + 1 + |hash|] + [s[k + 1 + |hash|]] + s[k + 2 + |hash|..];
  }

  /** The payload hash of a frame is absent or the computed one. */
  predicate HashOk(f: Frame, computed: string) {
    f.payloadHash == "" || f.payloadHash == computed
  }

  /**
    Exactly when a sequence text identifies its frame: every acceptable frame
    with the same text agrees on all fields but recipient and message ID, if
    and only if the middle part has one reading.
  */
  lemma TextIdentifiesExactly(f: Frame, computed: string)
    requires HashOk(f, computed)
    ensures OneReading(f, computed) <==>
            forall g: Frame | SameContext(f, g) && HashOk(g, computed) && SequenceText(g) == SequenceText(f) :: SameButRecipient(f, g)
  {
    hide SequenceText, Middle, SplitsAt, SameButRecipient, SameContext;
    if OneReading(f, computed) {
      forall g: Frame | SameContext(f, g) && HashOk(g, computed) && SequenceText(g) == SequenceText(f)
        ensures SameButRecipient(f, g)
      {
        ReadingsAgree(f, g, computed);
      }
    } else {
      var k: nat, hash: string :| (hash == "" || hash == computed) && SplitsAt(Middle(f), k, hash) && !(k == |f.messageType| && hash == f.payloadHash);
      SecondReadingMisleads(f, k, hash);
      assert HashOk(Reread(f, k, hash), computed);
    }
  }

  /** Another reading of the middle part is another frame with the same text. */
  lemma SecondReadingMisleads(f: Frame, k: nat, hash: string)
    requires SplitsAt(Middle(f), k, hash) && !(k == |f.messageType| && hash == f.payloadHash)
    ensures var g := Reread(f, k, hash);
            SameContext(f, g) && g.payloadHash == hash && SequenceText(g) == SequenceText(f) && !SameButRecipient(f, g)
  {
    hide Middle, Hex.Encode;
    var g := Reread(f, k, hash);
    RereadSameMiddle(f, k, hash);
    assert Numbers(g, Tail(g)) == Numbers(f, Tail(f));
    assert |g.messageType| == k;
  }

  lemma ReadingsAgree(f: Frame, g: Frame, computed: string)
    requires OneReading(f, computed) && SameContext(f, g) && HashOk(g, computed) && SequenceText(g) == SequenceText(f)
    ensures SameButRecipient(f, g)
  {
    SequenceTextDetermines(f, g);
    MiddleSplits(g);
    assert |g.messageType| == |f.messageType| && g.payloadHash == f.payloadHash;
    JoinSameLength(f.messageType, g.messageType, Join(f.payloadHash, f.derivationContextHash), Join(g.payloadHash, g.derivationContextHash));
    JoinSameLength(f.payloadHash, g.payloadHash, f.derivationContextHash, g.derivationContextHash);
  }

  /** Fields without NUL bytes always have one reading. */
  lemma NulFreeHasOneReading(f: Frame, computed: string)
    requires NulFree(f.messageType) && NulFree(f.derivationContextHash) && NulFree(computed) && HashOk(f, computed)
    ensures OneReading(f, computed)
  {
    var s := Middle(f);
    assert forall i: nat | i < |s| && s[i] == NUL :: i == |f.messageType| || i == |f.messageType| + 1 + |f.payloadHash|;
    forall k: nat, hash: string | (hash == "" || hash == computed) && SplitsAt(s, k, hash)
      ensures k == |f.messageType| && hash == f.payloadHash
    {
      MiddleSplits(f);
    }
  }

  /** Two acceptable frames with one text and different message types: the texts join on NUL, and so may the fields. */
  lemma NulMakesTextAmbiguous(f: Frame)
    requires f.messageType == "" && f.payloadHash == "" && f.derivationContextHash == [NUL]
    ensures var g := f.(messageType := [NUL], derivationContextHash := "");
            SequenceText(g) == SequenceText(f) && !SameButRecipient(f, g)
  {
    assert Middle(f) == [NUL, NUL, NUL] == Middle(f.(messageType := [NUL], derivationContextHash := ""));
  }
}
