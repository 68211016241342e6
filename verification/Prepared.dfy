/** `VerifyPrepared`: exact transaction bytes against the approved authorization. */
module Prepared {
  import opened Common
  import opened BigEndian
  import opened TransferCall
  import opened Authorization
  import Ethereum = EthereumPrepared
  import Tron = TronPrepared
  import Decimals
  import Hex

  datatype Execution = Execution(version: int, requestId: string, outgoingId: string, authorization: string, authorizationHash: string)

  datatype Evidence = NullEvidence | QuoteEvidence(quote: Tron.Quote) | BadEvidence

  datatype Transfer = Transfer(
    version: int, encoding: string, unsignedTransaction: string, networkFeeAsset: string, networkFeeBudget: string, evidence: Evidence)

  /** The hash functions, the decoders and JSON canonicalization. */
  datatype Libs = Libs(
    auth: Lib, proto: Tron.ProtoLib, decodeTx: Bytes -> Option<Ethereum.Decoded>, canonicalize: string -> Option<Bytes>,
    sha256: Bytes -> Bytes, keccak256: Bytes -> Bytes, validReference: string -> bool)

  datatype Payload = EthereumPayload | TronPayloadType | OtherPayload

  /** One check: what is to be signed, for which payload type, with which digest, and when. */
  datatype Check = Check(
    execution: Execution, prepared: Transfer, policy: Context, digest: Bytes, payload: Payload, algorithm: string, nowMillis: int)

  datatype Verified = Verified(digest: Bytes, budget: string)

  /** The policy's token standard as the signed authorization spells it. */
  function PolicyToken(p: Context): Option<string> {
    if IsTron(p.chain) && p.tokenStandard == Some("TRC20") then Some("trc20") else p.tokenStandard
  }

  function VerifyEthereum(libs: Libs, raw: Bytes, c: Check, a: Auth): Option<Verified> {
    if c.prepared.networkFeeAsset != "ETH" || !c.prepared.evidence.NullEvidence? || a.tokenStandard != c.policy.tokenStandard then None
    else
      var budget := Ethereum.VerifyBytes(libs.decodeTx, raw, c.policy);
      if budget.None? then None
      else if a.params.Some? && a.params.value.EthereumParams?
           && (a.params.value.maxFeePerGas != c.policy.maxFeePerGas || a.params.value.maxPriorityFeePerGas != c.policy.maxPriorityFeePerGas) then None
      else Some(Verified(libs.keccak256(raw), budget.value))
  }

  function VerifyTron(libs: Libs, raw: Bytes, c: Check, a: Auth): Option<Verified> {
    if c.prepared.networkFeeAsset != "TRX" || !c.prepared.evidence.QuoteEvidence? || a.tokenStandard != PolicyToken(c.policy) then None
    else if !Tron.BytesOk(libs.auth, libs.proto, raw, c.policy, c.nowMillis) then None
    else if a.params.Some? && a.params.value.TronParams? && a.params.value.feeLimitSun.Some?
         && a.params.value.feeLimitSun != c.policy.feeLimitSun then None
    else
      var q := c.prepared.evidence.quote;
      Some(Verified(libs.sha256(raw),
                    if Tron.QuoteOk(raw, c.policy, q) then Decimals.Dec(Tron.WorstCaseFee(raw, c.policy, q)) else ""))
  }

  /** The parsed authorization, when it is the one that was hashed and names this request. */
  function Approved(libs: Libs, c: Check): Option<Auth> {
    var canonical := libs.canonicalize(c.execution.authorization);
    if canonical.None? then None
    else
      var a := ParseAuthorization(libs.auth, canonical.value);
      if a.None? || Hex.Encode(libs.sha256(canonical.value)) != c.execution.authorizationHash
         || a.value.requestId != c.execution.requestId then None
      else a
  }

  predicate PolicyIsApproved(a: Auth, c: Check) {
    && a.chain == c.policy.chain && a.asset == c.policy.asset && a.fromAddress == c.policy.fromAddress
    && a.toAddress == c.policy.toAddress && a.amountAtomic == c.policy.amountAtomic
    && a.networkFeeAsset == c.prepared.networkFeeAsset
    && a.tokenDecimals == c.policy.tokenDecimals && a.tokenContract == c.policy.tokenContract
  }

  /** The fee budget stays within the approved cap. */
  predicate WithinCap(a: Auth, c: Check) {
    var budget, cap := Number(c.prepared.networkFeeBudget), Number(a.maxNetworkFeeAtomic);
    budget.Some? && cap.Some? && budget.value <= cap.value
  }

  function TransactionBytes(c: Check): Option<Bytes> {
    var raw := Hex.Decode(c.prepared.unsignedTransaction);
    if raw.None? || |raw.value| == 0 || |raw.value| > 16384 || Hex.Encode(raw.value) != c.prepared.unsignedTransaction then None
    else raw
  }

  function VerifyPayload(libs: Libs, raw: Bytes, c: Check, a: Auth): Option<Verified> {
    match c.payload
    case EthereumPayload =>
      if c.algorithm != "keccak256" || Ethereum.ChainIdOf(c.policy.chain) == "" then None else VerifyEthereum(libs, raw, c, a)
    case TronPayloadType =>
      if c.algorithm != "sha256" || !IsTron(c.policy.chain) then None else VerifyTron(libs, raw, c, a)
    case OtherPayload => None
  }

  /** `VerifyPrepared`: the authorization, where everything matches. */
  function VerifyPrepared(libs: Libs, c: Check): Option<Auth> {
    if c.execution.version != 1 || !libs.validReference(c.execution.outgoingId) || c.execution.requestId == ""
       || c.prepared.version != 1 || c.prepared.encoding != "hex" || !Decimals.Canonical(c.prepared.networkFeeBudget) then None
    else
      var a := Approved(libs, c);
      if a.None? || !PolicyIsApproved(a.value, c) || !WithinCap(a.value, c) then None
      else
        var raw := TransactionBytes(c);
        if raw.None? then None
        else
          var v := VerifyPayload(libs, raw.value, c, a.value);
          if v.None? || v.value.budget == "" || v.value.budget != c.prepared.networkFeeBudget || v.value.digest != c.digest then None
          else a
  }

  // ---- Main results ----

  /** What acceptance means, step by step. */
  lemma Accepted(libs: Libs, c: Check)
    requires VerifyPrepared(libs, c).Some?
    ensures Approved(libs, c) == VerifyPrepared(libs, c)
    ensures PolicyIsApproved(VerifyPrepared(libs, c).value, c) && WithinCap(VerifyPrepared(libs, c).value, c)
    ensures TransactionBytes(c).Some? && VerifyPayload(libs, TransactionBytes(c).value, c, VerifyPrepared(libs, c).value).Some?
    ensures var v := VerifyPayload(libs, TransactionBytes(c).value, c, VerifyPrepared(libs, c).value).value;
            v.budget != "" && v.budget == c.prepared.networkFeeBudget && v.digest == c.digest
  {
    hide Approved, PolicyIsApproved, WithinCap, TransactionBytes, VerifyPayload, Decimals.Canonical;
  }

  /** For a fixed Ethereum policy at most one unsigned transaction is accepted, whatever the authorizations. */
  lemma OneEthereumTransaction(libs: Libs, c: Check, c': Check)
    requires VerifyPrepared(libs, c).Some? && VerifyPrepared(libs, c').Some?
    requires c.payload == EthereumPayload && c'.payload == EthereumPayload && c.policy == c'.policy
    ensures c.prepared.unsignedTransaction == c'.prepared.unsignedTransaction && c.digest == c'.digest
  {
    hide VerifyPrepared, Approved, PolicyIsApproved, WithinCap, Ethereum.VerifyBytes, Hex.Encode, Hex.Decode;
    Accepted(libs, c);
    Accepted(libs, c');
    Ethereum.AtMostOneTransaction(libs.decodeTx, TransactionBytes(c).value, TransactionBytes(c').value, c.policy);
  }

  lemma ApprovedTransfer(libs: Libs, c: Check)
    requires Approved(libs, c).Some?
    ensures var a := Approved(libs, c).value;
            && (IsEthereum(a.chain) ==> ValidEthereum(libs.auth, a)) && (IsTron(a.chain) ==> ValidTron(libs.auth, a))
            && (IsEthereum(a.chain) || IsTron(a.chain))
            && Decimals.Canonical(a.amountAtomic) && IsWord(Decimals.Value(a.amountAtomic)) && a.amountAtomic != "0"
            && Decimals.Canonical(a.maxNetworkFeeAtomic)
  {
    hide Pow256, IsEvmAddress, Hex.Encode, CanonicalTronAddress, Decimals.Value;
  }

  /**
    On Ethereum an accepted token transfer calls the approved contract with a
    68-byte call that decodes to the approved recipient and amount; a failed
    call encoding is never matched.
  */
  lemma EthereumTokenCall(libs: Libs, c: Check)
    requires VerifyPrepared(libs, c).Some? && c.payload == EthereumPayload && VerifyPrepared(libs, c).value.tokenStandard.Some?
    ensures var a := VerifyPrepared(libs, c).value;
            && TransactionBytes(c).Some? && |TransactionBytes(c).value| > 0
            && libs.decodeTx(TransactionBytes(c).value[1..]).Some?
            && var tx := libs.decodeTx(TransactionBytes(c).value[1..]).value.tx;
               && |tx.data| == 68 && tx.value == 0 && Some("0x" + Hex.Encode(tx.to)) == a.tokenContract
               && AddressBytes(a.toAddress).Some?
               && Decode(tx.data) == Some((AddressBytes(a.toAddress).value, Decimals.Value(a.amountAtomic)))
  {
    hide VerifyPrepared, Approved, WithinCap, Pow256, Decode, Decimals.Canonical, Decimals.Dec, Decimals.Value, Hex.Encode, Hex.Decode;
    Accepted(libs, c);
    ApprovedTransfer(libs, c);
    Ethereum.TokenCallIsTheTransfer(libs.decodeTx, TransactionBytes(c).value, c.policy);
    EvmAddressBytes(c.policy.toAddress);
  }

  /**
    The same on TRON, where recipient and owner are the payloads of the approved
    Base58Check addresses and the called contract is the approved one.
  */
  lemma TronTokenCall(libs: Libs, c: Check)
    requires VerifyPrepared(libs, c).Some? && c.payload == TronPayloadType && VerifyPrepared(libs, c).value.tokenStandard.Some?
    ensures var a := VerifyPrepared(libs, c).value;
            && TransactionBytes(c).Some? && Tron.BytesOk(libs.auth, libs.proto, TransactionBytes(c).value, c.policy, c.nowMillis)
            && var v := libs.proto.trigger(libs.proto.rawTx(TransactionBytes(c).value).value.contracts[0].parameter.value);
               && v.Some? && |v.value.data| == 68 && v.value.callValue == 0
               && TronPayload(libs.auth, a.fromAddress).Some? && v.value.owner == [0x41] + TronPayload(libs.auth, a.fromAddress).value
               && a.tokenContract.Some? && AddressBytes(a.tokenContract.value).Some?
               && v.value.contract == [0x41] + AddressBytes(a.tokenContract.value).value
               && TronPayload(libs.auth, a.toAddress).Some?
               && Decode(v.value.data) == Some((TronPayload(libs.auth, a.toAddress).value, Decimals.Value(a.amountAtomic)))
  {
    hide VerifyPrepared, Approved, WithinCap, Pow256, Decode, Decimals.Canonical, Decimals.Dec, Decimals.Value, Hex.Encode, Hex.Decode;
    Accepted(libs, c);
    ApprovedTransfer(libs, c);
    Tron.TokenCallIsTheTransfer(libs.auth, libs.proto, TransactionBytes(c).value, c.policy, c.nowMillis);
  }

  /**
    Accepted bytes bind the approved transfer: two Ethereum checks that accept
    the same bytes, with whatever decoders, agree on chain, recipient, amount and
    token contract, as texts, and on whether it is a token transfer at all.
  */
  lemma SameBytesSameTransfer(libs: Libs, libs': Libs, c: Check, c': Check)
    requires VerifyPrepared(libs, c).Some? && VerifyPrepared(libs', c').Some?
    requires c.payload == EthereumPayload && c'.payload == EthereumPayload
    requires c.prepared.unsignedTransaction == c'.prepared.unsignedTransaction
    ensures var a, b := VerifyPrepared(libs, c).value, VerifyPrepared(libs', c').value;
            && a.chain == b.chain && a.toAddress == b.toAddress && a.amountAtomic == b.amountAtomic
            && a.tokenContract == b.tokenContract && (a.tokenStandard.Some? <==> b.tokenStandard.Some?)
  {
    hide VerifyPrepared, WithinCap, Pow256, Decode, Hex.Decode, Hex.Encode, Decimals.Dec, Decimals.Value, Decimals.Canonical, ValidTransfer;
    Accepted(libs, c);
    Accepted(libs', c');
    ApprovedTransfer(libs, c);
    ApprovedTransfer(libs', c');
    var raw := TransactionBytes(c).value;
    Ethereum.BytesBindTheTerms(libs.decodeTx, libs'.decodeTx, raw, c.policy, c'.policy);
    var a, b := VerifyPrepared(libs, c).value, VerifyPrepared(libs', c').value;
    TransferOf(libs, c);
    TransferOf(libs', c');
    Ethereum.SameTransaction(libs.decodeTx, libs'.decodeTx, raw, c.policy, c'.policy);
    if a.tokenStandard.Some? && b.tokenStandard.Some? {
      EvmAddressBytes(a.toAddress);
      EvmAddressBytes(b.toAddress);
      Decimals.DecOfValue(a.amountAtomic);
      Decimals.DecOfValue(b.amountAtomic);
    } else if a.tokenStandard.None? && b.tokenStandard.None? {
      NativeHasNoContract(libs, c);
      NativeHasNoContract(libs', c');
    }
    Ethereum.ChainIdNamesChain(c.policy.chain, c'.policy.chain);
  }

  lemma NativeHasNoContract(libs: Libs, c: Check)
    requires Approved(libs, c).Some? && Approved(libs, c).value.tokenStandard.None?
    ensures Approved(libs, c).value.tokenContract.None?
  {
    hide Pow256, IsEvmAddress, Hex.Encode, CanonicalTronAddress, Decimals.Value;
  }

  /** What kind of transfer the decoded transaction is. */
  lemma TransferOf(libs: Libs, c: Check)
    requires VerifyPrepared(libs, c).Some? && c.payload == EthereumPayload
    ensures var a := VerifyPrepared(libs, c).value;
            && TransactionBytes(c).Some? && |TransactionBytes(c).value| > 0
            && libs.decodeTx(TransactionBytes(c).value[1..]).Some?
            && var tx := libs.decodeTx(TransactionBytes(c).value[1..]).value.tx;
               if a.tokenStandard.None? then tx.data == []
               else |tx.data| == 68 && Decode(tx.data) == Some((AddressBytes(a.toAddress).value, Decimals.Value(a.amountAtomic)))
  {
    hide VerifyPrepared, Approved, WithinCap, Pow256, Decode, Decimals.Canonical, Decimals.Dec, Decimals.Value, Hex.Encode, Hex.Decode;
    Accepted(libs, c);
    if VerifyPrepared(libs, c).value.tokenStandard.Some? {
      EthereumTokenCall(libs, c);
    }
  }

  /** A budget equal to the text of a fee, within the cap, keeps the fee within the cap. */
  lemma BudgetWithinCap(a: Auth, c: Check, fee: nat)
    requires WithinCap(a, c) && c.prepared.networkFeeBudget == Decimals.Dec(fee) && Decimals.Canonical(a.maxNetworkFeeAtomic)
    ensures fee <= Decimals.Value(a.maxNetworkFeeAtomic)
  {
    hide Decimals.Value, Decimals.Dec;
    NumberOfDec(fee);
    CanonicalNumber(a.maxNetworkFeeAtomic);
  }

  /** Acceptance on Ethereum keeps gas times the maximum fee within the approved cap. */
  lemma EthereumFeeWithinCap(libs: Libs, c: Check)
    requires VerifyPrepared(libs, c).Some? && c.payload == EthereumPayload
    ensures var a := VerifyPrepared(libs, c).value;
            && Decimals.Canonical(a.maxNetworkFeeAtomic) && TransactionBytes(c).Some? && |TransactionBytes(c).value| > 0
            && libs.decodeTx(TransactionBytes(c).value[1..]).Some?
            && var tx := libs.decodeTx(TransactionBytes(c).value[1..]).value.tx;
               tx.gas * tx.maxFee <= Decimals.Value(a.maxNetworkFeeAtomic)
  {
    hide VerifyPrepared, Approved, WithinCap, Pow256, Decimals.Dec, Decimals.Value, Hex.Encode, Hex.Decode, Ethereum.TermsMatch, Ethereum.TransferMatches;
    Accepted(libs, c);
    ApprovedTransfer(libs, c);
    var tx := libs.decodeTx(TransactionBytes(c).value[1..]).value.tx;
    BudgetWithinCap(VerifyPrepared(libs, c).value, c, Times(tx.gas, tx.maxFee));
  }

  /** Acceptance on TRON keeps the worst-case fee of the quote within the approved cap. */
  lemma TronFeeWithinCap(libs: Libs, c: Check)
    requires VerifyPrepared(libs, c).Some? && c.payload == TronPayloadType
    ensures var a := VerifyPrepared(libs, c).value;
            && Decimals.Canonical(a.maxNetworkFeeAtomic) && TransactionBytes(c).Some? && c.prepared.evidence.QuoteEvidence?
            && Tron.QuoteOk(TransactionBytes(c).value, c.policy, c.prepared.evidence.quote)
            && Tron.WorstCaseFee(TransactionBytes(c).value, c.policy, c.prepared.evidence.quote) <= Decimals.Value(a.maxNetworkFeeAtomic)
  {
    hide VerifyPrepared, Approved, WithinCap, Pow256, Decimals.Dec, Decimals.Value, Hex.Encode, Hex.Decode, Tron.BytesOk;
    Accepted(libs, c);
    ApprovedTransfer(libs, c);
    var raw, q := TransactionBytes(c).value, c.prepared.evidence.quote;
    if Tron.QuoteOk(raw, c.policy, q) {
      BudgetWithinCap(VerifyPrepared(libs, c).value, c, Tron.WorstCaseFee(raw, c.policy, q));
    }
  }
}
