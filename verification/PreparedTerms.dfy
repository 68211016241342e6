/**
  What an accepted transaction is, in numbers and addresses, and exactly when a
  transaction is accepted.
*/
module PreparedTerms {
  import opened Common
  import opened BigEndian
  import opened TransferCall
  import opened Authorization
  import opened Rlp
  import Ethereum = EthereumPrepared
  import Tron = TronPrepared
  import opened Prepared
  import Decimals
  import Hex
  import Protobuf

  /** The text is the canonical decimal of the number. */
  predicate Is(text: string, n: int) {
    Decimals.Canonical(text) && Decimals.Value(text) == n
  }

  lemma DecExactly(n: nat, text: string)
    ensures Decimals.Dec(n) == text <==> Is(text, n)
  {
    hide Decimals.Dec, Decimals.Value, Decimals.Canonical;
    Decimals.ValueOfDec(n);
    Decimals.DecIsCanonical(n);
    if Is(text, n) { Decimals.DecOfValue(text); }
  }

  // ---- Ethereum bytes ----

  function ChainNumber(chain: string): nat {
    if chain == "ethereum:mainnet" then 1 else if chain == "ethereum:sepolia" then 11155111 else 0
  }

  lemma ChainIdIsNumber(chain: string, n: nat)
    ensures Decimals.Dec(n) == Ethereum.ChainIdOf(chain) <==> n == ChainNumber(chain) && n != 0
  {
    hide Decimals.Dec;
    DecExactly(n, "1");
    DecExactly(n, "11155111");
    SepoliaNumber();
    assert Decimals.Canonical("1") && Decimals.Value("1") == 1 by { assert "1"[..0] == ""; }
  }

  lemma SepoliaNumber()
    ensures Decimals.Canonical("11155111") && Decimals.Value("11155111") == 11155111
  {
    assert "11155111"[..7] == "1115511" && "1115511"[..6] == "111551" && "111551"[..5] == "11155" && "11155"[..4] == "1115";
    assert "1115"[..3] == "111" && "111"[..2] == "11" && "11"[..1] == "1" && "1"[..0] == "";
    assert Decimals.Value("11") == 11 && Decimals.Value("111") == 111 && Decimals.Value("1115") == 1115;
    assert Decimals.Value("11155") == 11155 && Decimals.Value("111551") == 111551 && Decimals.Value("1115511") == 1115511;
  }

  /** Chain, nonce, gas and fees are the policy's, within their widths. */
  predicate Prices(tx: Tx, p: Context) {
    && tx.chainId == ChainNumber(p.chain) && tx.chainId != 0 && Is(p.chainId, tx.chainId)
    && Is(p.nonce, tx.nonce) && tx.nonce <= 9007199254740991
    && Is(p.gasLimit, tx.gas) && 0 < tx.gas < Pow256(8)
    && Is(p.maxFeePerGas, tx.maxFee) && 0 < tx.maxFee < Pow256(32)
    && Is(p.maxPriorityFeePerGas, tx.priority) && tx.priority <= tx.maxFee
  }

  /** The transaction pays the policy's recipient its amount: in ETH, or by a call of the token contract. */
  predicate Pays(tx: Tx, p: Context) {
    var recipient, call := AddressBytes(p.toAddress), Decode(tx.data);
    && |tx.to| == 20 && recipient.Some?
    && if p.tokenStandard.None? then
         p.asset == "ETH" && tx.to == recipient.value && Is(p.amountAtomic, tx.value) && tx.value < Pow256(32) && tx.data == []
       else
         && p.tokenStandard == Some("erc20") && p.tokenContract == Some("0x" + Hex.Encode(tx.to)) && tx.value == 0
         && call.Some? && call.value.0 == recipient.value && Is(p.amountAtomic, call.value.1)
  }

  lemma PricesExactly(tx: Tx, p: Context)
    requires |tx.to| == 20 && tx.value < Pow256(32)
    ensures Ethereum.TermsMatch(tx, p) <==> Prices(tx, p)
  {
    hide Decimals.Dec, Is, Pow256, Ethereum.ChainIdOf, ChainNumber;
    ChainIdIsNumber(p.chain, tx.chainId);
    DecExactly(tx.chainId, p.chainId);
    DecExactly(tx.nonce, p.nonce);
    DecExactly(tx.gas, p.gasLimit);
    DecExactly(tx.maxFee, p.maxFeePerGas);
    DecExactly(tx.priority, p.maxPriorityFeePerGas);
  }

  lemma PaysExactly(tx: Tx, p: Context)
    requires |tx.to| == 20 && tx.value < Pow256(32) && IsEvmAddress(p.toAddress)
    requires Decimals.Canonical(p.amountAtomic) && IsWord(Decimals.Value(p.amountAtomic))
    ensures Ethereum.TransferMatches(tx, p) <==> Pays(tx, p)
  {
    hide Decimals.Dec, Decimals.Value, Decimals.Canonical, Pow256, Decode, Hex.Encode, CallData, IsEvmAddress, AddressBytes, Number;
    EvmAddressBytes(p.toAddress);
    CanonicalNumber(p.amountAtomic);
    DecExactly(tx.value, p.amountAtomic);
    CallExactly(tx.data, p.toAddress, p.amountAtomic);
    AddressText(tx.to, p.toAddress);
    if p.tokenStandard.Some? && tx.value == 0 { PositiveWord(); }
  }

  lemma PositiveWord()
    ensures 0 < Pow256(32)
  {
    PowPositive(32);
  }

  lemma {:induction false} PowPositive(n: nat)
    ensures Pow256(n) > 0
  {
    if n > 0 { PowPositive(n - 1); }
  }

  lemma AddressText(b: seq<byte>, address: string)
    requires |b| == 20 && IsEvmAddress(address)
    ensures "0x" + Hex.Encode(b) == address <==> AddressBytes(address) == Some(b)
  {
    hide Hex.Encode, Hex.Decode;
    EvmAddressBytes(address);
    Tron.HexTextIsAddress(b);
  }

  /** The call bytes of a recipient and amount are the only bytes that decode to them. */
  lemma CallExactly(data: seq<byte>, address: string, amount: string)
    requires AddressBytes(address).Some? && Decimals.AllDigits(amount) && Number(amount) == Some(Decimals.Value(amount))
    requires IsWord(Decimals.Value(amount))
    ensures data == CallBytes(address, amount) <==> Decode(data) == Some((AddressBytes(address).value, Decimals.Value(amount)))
  {
    hide Decode, Pow256, AddressBytes, Number, Decimals.Value;
    assert CallData(address, amount).Some?;
    DecodeInvertsCallData(address, amount);
    if Decode(data) == Some((AddressBytes(address).value, Decimals.Value(amount))) {
      CallDataInvertsDecode(data, address, amount);
    }
  }

  /** A type 2 transaction with an empty access list, in its one encoding. */
  predicate IsTypeTwo(decode: Bytes -> Option<Ethereum.Decoded>, raw: Bytes, tx: Tx) {
    && |raw| >= 2 && raw[0] == 2 && decode(raw[1..]) == Some(Ethereum.Decoded(tx, 0))
    && Encodable(tx) && EncodeTx(tx) == raw[1..]
  }

  /** The bytes are accepted if and only if they are a type 2 transaction with the policy's prices that pays as it says. */
  lemma EthereumBytesExactly(decode: Bytes -> Option<Ethereum.Decoded>, raw: Bytes, p: Context)
    requires IsEvmAddress(p.toAddress) && Decimals.Canonical(p.amountAtomic) && IsWord(Decimals.Value(p.amountAtomic))
    ensures Ethereum.VerifyBytes(decode, raw, p).Some? <==>
              exists tx :: IsTypeTwo(decode, raw, tx) && Prices(tx, p) && Pays(tx, p)
    ensures forall tx | IsTypeTwo(decode, raw, tx) && Prices(tx, p) && Pays(tx, p) ::
              Ethereum.VerifyBytes(decode, raw, p) == Some(Decimals.Dec(Times(tx.gas, tx.maxFee)))
  {
    hide EncodeTx, Encodable, Prices, Pays, Pow256, Decimals.Dec, Decimals.Canonical, Ethereum.TransferMatches, IsEvmAddress;
    if |raw| >= 2 && decode(raw[1..]).Some? {
      var tx := decode(raw[1..]).value.tx;
      if |tx.to| == 20 && tx.value < Pow256(32) {
        PricesExactly(tx, p);
        PaysExactly(tx, p);
      } else {
        PaysInRange(tx, p);
      }
      if Ethereum.VerifyBytes(decode, raw, p).Some? { assert IsTypeTwo(decode, raw, tx) && Prices(tx, p) && Pays(tx, p); }
    }
  }

  lemma PaysInRange(tx: Tx, p: Context)
    ensures Pays(tx, p) ==> |tx.to| == 20 && tx.value < Pow256(32)
  {
    PositiveWord();
  }

  // ---- TRON bytes ----

  const MAX_SAFE: nat := 9007199254740991

  /** One contract and nothing else, with a block reference. */
  predicate Plain(tx: Tron.RawTx) {
    && |tx.contracts| == 1 && tx.refBlockBytes == 2 && tx.refBlockHash == 8 && tx.refBlockNum == 0
    && tx.auths == 0 && tx.dataBytes == 0 && tx.scripts == 0
    && var c := tx.contracts[0];
       !c.unknown && c.permissionId == 0 && c.providerBytes == 0 && c.nameBytes == 0 && c.parameter.Some?
  }

  /** Made by now, give or take a second; still valid for a minute, and never for more than 86340 seconds in all. */
  predicate Timely(tx: Tron.RawTx, nowMillis: int) {
    && 0 < tx.timestamp <= nowMillis + 1000 && nowMillis + 60000 < tx.expiration
    && tx.timestamp < tx.expiration <= tx.timestamp + 86340000
  }

  /** A transfer of the policy's amount of TRX from its sender to its recipient, with no fee limit. */
  predicate PaysTrx(lib: Lib, proto: Tron.ProtoLib, tx: Tron.RawTx, p: Context)
    requires Plain(tx)
  {
    var c, sender, recipient := tx.contracts[0], TronPayload(lib, p.fromAddress), TronPayload(lib, p.toAddress);
    var v := proto.transfer(c.parameter.value);
    && c.kind == Tron.TransferKind && c.typeUrl == "type.googleapis.com/protocol.TransferContract"
    && p.asset == "TRX" && p.feeLimitSun.None? && tx.feeLimit == 0
    && sender.Some? && recipient.Some? && v.Some?
    && v.value.owner == [0x41] + sender.value && v.value.to == [0x41] + recipient.value
    && Is(p.amountAtomic, v.value.amount) && 0 < v.value.amount <= MAX_SAFE
  }

  /** A call of the policy's token contract by its sender that transfers its amount to its recipient, up to its fee limit. */
  predicate PaysToken(lib: Lib, proto: Tron.ProtoLib, tx: Tron.RawTx, p: Context)
    requires Plain(tx)
  {
    var c, sender, recipient := tx.contracts[0], TronPayload(lib, p.fromAddress), TronPayload(lib, p.toAddress);
    var v := proto.trigger(c.parameter.value);
    && c.kind == Tron.TriggerKind && c.typeUrl == "type.googleapis.com/protocol.TriggerSmartContract"
    && (p.tokenStandard == Some("trc20") || p.tokenStandard == Some("TRC20"))
    && p.feeLimitSun.Some? && Is(p.feeLimitSun.value, tx.feeLimit) && 0 < tx.feeLimit <= MAX_SAFE
    && sender.Some? && recipient.Some? && v.Some? && p.tokenContract.Some? && AddressBytes(p.tokenContract.value).Some?
    && v.value.owner == [0x41] + sender.value && v.value.contract == [0x41] + AddressBytes(p.tokenContract.value).value
    && v.value.callValue == 0 && v.value.callTokenValue == 0 && v.value.tokenId == 0
    && var call := Decode(v.value.data); call.Some? && call.value.0 == recipient.value && Is(p.amountAtomic, call.value.1)
  }

  /** The addresses, the amount and the contract of the policy are well formed, as those of an authorization are. */
  predicate TronPolicy(lib: Lib, p: Context) {
    && TronPayload(lib, p.fromAddress).Some? && TronPayload(lib, p.toAddress).Some?
    && Decimals.Canonical(p.amountAtomic) && IsWord(Decimals.Value(p.amountAtomic))
    && (p.tokenStandard.Some? ==> p.tokenContract.Some? && IsEvmAddress(p.tokenContract.value))
  }

  lemma TrxExactly(lib: Lib, proto: Tron.ProtoLib, tx: Tron.RawTx, p: Context)
    requires Plain(tx) && TronPolicy(lib, p)
    ensures Tron.NativeOk(lib, proto, tx, tx.contracts[0], p) <==> PaysTrx(lib, proto, tx, p)
  {
    hide Decimals.Dec, Is, Pow256, Decimals.Canonical, IsEvmAddress, TronPayload;
    var v := proto.transfer(tx.contracts[0].parameter.value);
    if v.Some? && v.value.amount > 0 { DecExactly(v.value.amount, p.amountAtomic); }
  }

  lemma TokenExactly(lib: Lib, proto: Tron.ProtoLib, tx: Tron.RawTx, p: Context)
    requires Plain(tx) && TronPolicy(lib, p) && p.tokenStandard.Some? && 0 <= tx.feeLimit <= MAX_SAFE
    ensures Tron.TokenOk(lib, proto, tx, tx.contracts[0], p) <==> PaysToken(lib, proto, tx, p)
  {
    hide Decimals.Dec, Decimals.Value, Decimals.Canonical, Pow256, IsEvmAddress, TronPayload, Decode, Hex.Encode, Hex.Decode, CallData, AddressBytes;
    var v, recipient := proto.trigger(tx.contracts[0].parameter.value), TronPayload(lib, p.toAddress).value;
    var text := "0x" + Hex.Encode(recipient);
    RecipientText(lib, p.toAddress);
    ContractIsBytes(p);
    CanonicalNumber(p.amountAtomic);
    if p.feeLimitSun.Some? { DecExactly(tx.feeLimit, p.feeLimitSun.value); }
    if v.Some? { CallExactly(v.value.data, text, p.amountAtomic); }
  }

  lemma RecipientText(lib: Lib, address: string)
    requires TronPayload(lib, address).Some?
    ensures |TronPayload(lib, address).value| == 20 && |Tron.AddressWithVersion(lib, address)| == 21
    ensures Tron.AddressWithVersion(lib, address)[1..] == TronPayload(lib, address).value
    ensures AddressBytes("0x" + Hex.Encode(TronPayload(lib, address).value)) == Some(TronPayload(lib, address).value)
  {
    Tron.HexTextIsAddress(TronPayload(lib, address).value);
  }

  lemma ContractIsBytes(p: Context)
    requires p.tokenContract.Some? && IsEvmAddress(p.tokenContract.value)
    ensures AddressBytes(p.tokenContract.value).Some? && Tron.ContractBytes(p) == [0x41] + AddressBytes(p.tokenContract.value).value
  {
    hide Hex.Decode;
    EvmAddressBytes(p.tokenContract.value);
  }

  /** The bytes are accepted if and only if they are a plain, timely transaction that pays as the policy says. */
  lemma TronBytesExactly(lib: Lib, proto: Tron.ProtoLib, raw: Bytes, p: Context, nowMillis: int)
    requires TronPolicy(lib, p)
    ensures Tron.BytesOk(lib, proto, raw, p, nowMillis) <==>
              && proto.rawTx(raw).Some? && Plain(proto.rawTx(raw).value) && Timely(proto.rawTx(raw).value, nowMillis)
              && if p.tokenStandard.None? then PaysTrx(lib, proto, proto.rawTx(raw).value, p) else PaysToken(lib, proto, proto.rawTx(raw).value, p)
  {
    hide Tron.NativeOk, Tron.TokenOk, PaysTrx, PaysToken, TronPolicy;
    var tx := proto.rawTx(raw);
    if tx.Some? && Plain(tx.value) {
      if p.tokenStandard.None? {
        TrxExactly(lib, proto, tx.value, p);
        if PaysTrx(lib, proto, tx.value, p) { FeeLimitInRange(lib, proto, tx.value, p); }
      } else {
        if PaysToken(lib, proto, tx.value, p) { FeeLimitInRange(lib, proto, tx.value, p); }
        if 0 <= tx.value.feeLimit <= MAX_SAFE { TokenExactly(lib, proto, tx.value, p); }
      }
    }
  }

  lemma FeeLimitInRange(lib: Lib, proto: Tron.ProtoLib, tx: Tron.RawTx, p: Context)
    requires Plain(tx) && (PaysTrx(lib, proto, tx, p) || PaysToken(lib, proto, tx, p))
    ensures 0 <= tx.feeLimit <= MAX_SAFE
  {
  }

  // ---- The authorization ----

  /** The request names an outgoing transfer, and its authorization is the one that was hashed. */
  predicate Signed(libs: Libs, c: Check, a: Auth) {
    var canonical := libs.canonicalize(c.execution.authorization);
    && c.execution.version == 1 && libs.validReference(c.execution.outgoingId)
    && c.execution.requestId != "" && a.requestId == c.execution.requestId
    && c.prepared.version == 1 && c.prepared.encoding == "hex"
    && canonical.Some? && libs.auth.parseShape(canonical.value) == Some(a)
    && Hex.Encode(libs.sha256(canonical.value)) == c.execution.authorizationHash
  }

  /** A positive amount of the native coin, or of a token of this standard. */
  predicate Transfers(lib: Lib, a: Auth, native: string, standard: string) {
    && Decimals.Canonical(a.amountAtomic) && 0 < Decimals.Value(a.amountAtomic) < Pow256(32)
    && Decimals.Canonical(a.maxNetworkFeeAtomic) && lib.boundedText(a.asset) && a.networkFeeAsset == native
    && if a.tokenStandard.None? then a.asset == native && a.tokenContract.None? && a.tokenDecimals.None?
       else && a.tokenStandard == Some(standard) && a.tokenContract.Some? && IsEvmAddress(a.tokenContract.value)
            && a.tokenDecimals.Some? && 0 <= a.tokenDecimals.value <= 255
  }

  lemma TransfersExactly(lib: Lib, a: Auth, native: string, standard: string)
    ensures ValidTransfer(lib, a, native, standard) <==> Transfers(lib, a, native, standard)
  {
    hide Pow256, IsEvmAddress, Decimals.Value;
    if Decimals.Canonical(a.amountAtomic) {
      Decimals.DecOfValue(a.amountAtomic);
      ZeroIsZero();
    }
  }

  lemma ZeroIsZero()
    ensures Decimals.Value("0") == 0
  {
    assert "0"[..0] == "";
  }

  /** The Ethereum terms of an authorization. */
  predicate EthereumTerms(lib: Lib, a: Auth) {
    && (a.chain == "ethereum:mainnet" || a.chain == "ethereum:sepolia")
    && IsEvmAddress(a.fromAddress) && IsEvmAddress(a.toAddress) && Transfers(lib, a, "ETH", "erc20")
    && (a.params.Some? ==>
          && a.params.value.EthereumParams?
          && Decimals.Canonical(a.params.value.maxFeePerGas) && Decimals.Canonical(a.params.value.maxPriorityFeePerGas)
          && Decimals.Value(a.params.value.maxPriorityFeePerGas) <= Decimals.Value(a.params.value.maxFeePerGas))
  }

  /** The Base58Check text of twenty bytes with version 0x41, and the one text the encoder gives them. */
  ghost predicate IsTronAddress(lib: Lib, text: string) {
    exists b: Bytes :: |b| == 20 && lib.checkDecode(text) == Some((0x41, b)) && lib.checkEncode(0x41, b) == text
  }

  lemma TronAddressExactly(lib: Lib, text: string)
    ensures CanonicalTronAddress(lib, text) <==> IsTronAddress(lib, text)
    ensures forall b :: TronPayload(lib, text) == Some(b) <==> |b| == 20 && lib.checkDecode(text) == Some((0x41, b))
  {
    var d := lib.checkDecode(text);
    if d.Some? {
      assert d.value == (d.value.0, d.value.1);
    }
  }

  /** The TRON terms of an authorization. */
  ghost predicate TronTerms(lib: Lib, a: Auth) {
    && (a.chain == "tron:mainnet" || a.chain == "tron:nile")
    && IsTronAddress(lib, a.fromAddress) && IsTronAddress(lib, a.toAddress) && Transfers(lib, a, "TRX", "trc20")
    && (a.tokenStandard.None? ==> Decimals.Value(a.amountAtomic) <= MAX_SAFE)
    && (a.params.Some? ==>
          && a.params.value.TronParams?
          && (a.params.value.feeLimitSun.Some? ==> Decimals.Canonical(a.params.value.feeLimitSun.value)))
  }

  /** The authorization of a request is approved if and only if it is the hashed one and its terms are those of its chain. */
  lemma ApprovedExactly(libs: Libs, c: Check, a: Auth)
    requires c.execution.version == 1 && libs.validReference(c.execution.outgoingId) && c.execution.requestId != ""
    requires c.prepared.version == 1 && c.prepared.encoding == "hex"
    ensures Approved(libs, c) == Some(a) <==> Signed(libs, c, a) && (EthereumTerms(libs.auth, a) || TronTerms(libs.auth, a))
  {
    hide ValidTransfer, Transfers, IsEvmAddress, CanonicalTronAddress, IsTronAddress, Decimals.Value, Decimals.Canonical, Hex.Encode;
    TronAddressExactly(libs.auth, a.fromAddress);
    TronAddressExactly(libs.auth, a.toAddress);
    TransfersExactly(libs.auth, a, "ETH", "erc20");
    TransfersExactly(libs.auth, a, "TRX", "trc20");
  }

  /** The policy repeats the authorization. */
  predicate Repeats(a: Auth, p: Context) {
    (a.chain, a.asset, a.fromAddress, a.toAddress, a.amountAtomic, a.tokenContract, a.tokenDecimals)
    == (p.chain, p.asset, p.fromAddress, p.toAddress, p.amountAtomic, p.tokenContract, p.tokenDecimals)
  }

  /** The bytes to sign, as the request spells them. */
  predicate Spelled(c: Check, raw: Bytes) {
    c.prepared.unsignedTransaction == Hex.Encode(raw) && 0 < |raw| <= 16384
  }

  lemma SpelledExactly(c: Check, raw: Bytes)
    ensures TransactionBytes(c) == Some(raw) <==> Spelled(c, raw)
  {
    hide Hex.Encode, Hex.Decode;
    Hex.DecodeInvertsEncode(raw);
  }

  /** The fee is what the request budgets, and within the approved cap. */
  predicate Budgeted(a: Auth, c: Check, fee: nat)
    requires Decimals.Canonical(a.maxNetworkFeeAtomic)
  {
    Is(c.prepared.networkFeeBudget, fee) && fee <= Decimals.Value(a.maxNetworkFeeAtomic)
  }

  lemma BudgetedExactly(a: Auth, c: Check, fee: nat)
    requires Decimals.Canonical(a.maxNetworkFeeAtomic) && Decimals.Dec(fee) == c.prepared.networkFeeBudget
    ensures WithinCap(a, c) <==> Budgeted(a, c, fee)
  {
    hide Decimals.Dec, Decimals.Value, Decimals.Canonical;
    DecExactly(fee, c.prepared.networkFeeBudget);
    NumberOfDec(fee);
    CanonicalNumber(a.maxNetworkFeeAtomic);
  }

  // ---- Ethereum ----

  /** Fees the authorization asks for are the policy's. */
  predicate FeesAsked(a: Auth, p: Context) {
    a.params.Some? && a.params.value.EthereumParams? ==>
      a.params.value.maxFeePerGas == p.maxFeePerGas && a.params.value.maxPriorityFeePerGas == p.maxPriorityFeePerGas
  }

  /** The bytes are the transaction that was approved, hashed by Keccak-256, at a fee within the cap. */
  predicate EthereumTransfer(libs: Libs, c: Check, a: Auth, raw: Bytes, tx: Tx)
    requires Decimals.Canonical(a.maxNetworkFeeAtomic)
  {
    && Spelled(c, raw) && IsTypeTwo(libs.decodeTx, raw, tx) && Prices(tx, c.policy) && Pays(tx, c.policy)
    && c.algorithm == "keccak256" && c.digest == libs.keccak256(raw) && Budgeted(a, c, Times(tx.gas, tx.maxFee))
  }

  /** The authorization is the hashed one, its terms are those of its chain and of the policy, and it asks for no other fees. */
  predicate EthereumApproval(libs: Libs, c: Check, a: Auth) {
    && Signed(libs, c, a) && EthereumTerms(libs.auth, a) && Repeats(a, c.policy) && FeesAsked(a, c.policy)
    && a.tokenStandard == c.policy.tokenStandard && c.prepared.networkFeeAsset == "ETH" && c.prepared.evidence.NullEvidence?
  }

  lemma EthereumTermsGive(lib: Lib, a: Auth)
    requires EthereumTerms(lib, a)
    ensures Decimals.Canonical(a.maxNetworkFeeAtomic) && IsEvmAddress(a.toAddress) && a.networkFeeAsset == "ETH"
    ensures Decimals.Canonical(a.amountAtomic) && IsWord(Decimals.Value(a.amountAtomic)) && IsEthereum(a.chain)
  {
    hide Pow256, IsEvmAddress, Decimals.Value;
  }

  lemma EthereumChains(chain: string)
    ensures IsEthereum(chain) <==> Ethereum.ChainIdOf(chain) != ""
    ensures !(IsEthereum(chain) && IsTron(chain))
  {
  }

  lemma EthereumAccepted(libs: Libs, c: Check) returns (raw: Bytes, tx: Tx)
    requires VerifyPrepared(libs, c).Some? && c.payload == EthereumPayload
    ensures var a := VerifyPrepared(libs, c).value;
            EthereumApproval(libs, c, a) && Decimals.Canonical(a.maxNetworkFeeAtomic) && EthereumTransfer(libs, c, a, raw, tx)
  {
    hide Times, Approved, WithinCap, TransactionBytes, EthereumTerms, TronTerms, Signed, Hex.Encode, Decimals.Dec, Spelled,
         Decimals.Value, Decimals.Canonical, Ethereum.VerifyBytes, IsTypeTwo, Prices, Pays, IsEvmAddress, Pow256, VerifyTron;
    var a := VerifyPrepared(libs, c).value;
    ApprovedExactly(libs, c, a);
    EthereumChains(a.chain);
    if TronTerms(libs.auth, a) { TronTermsGive(libs.auth, a); }
    EthereumTermsGive(libs.auth, a);
    raw := TransactionBytes(c).value;
    SpelledExactly(c, raw);
    EthereumBytesExactly(libs.decodeTx, raw, c.policy);
    tx :| IsTypeTwo(libs.decodeTx, raw, tx) && Prices(tx, c.policy) && Pays(tx, c.policy);
    BudgetedExactly(a, c, Times(tx.gas, tx.maxFee));
  }

  lemma EthereumIsAccepted(libs: Libs, c: Check, a: Auth, raw: Bytes, tx: Tx)
    requires c.payload == EthereumPayload && EthereumApproval(libs, c, a)
    requires Decimals.Canonical(a.maxNetworkFeeAtomic) && EthereumTransfer(libs, c, a, raw, tx)
    ensures VerifyPrepared(libs, c) == Some(a)
  {
    hide Times, Approved, WithinCap, TransactionBytes, EthereumTerms, TronTerms, Hex.Encode, Decimals.Dec, Spelled,
         Decimals.Value, Decimals.Canonical, Ethereum.VerifyBytes, IsTypeTwo, Prices, Pays, IsEvmAddress, Pow256, VerifyTron;
    ApprovedExactly(libs, c, a);
    EthereumChains(a.chain);
    EthereumTermsGive(libs.auth, a);
    SpelledExactly(c, raw);
    EthereumBytesExactly(libs.decodeTx, raw, c.policy);
    DecExactly(Times(tx.gas, tx.maxFee), c.prepared.networkFeeBudget);
    BudgetedExactly(a, c, Times(tx.gas, tx.maxFee));
  }

  /**
    A check of an Ethereum payload accepts an authorization if and only if it is
    the one that was hashed, its terms are those of its chain and of the policy,
    and the bytes to sign are that transfer.
  */
  lemma EthereumAcceptedExactly(libs: Libs, c: Check, a: Auth)
    requires c.payload == EthereumPayload
    ensures VerifyPrepared(libs, c) == Some(a) <==>
              && EthereumApproval(libs, c, a) && Decimals.Canonical(a.maxNetworkFeeAtomic)
              && exists raw, tx :: EthereumTransfer(libs, c, a, raw, tx)
  {
    hide VerifyPrepared, EthereumApproval, EthereumTransfer, Decimals.Canonical;
    if VerifyPrepared(libs, c) == Some(a) {
      var raw, tx := EthereumAccepted(libs, c);
    } else if EthereumApproval(libs, c, a) && Decimals.Canonical(a.maxNetworkFeeAtomic) && exists raw, tx :: EthereumTransfer(libs, c, a, raw, tx) {
      var raw, tx :| EthereumTransfer(libs, c, a, raw, tx);
      EthereumIsAccepted(libs, c, a, raw, tx);
    }
  }

  // ---- TRON ----

  lemma TronTermsGive(lib: Lib, a: Auth)
    requires TronTerms(lib, a)
    ensures Decimals.Canonical(a.maxNetworkFeeAtomic) && TronPayload(lib, a.fromAddress).Some? && TronPayload(lib, a.toAddress).Some?
    ensures Decimals.Canonical(a.amountAtomic) && IsWord(Decimals.Value(a.amountAtomic)) && IsTron(a.chain) && a.networkFeeAsset == "TRX"
    ensures a.tokenStandard.Some? ==> a.tokenStandard == Some("trc20") && a.tokenContract.Some? && IsEvmAddress(a.tokenContract.value)
  {
    hide Pow256, IsEvmAddress, Decimals.Value, IsTronAddress, TronPayload;
    TronAddressExactly(lib, a.fromAddress);
    TronAddressExactly(lib, a.toAddress);
  }

  /** The length of the transaction with one 65-byte signature. */
  function SignedLength(raw: Bytes): nat {
    |Protobuf.SignedTransaction(raw, seq(65, _ => 0))|
  }

  /** The numbers of a quote: fee per byte, the two account creation fees, and the bandwidth rate of a new account. */
  datatype Rates = Rates(perByte: nat, create: nat, createNew: nat, rate: nat)

  /**
    The most the transaction can cost, at 64 bytes above its signed length: with a
    fee limit, that limit on top; without one, the bandwidth if the destination
    exists, and otherwise the bandwidth of a new account with both creation fees.
  */
  predicate Costs(raw: Bytes, p: Context, found: bool, rates: Rates, fee: nat) {
    var bytes := SignedLength(raw) + 64;
    if p.feeLimitSun.Some? then Decimals.Canonical(p.feeLimitSun.value) && fee == Times(bytes, rates.perByte) + Decimals.Value(p.feeLimitSun.value)
    else if found then fee == Times(bytes, rates.perByte)
    else fee == Times(Times(bytes, rates.perByte), rates.rate) + rates.create + rates.createNew
  }

  /** The quote is for these bytes, and says what they cost. */
  predicate Quotes(raw: Bytes, p: Context, q: Tron.Quote, rates: Rates, fee: nat) {
    && q.version == 1 && Is(q.parameters.feePerBandwidth, rates.perByte) && Is(q.parameters.createAccountFee, rates.create)
    && Is(q.parameters.createNewAccountFee, rates.createNew) && Is(q.parameters.newAccountRate, rates.rate)
    && q.signedBytes == SignedLength(raw) && q.bandwidthBytes == SignedLength(raw) + 64
    && Costs(raw, p, q.destinationExists, rates, fee) && Is(q.amountAtomic, fee)
  }

  /** The quote is honoured if and only if it says what the transaction costs, and that is the budget. */
  lemma QuotesExactly(raw: Bytes, p: Context, q: Tron.Quote)
    ensures Tron.QuoteOk(raw, p, q) <==> exists rates, fee :: Quotes(raw, p, q, rates, fee)
    ensures forall rates, fee | Quotes(raw, p, q, rates, fee) :: Tron.QuoteOk(raw, p, q) && Tron.WorstCaseFee(raw, p, q) == fee
  {
    hide Decimals.Dec, Decimals.AllDigits, Decimals.Value, Protobuf.SignedTransaction, Times;
    Protobuf.SignedSizeIsExact(raw, seq(65, _ => 0));
    forall rates, fee | Quotes(raw, p, q, rates, fee)
      ensures Tron.QuoteOk(raw, p, q) && Tron.WorstCaseFee(raw, p, q) == fee
    {
      DecExactly(fee, q.amountAtomic);
    }
    if Tron.QuoteOk(raw, p, q) {
      var fee := Tron.WorstCaseFee(raw, p, q);
      DecExactly(fee, q.amountAtomic);
      var rates := Rates(Decimals.Value(q.parameters.feePerBandwidth), Decimals.Value(q.parameters.createAccountFee),
                         Decimals.Value(q.parameters.createNewAccountFee), Decimals.Value(q.parameters.newAccountRate));
      assert Quotes(raw, p, q, rates, fee);
    }
  }

  /** The bytes are the transaction that was approved, hashed by SHA-256, at a quoted fee within the cap. */
  predicate TronTransfer(libs: Libs, c: Check, a: Auth, raw: Bytes, rates: Rates, fee: nat)
    requires Decimals.Canonical(a.maxNetworkFeeAtomic) && c.prepared.evidence.QuoteEvidence?
  {
    var tx := libs.proto.rawTx(raw);
    && Spelled(c, raw) && tx.Some? && Plain(tx.value) && Timely(tx.value, c.nowMillis)
    && (if a.tokenStandard.None? then PaysTrx(libs.auth, libs.proto, tx.value, c.policy) else PaysToken(libs.auth, libs.proto, tx.value, c.policy))
    && c.algorithm == "sha256" && c.digest == libs.sha256(raw)
    && Quotes(raw, c.policy, c.prepared.evidence.quote, rates, fee) && Budgeted(a, c, fee)
  }

  /** A fee limit the authorization asks for is the policy's. */
  predicate LimitAsked(a: Auth, p: Context) {
    a.params.Some? && a.params.value.TronParams? && a.params.value.feeLimitSun.Some? ==> a.params.value.feeLimitSun == p.feeLimitSun
  }

  /** The same on TRON, where the policy may spell the token standard in capitals. */
  ghost predicate TronApproval(libs: Libs, c: Check, a: Auth) {
    && Signed(libs, c, a) && TronTerms(libs.auth, a) && Repeats(a, c.policy) && LimitAsked(a, c.policy)
    && c.prepared.networkFeeAsset == "TRX" && c.prepared.evidence.QuoteEvidence?
    && (if a.tokenStandard.None? then c.policy.tokenStandard.None?
        else c.policy.tokenStandard == Some("trc20") || c.policy.tokenStandard == Some("TRC20"))
  }

  lemma TronPolicyGiven(libs: Libs, c: Check, a: Auth)
    requires TronTerms(libs.auth, a) && Repeats(a, c.policy) && (a.tokenStandard.None? ==> c.policy.tokenStandard.None?)
    ensures TronPolicy(libs.auth, c.policy)
  {
    hide TronTerms, TronPayload, Pow256, IsEvmAddress, Decimals.Canonical, Decimals.Value;
    TronTermsGive(libs.auth, a);
  }

  lemma TronAccepted(libs: Libs, c: Check) returns (raw: Bytes, rates: Rates, fee: nat)
    requires VerifyPrepared(libs, c).Some? && c.payload == TronPayloadType
    ensures var a := VerifyPrepared(libs, c).value;
            TronApproval(libs, c, a) && Decimals.Canonical(a.maxNetworkFeeAtomic) && TronTransfer(libs, c, a, raw, rates, fee)
  {
    hide Approved, WithinCap, TransactionBytes, EthereumTerms, TronTerms, Signed, Hex.Encode, Decimals.Dec, Spelled, PaysTrx, PaysToken, Plain, Timely,
         Decimals.Value, Decimals.Canonical, Tron.BytesOk, Tron.QuoteOk, Tron.WorstCaseFee, Quotes, Pow256, VerifyEthereum, TronPolicy;
    var a := VerifyPrepared(libs, c).value;
    ApprovedExactly(libs, c, a);
    EthereumChains(a.chain);
    if EthereumTerms(libs.auth, a) { EthereumTermsGive(libs.auth, a); }
    TronTermsGive(libs.auth, a);
    TronPolicyGiven(libs, c, a);
    raw := TransactionBytes(c).value;
    SpelledExactly(c, raw);
    TronBytesExactly(libs.auth, libs.proto, raw, c.policy, c.nowMillis);
    QuotesExactly(raw, c.policy, c.prepared.evidence.quote);
    rates, fee :| Quotes(raw, c.policy, c.prepared.evidence.quote, rates, fee);
    BudgetedExactly(a, c, fee);
  }

  lemma TronIsAccepted(libs: Libs, c: Check, a: Auth, raw: Bytes, rates: Rates, fee: nat)
    requires c.payload == TronPayloadType && TronApproval(libs, c, a)
    requires Decimals.Canonical(a.maxNetworkFeeAtomic) && TronTransfer(libs, c, a, raw, rates, fee)
    ensures VerifyPrepared(libs, c) == Some(a)
  {
    hide Approved, WithinCap, TransactionBytes, EthereumTerms, TronTerms, Hex.Encode, Decimals.Dec, Spelled, PaysTrx, PaysToken, Plain, Timely,
         Decimals.Value, Decimals.Canonical, Tron.BytesOk, Tron.QuoteOk, Tron.WorstCaseFee, Quotes, Pow256, VerifyEthereum, TronPolicy;
    ApprovedExactly(libs, c, a);
    EthereumChains(a.chain);
    TronTermsGive(libs.auth, a);
    TronPolicyGiven(libs, c, a);
    SpelledExactly(c, raw);
    TronBytesExactly(libs.auth, libs.proto, raw, c.policy, c.nowMillis);
    QuotesExactly(raw, c.policy, c.prepared.evidence.quote);
    DecExactly(fee, c.prepared.networkFeeBudget);
    BudgetedExactly(a, c, fee);
  }

  /**
    A check of a TRON payload accepts an authorization if and only if it is the
    one that was hashed, its terms are those of its chain and of the policy, and
    the bytes to sign are that transfer at a fee the quote states in full.
  */
  lemma TronAcceptedExactly(libs: Libs, c: Check, a: Auth)
    requires c.payload == TronPayloadType
    ensures VerifyPrepared(libs, c) == Some(a) <==>
              && TronApproval(libs, c, a) && Decimals.Canonical(a.maxNetworkFeeAtomic)
              && exists raw, rates, fee :: TronTransfer(libs, c, a, raw, rates, fee)
  {
    hide VerifyPrepared, TronTransfer, Decimals.Canonical, Signed, TronTerms;
    if VerifyPrepared(libs, c) == Some(a) {
      var raw, rates, fee := TronAccepted(libs, c);
    } else if TronApproval(libs, c, a) && Decimals.Canonical(a.maxNetworkFeeAtomic) && exists raw, rates, fee :: TronTransfer(libs, c, a, raw, rates, fee) {
      var raw, rates, fee :| TronTransfer(libs, c, a, raw, rates, fee);
      TronIsAccepted(libs, c, a, raw, rates, fee);
    }
  }

  /** An approved transfer of TRX is one plain transfer with no fee limit, from the approved sender to the approved recipient. */
  lemma TronNativeTransfer(libs: Libs, c: Check)
    requires VerifyPrepared(libs, c).Some? && c.payload == TronPayloadType && VerifyPrepared(libs, c).value.tokenStandard.None?
    ensures var a := VerifyPrepared(libs, c).value;
            && TransactionBytes(c).Some? && libs.proto.rawTx(TransactionBytes(c).value).Some?
            && var tx := libs.proto.rawTx(TransactionBytes(c).value).value;
               && |tx.contracts| == 1 && tx.feeLimit == 0 && tx.contracts[0].parameter.Some?
               && var v := libs.proto.transfer(tx.contracts[0].parameter.value);
                  && v.Some? && TronPayload(libs.auth, a.fromAddress).Some? && TronPayload(libs.auth, a.toAddress).Some?
                  && v.value.owner == [0x41] + TronPayload(libs.auth, a.fromAddress).value
                  && v.value.to == [0x41] + TronPayload(libs.auth, a.toAddress).value && Is(a.amountAtomic, v.value.amount)
  {
    hide VerifyPrepared, TransactionBytes, Signed, TronTerms, TronPayload, Is, Spelled, Quotes, Budgeted;
    var raw, rates, fee := TronAccepted(libs, c);
    SpelledExactly(c, raw);
  }

  /** An approved transfer of ETH sends the approved amount to the approved recipient, with no data. */
  lemma EthereumNativeTransfer(libs: Libs, c: Check)
    requires VerifyPrepared(libs, c).Some? && c.payload == EthereumPayload && VerifyPrepared(libs, c).value.tokenStandard.None?
    ensures var a := VerifyPrepared(libs, c).value;
            && TransactionBytes(c).Some? && |TransactionBytes(c).value| > 0 && libs.decodeTx(TransactionBytes(c).value[1..]).Some?
            && var tx := libs.decodeTx(TransactionBytes(c).value[1..]).value.tx;
               Some(tx.to) == AddressBytes(a.toAddress) && Is(a.amountAtomic, tx.value) && tx.data == []
  {
    hide VerifyPrepared, TransactionBytes, Signed, EthereumTerms, Is, Spelled, Budgeted, Prices, EncodeTx, Encodable, Pow256, AddressBytes;
    var raw, tx := EthereumAccepted(libs, c);
    SpelledExactly(c, raw);
  }
}
