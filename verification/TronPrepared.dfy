/** Unsigned TRON transactions against the policy, and their fee budget. */
module TronPrepared {
  import opened Common
  import opened BigEndian
  import opened TransferCall
  import opened Authorization
  import opened Protobuf
  import Decimals
  import Hex

  datatype ContractKind = TransferKind | TriggerKind | OtherKind

  datatype Contract = Contract(
    kind: ContractKind, typeUrl: string, permissionId: int, providerBytes: nat, nameBytes: nat, unknown: bool,
    parameter: Option<Bytes>)

  datatype RawTx = RawTx(
    contracts: seq<Contract>, refBlockBytes: nat, refBlockHash: nat, refBlockNum: int, auths: nat, dataBytes: nat,
    scripts: nat, timestamp: int, expiration: int, feeLimit: int)

  datatype Transfer = Transfer(owner: Bytes, to: Bytes, amount: int)

  datatype Trigger = Trigger(owner: Bytes, contract: Bytes, data: Bytes, callValue: int, callTokenValue: int, tokenId: int)

  /** The strict protobuf readers: none of them accepts bytes other than the deterministic encoding. */
  datatype ProtoLib = ProtoLib(rawTx: Bytes -> Option<RawTx>, transfer: Bytes -> Option<Transfer>, trigger: Bytes -> Option<Trigger>)

  /** `tronAddress`; nil reads as no bytes. */
  function AddressWithVersion(lib: Lib, address: string): Bytes {
    var payload := TronPayload(lib, address);
    if payload.None? then [] else [0x41] + payload.value
  }

  predicate FrameOk(tx: RawTx, nowMillis: int) {
    && |tx.contracts| == 1 && tx.refBlockBytes == 2 && tx.refBlockHash == 8 && tx.refBlockNum == 0
    && tx.auths == 0 && tx.dataBytes == 0 && tx.scripts == 0
    && 0 < tx.timestamp <= nowMillis + 1000 && tx.expiration - nowMillis > 60000
    && tx.timestamp < tx.expiration <= tx.timestamp + 86340000
    && 0 <= tx.feeLimit <= MAX_SAFE_INTEGER
  }

  predicate ContractOk(c: Contract) {
    !c.unknown && c.permissionId == 0 && c.providerBytes == 0 && c.nameBytes == 0 && c.parameter.Some?
  }

  predicate NativeOk(lib: Lib, proto: ProtoLib, tx: RawTx, c: Contract, p: Context)
    requires c.parameter.Some?
  {
    var v := proto.transfer(c.parameter.value);
    && c.kind == TransferKind && c.typeUrl == "type.googleapis.com/protocol.TransferContract" && v.Some?
    && v.value.owner == AddressWithVersion(lib, p.fromAddress) && v.value.to == AddressWithVersion(lib, p.toAddress)
    && 0 < v.value.amount <= MAX_SAFE_INTEGER && Decimals.Dec(v.value.amount) == p.amountAtomic
    && tx.feeLimit == 0 && p.feeLimitSun.None? && p.asset == "TRX"
  }

  /** The contract address bytes the token branch expects. */
  function ContractBytes(p: Context): Bytes {
    if p.tokenContract.None? then []
    else
      var h := Hex.Decode(TrimHexPrefix(p.tokenContract.value));
      [0x41] + (if h.Some? then h.value else [])
  }

  predicate TokenOk(lib: Lib, proto: ProtoLib, tx: RawTx, c: Contract, p: Context)
    requires c.parameter.Some? && p.tokenStandard.Some?
  {
    var v, addr := proto.trigger(c.parameter.value), AddressWithVersion(lib, p.toAddress);
    && (p.tokenStandard.value == "trc20" || p.tokenStandard.value == "TRC20")
    && c.kind == TriggerKind && c.typeUrl == "type.googleapis.com/protocol.TriggerSmartContract" && v.Some?
    && v.value.owner == AddressWithVersion(lib, p.fromAddress) && v.value.contract == ContractBytes(p)
    && |addr| == 21 && v.value.data == CallBytes("0x" + Hex.Encode(addr[1..]), p.amountAtomic)
    && v.value.callValue == 0 && v.value.callTokenValue == 0 && v.value.tokenId == 0
    && p.feeLimitSun.Some? && tx.feeLimit > 0 && Decimals.Dec(tx.feeLimit) == p.feeLimitSun.value
  }

  /** `verifyTronBytes`. */
  predicate BytesOk(lib: Lib, proto: ProtoLib, raw: Bytes, p: Context, nowMillis: int) {
    var tx := proto.rawTx(raw);
    && tx.Some? && FrameOk(tx.value, nowMillis) && ContractOk(tx.value.contracts[0])
    && (if p.tokenStandard.None? then NativeOk(lib, proto, tx.value, tx.value.contracts[0], p)
        else TokenOk(lib, proto, tx.value, tx.value.contracts[0], p))
  }

  // ---- Fees ----

  datatype FeeParameters = FeeParameters(
    feePerBandwidth: string, createAccountFee: string, createNewAccountFee: string, newAccountRate: string)

  datatype Quote = Quote(
    version: int, destinationExists: bool, parameters: FeeParameters, amountAtomic: string, signedBytes: int, bandwidthBytes: int)

  predicate NumbersOk(q: Quote) {
    Decimals.Canonical(q.parameters.feePerBandwidth) && Decimals.Canonical(q.parameters.createAccountFee)
    && Decimals.Canonical(q.parameters.createNewAccountFee) && Decimals.Canonical(q.parameters.newAccountRate)
    && Decimals.Canonical(q.amountAtomic)
  }

  /** Bandwidth is charged for the signed transaction plus 64 bytes of result. */
  function Bandwidth(raw: Bytes): nat {
    SignedSize(raw) + 64
  }

  /** The most the transaction can cost: bandwidth, account creation for a missing native destination, energy up to the fee limit. */
  function WorstCaseFee(raw: Bytes, p: Context, q: Quote): nat
    requires NumbersOk(q) && (p.feeLimitSun.Some? ==> Decimals.Canonical(p.feeLimitSun.value))
  {
    var bandwidth := Times(Bandwidth(raw), Decimals.Value(q.parameters.feePerBandwidth));
    if p.feeLimitSun.Some? then bandwidth + Decimals.Value(p.feeLimitSun.value)
    else if q.destinationExists then bandwidth
    else Times(bandwidth, Decimals.Value(q.parameters.newAccountRate))
         + Decimals.Value(q.parameters.createAccountFee) + Decimals.Value(q.parameters.createNewAccountFee)
  }

  /** When the quote is honoured. */
  predicate QuoteOk(raw: Bytes, p: Context, q: Quote) {
    && q.version == 1 && NumbersOk(q) && (p.feeLimitSun.Some? ==> Decimals.Canonical(p.feeLimitSun.value))
    && q.signedBytes == SignedSize(raw) && q.bandwidthBytes == Bandwidth(raw)
    && q.amountAtomic == Decimals.Dec(WorstCaseFee(raw, p, q))
  }

  /** `tronBudget`: the text of the worst-case fee, or nothing. */
  method Budget(raw: Bytes, p: Context, q: Quote) returns (budget: string)
    ensures budget == if QuoteOk(raw, p, q) then Decimals.Dec(WorstCaseFee(raw, p, q)) else ""
  {
    hide Decimals.Dec, Decimals.Value, Decimals.AllDigits, SignedTransaction, Times;
    if q.version != 1 || !NumbersOk(q) {
      return "";
    }
    var signed := |SignedTransaction([], seq(65, _ => 0))|;
    var size := VarintSize(|raw|);
    signed := signed + |raw| + size - 1;
    var bandwidth := signed + 64;
    if q.signedBytes != signed || q.bandwidthBytes != bandwidth {
      return "";
    }
    var total := Times(bandwidth, Decimals.Value(q.parameters.feePerBandwidth));
    if p.feeLimitSun.None? && !q.destinationExists {
      total := Times(total, Decimals.Value(q.parameters.newAccountRate));
      total := total + Decimals.Value(q.parameters.createAccountFee);
      total := total + Decimals.Value(q.parameters.createNewAccountFee);
    }
    if p.feeLimitSun.Some? {
      if !Decimals.Canonical(p.feeLimitSun.value) {
        return "";
      }
      total := total + Decimals.Value(p.feeLimitSun.value);
    }
    if Decimals.Dec(total) != q.amountAtomic {
      return "";
    }
    return Decimals.Dec(total);
  }

  /** The charged bandwidth is the exact length of the signed transaction plus 64, whatever the signature. */
  lemma BandwidthIsExact(raw: Bytes, signature: Bytes)
    requires |signature| == 65
    ensures Bandwidth(raw) == |SignedTransaction(raw, signature)| + 64
  {
    SignedSizeIsExact(raw, signature);
  }

  /** An accepted token transfer to a valid address of a canonical amount carries the 68-byte call of just that transfer. */
  lemma TokenCallIsTheTransfer(lib: Lib, proto: ProtoLib, raw: Bytes, p: Context, nowMillis: int)
    requires BytesOk(lib, proto, raw, p, nowMillis) && p.tokenStandard.Some?
    requires TronPayload(lib, p.toAddress).Some?
    requires TronPayload(lib, p.fromAddress).Some? && p.tokenContract.Some? && IsEvmAddress(p.tokenContract.value)
    requires Decimals.Canonical(p.amountAtomic) && IsWord(Decimals.Value(p.amountAtomic))
    ensures var v := proto.trigger(proto.rawTx(raw).value.contracts[0].parameter.value).value;
            && |v.data| == 68 && v.callValue == 0
            && v.owner == [0x41] + TronPayload(lib, p.fromAddress).value
            && AddressBytes(p.tokenContract.value).Some? && v.contract == [0x41] + AddressBytes(p.tokenContract.value).value
            && Decode(v.data) == Some((TronPayload(lib, p.toAddress).value, Decimals.Value(p.amountAtomic)))
  {
    hide Pow256, Decimals.Dec, Decode, FrameOk, Hex.Decode, Hex.Encode;
    var payload := TronPayload(lib, p.toAddress).value;
    assert AddressWithVersion(lib, p.toAddress)[1..] == payload;
    HexTextIsAddress(payload);
    EvmAddressBytes(p.tokenContract.value);
    CanonicalNumber(p.amountAtomic);
    DecodeInvertsCallData("0x" + Hex.Encode(payload), p.amountAtomic);
  }

  lemma HexTextIsAddress(b: Bytes)
    requires |b| == 20
    ensures AddressBytes("0x" + Hex.Encode(b)) == Some(b)
  {
    hide Hex.Encode, Hex.Decode;
    assert TrimHexPrefix("0x" + Hex.Encode(b)) == Hex.Encode(b);
    Hex.DecodeInvertsEncode(b);
  }
}
