/** The approved transfer terms and the policy snapshot a transaction is checked against. */
module Authorization {
  import opened Common
  import opened BigEndian
  import opened TransferCall
  import Decimals

  type Bytes = seq<byte>

  datatype Context = Context(
    amountAtomic: string, asset: string, chain: string, chainId: string, feeLimitSun: Option<string>,
    fromAddress: string, gasLimit: string, maxFeePerGas: string, maxPriorityFeePerGas: string, nonce: string,
    toAddress: string, tokenContract: Option<string>, tokenDecimals: Option<int>, tokenStandard: Option<string>)

  datatype ChainParams = EthereumParams(maxFeePerGas: string, maxPriorityFeePerGas: string) | TronParams(feeLimitSun: Option<string>)

  datatype Auth = Auth(
    requestId: string, chain: string, asset: string, fromAddress: string, toAddress: string, amountAtomic: string,
    networkFeeAsset: string, maxNetworkFeeAtomic: string, tokenStandard: Option<string>, tokenContract: Option<string>,
    tokenDecimals: Option<int>, params: Option<ChainParams>)

  /** Base58Check with its version byte, and the closed shape and sender checks of an authorization. */
  datatype Lib = Lib(
    checkDecode: string -> Option<(byte, Bytes)>, checkEncode: (byte, Bytes) -> string, boundedText: string -> bool,
    parseShape: Bytes -> Option<Auth>)

  function TronPayload(lib: Lib, address: string): Option<Bytes> {
    var d := lib.checkDecode(address);
    if d.None? || d.value.0 != 0x41 || |d.value.1| != 20 then None else Some(d.value.1)
  }

  predicate CanonicalTronAddress(lib: Lib, address: string) {
    TronPayload(lib, address).Some? && lib.checkEncode(0x41, TronPayload(lib, address).value) == address
  }

  /** `validateTransferAsset`. */
  predicate ValidTransfer(lib: Lib, a: Auth, native: string, standard: string) {
    && Decimals.Canonical(a.amountAtomic) && a.amountAtomic != "0" && Decimals.Canonical(a.maxNetworkFeeAtomic)
    && lib.boundedText(a.asset) && a.networkFeeAsset == native
    && Decimals.Value(a.amountAtomic) < Pow256(32)
    && (if a.tokenStandard.None? then a.tokenContract.None? && a.tokenDecimals.None? && a.asset == native
        else
          && a.tokenStandard.value == standard && a.tokenContract.Some? && IsEvmAddress(a.tokenContract.value)
          && a.tokenDecimals.Some? && 0 <= a.tokenDecimals.value <= 255)
  }

  predicate IsEthereum(chain: string) {
    chain == "ethereum:mainnet" || chain == "ethereum:sepolia"
  }

  predicate IsTron(chain: string) {
    chain == "tron:mainnet" || chain == "tron:nile"
  }

  predicate ValidEthereum(lib: Lib, a: Auth) {
    && IsEvmAddress(a.toAddress) && IsEvmAddress(a.fromAddress) && ValidTransfer(lib, a, "ETH", "erc20")
    && (a.params.Some? ==>
          && a.params.value.EthereumParams?
          && Decimals.Canonical(a.params.value.maxFeePerGas) && Decimals.Canonical(a.params.value.maxPriorityFeePerGas)
          && Decimals.Value(a.params.value.maxPriorityFeePerGas) <= Decimals.Value(a.params.value.maxFeePerGas))
  }

  const MAX_SAFE_INTEGER: nat := 0x1f_ffff_ffff_ffff

  predicate ValidTron(lib: Lib, a: Auth) {
    && CanonicalTronAddress(lib, a.toAddress) && CanonicalTronAddress(lib, a.fromAddress) && ValidTransfer(lib, a, "TRX", "trc20")
    && (a.tokenStandard.None? ==> Decimals.Value(a.amountAtomic) <= MAX_SAFE_INTEGER)
    && (a.params.Some? ==>
          && a.params.value.TronParams?
          && (a.params.value.feeLimitSun.Some? ==> Decimals.Canonical(a.params.value.feeLimitSun.value)))
  }

  /** `ParseAuthorization`: only an explicitly supported network selects a validator. */
  function ParseAuthorization(lib: Lib, raw: Bytes): Option<Auth> {
    var a := lib.parseShape(raw);
    if a.None? then None
    else if IsEthereum(a.value.chain) then (if ValidEthereum(lib, a.value) then a else None)
    else if IsTron(a.value.chain) then (if ValidTron(lib, a.value) then a else None)
    else None
  }

  /** The call bytes, with the nil failure reading as no bytes. */
  function CallBytes(address: string, amount: string): Bytes {
    var call := CallData(address, amount);
    if call.Some? then call.value else []
  }
}
