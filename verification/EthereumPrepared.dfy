/** Unsigned EIP-1559 transactions against the policy. */
module EthereumPrepared {
  import opened Common
  import opened BigEndian
  import opened TransferCall
  import opened Authorization
  import opened Rlp
  import Decimals
  import Hex

  /** A decoded list: the transaction and how many access list entries it had. */
  datatype Decoded = Decoded(tx: Tx, accessList: nat)

  function ChainIdOf(chain: string): string {
    if chain == "ethereum:mainnet" then "1" else if chain == "ethereum:sepolia" then "11155111" else ""
  }

  /** The numeric checks. */
  predicate TermsMatch(tx: Tx, p: Context) {
    && |tx.to| == 20
    && Decimals.Dec(tx.chainId) == ChainIdOf(p.chain) && Decimals.Dec(tx.chainId) == p.chainId
    && Decimals.Dec(tx.nonce) == p.nonce && Decimals.Dec(tx.gas) == p.gasLimit
    && Decimals.Dec(tx.maxFee) == p.maxFeePerGas && Decimals.Dec(tx.priority) == p.maxPriorityFeePerGas
    && tx.gas > 0 && tx.maxFee > 0 && tx.priority <= tx.maxFee
    && tx.value < Pow256(32) && tx.maxFee < Pow256(32) && tx.priority < Pow256(32) && tx.gas < Pow256(8)
    && tx.nonce <= MAX_SAFE_INTEGER
  }

  /** Recipient, value and data. */
  predicate TransferMatches(tx: Tx, p: Context) {
    var to := "0x" + Hex.Encode(tx.to);
    if p.tokenStandard.None? then
      p.asset == "ETH" && to == p.toAddress && Decimals.Dec(tx.value) == p.amountAtomic && tx.data == []
    else
      && p.tokenStandard.value == "erc20" && p.tokenContract.Some? && to == p.tokenContract.value
      && tx.value == 0 && tx.data == CallBytes(p.toAddress, p.amountAtomic)
  }

  /** `verifyEthereumBytes`: the fee budget when the bytes are accepted. `decode` is the library's decoder. */
  function VerifyBytes(decode: Bytes -> Option<Decoded>, raw: Bytes, p: Context): Option<string> {
    if |raw| < 2 || raw[0] != 2 then None
    else
      var d := decode(raw[1..]);
      if d.None? || !Encodable(d.value.tx) || d.value.accessList != 0 || EncodeTx(d.value.tx) != raw[1..] then None
      else if !TermsMatch(d.value.tx, p) || !TransferMatches(d.value.tx, p) then None
      else Some(Decimals.Dec(Times(d.value.tx.gas, d.value.tx.maxFee)))
  }

  lemma TermsDetermine(x: Tx, y: Tx, p: Context)
    requires TermsMatch(x, p) && TermsMatch(y, p)
    ensures x.chainId == y.chainId && x.nonce == y.nonce && x.gas == y.gas && x.maxFee == y.maxFee && x.priority == y.priority
  {
    hide Pow256, Decimals.Dec;
    Decimals.DecInjective(x.chainId, y.chainId);
    Decimals.DecInjective(x.nonce, y.nonce);
    Decimals.DecInjective(x.gas, y.gas);
    Decimals.DecInjective(x.maxFee, y.maxFee);
    Decimals.DecInjective(x.priority, y.priority);
  }

  lemma TransferDetermines(x: Tx, y: Tx, p: Context)
    requires TransferMatches(x, p) && TransferMatches(y, p)
    ensures x.to == y.to && x.value == y.value && x.data == y.data
  {
    hide Decimals.Dec, Hex.Encode, CallBytes;
    SameHex(x.to, y.to);
    if p.tokenStandard.None? { Decimals.DecInjective(x.value, y.value); }
  }

  lemma SameHex(a: Bytes, b: Bytes)
    requires "0x" + Hex.Encode(a) == "0x" + Hex.Encode(b)
    ensures a == b
  {
    hide Hex.Encode;
    assert Hex.Encode(a) == ("0x" + Hex.Encode(a))[2..] == ("0x" + Hex.Encode(b))[2..] == Hex.Encode(b);
    Hex.EncodeInjective(a, b);
  }

  /** For one policy at most one byte string is accepted, whatever the decoder does. */
  lemma AtMostOneTransaction(decode: Bytes -> Option<Decoded>, raw: Bytes, raw': Bytes, p: Context)
    requires VerifyBytes(decode, raw, p).Some? && VerifyBytes(decode, raw', p).Some?
    ensures raw == raw'
  {
    hide TermsMatch, TransferMatches, EncodeTx, Encodable, Decimals.Dec;
    var x, y := decode(raw[1..]).value.tx, decode(raw'[1..]).value.tx;
    TermsDetermine(x, y, p);
    TransferDetermines(x, y, p);
    assert x == y;
    assert raw == [2] + raw[1..] && raw' == [2] + raw'[1..];
  }

  /** Two decoders that accept the same bytes read the same transaction, so the bytes bind the policy's terms. */
  lemma BytesBindTheTerms(decode: Bytes -> Option<Decoded>, decode': Bytes -> Option<Decoded>, raw: Bytes, p: Context, q: Context)
    requires VerifyBytes(decode, raw, p).Some? && VerifyBytes(decode', raw, q).Some?
    ensures p.chainId == q.chainId && p.nonce == q.nonce && p.gasLimit == q.gasLimit
    ensures p.maxFeePerGas == q.maxFeePerGas && p.maxPriorityFeePerGas == q.maxPriorityFeePerGas
    ensures p.tokenStandard.None? && q.tokenStandard.None? ==> p.toAddress == q.toAddress && p.amountAtomic == q.amountAtomic
    ensures p.tokenStandard.Some? && q.tokenStandard.Some? ==>
      p.tokenContract == q.tokenContract && CallBytes(p.toAddress, p.amountAtomic) == CallBytes(q.toAddress, q.amountAtomic)
  {
    hide EncodeTx, Encodable, CallBytes, Decimals.Dec, Hex.Encode, Pow256;
    var x, y := decode(raw[1..]).value.tx, decode'(raw[1..]).value.tx;
    EncodeTxInjective(x, y);
  }

  /** Two decoders that accept the same bytes read the same transaction. */
  lemma SameTransaction(decode: Bytes -> Option<Decoded>, decode': Bytes -> Option<Decoded>, raw: Bytes, p: Context, q: Context)
    requires VerifyBytes(decode, raw, p).Some? && VerifyBytes(decode', raw, q).Some?
    ensures |raw| > 0 && decode(raw[1..]).Some? && decode'(raw[1..]).Some?
    ensures decode(raw[1..]).value.tx == decode'(raw[1..]).value.tx
    ensures ChainIdOf(p.chain) == ChainIdOf(q.chain) != ""
  {
    hide EncodeTx, Encodable, TransferMatches, Decimals.Dec, Pow256;
    EncodeTxInjective(decode(raw[1..]).value.tx, decode'(raw[1..]).value.tx);
  }

  lemma ChainIdNamesChain(a: string, b: string)
    requires ChainIdOf(a) == ChainIdOf(b) != ""
    ensures a == b
  {
    assert |"1"| != |"11155111"|;
  }

  /** An accepted token transfer to a canonical address of a canonical amount carries the 68-byte call of just that transfer. */
  lemma TokenCallIsTheTransfer(decode: Bytes -> Option<Decoded>, raw: Bytes, p: Context)
    requires VerifyBytes(decode, raw, p).Some? && p.tokenStandard.Some?
    requires IsEvmAddress(p.toAddress) && Decimals.Canonical(p.amountAtomic) && IsWord(Decimals.Value(p.amountAtomic))
    ensures var tx := decode(raw[1..]).value.tx;
            && |tx.data| == 68 && tx.value == 0
            && Decode(tx.data) == Some((AddressBytes(p.toAddress).value, Decimals.Value(p.amountAtomic)))
            && "0x" + Hex.Encode(AddressBytes(p.toAddress).value) == p.toAddress
  {
    hide EncodeTx, Encodable, Decimals.Dec, Pow256, TermsMatch, Decode;
    EvmAddressBytes(p.toAddress);
    CanonicalNumber(p.amountAtomic);
    DecodeInvertsCallData(p.toAddress, p.amountAtomic);
  }
}
