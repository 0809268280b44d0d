/** The settlement oracle: an escrow call, from job and amount to the signed bytes sent to the chain. */
module Oracle {
  import opened Wrappers
  import opened Bytes
  import opened Rlp
  import opened Eip1559
  import opened Abi

  type Selector = s: seq<byte> | |s| == 4 witness [0, 0, 0, 0]

  /** What the node answered: chain id, account nonce, gas price. */
  datatype Chain = Chain(chainId: u64, nonce: u64, gasPrice: u128)

  const GAS_LIMIT := 150_000
  const PRIORITY_FEE := 100_000_000

  /** No Rust allocation is larger. */
  const ALLOCATION_LIMIT := 0x8000_0000_0000_0000

  /** One and a half times the gas price plus the priority fee; the product wraps at 128 bits. */
  function MaxFee(gasPrice: u128): u128 {
    gasPrice * 3 % U128_LIMIT / 2 + PRIORITY_FEE
  }

  /** The fee cap never falls below the priority fee, and is one and a half gas prices above it exactly
      when tripling does not wrap. */
  lemma MaxFeeIff(gasPrice: u128)
    ensures MaxFee(gasPrice) >= PRIORITY_FEE
    ensures 2 * (MaxFee(gasPrice) - PRIORITY_FEE) in {3 * gasPrice, 3 * gasPrice - 1} <==> 3 * gasPrice < U128_LIMIT
  {
  }

  function CallTx(calldata: Vec, chain: Chain, escrow: Address): Tx {
    Tx(chain.chainId, chain.nonce, PRIORITY_FEE, MaxFee(chain.gasPrice), GAS_LIMIT, escrow, 0, calldata, [])
  }

  // ----- sizes -----

  function SizeBound(x: Item): nat {
    match x
    case Uint(_) => 25
    case Str(b) => |b| + 9
  }

  lemma ItemSize(x: Item)
    ensures |EncodeItem(x)| <= SizeBound(x)
  {
    match x
    case Uint(n) =>
      Widths();
      if n > 0 {
        assert |ToBeBytes(n, 16)| == 16;
      }
    case Str(b) =>
      HeaderSize(|b|);
  }

  lemma HeaderSize(len: nat)
    requires len < USIZE_LIMIT
    ensures |RlpLengthEncode(len)| <= 9
  {
    UintBytesAreCanonical(len);
  }

  function TotalBound(xs: seq<Item>): nat {
    if xs == [] then 0 else SizeBound(xs[0]) + TotalBound(xs[1..])
  }

  lemma {:induction false} ItemsSize(xs: seq<Item>)
    ensures |EncodeItems(xs)| <= TotalBound(xs)
  {
    if xs == [] {
    } else {
      ItemSize(xs[0]);
      ItemsSize(xs[1..]);
    }
  }

  lemma CallFits(tx: Tx)
    ensures |EncodeItems(UnsignedItems(tx))| <= |tx.data| + |tx.accessList| + 300
  {
    hide EncodeItem, EncodeItems;
    var xs := UnsignedItems(tx);
    ItemsSize(xs);
    assert TotalBound(xs[9..]) == 0;
    assert TotalBound(xs[8..]) == SizeBound(xs[8]) + TotalBound(xs[8..][1..]) && xs[8..][1..] == xs[9..];
    assert TotalBound(xs[7..]) == SizeBound(xs[7]) + TotalBound(xs[7..][1..]) && xs[7..][1..] == xs[8..];
    assert TotalBound(xs[6..]) == SizeBound(xs[6]) + TotalBound(xs[6..][1..]) && xs[6..][1..] == xs[7..];
    assert TotalBound(xs[5..]) == SizeBound(xs[5]) + TotalBound(xs[5..][1..]) && xs[5..][1..] == xs[6..];
    assert TotalBound(xs[4..]) == SizeBound(xs[4]) + TotalBound(xs[4..][1..]) && xs[4..][1..] == xs[5..];
    assert TotalBound(xs[3..]) == SizeBound(xs[3]) + TotalBound(xs[3..][1..]) && xs[3..][1..] == xs[4..];
    assert TotalBound(xs[2..]) == SizeBound(xs[2]) + TotalBound(xs[2..][1..]) && xs[2..][1..] == xs[3..];
    assert TotalBound(xs[1..]) == SizeBound(xs[1]) + TotalBound(xs[1..][1..]) && xs[1..][1..] == xs[2..];
  }

  // ----- what is signed -----

  /** The selector, then the arguments. */
  function ReleaseCalldata(selector: Selector, jobId: Vec, wei: u128): (c: Vec)
    requires |jobId| + 131 < ALLOCATION_LIMIT
    ensures |c| < ALLOCATION_LIMIT
  {
    StringUintRoundTrip(jobId, wei);
    selector + (Uint256Be(64) + Uint256Be(wei) + DynamicTail(jobId))
  }

  function CancelCalldata(selector: Selector, jobId: Vec): (c: Vec)
    requires |jobId| + 131 < ALLOCATION_LIMIT
    ensures |c| < ALLOCATION_LIMIT
  {
    StringRoundTrip(jobId);
    selector + (Uint256Be(32) + DynamicTail(jobId))
  }

  /** The bytes whose hash is signed for a call. */
  function Payload(calldata: Vec, chain: Chain, escrow: Address): seq<byte>
    requires |calldata| < ALLOCATION_LIMIT
  {
    CallFits(CallTx(calldata, chain, escrow));
    Envelope(UnsignedItems(CallTx(calldata, chain, escrow)))
  }

  // ----- what the chain reads -----

  datatype Call = Release(tx: Tx, selector: Selector, jobId: seq<byte>, cost: nat)
                | Cancel(tx: Tx, selector: Selector, jobId: seq<byte>)

  /** The fields of a call: this chain and account nonce, this escrow contract, no value, the fixed gas
      limit and priority fee, and one and a half times the gas price, which wraps at 128 bits, besides. */
  predicate Addressed(tx: Tx, chain: Chain, escrow: Address) {
    && tx.chainId == chain.chainId && tx.nonce == chain.nonce
    && tx.to == escrow && tx.value == 0 && tx.accessList == []
    && tx.gasLimit == 150_000 && tx.maxPriorityFeePerGas == 100_000_000
    && var tripled := 3 * chain.gasPrice % 0x1_0000_0000_0000_0000_0000_0000_0000_0000;
       0 <= tripled - 2 * (tx.maxFeePerGas - 100_000_000) <= 1
  }

  /** A releaseEscrow(string,uint256) call, as a node and the contract would decode the raw bytes. */
  function ReadRelease(raw: seq<byte>): Option<Call> {
    match ReadSigned(raw)
    case None => None
    case Some(x) =>
      if |x.tx.data| < 4 then None
      else
        var args := x.tx.data[4..];
        match (ReadString(args, 0), ReadWord(args, 32))
        case (Some(job), Some(cost)) => Some(Release(x.tx, x.tx.data[..4], job, cost))
        case _ => None
  }

  function ReadCancel(raw: seq<byte>): Option<Call> {
    match ReadSigned(raw)
    case None => None
    case Some(x) =>
      if |x.tx.data| < 4 then None
      else
        match ReadString(x.tx.data[4..], 0)
        case Some(job) => Some(Cancel(x.tx, x.tx.data[..4], job))
        case None => None
  }

  // ----- the oracle -----

  datatype Outcome = Disabled | BadAmount(error: AmountError) | NotSigned | Sent(raw: seq<byte>)

  lemma CallIsAddressed(calldata: Vec, chain: Chain, escrow: Address)
    ensures Addressed(CallTx(calldata, chain, escrow), chain, escrow)
    ensures CallTx(calldata, chain, escrow).data == calldata
  {
  }

  /** `sign` stands for hashing and signing the payload. */
  method SendTx(calldata: Vec, chain: Chain, escrow: Address, sign: seq<byte> -> Option<Signature>)
    returns (raw: Option<seq<byte>>)
    requires |calldata| < ALLOCATION_LIMIT
    ensures var signature := sign(Payload(calldata, chain, escrow));
            if signature.None? then raw.None?
            else
              && raw.Some? && ReadSigned(raw.value).Some?
              && var x := ReadSigned(raw.value).value;
                 Addressed(x.tx, chain, escrow) && x.tx.data == calldata && x.sig == signature.value
  {
    hide Addressed, CallTx, EncodeItems, UnsignedItems, RlpList;
    var tx := CallTx(calldata, chain, escrow);
    CallIsAddressed(calldata, chain, escrow);
    CallFits(tx);
    raw := SignAndEncode(tx, sign);
    if raw.Some? {
      SignedRoundTrip(raw.value, SignedTx(tx, sign(Envelope(UnsignedItems(tx))).value));
    }
  }

  predicate Acceptable(costNmc: real) {
    costNmc >= 0.0 && Round(costNmc * WEI as real) < U128_LIMIT
  }

  /** Amounts are refused exactly from 2^128 wei, less half a wei for rounding. */
  lemma AcceptableIff(costNmc: real)
    ensures Acceptable(costNmc) <==>
              0.0 <= costNmc * 1_000_000_000_000_000_000.0 < 340_282_366_920_938_463_463_374_607_431_768_211_455.5
  {
  }

  method ReleaseEscrow(enabled: bool, jobId: Vec, costNmc: real, chain: Chain, escrow: Address,
                       selector: Selector, sign: seq<byte> -> Option<Signature>)
    returns (r: Outcome)
    requires |jobId| + 131 < ALLOCATION_LIMIT
    ensures r == Disabled <==> !enabled
    ensures enabled ==> (r == BadAmount(Negative) <==> costNmc < 0.0)
    ensures enabled ==> (r == BadAmount(TooLarge) <==> costNmc >= 0.0 && !Acceptable(costNmc))
    ensures enabled && Acceptable(costNmc) ==>
              var wei := Round(costNmc * WEI as real);
              if sign(Payload(ReleaseCalldata(selector, jobId, wei), chain, escrow)).None? then r == NotSigned
              else
                && r.Sent? && ReadRelease(r.raw).Some?
                && var call := ReadRelease(r.raw).value;
                   && Addressed(call.tx, chain, escrow) && call.selector == selector && call.jobId == jobId
                   && Nearest(call.cost, costNmc * 1_000_000_000_000_000_000.0)
  {
    if !enabled {
      return Disabled;
    }
    NmcToWeiIsRounding(costNmc);
    var amount := NmcToWei(costNmc);
    if amount.Err? {
      return BadAmount(amount.error);
    }
    var args := AbiEncodeStringUint256(jobId, amount.value);
    StringUintRoundTrip(jobId, amount.value);
    var calldata := selector + args;
    assert calldata[4..] == args && calldata[..4] == selector;
    var raw := SendTx(calldata, chain, escrow, sign);
    return if raw.Some? then Sent(raw.value) else NotSigned;
  }

  method CancelEscrow(enabled: bool, jobId: Vec, chain: Chain, escrow: Address, selector: Selector,
                      sign: seq<byte> -> Option<Signature>)
    returns (r: Outcome)
    requires |jobId| + 131 < ALLOCATION_LIMIT
    ensures r == Disabled <==> !enabled
    ensures enabled ==>
              if sign(Payload(CancelCalldata(selector, jobId), chain, escrow)).None? then r == NotSigned
              else
                && r.Sent? && ReadCancel(r.raw).Some?
                && var call := ReadCancel(r.raw).value;
                   Addressed(call.tx, chain, escrow) && call.selector == selector && call.jobId == jobId
  {
    if !enabled {
      return Disabled;
    }
    var args := AbiEncodeString(jobId);
    StringRoundTrip(jobId);
    var calldata := selector + args;
    assert calldata[4..] == args && calldata[..4] == selector;
    var raw := SendTx(calldata, chain, escrow, sign);
    return if raw.Some? then Sent(raw.value) else NotSigned;
  }
}
