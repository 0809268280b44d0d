/** Solidity call data for `releaseEscrow(string,uint256)` and `cancelEscrow(string)`,
    and the conversion of a token amount to its smallest unit. */
module Abi {
  import opened Wrappers
  import opened Bytes

  // ----- the writer -----

  function Zeros(n: nat): (z: seq<byte>)
    ensures |z| == n && forall i :: 0 <= i < n ==> z[i] == 0
  {
    seq(n, _ => 0)
  }

  function Uint256Be(val: u128): (w: seq<byte>)
    ensures |w| == 32
  {
    Widths();
    Zeros(16) + ToBeBytes(val, 16)
  }

  function Padding(len: nat): nat {
    (32 - len % 32) % 32
  }

  /** Length word, data, and zeros up to the next multiple of 32. */
  function DynamicTail(bytes: Vec): seq<byte> {
    Uint256Be(|bytes|) + bytes + Zeros(Padding(|bytes|))
  }

  method AbiEncodeString(bytes: Vec) returns (out: seq<byte>)
    ensures out == Uint256Be(32) + DynamicTail(bytes)
  {
    var buf := new ByteBuffer();
    buf.ExtendFromSlice(Uint256Be(32));
    AppendTail(buf, bytes);
    out := buf.bytes;
  }

  method AbiEncodeStringUint256(bytes: Vec, value: u128) returns (out: seq<byte>)
    ensures out == Uint256Be(64) + Uint256Be(value) + DynamicTail(bytes)
  {
    var buf := new ByteBuffer();
    buf.ExtendFromSlice(Uint256Be(64));
    buf.ExtendFromSlice(Uint256Be(value));
    AppendTail(buf, bytes);
    out := buf.bytes;
  }

  method AppendTail(buf: ByteBuffer, bytes: Vec)
    modifies buf
    ensures buf.bytes == old(buf.bytes) + DynamicTail(bytes)
  {
    buf.ExtendFromSlice(Uint256Be(|bytes|));
    buf.ExtendFromSlice(bytes);
    var padding := (32 - |bytes| % 32) % 32;
    buf.ExtendFromSlice(Zeros(padding));
    Regroup(old(buf.bytes), Uint256Be(|bytes|), bytes, Zeros(padding));
  }

  lemma Regroup(a: seq<byte>, b: seq<byte>, c: seq<byte>, d: seq<byte>)
    ensures a + b + c + d == a + (b + c + d)
  {
  }

  // ----- a reader that follows offset words, as the ABI specification decodes -----

  function ReadWord(s: seq<byte>, at: nat): Option<nat> {
    if at + 32 <= |s| then Some(Value(s[at..at + 32])) else None
  }

  /** Reads the dynamic string whose offset is stored in the word at `head`. */
  function ReadString(s: seq<byte>, head: nat): Option<seq<byte>> {
    match ReadWord(s, head)
    case None => None
    case Some(offset) =>
      match ReadWord(s, offset)
      case None => None
      case Some(len) => if offset + 32 + len <= |s| then Some(s[offset + 32..offset + 32 + len]) else None
  }

  lemma Uint256Value(val: u128)
    ensures Value(Uint256Be(val)) == val
  {
    Widths();
    ToBeBytesInverse(val, 16);
    DropZeros(Uint256Be(val), 16);
    assert Uint256Be(val)[16..] == ToBeBytes(val, 16);
  }

  lemma ReadWordAt(s: seq<byte>, at: nat, val: u128)
    requires at + 32 <= |s| && s[at..at + 32] == Uint256Be(val)
    ensures ReadWord(s, at) == Some(val)
  {
    Uint256Value(val);
  }

  function RoundUp32(n: nat): nat {
    (n + 31) / 32 * 32
  }

  lemma PaddingFills(len: nat)
    ensures len + Padding(len) == RoundUp32(len)
  {
    var q, r := len / 32, len % 32;
    assert len == 32 * q + r;
    if r == 0 {
      assert (len + 31) / 32 == q;
    } else {
      assert (len + 31) / 32 == q + 1;
    }
  }

  lemma TailShape(bytes: Vec)
    ensures |DynamicTail(bytes)| == 32 + RoundUp32(|bytes|)
    ensures DynamicTail(bytes)[..32] == Uint256Be(|bytes|)
    ensures DynamicTail(bytes)[32..32 + |bytes|] == bytes
    ensures forall i :: 32 + |bytes| <= i < |DynamicTail(bytes)| ==> DynamicTail(bytes)[i] == 0
  {
    hide Uint256Be, RoundUp32, Padding;
    PaddingFills(|bytes|);
  }

  lemma ReadTail(s: seq<byte>, head: nat, offset: nat, bytes: Vec)
    requires head + 32 <= |s| && offset < U128_LIMIT && s[head..head + 32] == Uint256Be(offset)
    requires offset <= |s| && s[offset..] == DynamicTail(bytes)
    ensures ReadString(s, head) == Some(bytes)
  {
    hide Uint256Be, DynamicTail, ReadWord, RoundUp32;
    TailShape(bytes);
    ReadWordAt(s, head, offset);
    assert |s| == offset + |DynamicTail(bytes)|;
    assert |bytes| <= RoundUp32(|bytes|) by { PaddingFills(|bytes|); }
    SubSlice(s, offset, 0, 32);
    ReadWordAt(s, offset, |bytes|);
    SubSlice(s, offset, 32, 32 + |bytes|);
  }

  lemma SubSlice(s: seq<byte>, offset: nat, i: nat, j: nat)
    requires offset <= |s| && i <= j <= |s| - offset
    ensures s[offset + i..offset + j] == s[offset..][i..j]
  {
  }

  /** releaseEscrow's arguments decode back through the offset word, the length is
      96 plus the data rounded up to 32, and the padding is zero. */
  lemma StringUintRoundTrip(bytes: Vec, value: u128)
    ensures var out := Uint256Be(64) + Uint256Be(value) + DynamicTail(bytes);
            && ReadString(out, 0) == Some(bytes)
            && ReadWord(out, 32) == Some(value)
            && |out| == 96 + RoundUp32(|bytes|)
            && forall i :: 96 + |bytes| <= i < |out| ==> out[i] == 0
  {
    var out := Uint256Be(64) + Uint256Be(value) + DynamicTail(bytes);
    assert out[0..32] == Uint256Be(64);
    assert out[32..64] == Uint256Be(value);
    assert out[64..] == DynamicTail(bytes);
    ReadWordAt(out, 32, value);
    ReadTail(out, 0, 64, bytes);
    TailShape(bytes);
  }

  lemma StringRoundTrip(bytes: Vec)
    ensures var out := Uint256Be(32) + DynamicTail(bytes);
            && ReadString(out, 0) == Some(bytes)
            && |out| == 64 + RoundUp32(|bytes|)
            && forall i :: 64 + |bytes| <= i < |out| ==> out[i] == 0
  {
    var out := Uint256Be(32) + DynamicTail(bytes);
    assert out[0..32] == Uint256Be(32);
    assert out[32..] == DynamicTail(bytes);
    ReadTail(out, 0, 32, bytes);
    TailShape(bytes);
  }

  lemma StringUintInjective(a: Vec, x: u128, b: Vec, y: u128)
    requires Uint256Be(64) + Uint256Be(x) + DynamicTail(a) == Uint256Be(64) + Uint256Be(y) + DynamicTail(b)
    ensures a == b && x == y
  {
    StringUintRoundTrip(a, x);
    StringUintRoundTrip(b, y);
  }

  lemma StringInjective(a: Vec, b: Vec)
    requires Uint256Be(32) + DynamicTail(a) == Uint256Be(32) + DynamicTail(b)
    ensures a == b
  {
    StringRoundTrip(a);
    StringRoundTrip(b);
  }

  // ----- amounts -----

  datatype AmountError = Negative | TooLarge

  const WEI := 1_000_000_000_000_000_000

  /** Nearest integer, halves away from zero, as `f64::round` does for x >= 0. */
  function Round(x: real): (n: nat)
    requires x >= 0.0
  {
    (x + 0.5).Floor
  }

  /** A saturating `as u128` cast. */
  function SaturateU128(n: nat): u128 {
    if n < U128_LIMIT then n else U128_LIMIT - 1
  }

  function NmcToWei(nmc: real): Result<u128, AmountError> {
    if nmc < 0.0 then Err(Negative)
    else
      var whole := SaturateU128(nmc.Floor);
      var frac := Round((nmc - nmc.Floor as real) * WEI as real);
      var wei := whole * WEI;
      if wei >= U128_LIMIT || wei + frac >= U128_LIMIT then Err(TooLarge) else Ok(wei + frac)
  }

  /** The integer nearest to x, the larger of two. */
  predicate Nearest(n: nat, x: real) {
    n as real - 0.5 <= x < n as real + 0.5
  }

  /** Splitting off the whole part loses nothing: the result is the amount times 10^18, rounded once, and
      it is refused exactly when that does not fit. */
  lemma NmcToWeiIsRounding(nmc: real)
    ensures nmc < 0.0 <==> NmcToWei(nmc) == Err(Negative)
    ensures nmc >= 0.0 ==>
              NmcToWei(nmc) == if Round(nmc * WEI as real) < U128_LIMIT then Ok(Round(nmc * WEI as real)) else Err(TooLarge)
    ensures NmcToWei(nmc).Ok? ==> Nearest(NmcToWei(nmc).value, nmc * 1_000_000_000_000_000_000.0)
  {
    if nmc >= 0.0 {
      var whole := nmc.Floor;
      var frac := (nmc - whole as real) * WEI as real;
      assert nmc * WEI as real == (whole * WEI) as real + frac;
      assert Round(nmc * WEI as real) == whole * WEI + Round(frac);
    }
  }
}
