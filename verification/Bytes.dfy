/** Bytes, machine integers and big-endian digit strings. */
module Bytes {
  type byte = x: int | 0 <= x < 256 witness 0
  type u64 = x: int | 0 <= x < 0x1_0000_0000_0000_0000 witness 0
  type u128 = x: int | 0 <= x < 0x1_0000_0000_0000_0000_0000_0000_0000_0000 witness 0

  const USIZE_LIMIT := 0x1_0000_0000_0000_0000
  const U128_LIMIT := 0x1_0000_0000_0000_0000_0000_0000_0000_0000

  /** A byte string whose length fits the 64-bit `usize` of the Rust code. */
  type Vec = s: seq<byte> | |s| < USIZE_LIMIT witness []

  /** The growing byte buffer (`Vec<u8>`) that the encoders push into. */
  class ByteBuffer {
    var bytes: seq<byte>

    constructor ()
      ensures bytes == []
    {
      bytes := [];
    }

    method Push(b: byte)
      modifies this
      ensures bytes == old(bytes) + [b]
    {
      bytes := bytes + [b];
    }

    method ExtendFromSlice(s: seq<byte>)
      modifies this
      ensures bytes == old(bytes) + s
    {
      bytes := bytes + s;
    }
  }

  function Pow256(k: nat): (p: nat)
    ensures p > 0
  {
    if k == 0 then 1 else 256 * Pow256(k - 1)
  }

  function Pow2(k: nat): (p: nat)
    ensures p > 0
  {
    if k == 0 then 1 else 2 * Pow2(k - 1)
  }

  lemma {:induction false} Pow2Sum(a: nat, b: nat)
    ensures Pow2(a + b) == Pow2(a) * Pow2(b)
  {
    if a == 0 {
    } else {
      Pow2Sum(a - 1, b);
      assert 2 * (Pow2(a - 1) * Pow2(b)) == 2 * Pow2(a - 1) * Pow2(b);
    }
  }

  /** The number a big-endian digit string denotes. */
  function Value(s: seq<byte>): nat {
    if s == [] then 0 else 256 * Value(s[..|s| - 1]) + s[|s| - 1]
  }

  /** The shortest big-endian digit string of n; zero is the empty string. */
  function BigEndian(n: nat): seq<byte> {
    if n == 0 then [] else BigEndian(n / 256) + [n % 256]
  }

  /** Rust's `to_be_bytes` for an integer of `width` bytes. */
  function ToBeBytes(n: nat, width: nat): (s: seq<byte>)
    requires n < Pow256(width)
    ensures |s| == width
  {
    if width == 0 then [] else ToBeBytes(n / 256, width - 1) + [n % 256]
  }

  /** `iter().position(|b| b != 0).unwrap_or(default)`. */
  function FirstNonZero(s: seq<byte>, default: nat): (i: nat)
    requires default <= |s|
    ensures i <= |s|
  {
    FirstNonZeroFrom(s, 0, default)
  }

  function FirstNonZeroFrom(s: seq<byte>, from: nat, default: nat): (i: nat)
    requires from <= |s| && default <= |s|
    ensures i <= |s|
    decreases |s| - from
  {
    if from == |s| then default
    else if s[from] != 0 then from
    else FirstNonZeroFrom(s, from + 1, default)
  }

  lemma {:induction false} FirstNonZeroSpec(s: seq<byte>, from: nat, default: nat)
    requires from <= |s| && default <= |s|
    ensures var i := FirstNonZeroFrom(s, from, default);
            || (i == default && forall k :: from <= k < |s| ==> s[k] == 0)
            || (from <= i < |s| && s[i] != 0 && forall k :: from <= k < i ==> s[k] == 0)
    decreases |s| - from
  {
    if from < |s| && s[from] == 0 {
      FirstNonZeroSpec(s, from + 1, default);
    }
  }

  lemma {:induction false} ValueBound(s: seq<byte>)
    ensures Value(s) < Pow256(|s|)
  {
    if s == [] {
    } else {
      ValueBound(s[..|s| - 1]);
    }
  }

  lemma {:induction false} ToBeBytesInverse(n: nat, width: nat)
    requires n < Pow256(width)
    ensures Value(ToBeBytes(n, width)) == n
  {
    if width == 0 {
    } else {
      ToBeBytesInverse(n / 256, width - 1);
      var s := ToBeBytes(n, width);
      assert s[..|s| - 1] == ToBeBytes(n / 256, width - 1);
    }
  }

  lemma {:induction false} ValueInverse(s: seq<byte>)
    ensures Value(s) < Pow256(|s|) && ToBeBytes(Value(s), |s|) == s
  {
    ValueBound(s);
    if s == [] {
    } else {
      ValueInverse(s[..|s| - 1]);
      assert s == s[..|s| - 1] + [s[|s| - 1]];
    }
  }

  /** BigEndian is the canonical digit string: no leading zero, and Value undoes it. */
  lemma {:induction false} BigEndianInverse(n: nat)
    ensures Value(BigEndian(n)) == n
    ensures n == 0 <==> BigEndian(n) == []
    ensures n > 0 ==> BigEndian(n)[0] != 0
  {
    if n == 0 {
    } else {
      BigEndianInverse(n / 256);
      var s := BigEndian(n);
      assert s[..|s| - 1] == BigEndian(n / 256);
    }
  }

  /** A digit string without a leading zero is the canonical one of its value. */
  lemma {:induction false} CanonicalDigits(s: seq<byte>)
    requires s == [] || s[0] != 0
    ensures BigEndian(Value(s)) == s
    ensures s == [] || Value(s) > 0
  {
    if s == [] {
    } else {
      var front := s[..|s| - 1];
      CanonicalDigits(front);
      assert s == front + [s[|s| - 1]];
      var v := Value(s);
      assert v / 256 == Value(front) && v % 256 == s[|s| - 1];
    }
  }

  lemma {:induction false} BigEndianLength(n: nat, k: nat)
    ensures n < Pow256(k) <==> |BigEndian(n)| <= k
  {
    if n > 0 && k > 0 {
      BigEndianLength(n / 256, k - 1);
    }
  }

  lemma OneDigit(n: nat)
    ensures |BigEndian(n)| == 1 <==> 0 < n < 256
    ensures 0 < n < 256 ==> BigEndian(n) == [n]
  {
    BigEndianLength(n, 1);
    assert Pow256(1) == 256;
    if 0 < n < 256 {
      assert BigEndian(n / 256) == [];
    }
  }

  /** Dropping the leading zeros of the fixed-width form leaves the canonical digits. */
  lemma {:induction false} StripLeadingZeros(n: nat, width: nat, default: nat)
    requires 0 < n < Pow256(width) && default <= width
    ensures ToBeBytes(n, width)[FirstNonZero(ToBeBytes(n, width), default)..] == BigEndian(n)
  {
    var s := ToBeBytes(n, width);
    ToBeBytesInverse(n, width);
    FirstNonZeroSpec(s, 0, default);
    if forall k :: 0 <= k < |s| ==> s[k] == 0 {
      AllZero(s);
      assert false;
    }
    var i := FirstNonZero(s, default);
    DropZeros(s, i);
    CanonicalDigits(s[i..]);
  }

  lemma {:induction false} AllZero(s: seq<byte>)
    requires forall k :: 0 <= k < |s| ==> s[k] == 0
    ensures Value(s) == 0
  {
    if s == [] {
    } else {
      AllZero(s[..|s| - 1]);
    }
  }

  lemma {:induction false} DropZeros(s: seq<byte>, i: nat)
    requires i <= |s| && forall k :: 0 <= k < i ==> s[k] == 0
    ensures Value(s[i..]) == Value(s)
  {
    if i == |s| {
      AllZero(s);
    } else {
      var front := s[..|s| - 1];
      DropZeros(front, i);
      assert s[i..][..|s[i..]| - 1] == front[i..];
    }
  }

  lemma Widths()
    ensures Pow256(8) == USIZE_LIMIT
    ensures Pow256(16) == U128_LIMIT
  {
    assert Pow256(4) == 0x1_0000_0000;
    assert Pow256(8) == USIZE_LIMIT;
    assert Pow256(12) == 0x1_0000_0000_0000_0000_0000_0000;
  }
}
