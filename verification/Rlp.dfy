/** The RLP writer of the settlement oracle, a strict reader for what it writes,
    and the Yellow Paper's own definition to compare with. */
module Rlp {
  import opened Wrappers
  import opened Bytes

  // ----- the writer -----

  function RlpUintBytes(val: u64): seq<byte> {
    Widths();
    var bytes := ToBeBytes(val, 8);
    bytes[FirstNonZero(bytes, 7)..]
  }

  function RlpLengthEncode(len: nat): seq<byte>
    requires len < USIZE_LIMIT
  {
    if len < 56 then
      [0x80 + len]
    else
      var lenBytes := RlpUintBytes(len);
      UintBytesAreCanonical(len);
      [0xB7 + |lenBytes|] + lenBytes
  }

  function RlpUint(val: u128): seq<byte> {
    if val == 0 then [0x80]
    else
      Widths();
      var b := ToBeBytes(val, 16);
      var bytes := b[FirstNonZero(b, 15)..];
      if |bytes| == 1 && bytes[0] < 0x80 then [bytes[0]]
      else RlpLengthEncode(|bytes|) + bytes
  }

  function RlpBytes(data: Vec): seq<byte> {
    if data == [] then [0x80] else RlpLengthEncode(|data|) + data
  }

  function RlpList(contents: Vec): seq<byte> {
    if |contents| < 56 then
      [0xC0 + |contents|] + contents
    else
      var lenBytes := RlpUintBytes(|contents|);
      UintBytesAreCanonical(|contents|);
      [0xF7 + |lenBytes|] + lenBytes + contents
  }

  method RlpAppendUint(buf: ByteBuffer, val: u128)
    modifies buf
    ensures buf.bytes == old(buf.bytes) + RlpUint(val)
  {
    if val == 0 {
      buf.Push(0x80);
      return;
    }
    Widths();
    var b := ToBeBytes(val, 16);
    var bytes := b[FirstNonZero(b, 15)..];
    if |bytes| == 1 && bytes[0] < 0x80 {
      buf.Push(bytes[0]);
    } else {
      var header := RlpLengthEncode(|bytes|);
      buf.ExtendFromSlice(header);
      buf.ExtendFromSlice(bytes);
      assert buf.bytes == old(buf.bytes) + (header + bytes);
    }
  }

  method RlpAppendBytes(buf: ByteBuffer, data: Vec)
    modifies buf
    ensures buf.bytes == old(buf.bytes) + RlpBytes(data)
  {
    if |data| == 0 {
      buf.Push(0x80);
      return;
    }
    var header := RlpLengthEncode(|data|);
    buf.ExtendFromSlice(header);
    buf.ExtendFromSlice(data);
    assert buf.bytes == old(buf.bytes) + (header + data);
  }

  // ----- length headers -----

  /** The Yellow Paper's header, for base 0x80 (strings) or 0xC0 (lists). */
  function Prefix(base: byte, len: nat): seq<byte>
    requires base == 0x80 || base == 0xC0
    requires len < USIZE_LIMIT
  {
    if len < 56 then [base + len]
    else
      Widths(); BigEndianLength(len, 8);
      [base + 55 + |BigEndian(len)|] + BigEndian(len)
  }

  lemma UintBytesAreCanonical(val: u64)
    ensures val > 0 ==> RlpUintBytes(val) == BigEndian(val)
    ensures 1 <= |RlpUintBytes(val)| <= 8
  {
    Widths();
    if val > 0 {
      StripLeadingZeros(val, 8, 7);
      BigEndianLength(val, 8);
      BigEndianInverse(val);
    } else {
      ZeroDigits(8);
      FirstNonZeroSpec(ToBeBytes(0, 8), 0, 7);
    }
  }

  lemma {:induction false} ZeroDigits(width: nat)
    ensures forall k :: 0 <= k < width ==> ToBeBytes(0, width)[k] == 0
  {
    if width == 0 {
    } else {
      ZeroDigits(width - 1);
    }
  }

  lemma LengthForm(len: nat)
    requires len < USIZE_LIMIT
    ensures RlpLengthEncode(len) == Prefix(0x80, len)
  {
    if len >= 56 {
      UintBytesAreCanonical(len);
    }
  }

  lemma BytesForm(data: Vec)
    ensures RlpBytes(data) == Prefix(0x80, |data|) + data
  {
    LengthForm(|data|);
  }

  lemma ListForm(contents: Vec)
    ensures RlpList(contents) == Prefix(0xC0, |contents|) + contents
  {
    if |contents| >= 56 {
      UintBytesAreCanonical(|contents|);
    }
  }

  /** An integer is written as its one canonical byte when that is below 0x80, and
      otherwise as the string of its canonical digits. */
  lemma UintForm(val: u128)
    ensures |BigEndian(val)| <= 16
    ensures RlpUint(val) == if 0 < val < 0x80 then [val] else RlpBytes(BigEndian(val))
  {
    UintDigits(val);
    BigEndianInverse(val);
    OneDigit(val);
  }

  lemma UintDigits(val: u128)
    ensures val < Pow256(16)
    ensures |BigEndian(val)| <= 16
    ensures val > 0 ==> ToBeBytes(val, 16)[FirstNonZero(ToBeBytes(val, 16), 15)..] == BigEndian(val)
  {
    Widths();
    BigEndianLength(val, 16);
    if val > 0 {
      StripLeadingZeros(val, 16, 15);
    }
  }

  /** Header bytes never leave their range: 0x80-0xBF for strings, 0xC0-0xFF for lists. */
  lemma HeaderRange(data: Vec)
    ensures 0x80 <= RlpBytes(data)[0] <= 0xBF
    ensures 0xC0 <= RlpList(data)[0] <= 0xFF
    ensures 0 < |RlpBytes(data)| <= |data| + 9
    ensures 0 < |RlpList(data)| <= |data| + 9
  {
    UintBytesAreCanonical(|data|);
  }

  // ----- a strict reader -----

  datatype Header = Header(len: nat, size: nat)

  /** Reads a header: the payload length, and how many bytes the header takes. */
  function ReadHeader(s: seq<byte>, base: byte): Option<Header>
    requires base == 0x80 || base == 0xC0
  {
    if s == [] then None
    else if base <= s[0] <= base + 55 then Some(Header(s[0] - base, 1))
    else if base + 56 <= s[0] <= base + 63 then
      var n := s[0] - base - 55;
      if |s| < 1 + n || s[1] == 0 || Value(s[1..1 + n]) < 56 then None
      else Some(Header(Value(s[1..1 + n]), 1 + n))
    else None
  }

  function ReadPayload(s: seq<byte>, base: byte): Option<(seq<byte>, seq<byte>)>
    requires base == 0x80 || base == 0xC0
  {
    match ReadHeader(s, base)
    case None => None
    case Some(h) =>
      if |s| < h.size + h.len then None
      else Some((s[h.size..h.size + h.len], s[h.size + h.len..]))
  }

  function ReadUint(s: seq<byte>): Option<(nat, seq<byte>)> {
    if s != [] && 0 < s[0] < 0x80 then Some((s[0], s[1..]))
    else
      match ReadPayload(s, 0x80)
      case None => None
      case Some((p, rest)) =>
        if |p| > 16 || (|p| > 0 && p[0] == 0) || (|p| == 1 && p[0] < 0x80) then None
        else Some((Value(p), rest))
  }

  lemma PrefixThenHeader(base: byte, len: nat, rest: seq<byte>)
    requires base == 0x80 || base == 0xC0
    requires len < USIZE_LIMIT
    ensures ReadHeader(Prefix(base, len) + rest, base) == Some(Header(len, |Prefix(base, len)|))
  {
    if len >= 56 {
      Widths();
      BigEndianLength(len, 8);
      BigEndianInverse(len);
      var s := Prefix(base, len) + rest;
      assert s[1..1 + |BigEndian(len)|] == BigEndian(len);
    }
  }

  lemma HeaderThenPrefix(s: seq<byte>, base: byte, h: Header)
    requires base == 0x80 || base == 0xC0
    requires ReadHeader(s, base) == Some(h)
    ensures h.len < USIZE_LIMIT && h.size <= |s|
    ensures s[..h.size] == Prefix(base, h.len)
  {
    if s[0] > base + 55 {
      LongHeader(s, base, s[1..h.size]);
    }
  }

  lemma LongHeader(s: seq<byte>, base: byte, digits: seq<byte>)
    requires base == 0x80 || base == 0xC0
    requires 1 <= |digits| <= 8 && digits[0] != 0 && Value(digits) >= 56
    requires |s| > |digits| && s[0] == base + 55 + |digits| && s[1..1 + |digits|] == digits
    ensures Value(digits) < USIZE_LIMIT
    ensures s[..1 + |digits|] == Prefix(base, Value(digits))
  {
    CanonicalDigits(digits);
    Widths();
    BigEndianLength(Value(digits), 8);
    assert s[..1 + |digits|] == [s[0]] + digits;
  }

  /** Reading undoes writing and writing undoes reading, before any suffix:
      the header alone decides where the payload ends. */
  lemma PayloadIff(s: seq<byte>, base: byte, p: seq<byte>, rest: seq<byte>)
    requires base == 0x80 || base == 0xC0
    ensures ReadPayload(s, base) == Some((p, rest)) <==>
            |p| < USIZE_LIMIT && s == Prefix(base, |p|) + p + rest
  {
    if |p| < USIZE_LIMIT && s == Prefix(base, |p|) + p + rest {
      PayloadWritten(base, p, rest);
    }
    if ReadPayload(s, base) == Some((p, rest)) {
      PayloadRead(s, base);
    }
  }

  lemma PayloadRead(s: seq<byte>, base: byte)
    requires base == 0x80 || base == 0xC0
    requires ReadPayload(s, base).Some?
    ensures var (p, rest) := ReadPayload(s, base).value;
            |p| < USIZE_LIMIT && s == Prefix(base, |p|) + p + rest
  {
    var h := ReadHeader(s, base).value;
    HeaderThenPrefix(s, base, h);
    Cut(s, h.size, h.len);
  }

  lemma Cut(s: seq<byte>, i: nat, n: nat)
    requires i + n <= |s|
    ensures s == s[..i] + s[i..i + n] + s[i + n..]
  {
  }

  lemma PayloadWritten(base: byte, p: Vec, rest: seq<byte>)
    requires base == 0x80 || base == 0xC0
    ensures ReadPayload(Prefix(base, |p|) + p + rest, base) == Some((p, rest))
  {
    var prefix := Prefix(base, |p|);
    var s := prefix + p + rest;
    assert s == prefix + (p + rest);
    PrefixThenHeader(base, |p|, p + rest);
    assert s[|prefix|..|prefix| + |p|] == p && s[|prefix| + |p|..] == rest;
  }

  lemma BytesIff(s: seq<byte>, p: seq<byte>, rest: seq<byte>)
    ensures ReadPayload(s, 0x80) == Some((p, rest)) <==> |p| < USIZE_LIMIT && s == RlpBytes(p) + rest
  {
    PayloadIff(s, 0x80, p, rest);
    if |p| < USIZE_LIMIT {
      BytesForm(p);
    }
  }

  lemma ListIff(s: seq<byte>, p: seq<byte>, rest: seq<byte>)
    ensures ReadPayload(s, 0xC0) == Some((p, rest)) <==> |p| < USIZE_LIMIT && s == RlpList(p) + rest
  {
    PayloadIff(s, 0xC0, p, rest);
    if |p| < USIZE_LIMIT {
      ListForm(p);
    }
  }

  lemma UintIff(s: seq<byte>, n: nat, rest: seq<byte>)
    ensures ReadUint(s) == Some((n, rest)) <==> n < U128_LIMIT && s == RlpUint(n) + rest
  {
    if n < U128_LIMIT && s == RlpUint(n) + rest {
      UintWritten(s, n, rest);
    }
    if ReadUint(s) == Some((n, rest)) {
      UintRead(s, n, rest);
    }
  }

  lemma UintWritten(s: seq<byte>, n: u128, rest: seq<byte>)
    requires s == RlpUint(n) + rest
    ensures ReadUint(s) == Some((n, rest))
  {
    UintForm(n);
    if !(0 < n < 0x80) {
      var p := BigEndian(n);
      BytesIff(s, p, rest);
      BigEndianInverse(n);
      HeaderRange(p);
      OneDigit(n);
    }
  }

  lemma UintRead(s: seq<byte>, n: nat, rest: seq<byte>)
    requires ReadUint(s) == Some((n, rest))
    ensures n < U128_LIMIT && s == RlpUint(n) + rest
  {
    if s != [] && 0 < s[0] < 0x80 {
      UintForm(s[0]);
    } else {
      var p := ReadPayload(s, 0x80).value.0;
      BytesIff(s, p, rest);
      CanonicalDigits(p);
      Widths();
      BigEndianLength(n, 16);
      UintForm(n);
      OneDigit(n);
    }
  }

  // ----- the Yellow Paper, Appendix B -----

  /** R_b: the encoding of a byte string. */
  function YellowPaperString(x: Vec): seq<byte> {
    if |x| == 1 && x[0] < 128 then x else Prefix(0x80, |x|) + x
  }

  /** Integers are always written the way the Yellow Paper writes them. */
  lemma UintMatchesYellowPaper(val: u128)
    ensures |BigEndian(val)| <= 16 && RlpUint(val) == YellowPaperString(BigEndian(val))
  {
    UintForm(val);
    BigEndianInverse(val);
    BytesForm(BigEndian(val));
    OneDigit(val);
  }

  /** A byte string is written the Yellow Paper's way unless it is a single byte
      below 0x80: the code gives that byte a header of its own. */
  lemma BytesMatchYellowPaperIff(data: Vec)
    ensures RlpBytes(data) == YellowPaperString(data) <==> !(|data| == 1 && data[0] < 0x80)
  {
    BytesForm(data);
  }
}
