/** STUN endpoint discovery (RFC 5389): the binding request and the attribute walk over the answer. */
module Stun {
  import opened Bytes

  // ----- exclusive or -----

  /** Bitwise exclusive or, bit by bit from the lowest. */
  function Xor(a: nat, b: nat): (r: nat)
    decreases a + b
  {
    if a == 0 && b == 0 then 0 else 2 * Xor(a / 2, b / 2) + (a + b) % 2
  }

  lemma XorBits(a: nat, b: nat)
    ensures Xor(a, b) / 2 == Xor(a / 2, b / 2) && Xor(a, b) % 2 == (a + b) % 2
  {
    assert Xor(0, 0) == 0;
  }

  lemma {:induction false} XorUndone(a: nat, b: nat)
    ensures Xor(Xor(a, b), b) == a
    decreases a + b
  {
    hide Xor;
    XorBits(a, b);
    XorBits(Xor(a, b), b);
    if a != 0 || b != 0 {
      XorUndone(a / 2, b / 2);
    } else {
      XorOfZeros();
    }
  }

  lemma XorOfZeros()
    ensures Xor(0, 0) == 0
  {
  }

  lemma {:induction false} XorFits(a: nat, b: nat, width: nat)
    requires a < Pow2(width) && b < Pow2(width)
    ensures Xor(a, b) < Pow2(width)
    decreases width
  {
    if width > 0 && (a != 0 || b != 0) {
      XorFits(a / 2, b / 2, width - 1);
    }
  }

  lemma XorWidths()
    ensures Pow256(2) == Pow2(16) == 0x1_0000 && Pow256(4) == Pow2(32) == 0x1_0000_0000
  {
    assert Pow2(4) == 16;
    assert Pow2(8) == 256;
    assert Pow2(12) == 0x1000;
    assert Pow2(16) == 0x1_0000;
    assert Pow2(20) == 0x10_0000;
    assert Pow2(24) == 0x100_0000;
    assert Pow2(28) == 0x1000_0000;
    assert Pow256(2) == 0x1_0000 && Pow256(4) == 0x1_0000_0000;
  }

  // ----- the walk -----

  const MAPPED_ADDRESS := 0x0001
  const XOR_MAPPED_ADDRESS := 0x0020
  const COOKIE := 0x2112A442
  const COOKIE_TOP := 0x2112
  const HEADER := 20

  /** A V6 address is 16 bytes; the parser never produces one. */
  datatype SocketAddr = V4(ip: nat, port: nat) | V6(address: seq<byte>, port: nat)

  /** OutOfBounds is the panic of an index past the buffer. */
  datatype Outcome = Found(addr: SocketAddr) | TooShort | NoAddress | OutOfBounds

  /** `(n + 3) & !3` */
  function RoundUp4(n: nat): (r: nat)
    ensures n <= r < n + 4 && r % 4 == 0
  {
    (n + 3) / 4 * 4
  }

  /** The address read from the eight bytes at `pos`; the family byte is not looked at. */
  function ReadAddress(buf: seq<byte>, pos: nat, xored: bool): SocketAddr
    requires pos + 8 <= |buf|
  {
    var port, ip := Value(buf[pos + 2..pos + 4]), Value(buf[pos + 4..pos + 8]);
    if xored then V4(Xor(ip, COOKIE), Xor(port, COOKIE_TOP)) else V4(ip, port)
  }

  function Walk(buf: seq<byte>, pos: nat): Outcome
    decreases |buf| - pos
  {
    if |buf| < pos + 4 then NoAddress
    else
      var kind, len := Value(buf[pos..pos + 2]), Value(buf[pos + 2..pos + 4]);
      if (kind == XOR_MAPPED_ADDRESS || kind == MAPPED_ADDRESS) && len >= 8 then
        if |buf| < pos + 12 then OutOfBounds else Found(ReadAddress(buf, pos + 4, kind == XOR_MAPPED_ADDRESS))
      else Walk(buf, pos + 4 + RoundUp4(len))
  }

  function Parse(buf: seq<byte>): Outcome {
    if |buf| < HEADER then TooShort else Walk(buf, HEADER)
  }

  /** Every index is tested before the read, so that a panic shows as OutOfBounds. */
  method ParseStunResponse(buf: seq<byte>) returns (r: Outcome)
    ensures r == Parse(buf)
  {
    if |buf| < 20 {
      return TooShort;
    }
    var pos := 20;
    while pos + 4 <= |buf|
      invariant 20 <= pos
      invariant Parse(buf) == Walk(buf, pos)
      decreases |buf| - pos
    {
      var kind := Value(buf[pos..pos + 2]);
      var len := Value(buf[pos + 2..pos + 4]);
      pos := pos + 4;
      if kind == 0x0020 && len >= 8 {
        if |buf| < pos + 8 {
          return OutOfBounds;
        }
        var xport := Xor(Value(buf[pos + 2..pos + 4]), 0x2112);
        var xip := Xor(Value(buf[pos + 4..pos + 8]), 0x2112A442);
        return Found(V4(xip, xport));
      } else if kind == 0x0001 && len >= 8 {
        if |buf| < pos + 8 {
          return OutOfBounds;
        }
        return Found(V4(Value(buf[pos + 4..pos + 8]), Value(buf[pos + 2..pos + 4])));
      }
      pos := pos + RoundUp4(len);
    }
    return NoAddress;
  }

  // ----- the encoder of an answer -----

  /** Padding bytes may hold anything (section 15 of RFC 5389). */
  datatype Attribute = Attribute(kind: nat, value: seq<byte>, padding: seq<byte>)

  predicate WellFormed(a: Attribute) {
    a.kind < Pow256(2) && |a.value| < Pow256(2) && |a.padding| == RoundUp4(|a.value|) - |a.value|
  }

  predicate AllWellFormed(attrs: seq<Attribute>) {
    forall i :: 0 <= i < |attrs| ==> WellFormed(attrs[i])
  }

  /** What the walk stops at. */
  predicate IsAddress(a: Attribute) {
    (a.kind == XOR_MAPPED_ADDRESS || a.kind == MAPPED_ADDRESS) && |a.value| >= 8
  }

  predicate Unrelated(attrs: seq<Attribute>) {
    forall i :: 0 <= i < |attrs| ==> !IsAddress(attrs[i])
  }

  function Encode(a: Attribute): (s: seq<byte>)
    requires WellFormed(a)
    ensures |s| == 4 + RoundUp4(|a.value|)
  {
    ToBeBytes(a.kind, 2) + ToBeBytes(|a.value|, 2) + a.value + a.padding
  }

  function EncodeAll(attrs: seq<Attribute>): seq<byte>
    requires AllWellFormed(attrs)
  {
    if attrs == [] then [] else Encode(attrs[0]) + EncodeAll(attrs[1..])
  }

  /** Section 15.2 of RFC 5389, and section 15.1 below; `id` is the header's transaction id. */
  function AddressValue(addr: SocketAddr, id: seq<byte>): (s: seq<byte>)
    requires ValidAddr(addr)
  {
    XorWidths();
    XorFits(addr.port, 0x2112, 16);
    match addr
    case V4(ip, port) =>
      XorFits(ip, 0x2112A442, 32);
      [0, 1] + ToBeBytes(Xor(port, 0x2112), 2) + ToBeBytes(Xor(ip, 0x2112A442), 4)
    case V6(address, port) =>
      [0, 2] + ToBeBytes(Xor(port, 0x2112), 2) + XorBytes(address, [0x21, 0x12, 0xA4, 0x42] + id)
  }

  function PlainValue(addr: SocketAddr): (s: seq<byte>)
    requires ValidAddr(addr)
  {
    match addr
    case V4(ip, port) => [0, 1] + ToBeBytes(port, 2) + ToBeBytes(ip, 4)
    case V6(address, port) => [0, 2] + ToBeBytes(port, 2) + address
  }

  predicate ValidAddr(addr: SocketAddr) {
    addr.port < Pow256(2) && if addr.V4? then addr.ip < Pow256(4) else |addr.address| == 16
  }

  function XorBytes(s: seq<byte>, key: seq<byte>): (r: seq<byte>)
    ensures |r| == |s|
  {
    if s == [] then []
    else
      var k := if |key| < |s| then 0 else key[|s| - 1];
      XorBytes(s[..|s| - 1], key) + [Xor(s[|s| - 1], k) % 256]
  }

  // ----- parsing undoes encoding -----

  lemma HeaderRead(buf: seq<byte>, pos: nat, a: Attribute)
    requires WellFormed(a) && pos + 4 <= |buf|
    requires buf[pos..pos + 4] == ToBeBytes(a.kind, 2) + ToBeBytes(|a.value|, 2)
    ensures Value(buf[pos..pos + 2]) == a.kind && Value(buf[pos + 2..pos + 4]) == |a.value|
  {
    assert buf[pos..pos + 2] == buf[pos..pos + 4][..2] == ToBeBytes(a.kind, 2);
    assert buf[pos + 2..pos + 4] == buf[pos..pos + 4][2..] == ToBeBytes(|a.value|, 2);
    ToBeBytesInverse(a.kind, 2);
    ToBeBytesInverse(|a.value|, 2);
  }

  lemma EncodedHeader(a: Attribute)
    requires WellFormed(a)
    ensures Encode(a)[..4] == ToBeBytes(a.kind, 2) + ToBeBytes(|a.value|, 2)
    ensures Encode(a)[4..4 + |a.value|] == a.value
  {
  }

  lemma WalkSkipsOne(buf: seq<byte>, pos: nat, a: Attribute)
    requires WellFormed(a) && !IsAddress(a) && pos + |Encode(a)| <= |buf|
    requires buf[pos..pos + 4] == Encode(a)[..4]
    ensures Walk(buf, pos) == Walk(buf, pos + |Encode(a)|)
  {
    EncodedHeader(a);
    HeaderRead(buf, pos, a);
  }

  /** The walk steps over unrelated attributes whole. */
  lemma {:induction false} WalkSkips(before: seq<byte>, attrs: seq<Attribute>, rest: seq<byte>)
    requires AllWellFormed(attrs) && Unrelated(attrs)
    ensures Walk(before + EncodeAll(attrs) + rest, |before|)
         == Walk(before + EncodeAll(attrs) + rest, |before| + |EncodeAll(attrs)|)
    decreases |attrs|
  {
    hide Walk, Encode;
    if attrs == [] {
    } else {
      var buf := before + EncodeAll(attrs) + rest;
      var e := Encode(attrs[0]);
      assert buf == (before + e) + EncodeAll(attrs[1..]) + rest;
      assert buf[|before|..|before| + 4] == e[..4];
      WalkSkipsOne(buf, |before|, attrs[0]);
      WalkSkips(before + e, attrs[1..], rest);
    }
  }

  /** A datagram cut after `k` bytes of its first address attribute: fewer than 4 bytes are not seen, fewer
      than 12 make the parser read out of bounds, and 12 are enough. */
  lemma CutDatagram(header: seq<byte>, attrs: seq<Attribute>, a: Attribute, rest: seq<byte>, k: nat)
    requires |header| == HEADER && AllWellFormed(attrs) && Unrelated(attrs) && WellFormed(a) && IsAddress(a)
    requires k <= |Encode(a) + rest|
    ensures Parse(header + EncodeAll(attrs) + (Encode(a) + rest)[..k])
         == if k < 4 then NoAddress
            else if k < 12 then OutOfBounds
            else Found(ReadAddress(a.value, 0, a.kind == XOR_MAPPED_ADDRESS))
  {
    hide Walk, Encode, IsAddress, ReadAddress;
    var tail := (Encode(a) + rest)[..k];
    var buf, pos := header + EncodeAll(attrs) + tail, HEADER + |EncodeAll(attrs)|;
    WalkSkips(header, attrs, tail);
    assert buf[pos..] == tail;
    WalkStops(buf, pos, a, rest, k);
  }

  lemma WalkStops(buf: seq<byte>, pos: nat, a: Attribute, rest: seq<byte>, k: nat)
    requires WellFormed(a) && IsAddress(a) && k <= |Encode(a) + rest|
    requires pos <= |buf| && buf[pos..] == (Encode(a) + rest)[..k]
    ensures Walk(buf, pos)
         == if k < 4 then NoAddress
            else if k < 12 then OutOfBounds
            else Found(ReadAddress(a.value, 0, a.kind == XOR_MAPPED_ADDRESS))
  {
    hide Encode, ReadAddress;
    if k >= 4 {
      EncodedHeader(a);
      assert buf[pos..pos + 4] == buf[pos..][..4] == Encode(a)[..4];
      HeaderRead(buf, pos, a);
      if k >= 12 {
        assert buf[pos + 4..pos + 12] == a.value[..8] by { SameValue(buf, pos, Encode(a), rest, k, a.value); }
        SameRead(buf, pos + 4, a.value, a.kind == XOR_MAPPED_ADDRESS);
      }
    }
  }

  lemma SameValue(buf: seq<byte>, pos: nat, e: seq<byte>, rest: seq<byte>, k: nat, value: seq<byte>)
    requires 12 <= k <= |e + rest| && 12 <= 4 + |value| <= |e| && e[4..4 + |value|] == value
    requires pos <= |buf| && buf[pos..] == (e + rest)[..k]
    ensures buf[pos + 4..pos + 12] == value[..8]
  {
    forall j | 0 <= j < 8
      ensures buf[pos + 4 + j] == value[j]
    {
      assert buf[pos..][4 + j] == (e + rest)[..k][4 + j];
      assert (e + rest)[4 + j] == e[4 + j];
      assert e[4..4 + |value|][j] == e[4 + j];
    }
  }

  lemma SameRead(buf: seq<byte>, pos: nat, value: seq<byte>, xored: bool)
    requires pos + 8 <= |buf| && 8 <= |value| && buf[pos..pos + 8] == value[..8]
    ensures ReadAddress(buf, pos, xored) == ReadAddress(value, 0, xored)
  {
    forall j | 0 <= j < 8
      ensures buf[pos + j] == value[j]
    {
      assert buf[pos..pos + 8][j] == value[..8][j];
    }
    assert buf[pos + 2..pos + 4] == value[2..4] && buf[pos + 4..pos + 8] == value[4..8];
  }

  /** On a well-formed answer the walk never reads out of bounds, and finds no address exactly when there
      is none. */
  lemma {:induction false} WellFormedAnswers(header: seq<byte>, attrs: seq<Attribute>)
    requires |header| == HEADER && AllWellFormed(attrs)
    ensures var r := Parse(header + EncodeAll(attrs));
            r.Found? || r.NoAddress?
    ensures Parse(header + EncodeAll(attrs)) == NoAddress <==> Unrelated(attrs)
  {
    var buf := header + EncodeAll(attrs);
    if Unrelated(attrs) {
      assert buf == header + EncodeAll(attrs) + [];
      WalkSkips(header, attrs, []);
    } else {
      var i := FirstAddress(attrs);
      EncodeSplits(attrs, i);
      assert attrs[i..][0] == attrs[i] && attrs[i..][1..] == attrs[i + 1..];
      var tail := Encode(attrs[i]) + EncodeAll(attrs[i + 1..]);
      assert buf == header + EncodeAll(attrs[..i]) + tail[..|tail|];
      CutDatagram(header, attrs[..i], attrs[i], EncodeAll(attrs[i + 1..]), |tail|);
    }
  }

  function FirstAddress(attrs: seq<Attribute>): (i: nat)
    requires !Unrelated(attrs)
    ensures i < |attrs| && IsAddress(attrs[i]) && Unrelated(attrs[..i])
  {
    if IsAddress(attrs[0]) then 0
    else
      assert !Unrelated(attrs[1..]) by {
        var j :| 0 <= j < |attrs| && IsAddress(attrs[j]);
        assert attrs[1..][j - 1] == attrs[j];
      }
      var i := FirstAddress(attrs[1..]) + 1;
      assert forall j :: 0 < j < i ==> attrs[j] == attrs[1..][..i - 1][j - 1];
      i
  }

  lemma {:induction false} EncodeSplits(attrs: seq<Attribute>, i: nat)
    requires AllWellFormed(attrs) && i <= |attrs|
    ensures EncodeAll(attrs) == EncodeAll(attrs[..i]) + EncodeAll(attrs[i..])
  {
    hide Encode, WellFormed;
    if i == 0 {
      assert attrs[..0] == [] && attrs[0..] == attrs;
    } else {
      var rest := attrs[1..];
      EncodeSplits(rest, i - 1);
      assert attrs[..i][0] == attrs[0] && attrs[..i][1..] == rest[..i - 1];
      assert rest[i - 1..] == attrs[i..];
      assert EncodeAll(attrs[..i]) == Encode(attrs[0]) + EncodeAll(rest[..i - 1]);
    }
  }

  lemma AddressRead(addr: SocketAddr, id: seq<byte>)
    requires ValidAddr(addr) && addr.V4?
    ensures |AddressValue(addr, id)| == 8 && ReadAddress(AddressValue(addr, id), 0, true) == addr
  {
    XorWidths();
    XorFits(addr.port, COOKIE_TOP, 16);
    XorFits(addr.ip, COOKIE, 32);
    var port, ip := ToBeBytes(Xor(addr.port, COOKIE_TOP), 2), ToBeBytes(Xor(addr.ip, COOKIE), 4);
    var value := AddressValue(addr, id);
    assert value == [0, 1] + port + ip;
    assert value[2..4] == port && value[4..8] == ip;
    ToBeBytesInverse(Xor(addr.port, COOKIE_TOP), 2);
    ToBeBytesInverse(Xor(addr.ip, COOKIE), 4);
    XorUndone(addr.port, COOKIE_TOP);
    XorUndone(addr.ip, COOKIE);
  }

  lemma PlainRead(addr: SocketAddr)
    requires ValidAddr(addr) && addr.V4?
    ensures |PlainValue(addr)| == 8 && ReadAddress(PlainValue(addr), 0, false) == addr
  {
    var port, ip := ToBeBytes(addr.port, 2), ToBeBytes(addr.ip, 4);
    var value := PlainValue(addr);
    assert value == [0, 1] + port + ip;
    assert value[2..4] == port && value[4..8] == ip;
    ToBeBytesInverse(addr.port, 2);
    ToBeBytesInverse(addr.ip, 4);
  }

  /** After any unrelated attributes and before anything at all, a MAPPED-ADDRESS is read back, exactly when
      it is an IPv4 one. */
  lemma PlainRecoveredIff(header: seq<byte>, attrs: seq<Attribute>, addr: SocketAddr, rest: seq<byte>)
    requires |header| == HEADER && AllWellFormed(attrs) && Unrelated(attrs) && ValidAddr(addr)
    ensures var value := PlainValue(addr);
            && WellFormed(Attribute(0x0001, value, []))
            && (Parse(header + EncodeAll(attrs) + Encode(Attribute(0x0001, value, [])) + rest) == Found(addr) <==> addr.V4?)
  {
    var a := Attribute(0x0001, PlainValue(addr), []);
    XorWidths();
    hide Xor, Walk, Encode, EncodeAll, ToBeBytes, Value, Pow2, XorBytes;
    var tail := Encode(a) + rest;
    assert header + EncodeAll(attrs) + Encode(a) + rest == header + EncodeAll(attrs) + tail[..|tail|];
    CutDatagram(header, attrs, a, rest, |tail|);
    if addr.V4? {
      PlainRead(addr);
    }
  }

  /** And so is an XOR-MAPPED-ADDRESS. */
  lemma AddressRecoveredIff(header: seq<byte>, attrs: seq<Attribute>, addr: SocketAddr, rest: seq<byte>)
    requires |header| == HEADER && AllWellFormed(attrs) && Unrelated(attrs) && ValidAddr(addr)
    ensures var value := AddressValue(addr, header[8..]);
            && WellFormed(Attribute(0x0020, value, []))
            && (Parse(header + EncodeAll(attrs) + Encode(Attribute(0x0020, value, [])) + rest) == Found(addr) <==> addr.V4?)
  {
    var a := Attribute(XOR_MAPPED_ADDRESS, AddressValue(addr, header[8..]), []);
    XorWidths();
    hide Xor, Walk, Encode, EncodeAll, ToBeBytes, Value, Pow2, XorBytes;
    var tail := Encode(a) + rest;
    assert header + EncodeAll(attrs) + Encode(a) + rest == header + EncodeAll(attrs) + tail[..|tail|];
    CutDatagram(header, attrs, a, rest, |tail|);
    if addr.V4? {
      AddressRead(addr, header[8..]);
    }
  }

  // ----- the request -----

  const REQUEST_PREFIX: seq<byte> := [0x00, 0x01, 0x00, 0x00, 0x21, 0x12, 0xA4, 0x42]

  method BuildStunRequest(random: seq<byte>) returns (msg: array<byte>)
    requires |random| == 12
    ensures fresh(msg) && msg[..] == REQUEST_PREFIX + random
  {
    msg := new byte[20](_ => 0);
    msg[0], msg[1] := 0x00, 0x01;
    msg[2], msg[3] := 0x00, 0x00;
    msg[4], msg[5], msg[6], msg[7] := 0x21, 0x12, 0xA4, 0x42;
    for i := 8 to 20
      invariant msg[..8] == REQUEST_PREFIX
      invariant forall j :: 8 <= j < i ==> msg[j] == random[j - 8]
    {
      msg[i] := random[i - 8];
    }
  }

  /** The request is a header whose length field announces the attributes that follow: none. */
  lemma RequestIsAHeader(random: seq<byte>)
    requires |random| == 12
    ensures var msg := REQUEST_PREFIX + random;
            && |msg| == HEADER && Value(msg[..2]) == 1 && Value(msg[2..4]) == |msg| - HEADER
            && Value(msg[4..8]) == 0x2112A442 && msg[8..] == random
            && Parse(msg) == NoAddress
  {
    var msg := REQUEST_PREFIX + random;
    assert msg[..2] == [0, 1] && msg[2..4] == [0, 0] && msg[4..8] == [0x21, 0x12, 0xA4, 0x42];
    ValueOfPair(0, 1);
    ValueOfPair(0, 0);
    ValueOfFour(0x21, 0x12, 0xA4, 0x42);
  }

  lemma ValueOfPair(a: byte, b: byte)
    ensures Value([a, b]) == 256 * a + b
  {
    var one: seq<byte>, two: seq<byte> := [a], [a, b];
    assert one[..0] == [] && two[..1] == one;
    assert Value(one) == a;
  }

  lemma ValueOfFour(a: byte, b: byte, c: byte, d: byte)
    ensures Value([a, b, c, d]) == 0x100_0000 * a + 0x1_0000 * b + 256 * c + d
  {
    ValueOfPair(a, b);
    var three: seq<byte>, four: seq<byte> := [a, b, c], [a, b, c, d];
    assert three[..2] == [a, b] && four[..3] == three;
    assert Value(three) == 256 * Value(three[..2]) + c;
    assert Value(four) == 256 * Value(four[..3]) + d;
  }
}
