/** The EIP-1559 transaction the settlement oracle signs and sends. */
module Eip1559 {
  import opened Wrappers
  import opened Bytes
  import opened Rlp

  type Address = s: seq<byte> | |s| == 20 witness seq(20, _ => 0)
  type Word = s: seq<byte> | |s| == 32 witness seq(32, _ => 0)
  type RecoveryId = x: int | 0 <= x < 4 witness 0

  datatype Tx = Tx(chainId: u64, nonce: u64, maxPriorityFeePerGas: u128, maxFeePerGas: u128, gasLimit: u64,
                   to: Address, value: u128, data: Vec, accessList: Vec)

  datatype Signature = Signature(v: RecoveryId, r: Word, s: Word)

  datatype SignedTx = SignedTx(tx: Tx, sig: Signature)

  // ----- items of the field list -----

  datatype Item = Uint(n: u128) | Str(b: Vec)

  function EncodeItem(x: Item): seq<byte> {
    match x
    case Uint(n) => RlpUint(n)
    case Str(b) => RlpBytes(b)
  }

  function EncodeItems(xs: seq<Item>): seq<byte> {
    if xs == [] then [] else EncodeItem(xs[0]) + EncodeItems(xs[1..])
  }

  predicate Fits(xs: seq<Item>) {
    |EncodeItems(xs)| < USIZE_LIMIT
  }

  const FIELDS := 9

  function Field(tx: Tx, i: nat): Item
    requires i < FIELDS
  {
    if i == 0 then Uint(tx.chainId)
    else if i == 1 then Uint(tx.nonce)
    else if i == 2 then Uint(tx.maxPriorityFeePerGas)
    else if i == 3 then Uint(tx.maxFeePerGas)
    else if i == 4 then Uint(tx.gasLimit)
    else if i == 5 then Str(tx.to)
    else if i == 6 then Uint(tx.value)
    else if i == 7 then Str(tx.data)
    else Str(tx.accessList)
  }

  function UnsignedItems(tx: Tx): seq<Item> {
    seq(FIELDS, i requires 0 <= i < FIELDS => Field(tx, i))
  }

  function SignaturePart(sig: Signature, i: nat): Item
    requires i < 3
  {
    if i == 0 then Uint(sig.v) else if i == 1 then Str(sig.r) else Str(sig.s)
  }

  function SignatureItems(sig: Signature): seq<Item> {
    seq(3, i requires 0 <= i < 3 => SignaturePart(sig, i))
  }

  function SignedItems(x: SignedTx): seq<Item> {
    UnsignedItems(x.tx) + SignatureItems(x.sig)
  }

  function Envelope(xs: seq<Item>): seq<byte>
    requires Fits(xs)
  {
    [0x02] + RlpList(EncodeItems(xs))
  }

  // ----- the encoders -----

  /** A buffer after the items have been appended to it one by one. */
  function AppendItems(start: seq<byte>, xs: seq<Item>): seq<byte> {
    if xs == [] then start else AppendItems(start, xs[..|xs| - 1]) + EncodeItem(xs[|xs| - 1])
  }

  lemma {:induction false} AppendItemsIsEncode(xs: seq<Item>)
    ensures AppendItems([], xs) == EncodeItems(xs)
  {
    if xs == [] {
    } else {
      AppendItemsIsEncode(xs[..|xs| - 1]);
      LastItem(xs);
    }
  }

  lemma {:induction false} AppendItemsTwice(start: seq<byte>, xs: seq<Item>, ys: seq<Item>)
    ensures AppendItems(AppendItems(start, xs), ys) == AppendItems(start, xs + ys)
  {
    if ys == [] {
      assert xs + ys == xs;
    } else {
      var front := ys[..|ys| - 1];
      AppendItemsTwice(start, xs, front);
      assert (xs + ys)[..|xs + ys| - 1] == xs + front;
    }
  }

  lemma NextItem(start: seq<byte>, xs: seq<Item>, k: nat)
    requires k < |xs|
    ensures AppendItems(start, xs[..k + 1]) == AppendItems(start, xs[..k]) + EncodeItem(xs[k])
  {
    assert xs[..k + 1][..k] == xs[..k];
  }

  method AppendUnsigned(rlp: ByteBuffer, tx: Tx)
    modifies rlp
    ensures rlp.bytes == AppendItems(old(rlp.bytes), UnsignedItems(tx))
  {
    ghost var start := rlp.bytes;
    AppendGasFields(rlp, tx);
    AppendCallFields(rlp, tx, start);
  }

  method AppendGasFields(rlp: ByteBuffer, tx: Tx)
    modifies rlp
    ensures rlp.bytes == AppendItems(old(rlp.bytes), UnsignedItems(tx)[..5])
  {
    hide RlpUint, RlpBytes;
    ghost var start, xs := rlp.bytes, UnsignedItems(tx);
    RlpAppendUint(rlp, tx.chainId); NextItem(start, xs, 0);
    RlpAppendUint(rlp, tx.nonce); NextItem(start, xs, 1);
    RlpAppendUint(rlp, tx.maxPriorityFeePerGas); NextItem(start, xs, 2);
    RlpAppendUint(rlp, tx.maxFeePerGas); NextItem(start, xs, 3);
    RlpAppendUint(rlp, tx.gasLimit); NextItem(start, xs, 4);
  }

  method AppendCallFields(rlp: ByteBuffer, tx: Tx, ghost start: seq<byte>)
    requires rlp.bytes == AppendItems(start, UnsignedItems(tx)[..5])
    modifies rlp
    ensures rlp.bytes == AppendItems(start, UnsignedItems(tx))
  {
    hide RlpUint, RlpBytes;
    ghost var xs := UnsignedItems(tx);
    RlpAppendBytes(rlp, tx.to); NextItem(start, xs, 5);
    RlpAppendUint(rlp, tx.value); NextItem(start, xs, 6);
    RlpAppendBytes(rlp, tx.data); NextItem(start, xs, 7);
    RlpAppendBytes(rlp, tx.accessList); NextItem(start, xs, 8);
    assert xs[..9] == xs;
  }

  method AppendSignature(rlp: ByteBuffer, sig: Signature)
    modifies rlp
    ensures rlp.bytes == AppendItems(old(rlp.bytes), SignatureItems(sig))
  {
    ghost var start, xs := rlp.bytes, SignatureItems(sig);
    RlpAppendUint(rlp, sig.v);  NextItem(start, xs, 0);
    RlpAppendBytes(rlp, sig.r); NextItem(start, xs, 1);
    RlpAppendBytes(rlp, sig.s); NextItem(start, xs, 2);
    assert xs[..3] == xs;
  }

  lemma {:induction false} SplitItems(xs: seq<Item>, k: nat)
    requires k <= |xs|
    ensures EncodeItems(xs) == EncodeItems(xs[..k]) + EncodeItems(xs[k..])
  {
    if k == 0 {
    } else {
      var tail := xs[1..];
      SplitItems(tail, k - 1);
      assert tail[..k - 1] == xs[..k][1..] && tail[k - 1..] == xs[k..];
      Associative(EncodeItem(xs[0]), EncodeItems(tail[..k - 1]), EncodeItems(tail[k - 1..]));
    }
  }

  lemma Associative(a: seq<byte>, b: seq<byte>, c: seq<byte>)
    ensures a + (b + c) == (a + b) + c
  {
  }

  lemma LastItem(xs: seq<Item>)
    requires xs != []
    ensures EncodeItems(xs) == EncodeItems(xs[..|xs| - 1]) + EncodeItem(xs[|xs| - 1])
  {
    var k := |xs| - 1;
    SplitItems(xs, k);
    OneItem(xs[k]);
    assert xs[k..] == [xs[k]];
  }

  lemma OneItem(x: Item)
    ensures EncodeItems([x]) == EncodeItem(x)
  {
    assert [x][1..] == [];
  }

  /** `rlp_encode_list` behind the type byte 0x02. */
  method WrapEnvelope(rlp: ByteBuffer, ghost xs: seq<Item>) returns (out: seq<byte>)
    requires Fits(xs) && rlp.bytes == AppendItems([], xs)
    ensures out == Envelope(xs)
  {
    AppendItemsIsEncode(xs);
    var list := RlpList(rlp.bytes);
    out := [0x02] + list;
  }

  method SigningPayload(tx: Tx) returns (out: seq<byte>)
    requires Fits(UnsignedItems(tx))
    ensures out == Envelope(UnsignedItems(tx))
  {
    var rlp := new ByteBuffer();
    AppendUnsigned(rlp, tx);
    out := WrapEnvelope(rlp, UnsignedItems(tx));
  }

  const SIGNATURE_BYTES := 67

  /** Signing is any partial function of the payload (hash and curve are not modelled). */
  method SignAndEncode(tx: Tx, sign: seq<byte> -> Option<Signature>) returns (out: Option<seq<byte>>)
    requires |EncodeItems(UnsignedItems(tx))| + SIGNATURE_BYTES < USIZE_LIMIT
    ensures out.None? <==> sign(Envelope(UnsignedItems(tx))).None?
    ensures out.Some? ==>
              var x := SignedTx(tx, sign(Envelope(UnsignedItems(tx))).value);
              Fits(SignedItems(x)) && out.value == Envelope(SignedItems(x))
  {
    var payload := SigningPayload(tx);
    var signature := sign(payload);
    if signature.None? {
      return None;
    }
    var x := SignedTx(tx, signature.value);
    SignedLayout(x);
    var raw := EncodeSigned(x);
    out := Some(raw);
  }

  method EncodeSigned(x: SignedTx) returns (out: seq<byte>)
    requires Fits(SignedItems(x))
    ensures out == Envelope(SignedItems(x))
  {
    var rlp := new ByteBuffer();
    AppendUnsigned(rlp, x.tx);
    AppendSignature(rlp, x.sig);
    AppendItemsTwice([], UnsignedItems(x.tx), SignatureItems(x.sig));
    out := WrapEnvelope(rlp, SignedItems(x));
  }

  lemma SignedLayout(x: SignedTx)
    ensures EncodeItems(SignedItems(x)) == EncodeItems(UnsignedItems(x.tx)) + EncodeItems(SignatureItems(x.sig))
    ensures |EncodeItems(SignatureItems(x.sig))| == SIGNATURE_BYTES
  {
    SplitItems(SignedItems(x), FIELDS);
    SignedParts(x);
    SignatureSize(x.sig);
  }

  lemma SignedParts(x: SignedTx)
    ensures SignedItems(x)[..FIELDS] == UnsignedItems(x.tx) && SignedItems(x)[FIELDS..] == SignatureItems(x.sig)
  {
  }

  lemma SignatureSize(sig: Signature)
    ensures |EncodeItems(SignatureItems(sig))| == SIGNATURE_BYTES
  {
    var xs := SignatureItems(sig);
    LastItem(xs);
    LastItem(xs[..2]);
    LastItem(xs[..2][..1]);
    UintForm(sig.v);
  }

  // ----- a strict reader of the format -----

  datatype Kind = UintKind | StrKind

  const UNSIGNED_KINDS: seq<Kind> :=
    [UintKind, UintKind, UintKind, UintKind, UintKind, StrKind, UintKind, StrKind, StrKind]
  const SIGNED_KINDS: seq<Kind> := UNSIGNED_KINDS + [UintKind, StrKind, StrKind]

  predicate Matches(xs: seq<Item>, ks: seq<Kind>) {
    |xs| == |ks| && forall i :: 0 <= i < |xs| ==> (xs[i].Uint? <==> ks[i].UintKind?)
  }

  function ReadItem(s: seq<byte>, k: Kind): Option<(Item, seq<byte>)> {
    match k
    case UintKind => (
      match ReadUint(s)
      case None => None
      case Some((n, rest)) => UintIff(s, n, rest); Some((Uint(n), rest)))
    case StrKind => (
      match ReadPayload(s, 0x80)
      case None => None
      case Some((p, rest)) => BytesIff(s, p, rest); Some((Str(p), rest)))
  }

  function ReadItems(s: seq<byte>, ks: seq<Kind>): Option<(seq<Item>, seq<byte>)> {
    if ks == [] then Some(([], s))
    else
      match ReadItem(s, ks[0])
      case None => None
      case Some((x, rest)) =>
        match ReadItems(rest, ks[1..])
        case None => None
        case Some((xs, rest')) => Some(([x] + xs, rest'))
  }

  /** Each item is self-delimiting: it reads back before any suffix, and nothing else reads as it. */
  lemma ItemIff(s: seq<byte>, k: Kind, x: Item, rest: seq<byte>)
    ensures ReadItem(s, k) == Some((x, rest)) <==> (x.Uint? <==> k.UintKind?) && s == EncodeItem(x) + rest
  {
    match x
    case Uint(n) => UintIff(s, n, rest);
    case Str(b) => BytesIff(s, b, rest);
  }

  lemma ItemsIff(s: seq<byte>, ks: seq<Kind>, xs: seq<Item>, rest: seq<byte>)
    ensures ReadItems(s, ks) == Some((xs, rest)) <==> Matches(xs, ks) && s == EncodeItems(xs) + rest
  {
    if Matches(xs, ks) && s == EncodeItems(xs) + rest {
      ItemsWritten(ks, xs, rest);
    }
    if ReadItems(s, ks) == Some((xs, rest)) {
      ItemsRead(s, ks);
    }
  }

  lemma {:induction false} ItemsWritten(ks: seq<Kind>, xs: seq<Item>, rest: seq<byte>)
    requires Matches(xs, ks)
    ensures ReadItems(EncodeItems(xs) + rest, ks) == Some((xs, rest))
    decreases |ks|
  {
    if ks == [] {
      assert [] + rest == rest;
    } else {
      var rest1 := EncodeItems(xs[1..]) + rest;
      assert [xs[0]] + xs[1..] == xs;
      EncodeCons(xs[0], xs[1..], rest);
      ItemIff(EncodeItems(xs) + rest, ks[0], xs[0], rest1);
      ItemsWritten(ks[1..], xs[1..], rest);
    }
  }

  lemma {:induction false} ItemsRead(s: seq<byte>, ks: seq<Kind>)
    requires ReadItems(s, ks).Some?
    ensures var (xs, rest) := ReadItems(s, ks).value; Matches(xs, ks) && s == EncodeItems(xs) + rest
    decreases |ks|
  {
    if ks == [] {
      assert [] + s == s;
    } else {
      var (x, rest1) := ReadItem(s, ks[0]).value;
      ItemIff(s, ks[0], x, rest1);
      ItemsRead(rest1, ks[1..]);
      var (xs, rest) := ReadItems(rest1, ks[1..]).value;
      EncodeCons(x, xs, rest);
    }
  }

  lemma EncodeCons(x: Item, xs: seq<Item>, rest: seq<byte>)
    ensures EncodeItem(x) + (EncodeItems(xs) + rest) == EncodeItems([x] + xs) + rest
  {
    hide EncodeItem;
    assert ([x] + xs)[1..] == xs;
    Associative(EncodeItem(x), EncodeItems(xs), rest);
  }

  function ReadEnvelope(raw: seq<byte>, ks: seq<Kind>): Option<seq<Item>> {
    if raw == [] || raw[0] != 0x02 then None
    else
      match ReadPayload(raw[1..], 0xC0)
      case None => None
      case Some((contents, rest)) =>
        if rest != [] then None
        else
          match ReadItems(contents, ks)
          case None => None
          case Some((xs, rest')) => if rest' != [] then None else Some(xs)
  }

  lemma EnvelopeIff(raw: seq<byte>, ks: seq<Kind>, xs: seq<Item>)
    ensures ReadEnvelope(raw, ks) == Some(xs) <==> Matches(xs, ks) && Fits(xs) && raw == Envelope(xs)
  {
    if raw != [] && raw[0] == 0x02 {
      var contents := EncodeItems(xs);
      assert raw == [raw[0]] + raw[1..];
      ListIff(raw[1..], contents, []);
      ItemsIff(contents, ks, xs, []);
      assert contents + [] == contents;
      if Fits(xs) {
        assert RlpList(contents) + [] == RlpList(contents);
      }
      if ReadEnvelope(raw, ks) == Some(xs) {
        var (contents', rest') := ReadPayload(raw[1..], 0xC0).value;
        ItemsIff(contents', ks, xs, []);
      }
    }
  }

  function TxOf(xs: seq<Item>): Option<Tx>
    requires Matches(xs, UNSIGNED_KINDS)
  {
    if xs[0].n < USIZE_LIMIT && xs[1].n < USIZE_LIMIT && xs[4].n < USIZE_LIMIT && |xs[5].b| == 20
    then Some(Tx(xs[0].n, xs[1].n, xs[2].n, xs[3].n, xs[4].n, xs[5].b, xs[6].n, xs[7].b, xs[8].b))
    else None
  }

  function SignatureOf(xs: seq<Item>): Option<Signature>
    requires Matches(xs, [UintKind, StrKind, StrKind])
  {
    if xs[0].n < 4 && |xs[1].b| == 32 && |xs[2].b| == 32 then Some(Signature(xs[0].n, xs[1].b, xs[2].b)) else None
  }

  function ReadSigned(raw: seq<byte>): Option<SignedTx> {
    match ReadEnvelope(raw, SIGNED_KINDS)
    case None => None
    case Some(xs) =>
      EnvelopeIff(raw, SIGNED_KINDS, xs);
      match (TxOf(xs[..9]), SignatureOf(xs[9..]))
      case (Some(tx), Some(sig)) => Some(SignedTx(tx, sig))
      case _ => None
  }

  lemma TxOfIff(xs: seq<Item>, tx: Tx)
    ensures (Matches(xs, UNSIGNED_KINDS) && TxOf(xs) == Some(tx)) <==> xs == UnsignedItems(tx)
  {
  }

  lemma SignatureOfIff(xs: seq<Item>, sig: Signature)
    ensures (Matches(xs, [UintKind, StrKind, StrKind]) && SignatureOf(xs) == Some(sig)) <==> xs == SignatureItems(sig)
  {
  }

  // ----- main results -----

  /** The reader accepts exactly what the writer emits and returns all twelve fields;
      every byte is consumed. */
  lemma SignedRoundTrip(raw: seq<byte>, x: SignedTx)
    ensures ReadSigned(raw) == Some(x) <==> Fits(SignedItems(x)) && raw == Envelope(SignedItems(x))
  {
    var xs := SignedItems(x);
    SignedParts(x);
    EnvelopeIff(raw, SIGNED_KINDS, xs);
    TxOfIff(xs[..9], x.tx);
    SignatureOfIff(xs[9..], x.sig);
    if ReadSigned(raw) == Some(x) {
      var ys := ReadEnvelope(raw, SIGNED_KINDS).value;
      EnvelopeIff(raw, SIGNED_KINDS, ys);
      TxOfIff(ys[..9], x.tx);
      SignatureOfIff(ys[9..], x.sig);
      assert ys == ys[..9] + ys[9..];
    }
  }

  /** Different transactions never share a signing payload. */
  lemma PayloadInjective(a: Tx, b: Tx)
    requires Fits(UnsignedItems(a)) && Fits(UnsignedItems(b))
    requires Envelope(UnsignedItems(a)) == Envelope(UnsignedItems(b))
    ensures a == b
  {
    EnvelopeIff(Envelope(UnsignedItems(a)), UNSIGNED_KINDS, UnsignedItems(a));
    EnvelopeIff(Envelope(UnsignedItems(b)), UNSIGNED_KINDS, UnsignedItems(b));
    TxOfIff(UnsignedItems(a), a);
    TxOfIff(UnsignedItems(b), b);
  }

  /** What a verifier does: read twelve items, drop the last three, write the rest again. */
  function StripSignature(raw: seq<byte>): Option<seq<byte>> {
    match ReadEnvelope(raw, SIGNED_KINDS)
    case None => None
    case Some(xs) =>
      EnvelopeIff(raw, SIGNED_KINDS, xs);
      if Fits(xs[..9]) then Some(Envelope(xs[..9])) else None
  }

  lemma StripDropsThree(xs: seq<Item>)
    requires Matches(xs, SIGNED_KINDS) && Fits(xs)
    ensures Fits(xs[..9]) && StripSignature(Envelope(xs)) == Some(Envelope(xs[..9]))
  {
    EnvelopeIff(Envelope(xs), SIGNED_KINDS, xs);
    SplitItems(xs, 9);
  }

  lemma SignedKinds(x: SignedTx)
    ensures Matches(SignedItems(x), SIGNED_KINDS)
  {
  }

  /** The bytes sent commit to the bytes hashed. */
  lemma CommitsToPayload(x: SignedTx)
    requires Fits(SignedItems(x))
    ensures Fits(UnsignedItems(x.tx))
    ensures StripSignature(Envelope(SignedItems(x))) == Some(Envelope(UnsignedItems(x.tx)))
  {
    SignedKinds(x);
    SignedParts(x);
    StripDropsThree(SignedItems(x));
  }

  // ----- against the standard -----

  /** The item as the Yellow Paper writes it: an integer is the string of its digits. */
  function StandardItem(x: Item): seq<byte> {
    match x
    case Uint(n) => UintForm(n); YellowPaperString(BigEndian(n))
    case Str(b) => YellowPaperString(b)
  }

  function StandardItems(xs: seq<Item>): seq<byte> {
    if xs == [] then [] else StandardItem(xs[0]) + StandardItems(xs[1..])
  }

  /** Fields one to eight as the Yellow Paper and EIP-1559 write them. */
  function StandardFields(tx: Tx): seq<byte> {
    StandardItems(UnsignedItems(tx)[..7]) + YellowPaperString(tx.data)
  }

  predicate LowByte(b: seq<byte>) {
    |b| == 1 && b[0] < 0x80
  }

  lemma {:induction false} ItemsMatch(xs: seq<Item>)
    requires forall i :: 0 <= i < |xs| && xs[i].Str? ==> !LowByte(xs[i].b)
    ensures EncodeItems(xs) == StandardItems(xs)
  {
    if xs == [] {
    } else {
      match xs[0] {
        case Uint(n) => UintMatchesYellowPaper(n);
        case Str(b) => BytesMatchYellowPaperIff(b);
      }
      ItemsMatch(xs[1..]);
    }
  }

  lemma AllButLastMatch(xs: seq<Item>)
    requires xs != [] && forall i :: 0 <= i < |xs| - 1 && xs[i].Str? ==> !LowByte(xs[i].b)
    ensures EncodeItems(xs) == StandardItems(xs[..|xs| - 1]) + EncodeItem(xs[|xs| - 1])
  {
    LastItem(xs);
    ItemsMatch(xs[..|xs| - 1]);
  }

  lemma DataLayout(tx: Tx)
    ensures EncodeItems(UnsignedItems(tx)[..8]) == StandardItems(UnsignedItems(tx)[..7]) + RlpBytes(tx.data)
  {
    hide RlpUint, RlpBytes;
    var xs := UnsignedItems(tx);
    assert xs[..8][..7] == xs[..7];
    assert xs[7] == Str(tx.data);
    AllButLastMatch(xs[..8]);
  }

  lemma Layout(tx: Tx)
    ensures EncodeItems(UnsignedItems(tx)) ==
            StandardItems(UnsignedItems(tx)[..7]) + RlpBytes(tx.data) + RlpBytes(tx.accessList)
  {
    hide RlpUint, RlpBytes;
    var xs := UnsignedItems(tx);
    assert xs[8] == Str(tx.accessList);
    LastItem(xs);
    DataLayout(tx);
  }

  /** The first eight fields are the standard's exactly when the calldata is not one byte below 0x80. */
  lemma StandardFieldsIff(tx: Tx)
    ensures EncodeItems(UnsignedItems(tx)[..8]) == StandardFields(tx) <==> !LowByte(tx.data)
  {
    DataLayout(tx);
    BytesMatchYellowPaperIff(tx.data);
    if EncodeItems(UnsignedItems(tx)[..8]) == StandardFields(tx) {
      CancelLeft(StandardItems(UnsignedItems(tx)[..7]), RlpBytes(tx.data), YellowPaperString(tx.data));
    }
  }

  /** The access list is written as a byte string where the standard has a list, so whatever
      list is meant, no payload of the code is a payload of the standard. */
  lemma NeverStandard(tx: Tx, accessEntries: Vec)
    requires Fits(UnsignedItems(tx)) && |StandardFields(tx) + RlpList(accessEntries)| < USIZE_LIMIT
    ensures Envelope(UnsignedItems(tx)) != [0x02] + RlpList(StandardFields(tx) + RlpList(accessEntries))
  {
    var ours, theirs := EncodeItems(UnsignedItems(tx)), StandardFields(tx) + RlpList(accessEntries);
    if Envelope(UnsignedItems(tx)) == [0x02] + RlpList(theirs) {
      CancelLeft([0x02], RlpList(ours), RlpList(theirs));
      ListInjective(ours, theirs);
      ContentsNeverStandard(tx, accessEntries);
    }
  }

  lemma ListInjective(a: Vec, b: Vec)
    requires RlpList(a) == RlpList(b)
    ensures a == b
  {
    assert RlpList(a) + [] == RlpList(a);
    assert RlpList(b) + [] == RlpList(b);
    ListIff(RlpList(a), a, []);
    ListIff(RlpList(a), b, []);
  }

  lemma ContentsNeverStandard(tx: Tx, accessEntries: Vec)
    ensures EncodeItems(UnsignedItems(tx)) != StandardFields(tx) + RlpList(accessEntries)
  {
    Layout(tx);
    TailNeverStandard(tx.data, tx.accessList, accessEntries);
    SameHead(StandardItems(UnsignedItems(tx)[..7]), RlpBytes(tx.data), RlpBytes(tx.accessList),
             YellowPaperString(tx.data), RlpList(accessEntries));
  }

  lemma SameHead(head: seq<byte>, a: seq<byte>, b: seq<byte>, c: seq<byte>, d: seq<byte>)
    ensures head + a + b == head + c + d ==> a + b == c + d
  {
    assert head + a + b == head + (a + b);
    assert head + c + d == head + (c + d);
    if head + a + b == head + c + d {
      CancelLeft(head, a + b, c + d);
    }
  }

  lemma TailNeverStandard(data: Vec, accessList: Vec, accessEntries: Vec)
    ensures RlpBytes(data) + RlpBytes(accessList) != YellowPaperString(data) + RlpList(accessEntries)
  {
    HeaderRange(data);
    HeaderRange(accessList);
    HeaderRange(accessEntries);
    BytesMatchYellowPaperIff(data);
    var ours := RlpBytes(data) + RlpBytes(accessList);
    assert ours[0] == RlpBytes(data)[0] && ours[|RlpBytes(data)|] == RlpBytes(accessList)[0];
    var theirs := YellowPaperString(data) + RlpList(accessEntries);
    assert LowByte(data) ==> theirs[0] == data[0];
    assert theirs[|YellowPaperString(data)|] == RlpList(accessEntries)[0];
  }

  lemma CancelLeft(a: seq<byte>, b: seq<byte>, c: seq<byte>)
    requires a + b == a + c
    ensures b == c
  {
    assert b == (a + b)[|a|..] && c == (a + c)[|a|..];
  }

  /** A signature word is the standard's integer exactly when it has no leading zero byte. */
  lemma SignatureWordStandardIff(w: Word)
    ensures |BigEndian(Value(w))| <= 32
    ensures RlpBytes(w) == YellowPaperString(BigEndian(Value(w))) <==> w[0] != 0
  {
    var digits := BigEndian(Value(w));
    ValueBound(w);
    BigEndianLength(Value(w), 32);
    if w[0] != 0 {
      CanonicalDigits(w);
      BytesMatchYellowPaperIff(w);
    } else {
      BigEndianInverse(Value(w));
      BytesForm(w);
      if |digits| == 32 && Prefix(0x80, 32) + w == Prefix(0x80, 32) + digits {
        CancelLeft(Prefix(0x80, 32), w, digits);
      }
    }
  }
}
