/** UTF-8 strings as byte sequences, and the places where one may be cut. */
module Utf8 {
  import opened Bytes

  /** A byte that only continues a character. */
  predicate Continuation(b: byte) {
    0x80 <= b <= 0xBF
  }

  /** The bytes allowed second after the lead byte of a three-byte character: no overlong form and no
      surrogate. */
  predicate SecondOfThree(lead: byte, b: byte) {
    (if lead == 0xE0 then 0xA0 else 0x80) <= b <= (if lead == 0xED then 0x9F else 0xBF)
  }

  /** The same for four bytes: no overlong form, nothing above U+10FFFF. */
  predicate SecondOfFour(lead: byte, b: byte) {
    (if lead == 0xF0 then 0x90 else 0x80) <= b <= (if lead == 0xF4 then 0x8F else 0xBF)
  }

  /** The length of the character that `s` starts with, or 0 when it starts with none. */
  function Width(s: seq<byte>): (w: nat)
    ensures w <= |s|
  {
    if s == [] then 0
    else if s[0] < 0x80 then 1
    else if 0xC2 <= s[0] <= 0xDF && |s| >= 2 && Continuation(s[1]) then 2
    else if 0xE0 <= s[0] <= 0xEF && |s| >= 3 && SecondOfThree(s[0], s[1]) && Continuation(s[2]) then 3
    else if 0xF0 <= s[0] <= 0xF4 && |s| >= 4 && SecondOfFour(s[0], s[1]) && Continuation(s[2]) && Continuation(s[3]) then 4
    else 0
  }

  predicate IsUtf8(s: seq<byte>)
    decreases |s|
  {
    s == [] || (Width(s) > 0 && IsUtf8(s[Width(s)..]))
  }

  /** The language's `String`. */
  type Str = s: seq<byte> | IsUtf8(s) witness []

  /** `str::len`: bytes, not characters. */
  function ByteLength(s: string): nat {
    if s == "" then 0
    else
      var c := s[0] as int;
      (if c < 0x80 then 1 else if c < 0x800 then 2 else if c < 0x1_0000 then 3 else 4) + ByteLength(s[1..])
  }

  /** `str::is_char_boundary`: decided by the byte at the index alone. */
  predicate IsCharBoundary(s: seq<byte>, i: nat) {
    i == 0 || i == |s| || (i < |s| && !Continuation(s[i]))
  }

  lemma {:induction false} Concat(a: Str, b: Str)
    ensures IsUtf8(a + b) && IsCharBoundary(a + b, |a|)
    decreases |a|
  {
    if a == [] {
      assert a + b == b;
    } else {
      var w := Width(a);
      assert Width(a + b) == w;
      assert (a + b)[w..] == a[w..] + b;
      Concat(a[w..], b);
    }
  }

  lemma InsideCharacter(s: Str, i: nat)
    requires 0 < i < Width(s)
    ensures !IsCharBoundary(s, i) && !IsUtf8(s[i..])
  {
    hide IsUtf8;
    assert Continuation(s[i]);
    assert s[i..][0] == s[i];
    NoTextFromContinuation(s[i..]);
  }

  lemma NoTextFromContinuation(s: seq<byte>)
    requires s != [] && Continuation(s[0])
    ensures !IsUtf8(s)
  {
    assert Width(s) == 0;
  }

  lemma WidthOfPrefix(s: seq<byte>, i: nat)
    requires 0 < Width(s) <= i <= |s|
    ensures Width(s[..i]) == Width(s)
  {
  }

  /** Cutting at a boundary, and only there, leaves two strings. */
  lemma {:induction false} CutIff(s: Str, i: nat)
    requires i <= |s|
    ensures IsCharBoundary(s, i) <==> IsUtf8(s[..i]) && IsUtf8(s[i..])
    ensures IsCharBoundary(s, i) <==> IsUtf8(s[i..])
    decreases |s|
  {
    hide Width;
    if i == 0 {
      assert s[..0] == [] && s[0..] == s;
    } else if i < Width(s) {
      InsideCharacter(s, i);
    } else {
      var w := Width(s);
      CutIff(s[w..], i - w);
      WidthOfPrefix(s, i);
      assert s[w..][i - w..] == s[i..];
      assert s[..i][w..] == s[w..][..i - w];
      if i < |s| {
        assert s[w..][i - w] == s[i];
        if i == w {
          NoContinuationFirst(s[w..]);
        }
      }
    }
  }

  lemma NoContinuationFirst(s: Str)
    ensures s != [] ==> !Continuation(s[0])
  {
  }
}
