/**
  UTF-8 as a Rust `String` guarantees it, and the lossy conversion that replaces every maximal
  ill-formed run with U+FFFD.
 */
module Utf8 {
  import opened Octets

  /** Width announced by a lead byte, 0 when the byte can not lead. */
  function Width(b: byte): (w: nat)
    ensures w <= 4
  {
    if b < 0x80 then 1
    else if 0xC2 <= b <= 0xDF then 2
    else if 0xE0 <= b <= 0xEF then 3
    else if 0xF0 <= b <= 0xF4 then 4
    else 0
  }

  predicate Continues(b: byte) {
    0x80 <= b <= 0xBF
  }

  predicate SecondFits(lead: byte, b: byte) {
    if lead == 0xE0 then 0xA0 <= b <= 0xBF
    else if lead == 0xED then 0x80 <= b <= 0x9F
    else if lead == 0xF0 then 0x90 <= b <= 0xBF
    else if lead == 0xF4 then 0x80 <= b <= 0x8F
    else Continues(b)
  }

  /** Length of the longest prefix of `s` that is the beginning of one character. */
  function CharRun(s: seq<byte>): (n: nat)
    requires s != []
    ensures n <= |s| && n <= Width(s[0])
  {
    var w := Width(s[0]);
    if w == 0 then 0
    else if w == 1 || |s| < 2 || !SecondFits(s[0], s[1]) then 1
    else if w == 2 || |s| < 3 || !Continues(s[2]) then 2
    else if w == 3 || |s| < 4 || !Continues(s[3]) then 3
    else 4
  }

  predicate StartsWithChar(s: seq<byte>)
    requires s != []
  {
    0 < Width(s[0]) && CharRun(s) == Width(s[0])
  }

  predicate ValidUtf8(s: seq<byte>) {
    s == [] || (StartsWithChar(s) && ValidUtf8(s[CharRun(s)..]))
  }

  /** The contents of a `String`. */
  type Str = s: seq<byte> | ValidUtf8(s)

  const REPLACEMENT: seq<byte> := [0xEF, 0xBF, 0xBD]

  function Lossy(s: seq<byte>): (r: seq<byte>)
  {
    if s == [] then []
    else if StartsWithChar(s) then s[..CharRun(s)] + Lossy(s[CharRun(s)..])
    else REPLACEMENT + Lossy(s[if CharRun(s) == 0 then 1 else CharRun(s)..])
  }

  lemma PrependChar(c: seq<byte>, t: seq<byte>)
    requires c != [] && StartsWithChar(c) && CharRun(c) == |c|
    requires ValidUtf8(t)
    ensures ValidUtf8(c + t)
  {
    assert CharRun(c + t) == |c|;
    assert (c + t)[|c|..] == t;
  }

  lemma {:induction false} LossyIsValid(s: seq<byte>)
    ensures ValidUtf8(Lossy(s))
  {
    if s == [] {
    } else if StartsWithChar(s) {
      LossyIsValid(s[CharRun(s)..]);
      PrependChar(s[..CharRun(s)], Lossy(s[CharRun(s)..]));
    } else {
      var rest := s[if CharRun(s) == 0 then 1 else CharRun(s)..];
      LossyIsValid(rest);
      PrependChar(REPLACEMENT, Lossy(rest));
    }
  }

  lemma {:induction false} LossyKeepsValid(s: seq<byte>)
    requires ValidUtf8(s)
    ensures Lossy(s) == s
  {
    if s != [] {
      LossyKeepsValid(s[CharRun(s)..]);
      assert s == s[..CharRun(s)] + s[CharRun(s)..];
    }
  }

  /** The lossy conversion changes a byte string exactly when it is not well-formed. */
  lemma LossyIdentity(s: seq<byte>)
    ensures Lossy(s) == s <==> ValidUtf8(s)
  {
    LossyIsValid(s);
    if ValidUtf8(s) {
      LossyKeepsValid(s);
    }
  }

  lemma {:induction false} AsciiIsValid(s: seq<byte>)
    requires forall i :: 0 <= i < |s| ==> s[i] < 0x80
    ensures ValidUtf8(s)
  {
    if s != [] {
      AsciiIsValid(s[1..]);
    }
  }
}
