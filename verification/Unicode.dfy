/** UTF-8 in terms of Unicode scalar values (section 3 of RFC 3629), for the byte-wise reading in `Utf8`. */
module Unicode {
  import opened Octets
  import opened Utf8

  /** Every code point but the surrogates. */
  type Scalar = c: int | 0 <= c < 0xD800 || 0xE000 <= c <= 0x10FFFF

  function Encode(c: Scalar): seq<byte> {
    if c < 0x80 then [c]
    else if c < 0x800 then [0xC0 + c / 64, 0x80 + c % 64]
    else if c < 0x1_0000 then [0xE0 + c / 64 / 64, 0x80 + c / 64 % 64, 0x80 + c % 64]
    else [0xF0 + c / 64 / 64 / 64, 0x80 + c / 64 / 64 % 64, 0x80 + c / 64 % 64, 0x80 + c % 64]
  }

  function Text(cs: seq<Scalar>): seq<byte> {
    if cs == [] then [] else Encode(cs[0]) + Text(cs[1..])
  }

  lemma EncodedIsChar(c: Scalar, tail: seq<byte>)
    ensures var s := Encode(c) + tail;
      StartsWithChar(s) && CharRun(s) == |Encode(c)| && s[..CharRun(s)] == Encode(c) && s[CharRun(s)..] == tail
  {
    Leads(c);
  }

  /** The first two bytes of a scalar value are a lead byte and one that fits it. */
  lemma Leads(c: Scalar)
    ensures var e := Encode(c);
      && Width(e[0]) == |e|
      && (|e| > 1 ==> SecondFits(e[0], e[1])) && (|e| > 2 ==> Continues(e[2])) && (|e| > 3 ==> Continues(e[3]))
  {
    var q, r := c / 64, c % 64;
    var q2, r2 := q / 64, q % 64;
    assert c == 64 * q + r && q == 64 * q2 + r2;
  }

  /** Shifting in the six bits of a continuation byte. */
  function Shift(n: nat, b: byte): (m: int)
    requires Continues(b)
    ensures m / 64 == n && m % 64 == b as int - 0x80
  {
    n * 64 + (b as int - 0x80)
  }

  lemma CharIsEncoded(s: seq<byte>) returns (c: Scalar)
    requires s != [] && StartsWithChar(s)
    ensures s[..CharRun(s)] == Encode(c)
  {
    match CharRun(s)
    case 1 => c := s[0];
    case 2 => c := Shift(s[0] as int - 0xC0, s[1]);
    case 3 => c := Shift(Shift(s[0] as int - 0xE0, s[1]), s[2]);
    case _ => c := Shift(Shift(Shift(s[0] as int - 0xF0, s[1]), s[2]), s[3]);
  }

  /** A byte string is well-formed exactly when it is the encoding of some scalar values. */
  lemma {:induction false} WellFormedExactly(s: seq<byte>)
    ensures ValidUtf8(s) <==> exists cs :: Text(cs) == s
  {
    if ValidUtf8(s) {
      var cs := Scalars(s);
    }
    forall cs | Text(cs) == s ensures ValidUtf8(s) {
      TextIsValid(cs);
    }
  }

  lemma {:induction false} Scalars(s: seq<byte>) returns (cs: seq<Scalar>)
    requires ValidUtf8(s)
    ensures Text(cs) == s
  {
    if s == [] {
      cs := [];
    } else {
      var c := CharIsEncoded(s);
      var rest := Scalars(s[CharRun(s)..]);
      cs := [c] + rest;
      assert cs[1..] == rest && s == s[..CharRun(s)] + s[CharRun(s)..];
    }
  }

  lemma {:induction false} TextIsValid(cs: seq<Scalar>)
    ensures ValidUtf8(Text(cs))
  {
    if cs != [] {
      TextIsValid(cs[1..]);
      EncodedIsChar(cs[0], Text(cs[1..]));
    }
  }

  // ----- the lossy conversion -----

  /** Some character begins with `t`. */
  ghost predicate Begins(t: seq<byte>) {
    exists c: Scalar :: t <= Encode(c)
  }

  lemma LossyText(c: Scalar, tail: seq<byte>)
    ensures Lossy(Encode(c) + tail) == Encode(c) + Lossy(tail)
  {
    EncodedIsChar(c, tail);
  }

  /** The `n` bytes at the front of `s` can be completed to a character, for `n` up to the length of its run. */
  lemma RunBegins(s: seq<byte>, n: nat)
    requires s != [] && 0 < n <= CharRun(s)
    ensures Begins(s[..n])
  {
    var second := if s[0] == 0xE0 then 0xA0 else if s[0] == 0xF0 then 0x90 else 0x80;
    var full := (if n == 1 then [s[0], second] else s[..n]) + [0x80, 0x80, 0x80];
    assert full[..n] == s[..n];
    assert StartsWithChar(full);
    var c := CharIsEncoded(full);
    assert s[..n] == full[..CharRun(full)][..n];
  }

  /** Nothing longer than the run can. */
  lemma BeginsRun(s: seq<byte>, n: nat)
    requires s != [] && 0 < n <= |s| && Begins(s[..n])
    ensures n <= CharRun(s)
  {
    var c: Scalar :| s[..n] <= Encode(c);
    Leads(c);
    assert forall i :: 0 <= i < n ==> s[i] == s[..n][i] == Encode(c)[i];
  }

  lemma CharStarts(s: seq<byte>)
    requires s != [] && StartsWithChar(s)
    ensures exists c: Scalar :: Encode(c) <= s
  {
    var c := CharIsEncoded(s);
    assert Encode(c) <= s;
  }

  lemma ReplacementChar()
    ensures Encode(0xFFFD) == REPLACEMENT
  {
  }

  /**
    Where no character begins, the conversion writes U+FFFD for the longest beginning of a character there,
    or for one byte where there is none, and goes on behind it.
   */
  lemma LossyReplaces(s: seq<byte>) returns (n: nat)
    requires s != [] && forall c: Scalar :: !(Encode(c) <= s)
    ensures 1 <= n <= |s| && Lossy(s) == Encode(0xFFFD) + Lossy(s[n..])
    ensures n == 1 || Begins(s[..n])
    ensures forall k :: n < k <= |s| ==> !Begins(s[..k])
  {
    if StartsWithChar(s) {
      CharStarts(s);
    }
    ReplacementChar();
    hide Encode;
    n := if CharRun(s) == 0 then 1 else CharRun(s);
    if n > 1 {
      RunBegins(s, n);
    }
    forall k | n < k <= |s| ensures !Begins(s[..k]) {
      if Begins(s[..k]) {
        BeginsRun(s, k);
      }
    }
  }
}
