/**
  Bytes, fixed-width integers and the growable buffer the codecs work on.
  Integer widths are explicit: `Be` and `Le` keep the low `k` bytes of their argument,
  which is what a truncating cast followed by a fixed-width write does.
 */
module Octets {

  type byte = b: int | 0 <= b < 256
  type u16 = n: int | 0 <= n < 0x1_0000
  type u32 = n: int | 0 <= n < 0x1_0000_0000
  type u64 = n: int | 0 <= n < 0x1_0000_0000_0000_0000

  const U64_LIMIT: nat := 0x1_0000_0000_0000_0000

  function Pow256(k: nat): (p: nat)
    ensures p > 0
  {
    if k == 0 then 1 else 256 * Pow256(k - 1)
  }

  lemma Pow256Values()
    ensures Pow256(2) == 0x1_0000 && Pow256(4) == 0x1_0000_0000 && Pow256(8) == U64_LIMIT
  {
    assert Pow256(3) == 0x100_0000;
    assert Pow256(5) == 0x100_0000_0000;
    assert Pow256(7) == 0x100_0000_0000_0000;
  }

  /** The low `k` bytes of `n`, most significant first. */
  function Be(n: nat, k: nat): (s: seq<byte>)
    ensures |s| == k
  {
    if k == 0 then [] else Be(n / 256, k - 1) + [n % 256]
  }

  function FromBe(s: seq<byte>): (n: nat)
    ensures n < Pow256(|s|)
  {
    if s == [] then 0 else 256 * FromBe(s[..|s| - 1]) + s[|s| - 1]
  }

  lemma {:induction false} BeRoundTrip(n: nat, k: nat)
    requires n < Pow256(k)
    ensures FromBe(Be(n, k)) == n
  {
    if k > 0 {
      BeRoundTrip(n / 256, k - 1);
      var s := Be(n, k);
      assert s[..|s| - 1] == Be(n / 256, k - 1);
    }
  }

  lemma {:induction false} BeUnique(s: seq<byte>)
    ensures Be(FromBe(s), |s|) == s
  {
    if s != [] {
      BeUnique(s[..|s| - 1]);
      var n := FromBe(s);
      assert n == 256 * FromBe(s[..|s| - 1]) + s[|s| - 1];
      assert n % 256 == s[|s| - 1] && n / 256 == FromBe(s[..|s| - 1]);
      assert s == s[..|s| - 1] + [s[|s| - 1]];
    }
  }

  /** The low `k` bytes of `n`, least significant first. */
  function Le(n: nat, k: nat): (s: seq<byte>)
    ensures |s| == k
  {
    if k == 0 then [] else [n % 256] + Le(n / 256, k - 1)
  }

  function FromLe(s: seq<byte>): (n: nat)
    ensures n < Pow256(|s|)
  {
    if s == [] then 0 else s[0] + 256 * FromLe(s[1..])
  }

  lemma {:induction false} LeRoundTrip(n: nat, k: nat)
    requires n < Pow256(k)
    ensures FromLe(Le(n, k)) == n
  {
    if k > 0 {
      LeRoundTrip(n / 256, k - 1);
      assert Le(n, k)[1..] == Le(n / 256, k - 1);
    }
  }

  lemma {:induction false} LeUnique(s: seq<byte>)
    ensures Le(FromLe(s), |s|) == s
  {
    if s != [] {
      LeUnique(s[1..]);
      var n := FromLe(s);
      assert n == s[0] + 256 * FromLe(s[1..]);
      assert n % 256 == s[0] && n / 256 == FromLe(s[1..]);
      assert s == [s[0]] + s[1..];
    }
  }

  lemma Assoc(a: seq<byte>, b: seq<byte>, c: seq<byte>)
    ensures a + b + c == a + (b + c)
  {
  }

  /** Concatenation of a list of byte strings. */
  function Flatten(ss: seq<seq<byte>>): (s: seq<byte>)
  {
    if ss == [] then [] else ss[0] + Flatten(ss[1..])
  }

  lemma {:induction false} FlattenAppend(a: seq<seq<byte>>, b: seq<seq<byte>>)
    ensures Flatten(a + b) == Flatten(a) + Flatten(b)
  {
    if a == [] {
      assert a + b == b;
    } else {
      FlattenAppend(a[1..], b);
      assert (a + b)[0] == a[0] && (a + b)[1..] == a[1..] + b;
      Assoc(a[0], Flatten(a[1..]), Flatten(b));
    }
  }

  lemma FlattenLast(ss: seq<seq<byte>>, i: nat)
    requires i < |ss|
    ensures Flatten(ss[..i + 1]) == Flatten(ss[..i]) + ss[i]
  {
    assert ss[..i + 1] == ss[..i] + [ss[i]];
    FlattenAppend(ss[..i], [ss[i]]);
    assert Flatten([ss[i]]) == ss[i] + Flatten([]);
  }

  /** A growable byte buffer that is read at the front and written at the back. */
  class BytesMut {
    var data: seq<byte>

    constructor (initial: seq<byte>)
      ensures data == initial
    {
      data := initial;
    }

    method SplitTo(n: nat) returns (head: seq<byte>)
      requires n <= |data|
      modifies this
      ensures head == old(data)[..n] && data == old(data)[n..]
    {
      head, data := data[..n], data[n..];
    }

    method GetU8() returns (b: byte)
      requires 1 <= |data|
      modifies this
      ensures b == old(data)[0] && data == old(data)[1..]
    {
      b, data := data[0], data[1..];
    }

    method GetU16() returns (n: u16)
      requires 2 <= |data|
      modifies this
      ensures n == FromBe(old(data)[..2]) && data == old(data)[2..]
    {
      Pow256Values();
      n, data := FromBe(data[..2]), data[2..];
    }

    method GetU64() returns (n: u64)
      requires 8 <= |data|
      modifies this
      ensures n == FromBe(old(data)[..8]) && data == old(data)[8..]
    {
      Pow256Values();
      n, data := FromBe(data[..8]), data[8..];
    }

    method Put(s: seq<byte>)
      modifies this
      ensures data == old(data) + s
    {
      data := data + s;
    }

    method PutU8(b: byte)
      modifies this
      ensures data == old(data) + [b]
    {
      data := data + [b];
    }

    method PutU16(n: nat)
      modifies this
      ensures data == old(data) + Be(n, 2)
    {
      data := data + Be(n, 2);
    }

    method PutU64(n: nat)
      modifies this
      ensures data == old(data) + Be(n, 8)
    {
      data := data + Be(n, 8);
    }
  }
}
