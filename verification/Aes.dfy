/**
  AES in ECB mode with PKCS#7 padding (section 6.3 of RFC 5652), over an abstract block cipher.
  The buffer handed to the cipher grows in 32-byte units while the cipher pads in 16-byte blocks.
 */
module Aes {
  import opened Wrappers
  import opened Octets

  const CIPHER_BLOCK: nat := 16
  const KEY_LENGTH: nat := 32
  const BLOCK_SIZE: nat := 32

  /** A transformation of one 16-byte block under a 32-byte key. */
  type BlockFunction = (seq<byte>, seq<byte>) -> seq<byte>

  datatype BlockCipher = BlockCipher(encrypt: BlockFunction, decrypt: BlockFunction)

  datatype AesError =
    | NoRoomForPadding
    | BadPadding
    | BadKeyLength  // the program panics here

  /** `g` undoes `f` on every block. */
  ghost predicate Undoes(g: BlockFunction, f: BlockFunction) {
    forall key, block | |key| == KEY_LENGTH && |block| == CIPHER_BLOCK ::
      |f(key, block)| == CIPHER_BLOCK && g(key, f(key, block)) == block
  }

  ghost predicate Invertible(c: BlockCipher) {
    Undoes(c.decrypt, c.encrypt) && Undoes(c.encrypt, c.decrypt)
  }

  /** Every whole block of `s` transformed on its own. */
  function Ecb(f: BlockFunction, key: seq<byte>, s: seq<byte>): seq<byte> {
    if |s| < CIPHER_BLOCK then [] else f(key, s[..CIPHER_BLOCK]) + Ecb(f, key, s[CIPHER_BLOCK..])
  }

  lemma {:induction false} EcbUndone(g: BlockFunction, f: BlockFunction, key: seq<byte>, s: seq<byte>)
    requires Undoes(g, f) && |key| == KEY_LENGTH && |s| % CIPHER_BLOCK == 0
    ensures |Ecb(f, key, s)| == |s| && Ecb(g, key, Ecb(f, key, s)) == s
  {
    if |s| >= CIPHER_BLOCK {
      var head, tail := s[..CIPHER_BLOCK], s[CIPHER_BLOCK..];
      EcbUndone(g, f, key, tail);
      var e := Ecb(f, key, s);
      assert e[..CIPHER_BLOCK] == f(key, head) && e[CIPHER_BLOCK..] == Ecb(f, key, tail);
      assert s == head + tail;
    }
  }

  /** A 16-byte block of `s`. */
  function BlockAt(s: seq<byte>, i: nat): seq<byte>
    requires 16 * i + 16 <= |s|
  {
    s[16 * i..16 * i + 16]
  }

  /** Block `i` of the result is the transformed block `i`: every block stays in its place. */
  lemma {:induction false} EcbBlock(g: BlockFunction, f: BlockFunction, key: seq<byte>, s: seq<byte>, i: nat)
    requires Undoes(g, f) && |key| == 32 && |s| % 16 == 0 && 16 * i + 16 <= |s|
    ensures |Ecb(f, key, s)| == |s|
    ensures BlockAt(Ecb(f, key, s), i) == f(key, BlockAt(s, i))
    decreases i
  {
    EcbUndone(g, f, key, s);
    var head, tail := s[..16], s[16..];
    var rest := Ecb(f, key, tail);
    assert Ecb(f, key, s) == f(key, head) + rest;
    if i == 0 {
      assert BlockAt(s, 0) == head && BlockAt(Ecb(f, key, s), 0) == f(key, head);
    } else {
      EcbBlock(g, f, key, tail, i - 1);
      ShiftBlock(head, tail, i - 1);
      ShiftBlock(f(key, head), rest, i - 1);
      assert s == head + tail;
    }
  }

  lemma ShiftBlock(head: seq<byte>, tail: seq<byte>, i: nat)
    requires |head| == 16 && 16 * i + 16 <= |tail|
    ensures BlockAt(head + tail, i + 1) == BlockAt(tail, i)
  {
    var n := 16 * i;
    assert 16 * (i + 1) == n + 16;
    assert (head + tail)[n + 16..n + 32] == tail[n..n + 16];
  }

  function PaddedLength(n: nat): nat {
    (n / CIPHER_BLOCK + 1) * CIPHER_BLOCK
  }

  function Fill(n: nat, b: byte): (s: seq<byte>)
    ensures |s| == n && forall i :: 0 <= i < n ==> s[i] == b
  {
    seq(n, _ => b)
  }

  function Pad(s: seq<byte>): seq<byte> {
    var n := CIPHER_BLOCK - |s| % CIPHER_BLOCK;
    s + Fill(n, n)
  }

  function Unpad(s: seq<byte>): Option<seq<byte>> {
    if s == [] then None else
    var n := s[|s| - 1];
    if n == 0 || n > CIPHER_BLOCK || n > |s| || (exists i :: |s| - n <= i < |s| && s[i] != n) then None
    else Some(s[..|s| - n])
  }

  lemma PadLength(s: seq<byte>)
    ensures |Pad(s)| == PaddedLength(|s|) && |Pad(s)| % CIPHER_BLOCK == 0
  {
  }

  /** PKCS#7: 1 to 16 more bytes up to a whole block, each of them telling how many they are. */
  lemma PadIsPkcs7(s: seq<byte>)
    ensures var p := Pad(s);
      && |p| % 16 == 0 && |s| < |p| <= |s| + 16 && p[..|s|] == s
      && forall i :: |s| <= i < |p| ==> p[i] == |p| - |s|
  {
  }

  lemma UnpadUndoesPad(s: seq<byte>)
    ensures Unpad(Pad(s)) == Some(s)
  {
    var n := CIPHER_BLOCK - |s| % CIPHER_BLOCK;
    assert Pad(s)[..|s|] == s;
    assert forall i :: |s| <= i < |s| + n ==> Pad(s)[i] == n;
  }

  lemma PadUndoesUnpad(s: seq<byte>)
    requires |s| % CIPHER_BLOCK == 0 && Unpad(s).Some?
    ensures Pad(Unpad(s).value) == s
  {
    var n := s[|s| - 1];
    var t := s[..|s| - n];
    assert |t| % CIPHER_BLOCK == if n == CIPHER_BLOCK then 0 else CIPHER_BLOCK - n;
    assert s == t + s[|s| - n..];
    assert s[|s| - n..] == Fill(n, n);
  }

  function Encrypted(c: BlockCipher, key: seq<byte>, plain: seq<byte>): seq<byte> {
    Ecb(c.encrypt, key, Pad(plain))
  }

  function Decrypted(c: BlockCipher, key: seq<byte>, sealed: seq<byte>): Option<seq<byte>> {
    if |sealed| % CIPHER_BLOCK != 0 then None else Unpad(Ecb(c.decrypt, key, sealed))
  }

  /** Decrypting the returned ciphertext gives the plaintext back, whatever its length. */
  lemma DecryptedEncrypted(c: BlockCipher, key: seq<byte>, plain: seq<byte>)
    requires Invertible(c) && |key| == KEY_LENGTH
    ensures Decrypted(c, key, Encrypted(c, key, plain)) == Some(plain)
    ensures |Encrypted(c, key, plain)| == PaddedLength(|plain|)
  {
    PadLength(plain);
    EcbUndone(c.decrypt, c.encrypt, key, Pad(plain));
    UnpadUndoesPad(plain);
  }

  /** Only the encryption of `plain` decrypts to `plain`. */
  lemma EncryptedDecrypted(c: BlockCipher, key: seq<byte>, sealed: seq<byte>)
    requires Invertible(c) && |key| == KEY_LENGTH && Decrypted(c, key, sealed).Some?
    ensures Encrypted(c, key, Decrypted(c, key, sealed).value) == sealed
  {
    EcbUndone(c.encrypt, c.decrypt, key, sealed);
    PadUndoesUnpad(Ecb(c.decrypt, key, sealed));
  }

  /** Block `i` of a ciphertext is the block function applied to block `i` of the padded plaintext. */
  lemma EncryptedBlock(c: BlockCipher, key: seq<byte>, plain: seq<byte>, i: nat)
    requires Invertible(c) && |key| == 32 && 16 * i + 16 <= |Pad(plain)|
    ensures |Encrypted(c, key, plain)| == |Pad(plain)|
    ensures BlockAt(Encrypted(c, key, plain), i) == c.encrypt(key, BlockAt(Pad(plain), i))
  {
    PadLength(plain);
    EcbBlock(c.decrypt, c.encrypt, key, Pad(plain), i);
  }

  /** `sealed` is `plain`, padded and then transformed block by block, each block in its place. */
  ghost predicate Enciphers(c: BlockCipher, key: seq<byte>, plain: seq<byte>, sealed: seq<byte>) {
    && |sealed| == |Pad(plain)|
    && forall i: nat :: 16 * i + 16 <= |sealed| ==> BlockAt(sealed, i) == c.encrypt(key, BlockAt(Pad(plain), i))
  }

  lemma EncryptedEnciphers(c: BlockCipher, key: seq<byte>, plain: seq<byte>)
    requires Invertible(c) && |key| == 32
    ensures Enciphers(c, key, plain, Encrypted(c, key, plain))
  {
    hide Encrypted, Pad;
    PadIsPkcs7(plain);
    EncryptedBlock(c, key, plain, 0);
    forall i: nat | 16 * i + 16 <= |Pad(plain)|
      ensures BlockAt(Encrypted(c, key, plain), i) == c.encrypt(key, BlockAt(Pad(plain), i))
    {
      EncryptedBlock(c, key, plain, i);
    }
  }

  /** The cipher's in-place encryption of the first `length` bytes of `target`. */
  method EncryptPadded(c: BlockCipher, key: seq<byte>, target: BytesMut, length: nat)
    returns (r: Result<seq<byte>, AesError>)
    requires Invertible(c) && |key| == KEY_LENGTH && length <= |target.data|
    modifies target
    ensures r.Ok? <==> PaddedLength(length) <= |old(target.data)|
    ensures r.Err? ==> r.error == NoRoomForPadding && target.data == old(target.data)
    ensures r.Ok? ==> r.value == Encrypted(c, key, old(target.data)[..length])
    ensures r.Ok? ==> target.data == r.value + old(target.data)[PaddedLength(length)..]
  {
    var end := PaddedLength(length);
    if |target.data| < end {
      return Err(NoRoomForPadding);
    }
    var padded := Pad(target.data[..length]);
    PadLength(target.data[..length]);
    EcbUndone(c.decrypt, c.encrypt, key, padded);
    target.data := Ecb(c.encrypt, key, padded) + target.data[end..];
    return Ok(target.data[..end]);
  }

  function Slack(n: nat): nat {
    if n % BLOCK_SIZE < CIPHER_BLOCK then CIPHER_BLOCK else 0
  }

  /** Growing to the next 32-byte unit always leaves room for the padding, and 16 or 0 bytes more. */
  lemma BufferBound(n: nat)
    ensures (n / BLOCK_SIZE + 1) * BLOCK_SIZE == PaddedLength(n) + Slack(n)
    ensures (n / 32 + 1) * 32 == (n / 16 + 1) * 16 + if n % 32 < 16 then 16 else 0
  {
    var unit, rest := n / 32, n % 32;
    assert n == 32 * unit + rest;
    assert n / 16 == 2 * unit + if rest < 16 then 0 else 1;
  }

  /**
    Encryption never lacks room. The extended `target` ends up as the ciphertext followed by zeros,
    so it is the ciphertext itself exactly when the plaintext ends in the upper half of a unit.
   */
  method EncryptWithAes(c: BlockCipher, key: seq<byte>, target: BytesMut)
    returns (r: Result<seq<byte>, AesError>)
    requires Invertible(c)
    modifies target
    ensures r == if |key| == KEY_LENGTH then Ok(Encrypted(c, key, old(target.data))) else Err(BadKeyLength)
    ensures r.Ok? ==> Enciphers(c, key, old(target.data), r.value)
    ensures r.Ok? ==> target.data == r.value + Fill(Slack(|old(target.data)|), 0)
    ensures r.Ok? ==> (target.data == r.value <==> |old(target.data)| % BLOCK_SIZE >= CIPHER_BLOCK)
  {
    var length := |target.data|;
    BufferBound(length);
    target.Put(Fill((length / BLOCK_SIZE + 1) * BLOCK_SIZE - length, 0));
    if |key| != KEY_LENGTH {
      return Err(BadKeyLength);
    }
    assert target.data[..length] == old(target.data);
    EncryptedEnciphers(c, key, old(target.data));
    assert target.data[PaddedLength(length)..] == Fill(Slack(length), 0);
    r := EncryptPadded(c, key, target, length);
  }

  /** Decryption in place; `target` keeps the deciphered blocks even when the padding is rejected. */
  method DecryptWithAes(c: BlockCipher, key: seq<byte>, target: BytesMut)
    returns (r: Result<seq<byte>, AesError>)
    modifies target
    ensures |key| != KEY_LENGTH ==> r == Err(BadKeyLength)
    ensures |key| == KEY_LENGTH ==>
      r == match Decrypted(c, key, old(target.data)) case Some(p) => Ok(p) case None => Err(BadPadding)
    ensures target.data == if |key| == KEY_LENGTH && |old(target.data)| % CIPHER_BLOCK == 0
                           then Ecb(c.decrypt, key, old(target.data)) else old(target.data)
  {
    if |key| != KEY_LENGTH {
      return Err(BadKeyLength);
    }
    if |target.data| % CIPHER_BLOCK != 0 {
      return Err(BadPadding);
    }
    target.data := Ecb(c.decrypt, key, target.data);
    match Unpad(target.data)
    case Some(plain) => r := Ok(plain);
    case None => r := Err(BadPadding);
  }
}
