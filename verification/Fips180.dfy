/** SHA-1 as FIPS 180-4 defines it: functions (4.1.1), constants (4.2.1), padding (5.1.1), hash computation (6.1.2). */
module Fips180 {
  import opened Bytes

  // ---- Functions and constants ----

  function Ch(x: bv32, y: bv32, z: bv32): bv32 { (x & y) ^ (!x & z) }

  function Parity(x: bv32, y: bv32, z: bv32): bv32 { x ^ y ^ z }

  function Maj(x: bv32, y: bv32, z: bv32): bv32 { (x & y) ^ (x & z) ^ (y & z) }

  function Rotl(x: bv32, n: nat): bv32
    requires n < 32
  {
    x.RotateLeft(n)
  }

  function Sum(a: bv32, b: bv32, c: bv32, d: bv32, e: bv32): bv32 { a + b + c + d + e }

  function F(t: nat, x: bv32, y: bv32, z: bv32): bv32 {
    if t < 20 then Ch(x, y, z) else if t < 40 then Parity(x, y, z) else if t < 60 then Maj(x, y, z) else Parity(x, y, z)
  }

  function K(t: nat): bv32 {
    if t < 20 then 0x5A827999 else if t < 40 then 0x6ED9EBA1 else if t < 60 then 0x8F1BBCDC else 0xCA62C1D6
  }

  datatype Vars = Vars(a: bv32, b: bv32, c: bv32, d: bv32, e: bv32)

  const INITIAL := Vars(0x67452301, 0xEFCDAB89, 0x98BADCFE, 0x10325476, 0xC3D2E1F0)

  /** The round constants are 2^30 times the square roots of 2, 3, 5 and 10, rounded down. */
  lemma ConstantsAreRoots(t: nat)
    requires t < 80
    ensures var k, q := K(t) as nat, if t < 20 then 2 else if t < 40 then 3 else if t < 60 then 5 else 10;
            k * k <= q * 0x1000_0000_0000_0000 < (k + 1) * (k + 1)
  {
  }

  /** Byte `j` of a word, the least significant byte first. */
  function ByteOf(x: bv32, j: nat): nat
    requires j < 4
  {
    (match j
     case 0 => x
     case 1 => x >> 8
     case 2 => x >> 16
     case 3 => x >> 24) as nat % 0x100
  }

  /** The initial words read 01 23 ... ef, then the same backwards, then f0 e1 d2 c3. */
  lemma InitialCounts(j: nat)
    requires j < 4
    ensures ByteOf(INITIAL.a, j) == 0x01 + 0x22 * j && ByteOf(INITIAL.b, j) == 0x89 + 0x22 * j
    ensures ByteOf(INITIAL.c, j) == 0xFE - 0x22 * j && ByteOf(INITIAL.d, j) == 0x76 - 0x22 * j
    ensures ByteOf(INITIAL.e, j) == 0xF0 - 0x0F * j
  {
  }

  // ---- Padding ----

  const BLOCK := 64

  /** The least number of zero bytes that leaves room for the length. */
  function ZeroBytes(len: nat): nat { (119 - len % 64) % 64 }

  /** The lowest `k` bytes of a number, most significant first. */
  function BigEndian(v: nat, k: nat): (b: Buffer)
    ensures |b| == k
  {
    if k == 0 then [] else BigEndian(v / 0x100, k - 1) + [v % 0x100]
  }

  const MAX_LEN := 0x2000_0000_0000_0000

  function Pad(m: Buffer): Buffer
    requires |m| < MAX_LEN
  {
    m + [0x80] + Zeros(ZeroBytes(|m|)) + BigEndian(8 * |m|, 8)
  }

  // ---- Schedule and compression ----

  /** The `j`-th word of a block, its bytes most significant first. */
  function Word(m: Buffer, at: nat, j: nat): bv32
    requires at + 4 * j + 4 <= |m|
  {
    var i := at + 4 * j;
    (m[i] as bv32 << 24) | (m[i + 1] as bv32 << 16) | (m[i + 2] as bv32 << 8) | (m[i + 3] as bv32)
  }

  function Mix(w3: bv32, w8: bv32, w14: bv32, w16: bv32): bv32 {
    Rotl(w3 ^ w8 ^ w14 ^ w16, 1)
  }

  function W(m: Buffer, at: nat, t: nat): bv32
    requires at + BLOCK <= |m|
  {
    if t < 16 then Word(m, at, t)
    else Mix(W(m, at, t - 3), W(m, at, t - 8), W(m, at, t - 14), W(m, at, t - 16))
  }

  function Round(v: Vars, t: nat, w: bv32): Vars {
    Vars(Sum(Rotl(v.a, 5), F(t, v.b, v.c, v.d), v.e, K(t), w), v.a, Rotl(v.b, 30), v.c, v.d)
  }

  function Rounds(h: Vars, m: Buffer, at: nat, n: nat): Vars
    requires at + BLOCK <= |m|
  {
    if n == 0 then h else Round(Rounds(h, m, at, n - 1), n - 1, W(m, at, n - 1))
  }

  function Add(h: Vars, v: Vars): Vars {
    Vars(h.a + v.a, h.b + v.b, h.c + v.c, h.d + v.d, h.e + v.e)
  }

  function Compress(h: Vars, m: Buffer, at: nat): Vars
    requires at + BLOCK <= |m|
  {
    Add(h, Rounds(h, m, at, 80))
  }

  /** The intermediate hash value after the first `n` blocks. */
  function HashBlocks(m: Buffer, n: nat): Vars
    requires BLOCK * n <= |m|
  {
    if n == 0 then INITIAL else Compress(HashBlocks(m, n - 1), m, BLOCK * (n - 1))
  }

  function Digest(m: Buffer): Vars
    requires |m| < MAX_LEN
  {
    HashBlocks(Pad(m), |Pad(m)| / BLOCK)
  }

  /** The hash value reached from `h` by `n` more blocks. */
  function HashFrom(h: Vars, m: Buffer, n: nat): Vars
    requires BLOCK * n <= |m|
  {
    if n == 0 then h
    else
      var v := HashFrom(h, m, n - 1);
      Add(v, Rounds(v, m, BLOCK * (n - 1), 80))
  }

  lemma WordElsewhere(a: Buffer, b: Buffer, at: nat, t: nat)
    requires at + BLOCK <= |b| && t < 16
    ensures Word(a + b, |a| + at, t) == Word(b, at, t)
  {
    var i, m := at + 4 * t, a + b;
    assert m[|a| + i] == b[i] && m[|a| + i + 1] == b[i + 1] && m[|a| + i + 2] == b[i + 2] && m[|a| + i + 3] == b[i + 3];
  }

  lemma {:induction false} WordsElsewhere(a: Buffer, b: Buffer, at: nat, t: nat)
    requires at + BLOCK <= |b|
    ensures W(a + b, |a| + at, t) == W(b, at, t)
  {
    hide Word, Mix;
    if t < 16 {
      WordElsewhere(a, b, at, t);
    } else {
      WordsElsewhere(a, b, at, t - 3);
      WordsElsewhere(a, b, at, t - 8);
      WordsElsewhere(a, b, at, t - 14);
      WordsElsewhere(a, b, at, t - 16);
    }
  }

  lemma {:induction false} RoundsElsewhere(h: Vars, a: Buffer, b: Buffer, at: nat, n: nat)
    requires at + BLOCK <= |b|
    ensures Rounds(h, a + b, |a| + at, n) == Rounds(h, b, at, n)
  {
    hide Round, W;
    if n == 0 {
    } else {
      RoundsElsewhere(h, a, b, at, n - 1);
      WordsElsewhere(a, b, at, n - 1);
    }
  }

  /** Each block goes on from what the blocks before it made: hashing a message in two parts is hashing it whole. */
  lemma {:induction false} HashGoesOn(a: Buffer, b: Buffer, k: nat, n: nat)
    requires |a| == BLOCK * k && BLOCK * n <= |b|
    ensures HashBlocks(a + b, k + n) == HashFrom(HashBlocks(a + b, k), b, n)
  {
    hide Rounds;
    if n == 0 {
    } else {
      HashGoesOn(a, b, k, n - 1);
      RoundsElsewhere(HashBlocks(a + b, k + n - 1), a, b, BLOCK * (n - 1), 80);
      assert BLOCK * (k + n - 1) == |a| + BLOCK * (n - 1);
    }
  }

  // ---- Hexadecimal output ----

  function HexDigit(n: nat): byte
    requires n < 16
  {
    if n < 10 then 48 + n else 87 + n
  }

  /** The lowest `k` hexadecimal digits of `n`. */
  function Hex(n: nat, k: nat): (s: Buffer)
    ensures |s| == k
  {
    if k == 0 then [] else Hex(n / 16, k - 1) + [HexDigit(n % 16)]
  }

  function Pow16(k: nat): nat {
    if k == 0 then 1 else 16 * Pow16(k - 1)
  }

  function HexOf(v: Vars): (s: Buffer)
    ensures |s| == 40
  {
    Hex(v.a as nat, 8) + Hex(v.b as nat, 8) + Hex(v.c as nat, 8) + Hex(v.d as nat, 8) + Hex(v.e as nat, 8)
  }

  // ---- Padding is what the standard asks of it ----

  /** With `k` zero bytes the padded length is a multiple of 64 bytes. */
  predicate Fills(len: nat, k: nat) { (len + 1 + k + 8) % BLOCK == 0 }

  lemma ZeroBytesByCase(len: nat)
    ensures ZeroBytes(len) == if len % 64 <= 55 then 55 - len % 64 else 119 - len % 64
  {
  }

  lemma ZeroBytesFill(len: nat)
    ensures Fills(len, ZeroBytes(len)) && ZeroBytes(len) <= 63
  {
    ZeroBytesByCase(len);
    var q, r := len / 64, len % 64;
    assert len + 9 + ZeroBytes(len) == if r <= 55 then 64 * (q + 1) else 64 * (q + 2);
  }

  lemma FillsNeedsZeroBytes(len: nat, k: nat)
    requires Fills(len, k)
    ensures k >= ZeroBytes(len)
  {
    hide ZeroBytes;
    ZeroBytesByCase(len);
    var q, r, p := len / 64, len % 64, (len + 9 + k) / 64;
    assert 64 * q + r + 9 + k == 64 * p;
  }

  /** At most 63 zero bytes, the least number that makes the padded length a multiple of 64 bytes. */
  lemma PaddingIsLeast(m: Buffer)
    requires |m| < MAX_LEN
    ensures ZeroBytes(|m|) <= 63 && |Pad(m)| == |m| + 9 + ZeroBytes(|m|) && |Pad(m)| % BLOCK == 0
    ensures forall k: nat :: Fills(|m|, k) ==> k >= ZeroBytes(|m|)
  {
    ZeroBytesFill(|m|);
    forall k: nat | Fills(|m|, k) ensures k >= ZeroBytes(|m|) {
      FillsNeedsZeroBytes(|m|, k);
    }
  }

  function Pow256(k: nat): nat {
    if k == 0 then 1 else 0x100 * Pow256(k - 1)
  }

  lemma {:induction false} BigEndianInjective(x: nat, y: nat, k: nat)
    requires x < Pow256(k) && y < Pow256(k) && BigEndian(x, k) == BigEndian(y, k)
    ensures x == y
  {
    if k == 0 {
    } else {
      var bx, by' := BigEndian(x, k), BigEndian(y, k);
      assert bx[..k - 1] == BigEndian(x / 0x100, k - 1) && by'[..k - 1] == BigEndian(y / 0x100, k - 1);
      assert bx[k - 1] == x % 0x100 && by'[k - 1] == y % 0x100;
      BigEndianInjective(x / 0x100, y / 0x100, k - 1);
    }
  }

  lemma LengthFits(n: nat)
    requires n < MAX_LEN
    ensures 8 * n < Pow256(8)
  {
    assert Pow256(2) == 0x1_0000 && Pow256(4) == 0x1_0000_0000 && Pow256(6) == 0x1_0000_0000_0000;
  }

  /** Different messages have different padded messages. */
  lemma PaddingIsInjective(m: Buffer, m': Buffer)
    requires |m| < MAX_LEN && |m'| < MAX_LEN && Pad(m) == Pad(m')
    ensures m == m'
  {
    var p, p' := Pad(m), Pad(m');
    assert p[|p| - 8..] == BigEndian(8 * |m|, 8) && p'[|p'| - 8..] == BigEndian(8 * |m'|, 8);
    LengthFits(|m|);
    LengthFits(|m'|);
    BigEndianInjective(8 * |m|, 8 * |m'|, 8);
    assert p[..|m|] == m && p'[..|m'|] == m';
  }

  // ---- The circular schedule of section 6.1.3 ----

  /** The 16 words kept after `n` of the 80 words are made, each in the place of the word 16 before it. */
  function Circular(m: Buffer, at: nat, n: nat): (c: seq<bv32>)
    requires at + BLOCK <= |m| && n >= 16
    ensures |c| == 16
  {
    if n == 16 then seq(16, j requires 0 <= j < 16 => Word(m, at, j))
    else
      var c := Circular(m, at, n - 1);
      var s := (n - 1) % 16;
      c[s := Mix(c[(s + 13) % 16], c[(s + 8) % 16], c[(s + 2) % 16], c[s])]
  }

  /** Where word `t` is kept. */
  function Slot(t: nat): (s: nat)
    ensures s < 16
  {
    t % 16
  }

  lemma SlotBack(t: nat, d: nat)
    requires d <= 16 <= t
    ensures Slot(t - d) == Slot(Slot(t) + 16 - d)
  {
    var q, r := t / 16, t % 16;
    if r >= d {
      assert t - d == 16 * q + (r - d) && Slot(t) + 16 - d == 16 + (r - d);
    } else {
      assert t - d == 16 * (q - 1) + (16 + r - d);
    }
  }

  /** After `n` words, each of the last 16 words is in its place. */
  ghost predicate Kept(c: seq<bv32>, m: Buffer, at: nat, n: nat)
    requires at + BLOCK <= |m|
  {
    |c| == 16 && forall t: nat :: n - 16 <= t < n ==> c[Slot(t)] == W(m, at, t)
  }

  lemma SlotTwice(n: nat)
    ensures Slot(Slot(n)) == Slot(n)
  {
  }

  lemma NewWord(m: Buffer, at: nat, n: nat, c: seq<bv32>)
    requires at + BLOCK <= |m| && n >= 16 && Kept(c, m, at, n)
    ensures var s := Slot(n); Mix(c[Slot(s + 13)], c[Slot(s + 8)], c[Slot(s + 2)], c[s]) == W(m, at, n)
  {
    hide Word, Mix, Slot;
    SlotBack(n, 3);
    SlotBack(n, 8);
    SlotBack(n, 14);
    SlotBack(n, 16);
    assert Slot(Slot(n) + 16 - 16) == Slot(n) by { SlotTwice(n); }
    assert c[Slot(n - 3)] == W(m, at, n - 3) && c[Slot(n - 8)] == W(m, at, n - 8);
    assert c[Slot(n - 14)] == W(m, at, n - 14) && c[Slot(n - 16)] == W(m, at, n - 16);
  }

  lemma SlotsDiffer(n: nat, t: nat)
    requires n - 16 < t < n
    ensures Slot(t) != Slot(n)
  {
  }

  lemma NextCircular(m: Buffer, at: nat, n: nat)
    requires at + BLOCK <= |m| && n >= 16
    ensures var c, s := Circular(m, at, n), Slot(n);
            Circular(m, at, n + 1) == c[s := Mix(c[Slot(s + 13)], c[Slot(s + 8)], c[Slot(s + 2)], c[s])]
  {
    hide Mix;
  }

  lemma MoreWords(m: Buffer, at: nat, n: nat)
    requires at + BLOCK <= |m| && n >= 16 && Kept(Circular(m, at, n), m, at, n)
    ensures Kept(Circular(m, at, n + 1), m, at, n + 1)
  {
    hide W, Mix, Slot;
    var c, s := Circular(m, at, n), Slot(n);
    var c' := Circular(m, at, n + 1);
    NewWord(m, at, n, c);
    assert c' == c[s := W(m, at, n)] by { NextCircular(m, at, n); }
    forall t: nat | n + 1 - 16 <= t < n + 1 ensures c'[Slot(t)] == W(m, at, t) {
      if t < n { SlotsDiffer(n, t); }
    }
  }

  lemma FirstWords(m: Buffer, at: nat)
    requires at + BLOCK <= |m|
    ensures Kept(Circular(m, at, 16), m, at, 16)
  {
    hide Word;
  }

  /** The 80-word schedule and the 16-word circular form make the same words. */
  lemma {:induction false} CircularAgrees(m: Buffer, at: nat, n: nat)
    requires at + BLOCK <= |m| && n >= 16
    ensures Kept(Circular(m, at, n), m, at, n)
  {
    hide Kept, Circular, W, Mix, Word;
    if n == 16 {
      FirstWords(m, at);
    } else {
      CircularAgrees(m, at, n - 1);
      MoreWords(m, at, n - 1);
    }
  }
}
