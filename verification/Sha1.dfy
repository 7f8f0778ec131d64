/** The client's own SHA-1 (parsing/Sha1.h), proved to compute what FIPS 180-4 defines. */
module Sha1 {
  import opened Bytes
  import opened Fips180

  function LeftRotate(x: bv32, c: nat): bv32
    requires 0 < c < 32
  {
    (x << c) | (x >> (32 - c))
  }

  lemma RotationsAgree(x: bv32)
    ensures LeftRotate(x, 1) == Rotl(x, 1)
    ensures LeftRotate(x, 5) == Rotl(x, 5)
    ensures LeftRotate(x, 30) == Rotl(x, 30)
  {
  }

  /** The logical function of round `j`, written with "or" where the standard has "exclusive or". */
  function Select(j: nat, b: bv32, c: bv32, d: bv32): bv32 {
    if j < 20 then (b & c) | (!b & d)
    else if j < 40 then b ^ c ^ d
    else if j < 60 then (b & c) | (b & d) | (c & d)
    else b ^ c ^ d
  }

  lemma ChooseByOr(b: bv32, c: bv32, d: bv32)
    ensures (b & c) | (!b & d) == Ch(b, c, d)
  {
  }

  lemma MajorityByOr(b: bv32, c: bv32, d: bv32)
    ensures (b & c) | (b & d) | (c & d) == Maj(b, c, d)
  {
  }

  lemma SelectIsF(j: nat, b: bv32, c: bv32, d: bv32)
    ensures Select(j, b, c, d) == F(j, b, c, d)
  {
    ChooseByOr(b, c, d);
    MajorityByOr(b, c, d);
    hide Ch, Maj;
  }

  // ---- Padding ----

  lemma BitsAndBytes(n: nat)
    ensures (n * 8) % 512 == 448 <==> n % 64 == 56
  {
    var q, r := n / 64, n % 64;
    assert n * 8 == 512 * q + 8 * r;
  }

  /** 256 to the power 7 - i */
  function Scale(i: nat): (n: nat)
    requires i < 8
    ensures n > 0
  {
    match i
    case 0 => 0x100_0000_0000_0000
    case 1 => 0x1_0000_0000_0000
    case 2 => 0x100_0000_0000
    case 3 => 0x1_0000_0000
    case 4 => 0x100_0000
    case 5 => 0x1_0000
    case 6 => 0x100
    case 7 => 1
  }

  /** `n` divided by 256, `k` times. */
  function Shifted(n: nat, k: nat): nat {
    if k == 0 then n else Shifted(n / 0x100, k - 1)
  }

  lemma {:induction false} ByteOfShifted(v: nat, k: nat, i: nat)
    requires i < k
    ensures BigEndian(v, k)[i] == Shifted(v, k - 1 - i) % 0x100
  {
    if i == k - 1 {
    } else {
      ByteOfShifted(v / 0x100, k - 1, i);
    }
  }

  lemma ShiftOnce(v: nat)
    ensures v / 0x100 / 0x100 == v / 0x1_0000 && v / 0x1_0000 / 0x100 == v / 0x100_0000
    ensures v / 0x100_0000 / 0x100 == v / 0x1_0000_0000 && v / 0x1_0000_0000 / 0x100 == v / 0x100_0000_0000
    ensures v / 0x100_0000_0000 / 0x100 == v / 0x1_0000_0000_0000
    ensures v / 0x1_0000_0000_0000 / 0x100 == v / 0x100_0000_0000_0000
  {
  }

  lemma {:induction false} ShiftedMore(v: nat, k: nat)
    ensures Shifted(v, k + 1) == Shifted(v, k) / 0x100
  {
    if k == 0 {
    } else {
      ShiftedMore(v / 0x100, k - 1);
    }
  }

  lemma ShiftedIsScaled(v: nat, i: nat)
    requires i < 8
    ensures Shifted(v, 7 - i) == v / Scale(i)
  {
    ShiftOnce(v);
    assert Shifted(v, 1) == v / 0x100;
    assert Shifted(v, 2) == Shifted(v / 0x100, 1) == v / 0x1_0000;
    ShiftedMore(v, 2);
    ShiftedMore(v, 3);
    ShiftedMore(v, 4);
    ShiftedMore(v, 5);
    ShiftedMore(v, 6);
  }

  /** The shifts and masks that append the length give the eight bytes of a big-endian 64-bit number. */
  lemma LengthByte(v: nat, i: nat)
    requires i < 8
    ensures v / Scale(i) % 0x100 == BigEndian(v, 8)[i]
  {
    ByteOfShifted(v, 8, i);
    ShiftedIsScaled(v, i);
  }

  method AppendLength(body: Buffer, ml: nat) returns (m: Buffer)
    ensures m == body + BigEndian(ml, 8)
  {
    hide BigEndian, Scale;
    m := body;
    var i := 0;
    while i < 8
      invariant 0 <= i <= 8 && m == body + BigEndian(ml, 8)[..i]
    {
      LengthByte(ml, i);
      m := m + [ml / Scale(i) % 0x100];
      assert BigEndian(ml, 8)[..i + 1] == BigEndian(ml, 8)[..i] + [BigEndian(ml, 8)[i]];
      i := i + 1;
    }
    assert BigEndian(ml, 8)[..8] == BigEndian(ml, 8);
  }

  method AppendZeros(marked: Buffer, ghost len: nat) returns (m: Buffer)
    requires |marked| == len + 1
    ensures m == marked + Zeros(ZeroBytes(len))
  {
    hide ZeroBytes;
    m := marked;
    ghost var k := 0;
    ZeroBytesFill(len);
    while |m| * 8 % 512 != 448
      invariant m == marked + Zeros(k) && k <= ZeroBytes(len)
      decreases ZeroBytes(len) - k
    {
      BitsAndBytes(|m|);
      assert k != ZeroBytes(len);
      assert Zeros(k + 1) == Zeros(k) + [0];
      m := m + [0];
      k := k + 1;
    }
    BitsAndBytes(|m|);
    FillsNeedsZeroBytes(len, k);
  }

  method PadMessage(data: Buffer) returns (m: Buffer)
    ensures |m| % BLOCK == 0
    ensures |data| < MAX_LEN ==> m == Pad(data)
  {
    hide BigEndian, ZeroBytes;
    var ml := |data| * 8 % (U32 * U32);
    m := data + [0x80];
    m := AppendZeros(m, |data|);
    ZeroBytesFill(|data|);
    m := AppendLength(m, ml);
  }

  // ---- One block ----

  function MixWords(w3: bv32, w8: bv32, w14: bv32, w16: bv32): (r: bv32)
    ensures r == Mix(w3, w8, w14, w16)
  {
    RotationsAgree(w3 ^ w8 ^ w14 ^ w16);
    LeftRotate(w3 ^ w8 ^ w14 ^ w16, 1)
  }

  function WordAt(m: Buffer, i: nat, j: nat): (r: bv32)
    requires i + 4 * j + 4 <= |m|
    ensures r == Word(m, i, j)
  {
    (m[i + j * 4] as bv32 << 24) | (m[i + j * 4 + 1] as bv32 << 16) | (m[i + j * 4 + 2] as bv32 << 8)
    | (m[i + j * 4 + 3] as bv32)
  }

  method Schedule(m: Buffer, i: nat) returns (w: array<bv32>)
    requires i + BLOCK <= |m|
    ensures fresh(w) && w.Length == 80 && forall t :: 0 <= t < 80 ==> w[t] == W(m, i, t)
  {
    hide Mix, Word;
    w := new bv32[80];
    var j := 0;
    while j < 16
      invariant 0 <= j <= 16 && forall t :: 0 <= t < j ==> w[t] == W(m, i, t)
    {
      w[j] := WordAt(m, i, j);
      j := j + 1;
    }
    while j < 80
      invariant 16 <= j <= 80 && forall t :: 0 <= t < j ==> w[t] == W(m, i, t)
    {
      w[j] := MixWords(w[j - 3], w[j - 8], w[j - 14], w[j - 16]);
      j := j + 1;
    }
  }

  /** The five working variables after one round, updated as the loop body does. */
  method OneRound(v: Vars, j: nat, wj: bv32) returns (r: Vars)
    requires j < 80
    ensures r == Round(v, j, wj)
  {
    hide F, K, LeftRotate, Rotl, Select, Sum;
    var a, b, c, d, e := v.a, v.b, v.c, v.d, v.e;
    var f := Select(j, b, c, d);
    SelectIsF(j, b, c, d);
    var k := K(j);
    RotationsAgree(a);
    RotationsAgree(b);
    var temp := Sum(LeftRotate(a, 5), f, e, k, wj);
    e := d;
    d := c;
    c := LeftRotate(b, 30);
    b := a;
    a := temp;
    r := Vars(a, b, c, d, e);
  }

  method CompressBlock(h: Vars, m: Buffer, i: nat) returns (r: Vars)
    requires i + BLOCK <= |m|
    ensures r == Compress(h, m, i)
  {
    hide Round, W;
    var w := Schedule(m, i);
    var v := h;
    var j := 0;
    while j < 80
      invariant 0 <= j <= 80 && v == Rounds(h, m, i, j)
      invariant forall t :: 0 <= t < 80 ==> w[t] == W(m, i, t)
    {
      v := OneRound(v, j, w[j]);
      assert Rounds(h, m, i, j + 1) == Round(Rounds(h, m, i, j), j, W(m, i, j));
      j := j + 1;
    }
    r := Add(h, v);
  }

  // ---- Output ----

  /** What std::hex prints. */
  function HexText(n: nat): (s: Buffer)
    ensures s != []
  {
    if n < 16 then [HexDigit(n)] else HexText(n / 16) + [HexDigit(n % 16)]
  }

  function Fill(k: nat): (s: Buffer)
    ensures |s| == k
  {
    if k == 0 then [] else Fill(k - 1) + [48]
  }

  /** std::setw with fill '0'. */
  function SetWidth(s: Buffer, width: nat): Buffer {
    if |s| < width then Fill(width - |s|) + s else s
  }

  lemma {:induction false} FillIsHexZero(k: nat)
    ensures Hex(0, k) == Fill(k)
  {
    if k == 0 {
    } else {
      FillIsHexZero(k - 1);
    }
  }

  /** Padding the printed digits to the width gives exactly that many digits. */
  lemma {:induction false} SetWidthIsHex(n: nat, k: nat)
    requires n < Pow16(k) && k > 0
    ensures |HexText(n)| <= k && SetWidth(HexText(n), k) == Hex(n, k)
  {
    assert Pow16(1) == 16;
    if n < 16 {
      FillIsHexZero(k - 1);
      assert Hex(n, k) == Fill(k - 1) + [HexDigit(n)];
      assert [] + [HexDigit(n)] == [HexDigit(n)];
    } else {
      SetWidthIsHex(n / 16, k - 1);
      var t := HexText(n / 16);
      assert Fill(k - 1 - |t|) + t + [HexDigit(n % 16)] == Fill(k - 1 - |t|) + (t + [HexDigit(n % 16)]);
      assert Fill(0) + t == t;
    }
  }

  /** One word of the output. */
  function Print(h: bv32): (s: Buffer)
    ensures s == Hex(h as nat, 8)
  {
    assert Pow16(8) == 0x1_0000_0000 by {
      assert Pow16(2) == 0x100 && Pow16(4) == 0x1_0000 && Pow16(6) == 0x100_0000;
    }
    SetWidthIsHex(h as nat, 8);
    SetWidth(HexText(h as nat), 8)
  }

  lemma NextBlock(i: nat, len: nat)
    requires i % BLOCK == 0 && len % BLOCK == 0 && i < len
    ensures i + BLOCK <= len && (i + BLOCK) / BLOCK == i / BLOCK + 1
    ensures (i + BLOCK) % BLOCK == 0 && BLOCK * (i / BLOCK) == i
  {
  }

  method PrintAll(h: Vars) returns (s: Buffer)
    ensures s == HexOf(h)
  {
    hide Hex;
    s := Print(h.a);
    s := s + Print(h.b);
    s := s + Print(h.c);
    s := s + Print(h.d);
    s := s + Print(h.e);
  }

  /** For every message shorter than 2^61 bytes: the 40-digit hexadecimal text of its FIPS 180-4 digest. */
  method Calculate(data: Buffer) returns (s: Buffer)
    ensures |s| == 40
    ensures |data| < MAX_LEN ==> s == HexOf(Digest(data))
  {
    hide Compress, Hex, Pad;
    var m := PadMessage(data);
    var h := INITIAL;
    var i := 0;
    while i < |m|
      invariant 0 <= i <= |m| && i % BLOCK == 0 && h == HashBlocks(m, i / BLOCK)
      decreases |m| - i
    {
      NextBlock(i, |m|);
      h := CompressBlock(h, m, i);
      assert h == HashBlocks(m, i / BLOCK + 1);
      i := i + 64;
    }
    s := PrintAll(h);
  }
}
