/** The published example of a one-block message: the digest of the three bytes "abc", computed stage by stage. */
module FipsExample {
  import opened Bytes
  import opened Fips180

  const ABC: Buffer := [97, 98, 99]

  /** The message with its mark, 52 zero bytes and its length of 24 bits. */
  function Block1(): (m: Buffer)
    ensures |m| == 64
  {
    ABC + [0x80] + Zeros(52) + [0, 0, 0, 0, 0, 0, 0, 24]
  }

  lemma {:induction false} BigEndianZero(k: nat)
    ensures BigEndian(0, k) == Zeros(k)
  {
    if k == 0 {
    } else {
      BigEndianZero(k - 1);
    }
  }

  lemma AbcIsPadded()
    ensures Pad(ABC) == Block1()
  {
    hide BigEndian;
    LengthBytes(24);
    assert ZeroBytes(3) == 52;
  }

  lemma LengthBytes(n: nat)
    requires n < 0x100
    ensures BigEndian(n, 8) == [0, 0, 0, 0, 0, 0, 0, n]
  {
    BigEndianZero(7);
    assert BigEndian(n, 8) == BigEndian(0, 7) + [n];
  }

  // ---- Sixteen words and sixteen rounds at a time ----

  datatype Sixteen = Sixteen(
    w0: bv32, w1: bv32, w2: bv32, w3: bv32, w4: bv32, w5: bv32, w6: bv32, w7: bv32, w8: bv32, w9: bv32, w10: bv32,
    w11: bv32, w12: bv32, w13: bv32, w14: bv32, w15: bv32)

  /** These are the words of the schedule from `n` on. */
  predicate Scheduled(m: Buffer, n: nat, x: Sixteen)
    requires BLOCK <= |m|
  {
    && W(m, 0, n + 0) == x.w0 && W(m, 0, n + 1) == x.w1 && W(m, 0, n + 2) == x.w2 && W(m, 0, n + 3) == x.w3
    && W(m, 0, n + 4) == x.w4 && W(m, 0, n + 5) == x.w5 && W(m, 0, n + 6) == x.w6 && W(m, 0, n + 7) == x.w7
    && W(m, 0, n + 8) == x.w8 && W(m, 0, n + 9) == x.w9 && W(m, 0, n + 10) == x.w10 && W(m, 0, n + 11) == x.w11
    && W(m, 0, n + 12) == x.w12 && W(m, 0, n + 13) == x.w13 && W(m, 0, n + 14) == x.w14 && W(m, 0, n + 15) == x.w15
  }

  /** `y` are the sixteen words after the sixteen words `x`. */
  predicate Continues(x: Sixteen, y: Sixteen) {
    && y.w0 == Mix(x.w13, x.w8, x.w2, x.w0)
    && y.w1 == Mix(x.w14, x.w9, x.w3, x.w1)
    && y.w2 == Mix(x.w15, x.w10, x.w4, x.w2)
    && y.w3 == Mix(y.w0, x.w11, x.w5, x.w3)
    && y.w4 == Mix(y.w1, x.w12, x.w6, x.w4)
    && y.w5 == Mix(y.w2, x.w13, x.w7, x.w5)
    && y.w6 == Mix(y.w3, x.w14, x.w8, x.w6)
    && y.w7 == Mix(y.w4, x.w15, x.w9, x.w7)
    && y.w8 == Mix(y.w5, y.w0, x.w10, x.w8)
    && y.w9 == Mix(y.w6, y.w1, x.w11, x.w9)
    && y.w10 == Mix(y.w7, y.w2, x.w12, x.w10)
    && y.w11 == Mix(y.w8, y.w3, x.w13, x.w11)
    && y.w12 == Mix(y.w9, y.w4, x.w14, x.w12)
    && y.w13 == Mix(y.w10, y.w5, x.w15, x.w13)
    && y.w14 == Mix(y.w11, y.w6, y.w0, x.w14)
    && y.w15 == Mix(y.w12, y.w7, y.w1, x.w15)
  }

  lemma NextWord(m: Buffer, t: nat, w3: bv32, w8: bv32, w14: bv32, w16: bv32)
    requires BLOCK <= |m| && t >= 16
    requires W(m, 0, t - 3) == w3 && W(m, 0, t - 8) == w8 && W(m, 0, t - 14) == w14 && W(m, 0, t - 16) == w16
    ensures W(m, 0, t) == Mix(w3, w8, w14, w16)
  {
  }

  /** The first eight words of `y` are in place. */
  predicate HalfScheduled(m: Buffer, n: nat, y: Sixteen)
    requires BLOCK <= |m|
  {
    && W(m, 0, n) == y.w0 && W(m, 0, n + 1) == y.w1 && W(m, 0, n + 2) == y.w2 && W(m, 0, n + 3) == y.w3
    && W(m, 0, n + 4) == y.w4 && W(m, 0, n + 5) == y.w5 && W(m, 0, n + 6) == y.w6 && W(m, 0, n + 7) == y.w7
  }

  lemma FirstHalf(m: Buffer, n: nat, x: Sixteen, y: Sixteen)
    requires BLOCK <= |m| && Scheduled(m, n, x) && Continues(x, y)
    ensures HalfScheduled(m, n + 16, y)
  {
    hide W, Mix;
    NextWord(m, n + 16, x.w13, x.w8, x.w2, x.w0);
    NextWord(m, n + 17, x.w14, x.w9, x.w3, x.w1);
    NextWord(m, n + 18, x.w15, x.w10, x.w4, x.w2);
    NextWord(m, n + 19, y.w0, x.w11, x.w5, x.w3);
    NextWord(m, n + 20, y.w1, x.w12, x.w6, x.w4);
    NextWord(m, n + 21, y.w2, x.w13, x.w7, x.w5);
    NextWord(m, n + 22, y.w3, x.w14, x.w8, x.w6);
    NextWord(m, n + 23, y.w4, x.w15, x.w9, x.w7);
  }

  lemma NextScheduled(m: Buffer, n: nat, x: Sixteen, y: Sixteen)
    requires BLOCK <= |m| && Scheduled(m, n, x) && Continues(x, y)
    ensures Scheduled(m, n + 16, y)
  {
    hide W, Mix;
    FirstHalf(m, n, x, y);
    NextWord(m, n + 24, y.w5, y.w0, x.w10, x.w8);
    NextWord(m, n + 25, y.w6, y.w1, x.w11, x.w9);
    NextWord(m, n + 26, y.w7, y.w2, x.w12, x.w10);
    NextWord(m, n + 27, y.w8, y.w3, x.w13, x.w11);
    NextWord(m, n + 28, y.w9, y.w4, x.w14, x.w12);
    NextWord(m, n + 29, y.w10, y.w5, x.w15, x.w13);
    NextWord(m, n + 30, y.w11, y.w6, y.w0, x.w14);
    NextWord(m, n + 31, y.w12, y.w7, y.w1, x.w15);
  }

  function FourRounds(v: Vars, t: nat, a: bv32, b: bv32, c: bv32, d: bv32): Vars {
    Round(Round(Round(Round(v, t, a), t + 1, b), t + 2, c), t + 3, d)
  }

  function SixteenRounds(v: Vars, t: nat, x: Sixteen): Vars {
    var v4 := FourRounds(v, t, x.w0, x.w1, x.w2, x.w3);
    var v8 := FourRounds(v4, t + 4, x.w4, x.w5, x.w6, x.w7);
    var v12 := FourRounds(v8, t + 8, x.w8, x.w9, x.w10, x.w11);
    FourRounds(v12, t + 12, x.w12, x.w13, x.w14, x.w15)
  }

  lemma FourMore(h: Vars, m: Buffer, n: nat)
    requires BLOCK <= |m|
    ensures Rounds(h, m, 0, n + 4) ==
            FourRounds(Rounds(h, m, 0, n), n, W(m, 0, n), W(m, 0, n + 1), W(m, 0, n + 2), W(m, 0, n + 3))
  {
    hide W, Round;
    assert Rounds(h, m, 0, n + 2) == Round(Rounds(h, m, 0, n + 1), n + 1, W(m, 0, n + 1));
    assert Rounds(h, m, 0, n + 3) == Round(Rounds(h, m, 0, n + 2), n + 2, W(m, 0, n + 2));
  }

  lemma SixteenMore(h: Vars, m: Buffer, n: nat, x: Sixteen)
    requires BLOCK <= |m| && Scheduled(m, n, x)
    ensures Rounds(h, m, 0, n + 16) == SixteenRounds(Rounds(h, m, 0, n), n, x)
  {
    hide W, FourRounds, Rounds;
    FourMore(h, m, n);
    FourMore(h, m, n + 4);
    FourMore(h, m, n + 8);
    FourMore(h, m, n + 12);
  }

  // ---- One round in each quarter ----

  lemma Quarter1(v: Vars, t: nat, w: bv32) returns (r: Vars)
    requires 0 <= t < 20
    ensures r == Round(v, t, w)
    ensures r == Vars(Sum(Rotl(v.a, 5), Ch(v.b, v.c, v.d), v.e, 0x5A827999, w), v.a, Rotl(v.b, 30), v.c, v.d)
  {
    hide Rotl, Ch, Parity, Maj, Sum;
    r := Round(v, t, w);
  }

  lemma Quarter2(v: Vars, t: nat, w: bv32) returns (r: Vars)
    requires 20 <= t < 40
    ensures r == Round(v, t, w)
    ensures r == Vars(Sum(Rotl(v.a, 5), Parity(v.b, v.c, v.d), v.e, 0x6ED9EBA1, w), v.a, Rotl(v.b, 30), v.c, v.d)
  {
    hide Rotl, Ch, Parity, Maj, Sum;
    r := Round(v, t, w);
  }

  lemma Quarter3(v: Vars, t: nat, w: bv32) returns (r: Vars)
    requires 40 <= t < 60
    ensures r == Round(v, t, w)
    ensures r == Vars(Sum(Rotl(v.a, 5), Maj(v.b, v.c, v.d), v.e, 0x8F1BBCDC, w), v.a, Rotl(v.b, 30), v.c, v.d)
  {
    hide Rotl, Ch, Parity, Maj, Sum;
    r := Round(v, t, w);
  }

  lemma Quarter4(v: Vars, t: nat, w: bv32) returns (r: Vars)
    requires 60 <= t < 80
    ensures r == Round(v, t, w)
    ensures r == Vars(Sum(Rotl(v.a, 5), Parity(v.b, v.c, v.d), v.e, 0xCA62C1D6, w), v.a, Rotl(v.b, 30), v.c, v.d)
  {
    hide Rotl, Ch, Parity, Maj, Sum;
    r := Round(v, t, w);
  }

  // ---- The numbers ----

  const WORDS0 := Sixteen(0x61626380, 0x00000000, 0x00000000, 0x00000000, 0x00000000, 0x00000000, 0x00000000,
    0x00000000, 0x00000000, 0x00000000, 0x00000000, 0x00000000, 0x00000000, 0x00000000, 0x00000000, 0x00000018)
  const WORDS1 := Sixteen(0xC2C4C700, 0x00000000, 0x00000030, 0x85898E01, 0x00000000, 0x00000060, 0x0B131C03,
    0x00000030, 0x85898EC1, 0x16263806, 0x00000000, 0x00000180, 0x2C4C700C, 0x000000F0, 0x93AFB507, 0x5898E048)
  const WORDS2 := Sixteen(0x8E9A9202, 0x00000600, 0xB131C0F0, 0x16263BC6, 0x4EBED41E, 0x626380A1, 0x16263806,
    0x000018C0, 0xD2E138C4, 0x00000F00, 0x3AFB5079, 0x898E04E5, 0xE2BA3C2B, 0x000060C0, 0x053A37CD, 0x74458547)
  const WORDS3 := Sixteen(0xDA9415ED, 0x26380A16, 0x626383A1, 0x4EBF54DE, 0x3835B44B, 0x0000F600, 0x1E84C7A3,
    0x98E04D98, 0x651D16A0, 0x62658CA1, 0x458544D6, 0x44584CB7, 0x7BA06619, 0x6380AEA2, 0x0AE55269, 0x627B49A1)
  const WORDS4 := Sixteen(0x7CD45C9D, 0x000F0000, 0xFB50753A, 0xEC6765E8, 0xBA3C2BE2, 0x0060C000, 0x3A37CD05,
    0x458546F4, 0xB8599DD6, 0x380A1A26, 0x01E02203, 0xE7CC3456, 0xE6E60B69, 0x00F60A00, 0x5795EF4F, 0x822E0879)

  const AFTER16 := Vars(0x20BDD62F, 0x196BEE77, 0x644A3DA5, 0x1181ED99, 0x18C623F9)
  const AFTER32 := Vars(0x3B845D33, 0x1267B407, 0x717EEBD7, 0xA0DC2D4B, 0xD2AA1365)
  const AFTER48 := Vars(0xBEAD02CA, 0xA01B846C, 0x8714787C, 0x503CA382, 0xFB86C6AB)
  const AFTER64 := Vars(0x6B61C9E1, 0xB66C020B, 0x9523272C, 0xF5D5B051, 0x8FD4B796)
  const AFTER80 := Vars(0x42541B35, 0x5738D5E1, 0x21834873, 0x681E6DF6, 0xD8FDF6AD)

  lemma WordIs(m: Buffer, j: nat, a: bv32, b: bv32, c: bv32, d: bv32)
    requires BLOCK <= |m| && j < 16
    requires m[4 * j] as bv32 == a && m[4 * j + 1] as bv32 == b
    requires m[4 * j + 2] as bv32 == c && m[4 * j + 3] as bv32 == d
    ensures W(m, 0, j) == (a << 24) | (b << 16) | (c << 8) | d
  {
  }

  lemma FirstWord(m: Buffer)
    requires m == Block1()
    ensures W(m, 0, 0) == 0x61626380
  {
    assert m[0] == 97 && m[1] == 98 && m[2] == 99 && m[3] == 128;
    hide W, Word, Block1;
    WordIs(m, 0, 97, 98, 99, 128);
  }

  lemma LastWord(m: Buffer)
    requires m == Block1()
    ensures W(m, 0, 15) == 24
  {
    assert m[60] == 0 && m[61] == 0 && m[62] == 0 && m[63] == 24;
    hide W, Word, Block1;
    WordIs(m, 15, 0, 0, 0, 24);
  }

  lemma ZeroWord(m: Buffer, j: nat)
    requires m == Block1() && 1 <= j < 15
    ensures W(m, 0, j) == 0
  {
    assert m[4 * j] == 0 && m[4 * j + 1] == 0 && m[4 * j + 2] == 0 && m[4 * j + 3] == 0;
    hide W, Word, Block1;
    WordIs(m, j, 0, 0, 0, 0);
  }

  lemma FirstWords(m: Buffer)
    requires m == Block1()
    ensures Scheduled(m, 0, WORDS0)
  {
    hide W, Block1;
    FirstWord(m);
    LastWord(m);
    forall j | 1 <= j < 15 ensures W(m, 0, j) == 0 {
      ZeroWord(m, j);
    }
  }

  lemma Words1()
    ensures Continues(WORDS0, WORDS1)
  {
  }

  lemma Words2()
    ensures Continues(WORDS1, WORDS2)
  {
    assert Mix(0x000000F0, 0x85898EC1, 0x00000030, 0xC2C4C700) == 0x8E9A9202;
    assert Mix(0x93AFB507, 0x16263806, 0x85898E01, 0x00000000) == 0x00000600;
    assert Mix(0x5898E048, 0x00000000, 0x00000000, 0x00000030) == 0xB131C0F0;
    assert Mix(0x8E9A9202, 0x00000180, 0x00000060, 0x85898E01) == 0x16263BC6;
    assert Mix(0x00000600, 0x2C4C700C, 0x0B131C03, 0x00000000) == 0x4EBED41E;
    assert Mix(0xB131C0F0, 0x000000F0, 0x00000030, 0x00000060) == 0x626380A1;
    assert Mix(0x16263BC6, 0x93AFB507, 0x85898EC1, 0x0B131C03) == 0x16263806;
    assert Mix(0x4EBED41E, 0x5898E048, 0x16263806, 0x00000030) == 0x000018C0;
    assert Mix(0x626380A1, 0x8E9A9202, 0x00000000, 0x85898EC1) == 0xD2E138C4;
    assert Mix(0x16263806, 0x00000600, 0x00000180, 0x16263806) == 0x00000F00;
    assert Mix(0x000018C0, 0xB131C0F0, 0x2C4C700C, 0x00000000) == 0x3AFB5079;
    assert Mix(0xD2E138C4, 0x16263BC6, 0x000000F0, 0x00000180) == 0x898E04E5;
    assert Mix(0x00000F00, 0x4EBED41E, 0x93AFB507, 0x2C4C700C) == 0xE2BA3C2B;
    assert Mix(0x3AFB5079, 0x626380A1, 0x5898E048, 0x000000F0) == 0x000060C0;
    assert Mix(0x898E04E5, 0x16263806, 0x8E9A9202, 0x93AFB507) == 0x053A37CD;
    assert Mix(0xE2BA3C2B, 0x000018C0, 0x00000600, 0x5898E048) == 0x74458547;
  }

  lemma Words3()
    ensures Continues(WORDS2, WORDS3)
  {
    assert Mix(0x000060C0, 0xD2E138C4, 0xB131C0F0, 0x8E9A9202) == 0xDA9415ED;
    assert Mix(0x053A37CD, 0x00000F00, 0x16263BC6, 0x00000600) == 0x26380A16;
    assert Mix(0x74458547, 0x3AFB5079, 0x4EBED41E, 0xB131C0F0) == 0x626383A1;
    assert Mix(0xDA9415ED, 0x898E04E5, 0x626380A1, 0x16263BC6) == 0x4EBF54DE;
    assert Mix(0x26380A16, 0xE2BA3C2B, 0x16263806, 0x4EBED41E) == 0x3835B44B;
    assert Mix(0x626383A1, 0x000060C0, 0x000018C0, 0x626380A1) == 0x0000F600;
    assert Mix(0x4EBF54DE, 0x053A37CD, 0xD2E138C4, 0x16263806) == 0x1E84C7A3;
    assert Mix(0x3835B44B, 0x74458547, 0x00000F00, 0x000018C0) == 0x98E04D98;
    assert Mix(0x0000F600, 0xDA9415ED, 0x3AFB5079, 0xD2E138C4) == 0x651D16A0;
    assert Mix(0x1E84C7A3, 0x26380A16, 0x898E04E5, 0x00000F00) == 0x62658CA1;
    assert Mix(0x98E04D98, 0x626383A1, 0xE2BA3C2B, 0x3AFB5079) == 0x458544D6;
    assert Mix(0x651D16A0, 0x4EBF54DE, 0x000060C0, 0x898E04E5) == 0x44584CB7;
    assert Mix(0x62658CA1, 0x3835B44B, 0x053A37CD, 0xE2BA3C2B) == 0x7BA06619;
    assert Mix(0x458544D6, 0x0000F600, 0x74458547, 0x000060C0) == 0x6380AEA2;
    assert Mix(0x44584CB7, 0x1E84C7A3, 0xDA9415ED, 0x053A37CD) == 0x0AE55269;
    assert Mix(0x7BA06619, 0x98E04D98, 0x26380A16, 0x74458547) == 0x627B49A1;
  }

  lemma Words4()
    ensures Continues(WORDS3, WORDS4)
  {
    assert Mix(0x6380AEA2, 0x651D16A0, 0x626383A1, 0xDA9415ED) == 0x7CD45C9D;
    assert Mix(0x0AE55269, 0x62658CA1, 0x4EBF54DE, 0x26380A16) == 0x000F0000;
    assert Mix(0x627B49A1, 0x458544D6, 0x3835B44B, 0x626383A1) == 0xFB50753A;
    assert Mix(0x7CD45C9D, 0x44584CB7, 0x0000F600, 0x4EBF54DE) == 0xEC6765E8;
    assert Mix(0x000F0000, 0x7BA06619, 0x1E84C7A3, 0x3835B44B) == 0xBA3C2BE2;
    assert Mix(0xFB50753A, 0x6380AEA2, 0x98E04D98, 0x0000F600) == 0x0060C000;
    assert Mix(0xEC6765E8, 0x0AE55269, 0x651D16A0, 0x1E84C7A3) == 0x3A37CD05;
    assert Mix(0xBA3C2BE2, 0x627B49A1, 0x62658CA1, 0x98E04D98) == 0x458546F4;
    assert Mix(0x0060C000, 0x7CD45C9D, 0x458544D6, 0x651D16A0) == 0xB8599DD6;
    assert Mix(0x3A37CD05, 0x000F0000, 0x44584CB7, 0x62658CA1) == 0x380A1A26;
    assert Mix(0x458546F4, 0xFB50753A, 0x7BA06619, 0x458544D6) == 0x01E02203;
    assert Mix(0xB8599DD6, 0xEC6765E8, 0x6380AEA2, 0x44584CB7) == 0xE7CC3456;
    assert Mix(0x380A1A26, 0xBA3C2BE2, 0x0AE55269, 0x7BA06619) == 0xE6E60B69;
    assert Mix(0x01E02203, 0x0060C000, 0x627B49A1, 0x6380AEA2) == 0x00F60A00;
    assert Mix(0xE7CC3456, 0x3A37CD05, 0x7CD45C9D, 0x0AE55269) == 0x5795EF4F;
    assert Mix(0xE6E60B69, 0x458546F4, 0x000F0000, 0x627B49A1) == 0x822E0879;
  }

  lemma Stage1()
    ensures SixteenRounds(INITIAL, 0, WORDS0) == AFTER16
  {
    hide Round;
    var v := INITIAL;
    v := Quarter1(v, 0, 0x61626380); assert v == Vars(0x0116FC33, 0x67452301, 0x7BF36AE2, 0x98BADCFE, 0x10325476);
    v := Quarter1(v, 1, 0x00000000); assert v == Vars(0x8990536D, 0x0116FC33, 0x59D148C0, 0x7BF36AE2, 0x98BADCFE);
    v := Quarter1(v, 2, 0x00000000); assert v == Vars(0xA1390F08, 0x8990536D, 0xC045BF0C, 0x59D148C0, 0x7BF36AE2);
    v := Quarter1(v, 3, 0x00000000); assert v == Vars(0xCDD8E11B, 0xA1390F08, 0x626414DB, 0xC045BF0C, 0x59D148C0);
    v := Quarter1(v, 4, 0x00000000); assert v == Vars(0xCFD499DE, 0xCDD8E11B, 0x284E43C2, 0x626414DB, 0xC045BF0C);
    v := Quarter1(v, 5, 0x00000000); assert v == Vars(0x3FC7CA40, 0xCFD499DE, 0xF3763846, 0x284E43C2, 0x626414DB);
    v := Quarter1(v, 6, 0x00000000); assert v == Vars(0x993E30C1, 0x3FC7CA40, 0xB3F52677, 0xF3763846, 0x284E43C2);
    v := Quarter1(v, 7, 0x00000000); assert v == Vars(0x9E8C07D4, 0x993E30C1, 0x0FF1F290, 0xB3F52677, 0xF3763846);
    v := Quarter1(v, 8, 0x00000000); assert v == Vars(0x4B6AE328, 0x9E8C07D4, 0x664F8C30, 0x0FF1F290, 0xB3F52677);
    v := Quarter1(v, 9, 0x00000000); assert v == Vars(0x8351F929, 0x4B6AE328, 0x27A301F5, 0x664F8C30, 0x0FF1F290);
    v := Quarter1(v, 10, 0x00000000); assert v == Vars(0xFBDA9E89, 0x8351F929, 0x12DAB8CA, 0x27A301F5, 0x664F8C30);
    v := Quarter1(v, 11, 0x00000000); assert v == Vars(0x63188FE4, 0xFBDA9E89, 0x60D47E4A, 0x12DAB8CA, 0x27A301F5);
    v := Quarter1(v, 12, 0x00000000); assert v == Vars(0x4607B664, 0x63188FE4, 0x7EF6A7A2, 0x60D47E4A, 0x12DAB8CA);
    v := Quarter1(v, 13, 0x00000000); assert v == Vars(0x9128F695, 0x4607B664, 0x18C623F9, 0x7EF6A7A2, 0x60D47E4A);
    v := Quarter1(v, 14, 0x00000000); assert v == Vars(0x196BEE77, 0x9128F695, 0x1181ED99, 0x18C623F9, 0x7EF6A7A2);
    v := Quarter1(v, 15, 0x00000018); assert v == Vars(0x20BDD62F, 0x196BEE77, 0x644A3DA5, 0x1181ED99, 0x18C623F9);
  }

  lemma Stage2()
    ensures SixteenRounds(AFTER16, 16, WORDS1) == AFTER32
  {
    hide Round;
    var v := AFTER16;
    v := Quarter1(v, 16, 0xC2C4C700); assert v == Vars(0x4E925823, 0x20BDD62F, 0xC65AFB9D, 0x644A3DA5, 0x1181ED99);
    v := Quarter1(v, 17, 0x00000000); assert v == Vars(0x82AA6728, 0x4E925823, 0xC82F758B, 0xC65AFB9D, 0x644A3DA5);
    v := Quarter1(v, 18, 0x00000030); assert v == Vars(0xDC64901D, 0x82AA6728, 0xD3A49608, 0xC82F758B, 0xC65AFB9D);
    v := Quarter1(v, 19, 0x85898E01); assert v == Vars(0xFD9E1D7D, 0xDC64901D, 0x20AA99CA, 0xD3A49608, 0xC82F758B);
    v := Quarter2(v, 20, 0x00000000); assert v == Vars(0x1A37B0CA, 0xFD9E1D7D, 0x77192407, 0x20AA99CA, 0xD3A49608);
    v := Quarter2(v, 21, 0x00000060); assert v == Vars(0x33A23BFC, 0x1A37B0CA, 0x7F67875F, 0x77192407, 0x20AA99CA);
    v := Quarter2(v, 22, 0x0B131C03); assert v == Vars(0x21283486, 0x33A23BFC, 0x868DEC32, 0x7F67875F, 0x77192407);
    v := Quarter2(v, 23, 0x00000030); assert v == Vars(0xD541F12D, 0x21283486, 0x0CE88EFF, 0x868DEC32, 0x7F67875F);
    v := Quarter2(v, 24, 0x85898EC1); assert v == Vars(0xC7567DC6, 0xD541F12D, 0x884A0D21, 0x0CE88EFF, 0x868DEC32);
    v := Quarter2(v, 25, 0x16263806); assert v == Vars(0x48413BA4, 0xC7567DC6, 0x75507C4B, 0x884A0D21, 0x0CE88EFF);
    v := Quarter2(v, 26, 0x00000000); assert v == Vars(0xBE35FBD5, 0x48413BA4, 0xB1D59F71, 0x75507C4B, 0x884A0D21);
    v := Quarter2(v, 27, 0x00000180); assert v == Vars(0x4AA84D97, 0xBE35FBD5, 0x12104EE9, 0xB1D59F71, 0x75507C4B);
    v := Quarter2(v, 28, 0x2C4C700C); assert v == Vars(0x8370B52E, 0x4AA84D97, 0x6F8D7EF5, 0x12104EE9, 0xB1D59F71);
    v := Quarter2(v, 29, 0x000000F0); assert v == Vars(0xC5FBAF5D, 0x8370B52E, 0xD2AA1365, 0x6F8D7EF5, 0x12104EE9);
    v := Quarter2(v, 30, 0x93AFB507); assert v == Vars(0x1267B407, 0xC5FBAF5D, 0xA0DC2D4B, 0xD2AA1365, 0x6F8D7EF5);
    v := Quarter2(v, 31, 0x5898E048); assert v == Vars(0x3B845D33, 0x1267B407, 0x717EEBD7, 0xA0DC2D4B, 0xD2AA1365);
  }

  lemma Stage3()
    ensures SixteenRounds(AFTER32, 32, WORDS2) == AFTER48
  {
    hide Round;
    var v := AFTER32;
    v := Quarter2(v, 32, 0x8E9A9202); assert v == Vars(0x046FAA0A, 0x3B845D33, 0xC499ED01, 0x717EEBD7, 0xA0DC2D4B);
    v := Quarter2(v, 33, 0x00000600); assert v == Vars(0x2C0EBC11, 0x046FAA0A, 0xCEE1174C, 0xC499ED01, 0x717EEBD7);
    v := Quarter2(v, 34, 0xB131C0F0); assert v == Vars(0x21796AD4, 0x2C0EBC11, 0x811BEA82, 0xCEE1174C, 0xC499ED01);
    v := Quarter2(v, 35, 0x16263BC6); assert v == Vars(0xDCBBB0CB, 0x21796AD4, 0x4B03AF04, 0x811BEA82, 0xCEE1174C);
    v := Quarter2(v, 36, 0x4EBED41E); assert v == Vars(0x0F511FD8, 0xDCBBB0CB, 0x085E5AB5, 0x4B03AF04, 0x811BEA82);
    v := Quarter2(v, 37, 0x626380A1); assert v == Vars(0xDC63973F, 0x0F511FD8, 0xF72EEC32, 0x085E5AB5, 0x4B03AF04);
    v := Quarter2(v, 38, 0x16263806); assert v == Vars(0x4C986405, 0xDC63973F, 0x03D447F6, 0xF72EEC32, 0x085E5AB5);
    v := Quarter2(v, 39, 0x000018C0); assert v == Vars(0x32DE1CBA, 0x4C986405, 0xF718E5CF, 0x03D447F6, 0xF72EEC32);
    v := Quarter3(v, 40, 0xD2E138C4); assert v == Vars(0xFC87DEDF, 0x32DE1CBA, 0x53261901, 0xF718E5CF, 0x03D447F6);
    v := Quarter3(v, 41, 0x00000F00); assert v == Vars(0x970A0D5C, 0xFC87DEDF, 0x8CB7872E, 0x53261901, 0xF718E5CF);
    v := Quarter3(v, 42, 0x3AFB5079); assert v == Vars(0x7F193DC5, 0x970A0D5C, 0xFF21F7B7, 0x8CB7872E, 0x53261901);
    v := Quarter3(v, 43, 0x898E04E5); assert v == Vars(0xEE1B1AAF, 0x7F193DC5, 0x25C28357, 0xFF21F7B7, 0x8CB7872E);
    v := Quarter3(v, 44, 0xE2BA3C2B); assert v == Vars(0x40F28E09, 0xEE1B1AAF, 0x5FC64F71, 0x25C28357, 0xFF21F7B7);
    v := Quarter3(v, 45, 0x000060C0); assert v == Vars(0x1C51E1F2, 0x40F28E09, 0xFB86C6AB, 0x5FC64F71, 0x25C28357);
    v := Quarter3(v, 46, 0x053A37CD); assert v == Vars(0xA01B846C, 0x1C51E1F2, 0x503CA382, 0xFB86C6AB, 0x5FC64F71);
    v := Quarter3(v, 47, 0x74458547); assert v == Vars(0xBEAD02CA, 0xA01B846C, 0x8714787C, 0x503CA382, 0xFB86C6AB);
  }

  lemma Stage4()
    ensures SixteenRounds(AFTER48, 48, WORDS3) == AFTER64
  {
    hide Round;
    var v := AFTER48;
    v := Quarter3(v, 48, 0xDA9415ED); assert v == Vars(0xBAF39337, 0xBEAD02CA, 0x2806E11B, 0x8714787C, 0x503CA382);
    v := Quarter3(v, 49, 0x26380A16); assert v == Vars(0x120731C5, 0xBAF39337, 0xAFAB40B2, 0x2806E11B, 0x8714787C);
    v := Quarter3(v, 50, 0x626383A1); assert v == Vars(0x641DB2CE, 0x120731C5, 0xEEBCE4CD, 0xAFAB40B2, 0x2806E11B);
    v := Quarter3(v, 51, 0x4EBF54DE); assert v == Vars(0x3847AD66, 0x641DB2CE, 0x4481CC71, 0xEEBCE4CD, 0xAFAB40B2);
    v := Quarter3(v, 52, 0x3835B44B); assert v == Vars(0xE490436D, 0x3847AD66, 0x99076CB3, 0x4481CC71, 0xEEBCE4CD);
    v := Quarter3(v, 53, 0x0000F600); assert v == Vars(0x27E9F1D8, 0xE490436D, 0x8E11EB59, 0x99076CB3, 0x4481CC71);
    v := Quarter3(v, 54, 0x1E84C7A3); assert v == Vars(0x7B71F76D, 0x27E9F1D8, 0x792410DB, 0x8E11EB59, 0x99076CB3);
    v := Quarter3(v, 55, 0x98E04D98); assert v == Vars(0x5E6456AF, 0x7B71F76D, 0x09FA7C76, 0x792410DB, 0x8E11EB59);
    v := Quarter3(v, 56, 0x651D16A0); assert v == Vars(0xC846093F, 0x5E6456AF, 0x5EDC7DDB, 0x09FA7C76, 0x792410DB);
    v := Quarter3(v, 57, 0x62658CA1); assert v == Vars(0xD262FF50, 0xC846093F, 0xD79915AB, 0x5EDC7DDB, 0x09FA7C76);
    v := Quarter3(v, 58, 0x458544D6); assert v == Vars(0x09D785FD, 0xD262FF50, 0xF211824F, 0xD79915AB, 0x5EDC7DDB);
    v := Quarter3(v, 59, 0x44584CB7); assert v == Vars(0x3F52DE5A, 0x09D785FD, 0x3498BFD4, 0xF211824F, 0xD79915AB);
    v := Quarter4(v, 60, 0x7BA06619); assert v == Vars(0xD756C147, 0x3F52DE5A, 0x4275E17F, 0x3498BFD4, 0xF211824F);
    v := Quarter4(v, 61, 0x6380AEA2); assert v == Vars(0x548C9CB2, 0xD756C147, 0x8FD4B796, 0x4275E17F, 0x3498BFD4);
    v := Quarter4(v, 62, 0x0AE55269); assert v == Vars(0xB66C020B, 0x548C9CB2, 0xF5D5B051, 0x8FD4B796, 0x4275E17F);
    v := Quarter4(v, 63, 0x627B49A1); assert v == Vars(0x6B61C9E1, 0xB66C020B, 0x9523272C, 0xF5D5B051, 0x8FD4B796);
  }

  lemma Stage5()
    ensures SixteenRounds(AFTER64, 64, WORDS4) == AFTER80
  {
    hide Round;
    var v := AFTER64;
    v := Quarter4(v, 64, 0x7CD45C9D); assert v == Vars(0x19DFA7AC, 0x6B61C9E1, 0xED9B0082, 0x9523272C, 0xF5D5B051);
    v := Quarter4(v, 65, 0x000F0000); assert v == Vars(0x101655F9, 0x19DFA7AC, 0x5AD87278, 0xED9B0082, 0x9523272C);
    v := Quarter4(v, 66, 0xFB50753A); assert v == Vars(0x0C3DF2B4, 0x101655F9, 0x0677E9EB, 0x5AD87278, 0xED9B0082);
    v := Quarter4(v, 67, 0xEC6765E8); assert v == Vars(0x78DD4D2B, 0x0C3DF2B4, 0x4405957E, 0x0677E9EB, 0x5AD87278);
    v := Quarter4(v, 68, 0xBA3C2BE2); assert v == Vars(0x497093C0, 0x78DD4D2B, 0x030F7CAD, 0x4405957E, 0x0677E9EB);
    v := Quarter4(v, 69, 0x0060C000); assert v == Vars(0x3F2588C2, 0x497093C0, 0xDE37534A, 0x030F7CAD, 0x4405957E);
    v := Quarter4(v, 70, 0x3A37CD05); assert v == Vars(0xC199F8C7, 0x3F2588C2, 0x125C24F0, 0xDE37534A, 0x030F7CAD);
    v := Quarter4(v, 71, 0x458546F4); assert v == Vars(0x39859DE7, 0xC199F8C7, 0x8FC96230, 0x125C24F0, 0xDE37534A);
    v := Quarter4(v, 72, 0xB8599DD6); assert v == Vars(0xEDB42DE4, 0x39859DE7, 0xF0667E31, 0x8FC96230, 0x125C24F0);
    v := Quarter4(v, 73, 0x380A1A26); assert v == Vars(0x11793F6F, 0xEDB42DE4, 0xCE616779, 0xF0667E31, 0x8FC96230);
    v := Quarter4(v, 74, 0x01E02203); assert v == Vars(0x5EE76897, 0x11793F6F, 0x3B6D0B79, 0xCE616779, 0xF0667E31);
    v := Quarter4(v, 75, 0xE7CC3456); assert v == Vars(0x63F7DAB7, 0x5EE76897, 0xC45E4FDB, 0x3B6D0B79, 0xCE616779);
    v := Quarter4(v, 76, 0xE6E60B69); assert v == Vars(0xA079B7D9, 0x63F7DAB7, 0xD7B9DA25, 0xC45E4FDB, 0x3B6D0B79);
    v := Quarter4(v, 77, 0x00F60A00); assert v == Vars(0x860D21CC, 0xA079B7D9, 0xD8FDF6AD, 0xD7B9DA25, 0xC45E4FDB);
    v := Quarter4(v, 78, 0x5795EF4F); assert v == Vars(0x5738D5E1, 0x860D21CC, 0x681E6DF6, 0xD8FDF6AD, 0xD7B9DA25);
    v := Quarter4(v, 79, 0x822E0879); assert v == Vars(0x42541B35, 0x5738D5E1, 0x21834873, 0x681E6DF6, 0xD8FDF6AD);
  }

  lemma Reach16(m: Buffer)
    requires m == Block1()
    ensures Scheduled(m, 16, WORDS1) && Rounds(INITIAL, m, 0, 16) == AFTER16
  {
    hide SixteenRounds, Continues, Scheduled, Block1;
    FirstWords(m);
    SixteenMore(INITIAL, m, 0, WORDS0);
    Stage1();
    Words1();
    NextScheduled(m, 0, WORDS0, WORDS1);
  }

  lemma Reach32(m: Buffer)
    requires m == Block1()
    ensures Scheduled(m, 32, WORDS2) && Rounds(INITIAL, m, 0, 32) == AFTER32
  {
    hide SixteenRounds, Continues, Scheduled, Rounds, Block1;
    Reach16(m);
    SixteenMore(INITIAL, m, 16, WORDS1);
    Stage2();
    Words2();
    NextScheduled(m, 16, WORDS1, WORDS2);
  }

  lemma Reach48(m: Buffer)
    requires m == Block1()
    ensures Scheduled(m, 48, WORDS3) && Rounds(INITIAL, m, 0, 48) == AFTER48
  {
    hide SixteenRounds, Continues, Scheduled, Rounds, Block1;
    Reach32(m);
    SixteenMore(INITIAL, m, 32, WORDS2);
    Stage3();
    Words3();
    NextScheduled(m, 32, WORDS2, WORDS3);
  }

  lemma Reach64(m: Buffer)
    requires m == Block1()
    ensures Scheduled(m, 64, WORDS4) && Rounds(INITIAL, m, 0, 64) == AFTER64
  {
    hide SixteenRounds, Continues, Scheduled, Rounds, Block1;
    Reach48(m);
    SixteenMore(INITIAL, m, 48, WORDS3);
    Stage4();
    Words4();
    NextScheduled(m, 48, WORDS3, WORDS4);
  }

  lemma AbcRounds(m: Buffer)
    requires m == Block1()
    ensures Rounds(INITIAL, m, 0, 80) == AFTER80
  {
    hide SixteenRounds, Rounds, Scheduled, Block1;
    Reach64(m);
    SixteenMore(INITIAL, m, 64, WORDS4);
    Stage5();
  }

  lemma OneBlock(m: Buffer)
    requires m == Block1()
    ensures HashBlocks(m, 1) == Vars(0xA9993E36, 0x4706816A, 0xBA3E2571, 0x7850C26C, 0x9CD0D89D)
  {
    hide Rounds, Block1;
    AbcRounds(m);
    assert HashBlocks(m, 0) == INITIAL;
  }

  /** a9993e36 4706816a ba3e2571 7850c26c 9cd0d89d */
  lemma DigestOfAbc()
    ensures Digest(ABC) == Vars(0xA9993E36, 0x4706816A, 0xBA3E2571, 0x7850C26C, 0x9CD0D89D)
  {
    AbcIsPadded();
    OneBlock(Pad(ABC));
  }

  // ---- Its forty hexadecimal digits ----

  lemma OneDigitLess(a: nat, b: nat, p: nat)
    ensures (a * (16 * p) + b) / 16 == a * p + b / 16 && (a * (16 * p) + b) % 16 == b % 16
    ensures b < 16 * p ==> b / 16 < p
  {
    assert a * (16 * p) == 16 * (a * p);
    assert a * (16 * p) + b == 16 * (a * p + b / 16) + b % 16;
  }

  lemma {:induction false} HexSplits(a: nat, b: nat, k: nat)
    requires b < Pow16(k)
    ensures Hex(a * Pow16(k) + b, 4 + k) == Hex(a, 4) + Hex(b, k)
    decreases k
  {
    if k == 0 {
      assert Hex(b, 0) == [];
    } else {
      OneDigitLess(a, b, Pow16(k - 1));
      HexSplits(a, b / 16, k - 1);
    }
  }

  /** Four digits and four digits. */
  lemma HexOfWord(a: nat, b: nat)
    requires b < 0x1_0000
    ensures Hex(a * 0x1_0000 + b, 8) == Hex(a, 4) + Hex(b, 4)
  {
    assert Pow16(2) == 0x100 && Pow16(4) == 0x1_0000;
    HexSplits(a, b, 4);
  }

  lemma HexOfFour(n: nat, a: nat, b: nat, c: nat, d: nat)
    requires a < 16 && b < 16 && c < 16 && d < 16 && n == 0x1000 * a + 0x100 * b + 0x10 * c + d
    ensures Hex(n, 4) == [HexDigit(a), HexDigit(b), HexDigit(c), HexDigit(d)]
  {
    assert n / 16 == 0x100 * a + 0x10 * b + c && n % 16 == d;
    assert n / 16 / 16 == 0x10 * a + b && n / 16 % 16 == c;
    assert n / 16 / 16 / 16 == a && n / 16 / 16 % 16 == b;
    assert Hex(n / 16 / 16, 2) == [HexDigit(a), HexDigit(b)];
  }

  lemma Digits1()
    ensures Hex(0xA9993E36, 8) == [97, 57, 57, 57, 51, 101, 51, 54]
  {
    hide Hex;
    HexOfWord(0xA999, 0x3E36);
    HexOfFour(0xA999, 10, 9, 9, 9);
    HexOfFour(0x3E36, 3, 14, 3, 6);
  }

  lemma Digits2()
    ensures Hex(0x4706816A, 8) == [52, 55, 48, 54, 56, 49, 54, 97]
  {
    hide Hex;
    HexOfWord(0x4706, 0x816A);
    HexOfFour(0x4706, 4, 7, 0, 6);
    HexOfFour(0x816A, 8, 1, 6, 10);
  }

  lemma Digits3()
    ensures Hex(0xBA3E2571, 8) == [98, 97, 51, 101, 50, 53, 55, 49]
  {
    hide Hex;
    HexOfWord(0xBA3E, 0x2571);
    HexOfFour(0xBA3E, 11, 10, 3, 14);
    HexOfFour(0x2571, 2, 5, 7, 1);
  }

  lemma Digits4()
    ensures Hex(0x7850C26C, 8) == [55, 56, 53, 48, 99, 50, 54, 99]
  {
    hide Hex;
    HexOfWord(0x7850, 0xC26C);
    HexOfFour(0x7850, 7, 8, 5, 0);
    HexOfFour(0xC26C, 12, 2, 6, 12);
  }

  lemma Digits5()
    ensures Hex(0x9CD0D89D, 8) == [57, 99, 100, 48, 100, 56, 57, 100]
  {
    hide Hex;
    HexOfWord(0x9CD0, 0xD89D);
    HexOfFour(0x9CD0, 9, 12, 13, 0);
    HexOfFour(0xD89D, 13, 8, 9, 13);
  }

  /** The text "a9993e364706816aba3e25717850c26c9cd0d89d" */
  lemma TextOfAbc()
    ensures HexOf(Digest(ABC)) ==
            [97, 57, 57, 57, 51, 101, 51, 54]
            + [52, 55, 48, 54, 56, 49, 54, 97]
            + [98, 97, 51, 101, 50, 53, 55, 49]
            + [55, 56, 53, 48, 99, 50, 54, 99]
            + [57, 99, 100, 48, 100, 56, 57, 100]
  {
    hide Hex, Digest;
    DigestOfAbc();
    Digits1();
    Digits2();
    Digits3();
    Digits4();
    Digits5();
  }
}
