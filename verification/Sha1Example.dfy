/** The one-block example published with the standard: the message "abc", word by word and round by round. */
module Sha1Example {
  import Bytes
  import opened Sha1Spec

  const ABC: seq<Byte> := [0x61, 0x62, 0x63]

  const BLOCK: seq<Word> := [0x61626380, 0, 0, 0, 0, 0, 0, 0, 0, 0, 0, 0, 0, 0, 0, 0x18]

  // ---------------------------------------------------------------- the message schedule
  lemma Schedule0()
    ensures forall t | 0 <= t < 16 :: W(BLOCK, t) == BLOCK[t]
  {
  }

  lemma Schedule16()
    ensures W(BLOCK, 16) == 0xc2c4c700 && W(BLOCK, 17) == 0x00000000 && W(BLOCK, 18) == 0x00000030 && W(BLOCK, 19) == 0x85898e01
    ensures W(BLOCK, 20) == 0x00000000 && W(BLOCK, 21) == 0x00000060 && W(BLOCK, 22) == 0x0b131c03 && W(BLOCK, 23) == 0x00000030
    ensures W(BLOCK, 24) == 0x85898ec1 && W(BLOCK, 25) == 0x16263806 && W(BLOCK, 26) == 0x00000000 && W(BLOCK, 27) == 0x00000180
    ensures W(BLOCK, 28) == 0x2c4c700c && W(BLOCK, 29) == 0x000000f0 && W(BLOCK, 30) == 0x93afb507 && W(BLOCK, 31) == 0x5898e048
  {
    Schedule0();
  }

  lemma Schedule32()
    ensures W(BLOCK, 32) == 0x8e9a9202 && W(BLOCK, 33) == 0x00000600 && W(BLOCK, 34) == 0xb131c0f0 && W(BLOCK, 35) == 0x16263bc6
    ensures W(BLOCK, 36) == 0x4ebed41e && W(BLOCK, 37) == 0x626380a1 && W(BLOCK, 38) == 0x16263806 && W(BLOCK, 39) == 0x000018c0
    ensures W(BLOCK, 40) == 0xd2e138c4 && W(BLOCK, 41) == 0x00000f00 && W(BLOCK, 42) == 0x3afb5079 && W(BLOCK, 43) == 0x898e04e5
    ensures W(BLOCK, 44) == 0xe2ba3c2b && W(BLOCK, 45) == 0x000060c0 && W(BLOCK, 46) == 0x053a37cd && W(BLOCK, 47) == 0x74458547
  {
    Schedule16();
  }

  lemma Schedule48()
    ensures W(BLOCK, 48) == 0xda9415ed && W(BLOCK, 49) == 0x26380a16 && W(BLOCK, 50) == 0x626383a1 && W(BLOCK, 51) == 0x4ebf54de
    ensures W(BLOCK, 52) == 0x3835b44b && W(BLOCK, 53) == 0x0000f600 && W(BLOCK, 54) == 0x1e84c7a3 && W(BLOCK, 55) == 0x98e04d98
    ensures W(BLOCK, 56) == 0x651d16a0 && W(BLOCK, 57) == 0x62658ca1 && W(BLOCK, 58) == 0x458544d6 && W(BLOCK, 59) == 0x44584cb7
    ensures W(BLOCK, 60) == 0x7ba06619 && W(BLOCK, 61) == 0x6380aea2 && W(BLOCK, 62) == 0x0ae55269 && W(BLOCK, 63) == 0x627b49a1
  {
    Schedule32();
  }

  lemma Schedule64()
    ensures W(BLOCK, 64) == 0x7cd45c9d && W(BLOCK, 65) == 0x000f0000 && W(BLOCK, 66) == 0xfb50753a && W(BLOCK, 67) == 0xec6765e8
    ensures W(BLOCK, 68) == 0xba3c2be2 && W(BLOCK, 69) == 0x0060c000 && W(BLOCK, 70) == 0x3a37cd05 && W(BLOCK, 71) == 0x458546f4
    ensures W(BLOCK, 72) == 0xb8599dd6 && W(BLOCK, 73) == 0x380a1a26 && W(BLOCK, 74) == 0x01e02203 && W(BLOCK, 75) == 0xe7cc3456
    ensures W(BLOCK, 76) == 0xe6e60b69 && W(BLOCK, 77) == 0x00f60a00 && W(BLOCK, 78) == 0x5795ef4f && W(BLOCK, 79) == 0x822e0879
  {
    Schedule48();
  }

  // ---------------------------------------------------------------- the rounds

  /** One round, given the word of the schedule and the new first register. */
  lemma Turn(r: Regs, t: nat, w: Word, a: Word) returns (r': Regs)
    requires t < 80 && Rounds(IV, BLOCK, t) == r && W(BLOCK, t) == w
    requires Temp(Rotl(r.a, 5), F(t, r.b, r.c, r.d), r.e, K(t), w) == a
    ensures r' == Regs(a, r.a, Rotl(r.b, 30), r.c, r.d) && Rounds(IV, BLOCK, t + 1) == r'
  {
    hide W, Rotl, F, K, Temp;
    r' := Regs(a, r.a, Rotl(r.b, 30), r.c, r.d);
  }

  lemma Rounds0To19()
    ensures Rounds(IV, BLOCK, 20) == Regs(0xfd9e1d7d, 0xdc64901d, 0x20aa99ca, 0xd3a49608, 0xc82f758b)
  {
    Schedule0();
    Schedule16();
    assert Rounds(IV, BLOCK, 0) == IV;
    hide W, Rounds;
    var r := IV;
    r := Turn(r, 0, 0x61626380, 0x0116fc33);
    r := Turn(r, 1, 0x00000000, 0x8990536d);
    r := Turn(r, 2, 0x00000000, 0xa1390f08);
    r := Turn(r, 3, 0x00000000, 0xcdd8e11b);
    r := Turn(r, 4, 0x00000000, 0xcfd499de);
    r := Turn(r, 5, 0x00000000, 0x3fc7ca40);
    r := Turn(r, 6, 0x00000000, 0x993e30c1);
    r := Turn(r, 7, 0x00000000, 0x9e8c07d4);
    r := Turn(r, 8, 0x00000000, 0x4b6ae328);
    r := Turn(r, 9, 0x00000000, 0x8351f929);
    r := Turn(r, 10, 0x00000000, 0xfbda9e89);
    r := Turn(r, 11, 0x00000000, 0x63188fe4);
    r := Turn(r, 12, 0x00000000, 0x4607b664);
    r := Turn(r, 13, 0x00000000, 0x9128f695);
    r := Turn(r, 14, 0x00000000, 0x196bee77);
    r := Turn(r, 15, 0x00000018, 0x20bdd62f);
    r := Turn(r, 16, 0xc2c4c700, 0x4e925823);
    r := Turn(r, 17, 0x00000000, 0x82aa6728);
    r := Turn(r, 18, 0x00000030, 0xdc64901d);
    r := Turn(r, 19, 0x85898e01, 0xfd9e1d7d);
  }

  lemma Rounds20To39()
    ensures Rounds(IV, BLOCK, 40) == Regs(0x32de1cba, 0x4c986405, 0xf718e5cf, 0x03d447f6, 0xf72eec32)
  {
    Rounds0To19();
    Schedule16();
    Schedule32();
    hide W, Rounds;
    var r := Regs(0xfd9e1d7d, 0xdc64901d, 0x20aa99ca, 0xd3a49608, 0xc82f758b);
    r := Turn(r, 20, 0x00000000, 0x1a37b0ca);
    r := Turn(r, 21, 0x00000060, 0x33a23bfc);
    r := Turn(r, 22, 0x0b131c03, 0x21283486);
    r := Turn(r, 23, 0x00000030, 0xd541f12d);
    r := Turn(r, 24, 0x85898ec1, 0xc7567dc6);
    r := Turn(r, 25, 0x16263806, 0x48413ba4);
    r := Turn(r, 26, 0x00000000, 0xbe35fbd5);
    r := Turn(r, 27, 0x00000180, 0x4aa84d97);
    r := Turn(r, 28, 0x2c4c700c, 0x8370b52e);
    r := Turn(r, 29, 0x000000f0, 0xc5fbaf5d);
    r := Turn(r, 30, 0x93afb507, 0x1267b407);
    r := Turn(r, 31, 0x5898e048, 0x3b845d33);
    r := Turn(r, 32, 0x8e9a9202, 0x046faa0a);
    r := Turn(r, 33, 0x00000600, 0x2c0ebc11);
    r := Turn(r, 34, 0xb131c0f0, 0x21796ad4);
    r := Turn(r, 35, 0x16263bc6, 0xdcbbb0cb);
    r := Turn(r, 36, 0x4ebed41e, 0x0f511fd8);
    r := Turn(r, 37, 0x626380a1, 0xdc63973f);
    r := Turn(r, 38, 0x16263806, 0x4c986405);
    r := Turn(r, 39, 0x000018c0, 0x32de1cba);
  }

  lemma Rounds40To59()
    ensures Rounds(IV, BLOCK, 60) == Regs(0x3f52de5a, 0x09d785fd, 0x3498bfd4, 0xf211824f, 0xd79915ab)
  {
    Rounds20To39();
    Schedule32();
    Schedule48();
    hide W, Rounds;
    var r := Regs(0x32de1cba, 0x4c986405, 0xf718e5cf, 0x03d447f6, 0xf72eec32);
    r := Turn(r, 40, 0xd2e138c4, 0xfc87dedf);
    r := Turn(r, 41, 0x00000f00, 0x970a0d5c);
    r := Turn(r, 42, 0x3afb5079, 0x7f193dc5);
    r := Turn(r, 43, 0x898e04e5, 0xee1b1aaf);
    r := Turn(r, 44, 0xe2ba3c2b, 0x40f28e09);
    r := Turn(r, 45, 0x000060c0, 0x1c51e1f2);
    r := Turn(r, 46, 0x053a37cd, 0xa01b846c);
    r := Turn(r, 47, 0x74458547, 0xbead02ca);
    r := Turn(r, 48, 0xda9415ed, 0xbaf39337);
    r := Turn(r, 49, 0x26380a16, 0x120731c5);
    r := Turn(r, 50, 0x626383a1, 0x641db2ce);
    r := Turn(r, 51, 0x4ebf54de, 0x3847ad66);
    r := Turn(r, 52, 0x3835b44b, 0xe490436d);
    r := Turn(r, 53, 0x0000f600, 0x27e9f1d8);
    r := Turn(r, 54, 0x1e84c7a3, 0x7b71f76d);
    r := Turn(r, 55, 0x98e04d98, 0x5e6456af);
    r := Turn(r, 56, 0x651d16a0, 0xc846093f);
    r := Turn(r, 57, 0x62658ca1, 0xd262ff50);
    r := Turn(r, 58, 0x458544d6, 0x09d785fd);
    r := Turn(r, 59, 0x44584cb7, 0x3f52de5a);
  }

  lemma Rounds60To79()
    ensures Rounds(IV, BLOCK, 80) == Regs(0x42541b35, 0x5738d5e1, 0x21834873, 0x681e6df6, 0xd8fdf6ad)
  {
    Rounds40To59();
    Schedule48();
    Schedule64();
    hide W, Rounds;
    var r := Regs(0x3f52de5a, 0x09d785fd, 0x3498bfd4, 0xf211824f, 0xd79915ab);
    r := Turn(r, 60, 0x7ba06619, 0xd756c147);
    r := Turn(r, 61, 0x6380aea2, 0x548c9cb2);
    r := Turn(r, 62, 0x0ae55269, 0xb66c020b);
    r := Turn(r, 63, 0x627b49a1, 0x6b61c9e1);
    r := Turn(r, 64, 0x7cd45c9d, 0x19dfa7ac);
    r := Turn(r, 65, 0x000f0000, 0x101655f9);
    r := Turn(r, 66, 0xfb50753a, 0x0c3df2b4);
    r := Turn(r, 67, 0xec6765e8, 0x78dd4d2b);
    r := Turn(r, 68, 0xba3c2be2, 0x497093c0);
    r := Turn(r, 69, 0x0060c000, 0x3f2588c2);
    r := Turn(r, 70, 0x3a37cd05, 0xc199f8c7);
    r := Turn(r, 71, 0x458546f4, 0x39859de7);
    r := Turn(r, 72, 0xb8599dd6, 0xedb42de4);
    r := Turn(r, 73, 0x380a1a26, 0x11793f6f);
    r := Turn(r, 74, 0x01e02203, 0x5ee76897);
    r := Turn(r, 75, 0xe7cc3456, 0x63f7dab7);
    r := Turn(r, 76, 0xe6e60b69, 0xa079b7d9);
    r := Turn(r, 77, 0x00f60a00, 0x860d21cc);
    r := Turn(r, 78, 0x5795ef4f, 0x5738d5e1);
    r := Turn(r, 79, 0x822e0879, 0x42541b35);
  }

  // ---------------------------------------------------------------- padding and printing

  lemma ZerosAfterThree()
    ensures PadZeros(3) == 52
  {
  }

  lemma LengthOfThree()
    ensures BitLength(3) == 24
  {
    assert 24 % Bytes.U64_LIMIT == 24;
    hide Bytes.U64_LIMIT;
  }

  lemma LengthOf24()
    ensures LengthBytes(24) == [0, 0, 0, 0, 0, 0, 0, 24]
  {
  }

  lemma ZerosAt(n: nat)
    ensures |Zeros(n)| == n && forall k | 0 <= k < n :: Zeros(n)[k] == 0
  {
  }

  lemma PaddedAbc()
    ensures |Pad(ABC)| == 64
    ensures Pad(ABC)[..4] == [0x61, 0x62, 0x63, 0x80] && Pad(ABC)[60..] == [0, 0, 0, 24]
    ensures forall k | 4 <= k < 60 :: Pad(ABC)[k] == 0
  {
    assert Pad(ABC) == ABC + [0x80] + Zeros(PadZeros(3)) + LengthBytes(BitLength(3)) by { hide Zeros, PadZeros, LengthBytes, BitLength; }
    ZerosAfterThree();
    LengthOfThree();
    LengthOf24();
    ZerosAt(52);
    hide Pad, Zeros, PadZeros, LengthBytes, BitLength;
  }

  lemma AbcWord0()
    ensures WordOf([0x61, 0x62, 0x63, 0x80]) == 0x61626380
  {
  }

  lemma AbcWord15()
    ensures WordOf([0, 0, 0, 24]) == 0x18
  {
  }

  lemma ZeroWord()
    ensures WordOf([0, 0, 0, 0]) == 0
  {
  }

  lemma WordAt(bytes: seq<Byte>, i: nat)
    requires |bytes| == 64 && i < 16
    ensures WordsOf(bytes)[i] == WordOf(bytes[4 * i..4 * i + 4])
  {
    hide WordOf;
  }

  lemma AbcBlock()
    ensures |Pad(ABC)| == 64 && WordsOf(Pad(ABC)) == BLOCK
  {
    PaddedAbc();
    AbcWord0();
    AbcWord15();
    ZeroWord();
    hide WordOf, WordsOf, Pad;
    var padded := Pad(ABC);
    forall i | 0 <= i < 16
      ensures WordsOf(padded)[i] == BLOCK[i]
    {
      WordAt(padded, i);
      if 0 < i < 15 {
        assert padded[4 * i..4 * i + 4] == [0, 0, 0, 0];
      } else if i == 0 {
        assert padded[0..4] == padded[..4];
      } else {
        assert padded[60..64] == padded[60..];
      }
    }
  }

  /** One more digit of a number. */
  lemma OneDigit(n: nat, width: nat, d: nat)
    requires d < 16
    ensures HexDigits(16 * n + d, width + 1) == HexDigits(n, width) + [HEX[d]]
  {
    assert (16 * n + d) / 16 == n && (16 * n + d) % 16 == d;
  }

  lemma Hexa9993e36()
    ensures HexDigits(0xa9993e36, 8) == "a9993e36"
  {
    hide HexDigits;
    assert HexDigits(0, 0) == "" by { HexNone(); }
    OneDigit(0x0, 0, 0xa);
    OneDigit(0xa, 1, 0x9);
    OneDigit(0xa9, 2, 0x9);
    OneDigit(0xa99, 3, 0x9);
    OneDigit(0xa999, 4, 0x3);
    OneDigit(0xa9993, 5, 0xe);
    OneDigit(0xa9993e, 6, 0x3);
    OneDigit(0xa9993e3, 7, 0x6);
  }

  lemma Hex4706816a()
    ensures HexDigits(0x4706816a, 8) == "4706816a"
  {
    hide HexDigits;
    assert HexDigits(0, 0) == "" by { HexNone(); }
    OneDigit(0x0, 0, 0x4);
    OneDigit(0x4, 1, 0x7);
    OneDigit(0x47, 2, 0x0);
    OneDigit(0x470, 3, 0x6);
    OneDigit(0x4706, 4, 0x8);
    OneDigit(0x47068, 5, 0x1);
    OneDigit(0x470681, 6, 0x6);
    OneDigit(0x4706816, 7, 0xa);
  }

  lemma Hexba3e2571()
    ensures HexDigits(0xba3e2571, 8) == "ba3e2571"
  {
    hide HexDigits;
    assert HexDigits(0, 0) == "" by { HexNone(); }
    OneDigit(0x0, 0, 0xb);
    OneDigit(0xb, 1, 0xa);
    OneDigit(0xba, 2, 0x3);
    OneDigit(0xba3, 3, 0xe);
    OneDigit(0xba3e, 4, 0x2);
    OneDigit(0xba3e2, 5, 0x5);
    OneDigit(0xba3e25, 6, 0x7);
    OneDigit(0xba3e257, 7, 0x1);
  }

  lemma Hex7850c26c()
    ensures HexDigits(0x7850c26c, 8) == "7850c26c"
  {
    hide HexDigits;
    assert HexDigits(0, 0) == "" by { HexNone(); }
    OneDigit(0x0, 0, 0x7);
    OneDigit(0x7, 1, 0x8);
    OneDigit(0x78, 2, 0x5);
    OneDigit(0x785, 3, 0x0);
    OneDigit(0x7850, 4, 0xc);
    OneDigit(0x7850c, 5, 0x2);
    OneDigit(0x7850c2, 6, 0x6);
    OneDigit(0x7850c26, 7, 0xc);
  }

  lemma Hex9cd0d89d()
    ensures HexDigits(0x9cd0d89d, 8) == "9cd0d89d"
  {
    hide HexDigits;
    assert HexDigits(0, 0) == "" by { HexNone(); }
    OneDigit(0x0, 0, 0x9);
    OneDigit(0x9, 1, 0xc);
    OneDigit(0x9c, 2, 0xd);
    OneDigit(0x9cd, 3, 0x0);
    OneDigit(0x9cd0, 4, 0xd);
    OneDigit(0x9cd0d, 5, 0x8);
    OneDigit(0x9cd0d8, 6, 0x9);
    OneDigit(0x9cd0d89, 7, 0xd);
  }

  lemma HexNone()
    ensures HexDigits(0, 0) == ""
  {
  }

  /** One block. */
  lemma OneBlock(bytes: seq<Byte>)
    requires |bytes| == 64
    ensures HashBlocks(bytes) == Compress(IV, WordsOf(bytes))
  {
    assert bytes[..0] == [] && bytes[0..] == bytes;
    assert HashBlocks([]) == IV;
    hide Compress, WordsOf;
  }

  lemma AbcSum()
    ensures Add(IV, Regs(0x42541b35, 0x5738d5e1, 0x21834873, 0x681e6df6, 0xd8fdf6ad))
         == Regs(0xa9993e36, 0x4706816a, 0xba3e2571, 0x7850c26c, 0x9cd0d89d)
  {
  }

  lemma AbcRegs()
    ensures Sha1(ABC) == Regs(0xa9993e36, 0x4706816a, 0xba3e2571, 0x7850c26c, 0x9cd0d89d)
  {
    AbcBlock();
    Rounds60To79();
    AbcSum();
    OneBlock(Pad(ABC));
    hide Rounds, WordsOf, Pad, HashBlocks, Add;
  }

  /** The digest of "abc" is the published one. */
  lemma AbcDigest()
    ensures Sha1Hex(ABC) == "a9993e364706816aba3e25717850c26c9cd0d89d"
  {
    AbcRegs();
    Hexa9993e36();
    Hex4706816a();
    Hexba3e2571();
    Hex7850c26c();
    Hex9cd0d89d();
    hide Sha1, HexDigits;
  }

  /** The sixteen digits. */
  lemma Digit(d: nat)
    requires d < 16
    ensures HEX[d] as int == if d < 10 then 48 + d else 87 + d
  {
  }
}
