/** The SHA-1 object: a 16-word block rewritten in place, registers renamed instead of moved, input in pieces. */
module Sha1 {
  import Bytes
  import opened Sha1Spec

  // ---------------------------------------------------------------- one block

  function Mix(a: Word, b: Word, c: Word, d: Word): Word {
    Rotl(a ^ b ^ c ^ d, 1)
  }

  /** The schedule word that replaces `block[i]`. */
  function Blk(block: seq<Word>, i: nat): Word
    requires |block| == 16 && i < 16
  {
    Mix(block[(i + 13) % 16], block[(i + 8) % 16], block[(i + 2) % 16], block[i])
  }

  /** The block before round `t`: the 16 schedule words that the coming rounds may still read, each at its index
      modulo 16. */
  ghost predicate Holds(block: seq<Word>, m: seq<Word>, t: nat)
    requires |m| == 16
  {
    var top := if t < 16 then 16 else t;
    |block| == 16 && forall k | top - 16 <= k < top :: block[k % 16] == W(m, k)
  }

  lemma HoldsBlock(m: seq<Word>)
    requires |m| == 16
    ensures Holds(m, m, 0)
  {
  }

  lemma HoldsCurrent(block: seq<Word>, m: seq<Word>, t: nat)
    requires |m| == 16 && t < 16 && Holds(block, m, t)
    ensures |block| == 16 && block[t] == W(m, t) && Holds(block, m, t + 1)
  {
    hide W;
    assert block[t % 16] == W(m, t);
  }

  /** The sum a round adds into `z`, the choice and the majority function, each as the code writes it. */
  function Accumulate(z: Word, f: Word, w: Word, k: Word, rotated: Word): Word {
    z + (f + w + k + rotated)
  }

  function Choice(w: Word, x: Word, y: Word): Word {
    (w & (x ^ y)) ^ y
  }

  function Majority(w: Word, x: Word, y: Word): Word {
    ((w | x) & y) | (w & x)
  }

  lemma SumForm(z: Word, f: Word, w: Word, k: Word, r: Word)
    ensures Accumulate(z, f, w, k, r) == Temp(r, f, z, k, w)
  {
  }

  lemma ChoiceForm(w: Word, x: Word, y: Word)
    ensures Choice(w, x, y) == Ch(w, x, y)
  {
    assert (w & (x ^ y)) ^ y == (w & x) ^ (!w & y);
  }

  lemma MajorityForm(w: Word, x: Word, y: Word)
    ensures Majority(w, x, y) == Maj(w, x, y)
  {
    assert ((w | x) & y) | (w & x) == (w & x) ^ (w & y) ^ (x & y);
  }

  /** A round on renamed registers: `z` takes the new first register, and `w` is rotated where it stands. */
  lemma RoundForm(h: Regs, m: seq<Word>, t: nat, v: Word, w: Word, x: Word, y: Word, z: Word)
    requires |m| == 16 && Rounds(h, m, t) == Regs(v, w, x, y, z)
    ensures Rounds(h, m, t + 1) ==
            Regs(Accumulate(z, F(t, w, x, y), W(m, t), K(t), Rotl(v, 5)), v, Rotl(w, 30), x, y)
  {
    hide W, F, K, Rotl, Accumulate, Temp;
    SumForm(z, F(t, w, x, y), W(m, t), K(t), Rotl(v, 5));
    assert Rounds(h, m, t + 1) == Round(Rounds(h, m, t), t, W(m, t));
  }

  /** Which function and constant a phase uses. */
  lemma ChoicePhase(t: nat, w: Word, x: Word, y: Word)
    requires t < 20
    ensures F(t, w, x, y) == Choice(w, x, y) && K(t) == 0x5a827999
  {
    hide Choice, Ch;
    ChoiceForm(w, x, y);
  }

  lemma ParityPhase(t: nat, w: Word, x: Word, y: Word)
    requires 20 <= t < 40 || 60 <= t < 80
    ensures F(t, w, x, y) == Parity(w, x, y) && K(t) == if t < 40 then 0x6ed9eba1 else 0xca62c1d6
  {
  }

  lemma MajorityPhase(t: nat, w: Word, x: Word, y: Word)
    requires 40 <= t < 60
    ensures F(t, w, x, y) == Majority(w, x, y) && K(t) == 0x8f1bbcdc
  {
    hide Majority, Maj;
    MajorityForm(w, x, y);
  }

  lemma BackIndex(t: nat, d: nat)
    requires 0 < d <= 16 <= t
    ensures (t - d) % 16 == (t % 16 + 16 - d) % 16
  {
    var q, i := t / 16, t % 16;
    assert t - d == 16 * (q - 1) + (i + 16 - d);
  }

  lemma OtherIndex(k: nat, t: nat)
    requires k < t < k + 16
    ensures k % 16 != t % 16
  {
  }

  lemma NextW(m: seq<Word>, t: nat)
    requires |m| == 16 && t >= 16
    ensures W(m, t) == Mix(W(m, t - 3), W(m, t - 8), W(m, t - 14), W(m, t - 16))
  {
    hide Rotl;
  }

  lemma BlkIs(block: seq<Word>, t: nat)
    requires |block| == 16 && t >= 16
    ensures Blk(block, t % 16) ==
            Mix(block[(t - 3) % 16], block[(t - 8) % 16], block[(t - 14) % 16], block[(t - 16) % 16])
  {
    hide Mix;
    BackIndex(t, 3);
    BackIndex(t, 8);
    BackIndex(t, 14);
    BackIndex(t, 16);
  }

  lemma ScheduleStep(block: seq<Word>, m: seq<Word>, t: nat)
    requires |m| == 16 && t >= 16 && Holds(block, m, t)
    ensures Blk(block, t % 16) == W(m, t)
    ensures Holds(block[t % 16 := W(m, t)], m, t + 1)
  {
    BlkIs(block, t);
    OldWords(block, m, t);
    NewWord(block, m, t);
    NextW(m, t);
    hide *;
  }

  lemma OldWords(block: seq<Word>, m: seq<Word>, t: nat)
    requires |m| == 16 && t >= 16 && Holds(block, m, t)
    ensures |block| == 16
    ensures block[(t - 3) % 16] == W(m, t - 3) && block[(t - 8) % 16] == W(m, t - 8)
    ensures block[(t - 14) % 16] == W(m, t - 14) && block[(t - 16) % 16] == W(m, t - 16)
  {
    hide W;
  }

  lemma NewWord(block: seq<Word>, m: seq<Word>, t: nat)
    requires |m| == 16 && t >= 16 && Holds(block, m, t)
    ensures Holds(block[t % 16 := W(m, t)], m, t + 1)
  {
    hide W;
    var block' := block[t % 16 := W(m, t)];
    forall k | t - 15 <= k < t + 1
      ensures block'[k % 16] == W(m, k)
    {
      if k < t {
        OtherIndex(k, t);
      }
    }
  }

  /** The next schedule word replaces the oldest one. */
  method Reschedule(block: array<Word>, i: nat, ghost m: seq<Word>, ghost t: nat)
    requires block.Length == 16 && |m| == 16 && t >= 16 && i == t % 16 && Holds(block[..], m, t)
    modifies block
    ensures block[i] == W(m, t) && Holds(block[..], m, t + 1)
  {
    hide *;
    ScheduleStep(block[..], m, t);
    ghost var before := block[..];
    block[i] := Blk(block[..], i);
    assert block[..] == before[i := W(m, t)];
  }

  method R0(block: array<Word>, v: Word, w: Word, x: Word, y: Word, z: Word, i: nat,
            ghost h: Regs, ghost m: seq<Word>, ghost t: nat)
    returns (w': Word, z': Word)
    requires block.Length == 16 && |m| == 16 && i == t < 16 && Holds(block[..], m, t)
    requires Rounds(h, m, t) == Regs(v, w, x, y, z)
    ensures Rounds(h, m, t + 1) == Regs(z', v, w', x, y) && Holds(block[..], m, t + 1)
  {
    hide *;
    HoldsCurrent(block[..], m, t);
    ChoicePhase(t, w, x, y);
    RoundForm(h, m, t, v, w, x, y, z);
    z' := Accumulate(z, Choice(w, x, y), block[i], 0x5a827999, Rotl(v, 5));
    w' := Rotl(w, 30);
  }

  method R1(block: array<Word>, v: Word, w: Word, x: Word, y: Word, z: Word, i: nat,
            ghost h: Regs, ghost m: seq<Word>, ghost t: nat)
    returns (w': Word, z': Word)
    requires block.Length == 16 && |m| == 16 && 16 <= t < 20 && i == t % 16 && Holds(block[..], m, t)
    requires Rounds(h, m, t) == Regs(v, w, x, y, z)
    modifies block
    ensures Rounds(h, m, t + 1) == Regs(z', v, w', x, y) && Holds(block[..], m, t + 1)
  {
    hide *;
    Reschedule(block, i, m, t);
    ChoicePhase(t, w, x, y);
    RoundForm(h, m, t, v, w, x, y, z);
    z' := Accumulate(z, Choice(w, x, y), block[i], 0x5a827999, Rotl(v, 5));
    w' := Rotl(w, 30);
  }

  method R2(block: array<Word>, v: Word, w: Word, x: Word, y: Word, z: Word, i: nat,
            ghost h: Regs, ghost m: seq<Word>, ghost t: nat)
    returns (w': Word, z': Word)
    requires block.Length == 16 && |m| == 16 && 20 <= t < 40 && i == t % 16 && Holds(block[..], m, t)
    requires Rounds(h, m, t) == Regs(v, w, x, y, z)
    modifies block
    ensures Rounds(h, m, t + 1) == Regs(z', v, w', x, y) && Holds(block[..], m, t + 1)
  {
    hide *;
    Reschedule(block, i, m, t);
    ParityPhase(t, w, x, y);
    RoundForm(h, m, t, v, w, x, y, z);
    z' := Accumulate(z, Parity(w, x, y), block[i], 0x6ed9eba1, Rotl(v, 5));
    w' := Rotl(w, 30);
  }

  method R3(block: array<Word>, v: Word, w: Word, x: Word, y: Word, z: Word, i: nat,
            ghost h: Regs, ghost m: seq<Word>, ghost t: nat)
    returns (w': Word, z': Word)
    requires block.Length == 16 && |m| == 16 && 40 <= t < 60 && i == t % 16 && Holds(block[..], m, t)
    requires Rounds(h, m, t) == Regs(v, w, x, y, z)
    modifies block
    ensures Rounds(h, m, t + 1) == Regs(z', v, w', x, y) && Holds(block[..], m, t + 1)
  {
    hide *;
    Reschedule(block, i, m, t);
    MajorityPhase(t, w, x, y);
    RoundForm(h, m, t, v, w, x, y, z);
    z' := Accumulate(z, Majority(w, x, y), block[i], 0x8f1bbcdc, Rotl(v, 5));
    w' := Rotl(w, 30);
  }

  method R4(block: array<Word>, v: Word, w: Word, x: Word, y: Word, z: Word, i: nat,
            ghost h: Regs, ghost m: seq<Word>, ghost t: nat)
    returns (w': Word, z': Word)
    requires block.Length == 16 && |m| == 16 && 60 <= t < 80 && i == t % 16 && Holds(block[..], m, t)
    requires Rounds(h, m, t) == Regs(v, w, x, y, z)
    modifies block
    ensures Rounds(h, m, t + 1) == Regs(z', v, w', x, y) && Holds(block[..], m, t + 1)
  {
    hide *;
    Reschedule(block, i, m, t);
    ParityPhase(t, w, x, y);
    RoundForm(h, m, t, v, w, x, y, z);
    z' := Accumulate(z, Parity(w, x, y), block[i], 0xca62c1d6, Rotl(v, 5));
    w' := Rotl(w, 30);
  }

  function RegsOf(digest: seq<Word>): Regs
    requires |digest| == 5
  {
    Regs(digest[0], digest[1], digest[2], digest[3], digest[4])
  }

  method Rounds0To19(block: array<Word>, a0: Word, b0: Word, c0: Word, d0: Word, e0: Word,
                     ghost h: Regs, ghost m: seq<Word>)
    returns (a: Word, b: Word, c: Word, d: Word, e: Word)
    requires block.Length == 16 && |m| == 16 && Holds(block[..], m, 0)
    requires Rounds(h, m, 0) == Regs(a0, b0, c0, d0, e0)
    modifies block
    ensures Holds(block[..], m, 20) && Rounds(h, m, 20) == Regs(a, b, c, d, e)
  {
    hide *;
    a, b, c, d, e := a0, b0, c0, d0, e0;
    b, e := R0(block, a, b, c, d, e, 0, h, m, 0);
    a, d := R0(block, e, a, b, c, d, 1, h, m, 1);
    e, c := R0(block, d, e, a, b, c, 2, h, m, 2);
    d, b := R0(block, c, d, e, a, b, 3, h, m, 3);
    c, a := R0(block, b, c, d, e, a, 4, h, m, 4);
    b, e := R0(block, a, b, c, d, e, 5, h, m, 5);
    a, d := R0(block, e, a, b, c, d, 6, h, m, 6);
    e, c := R0(block, d, e, a, b, c, 7, h, m, 7);
    d, b := R0(block, c, d, e, a, b, 8, h, m, 8);
    c, a := R0(block, b, c, d, e, a, 9, h, m, 9);
    b, e := R0(block, a, b, c, d, e, 10, h, m, 10);
    a, d := R0(block, e, a, b, c, d, 11, h, m, 11);
    e, c := R0(block, d, e, a, b, c, 12, h, m, 12);
    d, b := R0(block, c, d, e, a, b, 13, h, m, 13);
    c, a := R0(block, b, c, d, e, a, 14, h, m, 14);
    b, e := R0(block, a, b, c, d, e, 15, h, m, 15);
    a, d := R1(block, e, a, b, c, d, 0, h, m, 16);
    e, c := R1(block, d, e, a, b, c, 1, h, m, 17);
    d, b := R1(block, c, d, e, a, b, 2, h, m, 18);
    c, a := R1(block, b, c, d, e, a, 3, h, m, 19);
  }

  method Rounds20To39(block: array<Word>, a0: Word, b0: Word, c0: Word, d0: Word, e0: Word,
                     ghost h: Regs, ghost m: seq<Word>)
    returns (a: Word, b: Word, c: Word, d: Word, e: Word)
    requires block.Length == 16 && |m| == 16 && Holds(block[..], m, 20)
    requires Rounds(h, m, 20) == Regs(a0, b0, c0, d0, e0)
    modifies block
    ensures Holds(block[..], m, 40) && Rounds(h, m, 40) == Regs(a, b, c, d, e)
  {
    hide *;
    a, b, c, d, e := a0, b0, c0, d0, e0;
    b, e := R2(block, a, b, c, d, e, 4, h, m, 20);
    a, d := R2(block, e, a, b, c, d, 5, h, m, 21);
    e, c := R2(block, d, e, a, b, c, 6, h, m, 22);
    d, b := R2(block, c, d, e, a, b, 7, h, m, 23);
    c, a := R2(block, b, c, d, e, a, 8, h, m, 24);
    b, e := R2(block, a, b, c, d, e, 9, h, m, 25);
    a, d := R2(block, e, a, b, c, d, 10, h, m, 26);
    e, c := R2(block, d, e, a, b, c, 11, h, m, 27);
    d, b := R2(block, c, d, e, a, b, 12, h, m, 28);
    c, a := R2(block, b, c, d, e, a, 13, h, m, 29);
    b, e := R2(block, a, b, c, d, e, 14, h, m, 30);
    a, d := R2(block, e, a, b, c, d, 15, h, m, 31);
    e, c := R2(block, d, e, a, b, c, 0, h, m, 32);
    d, b := R2(block, c, d, e, a, b, 1, h, m, 33);
    c, a := R2(block, b, c, d, e, a, 2, h, m, 34);
    b, e := R2(block, a, b, c, d, e, 3, h, m, 35);
    a, d := R2(block, e, a, b, c, d, 4, h, m, 36);
    e, c := R2(block, d, e, a, b, c, 5, h, m, 37);
    d, b := R2(block, c, d, e, a, b, 6, h, m, 38);
    c, a := R2(block, b, c, d, e, a, 7, h, m, 39);
  }

  method Rounds40To59(block: array<Word>, a0: Word, b0: Word, c0: Word, d0: Word, e0: Word,
                     ghost h: Regs, ghost m: seq<Word>)
    returns (a: Word, b: Word, c: Word, d: Word, e: Word)
    requires block.Length == 16 && |m| == 16 && Holds(block[..], m, 40)
    requires Rounds(h, m, 40) == Regs(a0, b0, c0, d0, e0)
    modifies block
    ensures Holds(block[..], m, 60) && Rounds(h, m, 60) == Regs(a, b, c, d, e)
  {
    hide *;
    a, b, c, d, e := a0, b0, c0, d0, e0;
    b, e := R3(block, a, b, c, d, e, 8, h, m, 40);
    a, d := R3(block, e, a, b, c, d, 9, h, m, 41);
    e, c := R3(block, d, e, a, b, c, 10, h, m, 42);
    d, b := R3(block, c, d, e, a, b, 11, h, m, 43);
    c, a := R3(block, b, c, d, e, a, 12, h, m, 44);
    b, e := R3(block, a, b, c, d, e, 13, h, m, 45);
    a, d := R3(block, e, a, b, c, d, 14, h, m, 46);
    e, c := R3(block, d, e, a, b, c, 15, h, m, 47);
    d, b := R3(block, c, d, e, a, b, 0, h, m, 48);
    c, a := R3(block, b, c, d, e, a, 1, h, m, 49);
    b, e := R3(block, a, b, c, d, e, 2, h, m, 50);
    a, d := R3(block, e, a, b, c, d, 3, h, m, 51);
    e, c := R3(block, d, e, a, b, c, 4, h, m, 52);
    d, b := R3(block, c, d, e, a, b, 5, h, m, 53);
    c, a := R3(block, b, c, d, e, a, 6, h, m, 54);
    b, e := R3(block, a, b, c, d, e, 7, h, m, 55);
    a, d := R3(block, e, a, b, c, d, 8, h, m, 56);
    e, c := R3(block, d, e, a, b, c, 9, h, m, 57);
    d, b := R3(block, c, d, e, a, b, 10, h, m, 58);
    c, a := R3(block, b, c, d, e, a, 11, h, m, 59);
  }

  method Rounds60To79(block: array<Word>, a0: Word, b0: Word, c0: Word, d0: Word, e0: Word,
                     ghost h: Regs, ghost m: seq<Word>)
    returns (a: Word, b: Word, c: Word, d: Word, e: Word)
    requires block.Length == 16 && |m| == 16 && Holds(block[..], m, 60)
    requires Rounds(h, m, 60) == Regs(a0, b0, c0, d0, e0)
    modifies block
    ensures Holds(block[..], m, 80) && Rounds(h, m, 80) == Regs(a, b, c, d, e)
  {
    hide *;
    a, b, c, d, e := a0, b0, c0, d0, e0;
    b, e := R4(block, a, b, c, d, e, 12, h, m, 60);
    a, d := R4(block, e, a, b, c, d, 13, h, m, 61);
    e, c := R4(block, d, e, a, b, c, 14, h, m, 62);
    d, b := R4(block, c, d, e, a, b, 15, h, m, 63);
    c, a := R4(block, b, c, d, e, a, 0, h, m, 64);
    b, e := R4(block, a, b, c, d, e, 1, h, m, 65);
    a, d := R4(block, e, a, b, c, d, 2, h, m, 66);
    e, c := R4(block, d, e, a, b, c, 3, h, m, 67);
    d, b := R4(block, c, d, e, a, b, 4, h, m, 68);
    c, a := R4(block, b, c, d, e, a, 5, h, m, 69);
    b, e := R4(block, a, b, c, d, e, 6, h, m, 70);
    a, d := R4(block, e, a, b, c, d, 7, h, m, 71);
    e, c := R4(block, d, e, a, b, c, 8, h, m, 72);
    d, b := R4(block, c, d, e, a, b, 9, h, m, 73);
    c, a := R4(block, b, c, d, e, a, 10, h, m, 74);
    b, e := R4(block, a, b, c, d, e, 11, h, m, 75);
    a, d := R4(block, e, a, b, c, d, 12, h, m, 76);
    e, c := R4(block, d, e, a, b, c, 13, h, m, 77);
    d, b := R4(block, c, d, e, a, b, 14, h, m, 78);
    c, a := R4(block, b, c, d, e, a, 15, h, m, 79);
  }

  lemma RoundsEnds(h: Regs, m: seq<Word>)
    requires |m| == 16
    ensures Rounds(h, m, 0) == h && Compress(h, m) == Add(h, Rounds(h, m, 80))
  {
    hide Round, W, Add;
  }

  /** Adds the working variables back into the digest. */
  method AddInto(digest: array<Word>, a: Word, b: Word, c: Word, d: Word, e: Word)
    requires digest.Length == 5
    modifies digest
    ensures RegsOf(digest[..]) == Add(RegsOf(old(digest[..])), Regs(a, b, c, d, e))
  {
    hide Plus;
    digest[0] := Plus(digest[0], a);
    digest[1] := Plus(digest[1], b);
    digest[2] := Plus(digest[2], c);
    digest[3] := Plus(digest[3], d);
    digest[4] := Plus(digest[4], e);
  }

  /** The 80 rounds, in four runs of 20, each a step of the standard's loop on renamed registers. */
  method Transform(digest: array<Word>, block: array<Word>, transforms: nat) returns (count: nat)
    requires digest.Length == 5 && block.Length == 16 && digest != block
    modifies digest, block
    ensures RegsOf(digest[..]) == Compress(RegsOf(old(digest[..])), old(block[..]))
    ensures count == (transforms + 1) % Bytes.U64_LIMIT
  {
    hide Rounds, W, Holds, Add, Compress;
    ghost var h, m := RegsOf(digest[..]), block[..];
    HoldsBlock(m);
    RoundsEnds(h, m);
    var a, b, c, d, e := digest[0], digest[1], digest[2], digest[3], digest[4];
    a, b, c, d, e := Rounds0To19(block, a, b, c, d, e, h, m);
    a, b, c, d, e := Rounds20To39(block, a, b, c, d, e, h, m);
    a, b, c, d, e := Rounds40To59(block, a, b, c, d, e, h, m);
    a, b, c, d, e := Rounds60To79(block, a, b, c, d, e, h, m);
    AddInto(digest, a, b, c, d, e);
    count := (transforms + 1) % Bytes.U64_LIMIT;
  }

  // ---------------------------------------------------------------- bytes to words

  lemma WordForm(b0: Byte, b1: Byte, b2: Byte, b3: Byte)
    ensures WordOf([b0, b1, b2, b3]) == Packed(b0, b1, b2, b3)
  {
    assert Append(Append(Append(b0 as Word, b1), b2), b3) == Packed(b0, b1, b2, b3);
  }

  /** A block word as the code puts it together. */
  function Packed(b0: Byte, b1: Byte, b2: Byte, b3: Byte): Word {
    ((b3 as Word) & 0xff)
    | (((b2 as Word) & 0xff) << 8)
    | (((b1 as Word) & 0xff) << 16)
    | (((b0 as Word) & 0xff) << 24)
  }

  lemma FourBytes(bytes: seq<Byte>, j: nat)
    requires j + 4 <= |bytes|
    ensures bytes[j..j + 4] == [bytes[j], bytes[j + 1], bytes[j + 2], bytes[j + 3]]
  {
  }

  lemma WordAt(bytes: seq<Byte>, i: nat)
    requires |bytes| == BLOCK_BYTES && i < 16
    ensures WordsOf(bytes)[i] == Packed(bytes[4 * i], bytes[4 * i + 1], bytes[4 * i + 2], bytes[4 * i + 3])
  {
    hide Packed, WordOf;
    FourBytes(bytes, 4 * i);
    WordForm(bytes[4 * i], bytes[4 * i + 1], bytes[4 * i + 2], bytes[4 * i + 3]);
  }

  method BufferToBlock(buffer: seq<Byte>, block: array<Word>)
    requires |buffer| == BLOCK_BYTES && block.Length == 16
    modifies block
    ensures block[..] == WordsOf(buffer)
  {
    hide Packed, WordOf, WordsOf;
    for i := 0 to 16
      invariant forall j | 0 <= j < i :: block[j] == WordsOf(buffer)[j]
    {
      block[i] := Packed(buffer[4 * i], buffer[4 * i + 1], buffer[4 * i + 2], buffer[4 * i + 3]);
      WordAt(buffer, i);
    }
  }

  /** The two last words of a padded message are the halves of its length. */
  lemma LengthWords(bits: bv64)
    ensures WordOf(LengthBytes(bits)[0..4]) == (bits >> 32) as Word
    ensures WordOf(LengthBytes(bits)[4..8]) == (bits & 0xffff_ffff) as Word
  {
    var b := LengthBytes(bits);
    assert b[0..4] == [b[0], b[1], b[2], b[3]];
    assert b[4..8] == [b[4], b[5], b[6], b[7]];
  }

  lemma ZeroWord()
    ensures WordOf([0, 0, 0, 0]) == 0
  {
  }

  // ---------------------------------------------------------------- padding

  /** Everything but the length words of a block. */
  lemma LastBlock(front: seq<Byte>, bits: bv64)
    requires |front| == 56
    ensures var words := WordsOf(front + Zeros(8));
            WordsOf(front + LengthBytes(bits)) == words[14 := (bits >> 32) as Word][15 := (bits & 0xffff_ffff) as Word]
  {
    hide WordOf;
    var padded, plain := front + LengthBytes(bits), front + Zeros(8);
    LengthWords(bits);
    forall i | 0 <= i < 14
      ensures WordsOf(padded)[i] == WordsOf(plain)[i]
    {
      assert padded[4 * i..4 * i + 4] == plain[4 * i..4 * i + 4];
    }
    assert padded[56..60] == LengthBytes(bits)[0..4];
    assert padded[60..64] == LengthBytes(bits)[4..8];
  }

  lemma CountBlock(n: nat)
    requires n % BLOCK_BYTES == 0
    ensures (n + BLOCK_BYTES) % BLOCK_BYTES == 0
    ensures ((n / BLOCK_BYTES) % Bytes.U64_LIMIT + 1) % Bytes.U64_LIMIT ==
            ((n + BLOCK_BYTES) / BLOCK_BYTES) % Bytes.U64_LIMIT
  {
    assert (n + BLOCK_BYTES) / BLOCK_BYTES == n / BLOCK_BYTES + 1;
  }

  lemma HashAppend(s: seq<Byte>, block: seq<Byte>)
    requires |s| % BLOCK_BYTES == 0 && |block| == BLOCK_BYTES
    ensures HashBlocks(s + block) == Compress(HashBlocks(s), WordsOf(block))
  {
    assert (s + block)[..|s|] == s;
    assert (s + block)[|s|..] == block;
  }

  /** A remainder of at most 55 bytes shares its block with the length. */
  lemma PadInOneBlock(head: seq<Byte>, rest: seq<Byte>)
    requires |head| % BLOCK_BYTES == 0 && |rest| <= 55
    ensures var front := rest + [0x80] + Zeros(55 - |rest|);
            var bits := BitLength(|head + rest|);
            Sha1(head + rest) == Compress(HashBlocks(head), WordsOf(front + LengthBytes(bits)))
  {
    hide Compress, WordsOf, LengthBytes, BitLength, HashBlocks;
    var front := rest + [0x80] + Zeros(55 - |rest|);
    var bits := BitLength(|head + rest|);
    assert PadZeros(|head + rest|) == 55 - |rest|;
    assert Pad(head + rest) == head + (front + LengthBytes(bits));
    HashAppend(head, front + LengthBytes(bits));
  }

  /** A longer remainder fills its own block, and the length goes into one more. */
  lemma PadInTwoBlocks(head: seq<Byte>, rest: seq<Byte>)
    requires |head| % BLOCK_BYTES == 0 && 56 <= |rest| < BLOCK_BYTES
    ensures var first := rest + [0x80] + Zeros(63 - |rest|);
            var bits := BitLength(|head + rest|);
            Sha1(head + rest) ==
            Compress(Compress(HashBlocks(head), WordsOf(first)), WordsOf(Zeros(56) + LengthBytes(bits)))
  {
    hide Compress, WordsOf, LengthBytes, BitLength, HashBlocks;
    var first := rest + [0x80] + Zeros(63 - |rest|);
    var bits := BitLength(|head + rest|);
    assert PadZeros(|head + rest|) == 63 - |rest| + 56;
    assert Zeros(63 - |rest| + 56) == Zeros(63 - |rest|) + Zeros(56);
    assert Pad(head + rest) == (head + first) + (Zeros(56) + LengthBytes(bits));
    HashAppend(head, first);
    HashAppend(head + first, Zeros(56) + LengthBytes(bits));
  }

  // ---------------------------------------------------------------- hexadecimal text

  /** A number as a stream prints it in base 16. */
  function MinimalHex(n: nat): (text: string)
    ensures text != ""
  {
    if n < 16 then [HEX[n]] else MinimalHex(n / 16) + [HEX[n % 16]]
  }

  /** A field of the given width filled with zeros. */
  function ZeroFilled(text: string, width: nat): string
    decreases width - |text|
  {
    if |text| >= width then text else ZeroFilled(['0'] + text, width)
  }

  function Pow16(k: nat): nat {
    if k == 0 then 1 else 16 * Pow16(k - 1)
  }

  lemma {:induction false} LeadingZero(n: nat, width: nat)
    requires n < Pow16(width)
    ensures HexDigits(n, width + 1) == ['0'] + HexDigits(n, width)
    decreases width
  {
    if width == 0 {
      assert HexDigits(0, 1) == HexDigits(0, 0) + ['0'];
    } else {
      assert n / 16 < Pow16(width - 1);
      LeadingZero(n / 16, width - 1);
    }
  }

  lemma MinimalHexNext(n: nat, k: nat)
    requires n >= 16 && n / 16 < Pow16(k)
    requires |MinimalHex(n / 16)| == k && MinimalHex(n / 16) == HexDigits(n / 16, k)
    ensures |MinimalHex(n)| == k + 1 && MinimalHex(n) == HexDigits(n, k + 1) && n < Pow16(k + 1)
  {
    assert MinimalHex(n) == MinimalHex(n / 16) + [HEX[n % 16]];
    assert HexDigits(n, k + 1) == HexDigits(n / 16, k) + [HEX[n % 16]];
    assert Pow16(k + 1) == 16 * Pow16(k);
  }

  lemma Shrinks(n: nat, width: nat)
    requires width > 0 && n >= 16 && n < Pow16(width)
    ensures width > 1 && n / 16 < Pow16(width - 1)
  {
    assert Pow16(width) == 16 * Pow16(width - 1);
  }

  lemma MinimalHexSmall(n: nat)
    requires n < 16
    ensures |MinimalHex(n)| == 1 && MinimalHex(n) == HexDigits(n, 1) && n < Pow16(1)
  {
    assert HexDigits(n, 1) == HexDigits(0, 0) + [HEX[n]];
    assert Pow16(1) == 16;
  }

  lemma {:induction false} MinimalHexFits(n: nat, width: nat)
    requires width > 0 && n < Pow16(width)
    ensures |MinimalHex(n)| <= width && MinimalHex(n) == HexDigits(n, |MinimalHex(n)|)
    ensures n < Pow16(|MinimalHex(n)|)
    decreases width
  {
    if n >= 16 {
      Shrinks(n, width);
      hide *;
      MinimalHexFits(n / 16, width - 1);
      MinimalHexNext(n, |MinimalHex(n / 16)|);
    } else {
      MinimalHexSmall(n);
      hide *;
    }
  }

  lemma {:induction false} FillKeeps(n: nat, width: nat, k: nat)
    requires k <= width && n < Pow16(k)
    ensures ZeroFilled(HexDigits(n, k), width) == HexDigits(n, width)
    decreases width - k
  {
    if k < width {
      LeadingZero(n, k);
      FillKeeps(n, width, k + 1);
    }
  }

  /** Printing in a zero-filled field of eight gives the eight digits of the word. */
  lemma PrintedWord(w: Word)
    ensures ZeroFilled(MinimalHex(w as nat), 8) == HexDigits(w as nat, 8)
  {
    var n := w as nat;
    assert Pow16(4) == 0x1_0000;
    assert Pow16(8) == Bytes.U32_LIMIT;
    MinimalHexFits(n, 8);
    FillKeeps(n, 8, |MinimalHex(n)|);
  }

  // ---------------------------------------------------------------- the object

  /** The registers and the count when `head`, a number of whole blocks, has been hashed. */
  ghost predicate Hashed(head: seq<Byte>, digest: seq<Word>, transforms: nat) {
    && |digest| == 5 && |head| % BLOCK_BYTES == 0
    && RegsOf(digest) == HashBlocks(head)
    && transforms == (|head| / BLOCK_BYTES) % Bytes.U64_LIMIT
  }

  lemma CountOf(head: seq<Byte>, digest: seq<Word>, transforms: nat)
    requires Hashed(head, digest, transforms)
    ensures |head| % BLOCK_BYTES == 0 && transforms == (|head| / BLOCK_BYTES) % Bytes.U64_LIMIT
  {
    hide HashBlocks, RegsOf;
  }

  lemma HashedNothing(digest: seq<Word>)
    requires |digest| == 5 && RegsOf(digest) == IV
    ensures Hashed([], digest, 0)
  {
    assert HashBlocks([]) == IV;
    hide HashBlocks, RegsOf;
  }

  lemma HashedMore(head: seq<Byte>, block: seq<Byte>, digest: seq<Word>, digest': seq<Word>, transforms: nat)
    requires Hashed(head, digest, transforms) && |block| == BLOCK_BYTES && |digest'| == 5
    requires RegsOf(digest') == Compress(RegsOf(digest), WordsOf(block))
    ensures Hashed(head + block, digest', (transforms + 1) % Bytes.U64_LIMIT)
  {
    HashAppend(head, block);
    CountBlock(|head|);
    hide HashBlocks, RegsOf, Compress, WordsOf;
  }

  class SHA1 {
    const digest: array<Word>
    var buffer: seq<Byte>
    var transforms: nat

    /** Everything fed in since the last reset. */
    ghost var data: seq<Byte>

    ghost predicate Valid()
      reads this, digest
    {
      var whole := |data| - |buffer|;
      && digest.Length == 5
      && |buffer| < BLOCK_BYTES && whole >= 0 && buffer == data[whole..]
      && Hashed(data[..whole], digest[..], transforms)
    }

    method SetInitial()
      requires digest.Length == 5
      modifies digest
      ensures RegsOf(digest[..]) == IV
    {
      digest[0] := 0x67452301;
      digest[1] := 0xefcdab89;
      digest[2] := 0x98badcfe;
      digest[3] := 0x10325476;
      digest[4] := 0xc3d2e1f0;
    }

    method Reset()
      requires digest.Length == 5
      modifies this, digest
      ensures Valid() && data == []
    {
      hide Hashed, RegsOf;
      buffer := [];
      transforms := 0;
      data := [];
      SetInitial();
      HashedNothing(digest[..]);
      assert data[..0] == [];
    }

    constructor ()
      ensures Valid() && data == [] && fresh(digest)
    {
      digest := new Word[5];
      buffer, transforms, data := [], 0, [];
      new;
      Reset();
    }

    /** Hashes the full buffer, and empties it. */
    method TakeBlock(ghost head: seq<Byte>)
      requires digest.Length == 5 && |buffer| == BLOCK_BYTES && data == head + buffer
      requires Hashed(head, digest[..], transforms)
      modifies `buffer, `transforms, digest
      ensures Valid() && buffer == []
    {
      hide Compress, WordsOf, Hashed, RegsOf;
      ghost var before, block' := digest[..], buffer;
      var block := new Word[16];
      BufferToBlock(buffer, block);
      assert digest[..] == before;
      transforms := Transform(digest, block, transforms);
      buffer := [];
      HashedMore(head, block', before, digest[..], old(transforms));
      assert data[..|data|] == data;
    }

    /** Feeds in a string, filling the buffer to a block at a time. */
    method Update(s: seq<Byte>)
      requires Valid()
      modifies this, digest
      ensures Valid() && data == old(data) + s
    {
      hide Hashed;
      var pos := 0;
      assert s[..0] == [];
      while true
        invariant Valid() && pos <= |s| && data == old(data) + s[..pos]
        decreases |s| - pos
      {
        ghost var head := data[..|data| - |buffer|];
        var room := BLOCK_BYTES - |buffer|;
        var count := if room <= |s| - pos then room else |s| - pos;
        assert s[..pos + count] == s[..pos] + s[pos..pos + count];
        buffer := buffer + s[pos..pos + count];
        data := data + s[pos..pos + count];
        pos := pos + count;
        assert data == head + buffer;
        if |buffer| != BLOCK_BYTES {
          assert s[..pos] == s;
          return;
        }
        TakeBlock(head);
      }
    }
  
    /** The number of bits fed in, in 64-bit arithmetic. */
    method TotalBits() returns (bits: bv64)
      requires Valid()
      ensures bits == BitLength(|data|)
    {
      ghost var n := |data|;
      TotalOf(data[..n - |buffer|], digest[..], transforms, |buffer|);
      hide *;
      bits := Bits(transforms, |buffer|);
    }

    /** Appends the bit `1`, and zeros up to the end of the block. */
    method FillBuffer()
      requires |buffer| < BLOCK_BYTES
      modifies `buffer
      ensures |buffer| == BLOCK_BYTES && buffer == old(buffer) + [0x80] + Zeros(63 - |old(buffer)|)
    {
      buffer := buffer + [0x80];
      assert buffer == old(buffer) + [0x80] + Zeros(0);
      while |buffer| < BLOCK_BYTES
        invariant |old(buffer)| < |buffer| <= BLOCK_BYTES
        invariant buffer == old(buffer) + [0x80] + Zeros(|buffer| - |old(buffer)| - 1)
      {
        buffer := buffer + [0];
        assert Zeros(|buffer| - |old(buffer)| - 1) == Zeros(|buffer| - |old(buffer)| - 2) + [0];
      }
    }

    method PrintDigest() returns (text: string)
      requires digest.Length == 5
      ensures text == Hex(RegsOf(digest[..]))
    {
      hide HexDigits, MinimalHex, ZeroFilled;
      text := "";
      ghost var printed := "";
      for i := 0 to 5
        invariant text == HexWords(digest[..i])
      {
        PrintedWord(digest[i]);
        text := text + ZeroFilled(MinimalHex(digest[i] as nat), 8);
        assert digest[..i + 1][..i] == digest[..i];
      }
      HexOfFive(digest[..]);
      assert digest[..5] == digest[..];
    }

    /** The words of the last block are those of its bytes, with the length in its two last words. */
    method PutLength(block: array<Word>, bits: bv64, ghost front: seq<Byte>)
      requires block.Length == 16 && |front| == 56
      requires forall i | 0 <= i < 14 :: block[i] == WordsOf(front + Zeros(8))[i]
      modifies block
      ensures block[..] == WordsOf(front + LengthBytes(bits))
    {
      hide WordsOf, LengthBytes;
      LastBlock(front, bits);
      block[15] := (bits & 0xffff_ffff) as Word;
      block[14] := (bits >> 32) as Word;
    }

    /** Pads, hashes the last block or two, prints the digest, and starts over. */
    method Final() returns (text: string)
      requires Valid()
      modifies this, digest
      ensures text == Sha1Hex(old(data))
      ensures Valid() && data == []
    {
      hide HashBlocks, Compress, WordsOf, BitLength, LengthBytes, Hex, RegsOf, Sha1;
      var bits := TotalBits();
      var origSize := |buffer| + 1;
      ghost var head, rest := data[..|data| - |buffer|], buffer;
      assert head + rest == data;
      FillBuffer();
      var block := new Word[16];
      BufferToBlock(buffer, block);
      if origSize > BLOCK_BYTES - 8 {
        transforms := Transform(digest, block, transforms);
        ghost var first := digest[..];
        for i := 0 to 14
          modifies block
          invariant forall j | 0 <= j < i :: block[j] == 0
        {
          block[i] := 0;
        }
        ZeroBlock();
        PutLength(block, bits, Zeros(56));
        PadInTwoBlocks(head, rest);
        assert digest[..] == first;
        assert Sha1(data) == Compress(RegsOf(digest[..]), block[..]);
      } else {
        assert rest + [0x80] + Zeros(55 - |rest|) + Zeros(8) == buffer;
        PutLength(block, bits, rest + [0x80] + Zeros(55 - |rest|));
        PadInOneBlock(head, rest);
        assert Sha1(data) == Compress(RegsOf(digest[..]), block[..]);
      }
      transforms := Transform(digest, block, transforms);
      assert RegsOf(digest[..]) == Sha1(data);
      text := PrintDigest();
      Reset();
    }
  }

  function HexWords(words: seq<Word>): string {
    if words == [] then ""
    else HexWords(words[..|words| - 1]) + HexDigits(words[|words| - 1] as nat, 8)
  }

  lemma HexOfFive(digest: seq<Word>)
    requires |digest| == 5
    ensures HexWords(digest) == Hex(RegsOf(digest))
  {
    hide HexDigits;
    assert digest[..4][..3] == digest[..3];
    assert digest[..3][..2] == digest[..2];
    assert digest[..2][..1] == digest[..1];
    assert HexWords(digest[..1]) == HexDigits(digest[0] as nat, 8);
    assert HexWords(digest[..2]) == HexWords(digest[..1]) + HexDigits(digest[1] as nat, 8);
    assert HexWords(digest[..3]) == HexWords(digest[..2]) + HexDigits(digest[2] as nat, 8);
    assert HexWords(digest[..4]) == HexWords(digest[..3]) + HexDigits(digest[3] as nat, 8);
    assert HexWords(digest) == HexWords(digest[..4]) + HexDigits(digest[4] as nat, 8);
  }

  /** Counting blocks modulo 2^64 does not disturb the number of bits modulo 2^64. */
  lemma CountWraps(blocks: nat, rest: nat)
    ensures ((blocks % Bytes.U64_LIMIT) * BLOCK_BYTES + rest) * 8 % Bytes.U64_LIMIT ==
            8 * (BLOCK_BYTES * blocks + rest) % Bytes.U64_LIMIT
  {
    var q, r := blocks / Bytes.U64_LIMIT, blocks % Bytes.U64_LIMIT;
    assert blocks == q * Bytes.U64_LIMIT + r;
    assert 8 * (BLOCK_BYTES * blocks + rest) == (r * BLOCK_BYTES + rest) * 8 + (512 * q) * Bytes.U64_LIMIT;
    AddMultiple((r * BLOCK_BYTES + rest) * 8, 512 * q);
  }

  lemma BitsCounted(transforms: nat, n: nat, rest: nat)
    requires rest <= n && (n - rest) % BLOCK_BYTES == 0 && transforms == ((n - rest) / BLOCK_BYTES) % Bytes.U64_LIMIT
    ensures (transforms * BLOCK_BYTES + rest) * 8 % Bytes.U64_LIMIT == 8 * n % Bytes.U64_LIMIT
  {
    CountWraps((n - rest) / BLOCK_BYTES, rest);
    assert n == BLOCK_BYTES * ((n - rest) / BLOCK_BYTES) + rest;
  }

  lemma {:induction false} AddMultiple(n: nat, k: nat)
    ensures (n + k * Bytes.U64_LIMIT) % Bytes.U64_LIMIT == n % Bytes.U64_LIMIT
  {
    if k > 0 {
      AddMultiple(n, k - 1);
      assert (n + (k - 1) * Bytes.U64_LIMIT + Bytes.U64_LIMIT) % Bytes.U64_LIMIT ==
             (n + (k - 1) * Bytes.U64_LIMIT) % Bytes.U64_LIMIT;
    }
  }

  /** The number of bits as the object counts it. */
  function Bits(transforms: nat, rest: nat): bv64 {
    Low64((transforms * BLOCK_BYTES + rest) * 8)
  }

  lemma LowSame(a: nat, b: nat)
    requires a % Bytes.U64_LIMIT == b % Bytes.U64_LIMIT
    ensures Low64(a) == Low64(b)
  {
  }

  lemma TotalOf(head: seq<Byte>, digest: seq<Word>, transforms: nat, rest: nat)
    requires Hashed(head, digest, transforms)
    ensures Bits(transforms, rest) == BitLength(|head| + rest)
  {
    CountOf(head, digest, transforms);
    BitsCounted(transforms, |head| + rest, rest);
    LowSame((transforms * BLOCK_BYTES + rest) * 8, 8 * (|head| + rest));
    hide Hashed, Low64;
  }

  lemma ZeroBlock()
    ensures forall i | 0 <= i < 16 :: WordsOf(Zeros(56) + Zeros(8))[i] == 0
  {
    hide WordOf;
    var zeros := Zeros(56) + Zeros(8);
    forall i | 0 <= i < 16
      ensures WordsOf(zeros)[i] == 0
    {
      assert zeros[4 * i..4 * i + 4] == [0, 0, 0, 0];
      ZeroWord();
    }
  }

  /** Hashing a whole stream: the object is made, fed and finished. */
  method FromFile(content: seq<Byte>) returns (text: string)
    ensures text == Sha1Hex(content)
  {
    hide Sha1Hex;
    var checksum := new SHA1();
    checksum.Update(content);
    assert [] + content == content;
    text := checksum.Final();
  }
}
