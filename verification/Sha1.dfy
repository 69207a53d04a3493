/**
 The SHA-1 implementation of Sample4: eighty unrolled steps over renamed registers
 and a message schedule kept in sixteen words, proved against the definition in
 section 6.1.2 of FIPS 180-4, and its streaming and padding, proved against the
 padded message of section 5.1.1.
 */
module Sha1Definition {

  type Word = bv32
  type Byte = bv8

  /** The five words of a hash value, and of the working variables. */
  datatype Hash = Hash(a: Word, b: Word, c: Word, d: Word, e: Word)

  // ---- FIPS 180-4: functions, constants and schedule ----

  function Rotl(x: Word, n: Word): Word
    requires 0 < n < 32
  {
    (x << n) | (x >> (32 - n))
  }

  /** Doubling, with the top bit coming back at the bottom. */
  function Doubled(x: Word): Word {
    x + x + if x >= 0x8000_0000 then 1 else 0
  }

  lemma ShiftsDouble(x: Word)
    ensures (x << 1) | (x >> 31) == x + x + if x >= 0x8000_0000 then 1 else 0
  {
  }

  lemma RotateByOne(x: Word)
    ensures Rotl(x, 1) == Doubled(x)
  {
    ShiftsDouble(x);
    assert Rotl(x, 1) == (x << 1) | (x >> 31);
  }

  lemma RotateByFive(x: Word)
    ensures Rotl(x, 5) == Rotl(Rotl(Rotl(Rotl(Rotl(x, 1), 1), 1), 1), 1)
  {
  }

  lemma RotateByThirty(x: Word)
    ensures Rotl(Rotl(Rotl(x, 30), 1), 1) == x
  {
  }

  /** Rotating left by one bit is doubling, by five bits doubling five times; after thirty bits two more give x back. */
  lemma RotationIsDoubling(x: Word)
    ensures Rotl(x, 1) == Doubled(x)
    ensures Rotl(x, 5) == Doubled(Doubled(Doubled(Doubled(Doubled(x)))))
    ensures Doubled(Doubled(Rotl(x, 30))) == x
  {
    hide Rotl, Doubled;
    RotateByFive(x);
    RotateByThirty(x);
    forall y: Word ensures Rotl(y, 1) == Doubled(y) {
      RotateByOne(y);
    }
  }

  function Ch(x: Word, y: Word, z: Word): Word {
    (x & y) ^ (!x & z)
  }

  function Parity(x: Word, y: Word, z: Word): Word {
    x ^ y ^ z
  }

  function Maj(x: Word, y: Word, z: Word): Word {
    (x & y) ^ (x & z) ^ (y & z)
  }

  /** f_t of section 4.1.1. */
  function F(t: nat, x: Word, y: Word, z: Word): Word {
    if t < 20 then Ch(x, y, z) else if 40 <= t < 60 then Maj(x, y, z) else Parity(x, y, z)
  }

  /** K_t of section 4.2.1. */
  function K(t: nat): Word {
    if t < 20 then 0x5a827999 else if t < 40 then 0x6ed9eba1 else if t < 60 then 0x8f1bbcdc else 0xca62c1d6
  }

  function Xor(a: Word, b: Word, c: Word, d: Word): Word {
    a ^ b ^ c ^ d
  }

  /** W_t, the message schedule of the block m. */
  function Schedule(m: seq<Word>, t: nat): Word
    requires |m| == 16
    decreases t
  {
    if t < 16 then m[t]
    else Rotl(Xor(Schedule(m, t - 3), Schedule(m, t - 8), Schedule(m, t - 14), Schedule(m, t - 16)), 1)
  }

  /** Addition modulo 2^32, of two and of five words. */
  function Add(a: Word, b: Word): Word {
    a + b
  }

  function AddAll(a: Word, b: Word, c: Word, d: Word, e: Word): Word {
    a + b + c + d + e
  }

  /** Step t of the computation. */
  function Round(t: nat, w: Word, h: Hash): Hash {
    Hash(AddAll(Rotl(h.a, 5), F(t, h.b, h.c, h.d), h.e, K(t), w), h.a, Rotl(h.b, 30), h.c, h.d)
  }

  /** The working variables after the first t steps. */
  function Rounds(h: Hash, m: seq<Word>, t: nat): Hash
    requires |m| == 16
  {
    if t == 0 then h else Round(t - 1, Schedule(m, t - 1), Rounds(h, m, t - 1))
  }

  /** The intermediate hash value after one block: eighty steps. */
  function Compress(h: Hash, m: seq<Word>): Hash
    requires |m| == 16
  {
    var r := Rounds(h, m, 80);
    Hash(Add(h.a, r.a), Add(h.b, r.b), Add(h.c, r.c), Add(h.d, r.d), Add(h.e, r.e))
  }

  const INITIAL := Hash(0x67452301, 0xefcdab89, 0x98badcfe, 0x10325476, 0xc3d2e1f0)

  /** The hash value after all whole blocks of a sequence of words. */
  function CompressAll(h: Hash, words: seq<Word>): Hash
    decreases |words|
  {
    if |words| < 16 then h else CompressAll(Compress(h, words[..16]), words[16..])
  }

  // ---- the padded message ----

  function BigEndian(a: Byte, b: Byte, c: Byte, d: Byte): Word {
    (d as Word) | ((c as Word) << 8) | ((b as Word) << 16) | ((a as Word) << 24)
  }

  function WordsOf(bytes: seq<Byte>): (w: seq<Word>)
    ensures |w| == |bytes| / 4
  {
    if |bytes| < 4 then [] else [BigEndian(bytes[0], bytes[1], bytes[2], bytes[3])] + WordsOf(bytes[4..])
  }

  function Zeros(k: nat): (z: seq<Byte>)
    ensures |z| == k
  {
    seq(k, i => 0)
  }

  /** The number of zero bytes after the byte 0x80: it leaves 8 bytes of the last block. */
  function ZeroBytes(length: nat): (k: nat)
    ensures (length + 1 + k) % 64 == 56 && k < 64
  {
    (119 - length % 64) % 64
  }

  function WordOf(x: nat): Word
    requires x < 0x1_0000_0000
  {
    x as bv32
  }

  /** The length in bits as two words; it is taken modulo 2^64, which FIPS 180-4 forbids to matter. */
  function LengthWords(bits: nat): seq<Word> {
    var l := bits % 0x1_0000_0000_0000_0000;
    [WordOf(l / 0x1_0000_0000), WordOf(l % 0x1_0000_0000)]
  }

  /** Message, 0x80, zeros, and the length: a whole number of blocks. */
  function Padded(message: seq<Byte>): seq<Word> {
    WordsOf(message + [0x80] + Zeros(ZeroBytes(|message|))) + LengthWords(8 * |message|)
  }

  function Sha1(message: seq<Byte>): Hash {
    CompressAll(INITIAL, Padded(message))
  }
}

/** transform: the unrolled compression function, refining the definition step by step. */
module Sha1Transform {
  import opened Sha1Definition

  // ---- what holds between two of the eighty steps ----

  /** The registers, in the role they have at step t, are the working variables of the definition. */
  ghost predicate At(h: Hash, m: seq<Word>, t: nat, a: Word, b: Word, c: Word, d: Word, e: Word)
    requires |m| == 16
  {
    Hash(a, b, c, d, e) == Rounds(h, m, t)
  }

  /** Which word of the schedule lies in slot k when t words have been used. */
  function Slot(k: nat, t: nat): nat
    requires k < 16
  {
    if t < 16 then k else t - 1 - (t - 1 - k) % 16
  }

  /** The sixteen words hold the last sixteen of the schedule, each at its index modulo 16. */
  ghost predicate Window(block: seq<Word>, m: seq<Word>, t: nat)
    requires |m| == 16
  {
    |block| == 16 && forall k {:trigger block[k]} :: 0 <= k < 16 ==> block[k] == Schedule(m, Slot(k, t))
  }

  lemma WindowStart(m: seq<Word>)
    requires |m| == 16
    ensures Window(m, m, 0)
  {
    forall k | 0 <= k < 16 ensures m[k] == Schedule(m, Slot(k, 0)) {
      assert Slot(k, 0) == k;
    }
  }

  lemma WindowKept(block: seq<Word>, m: seq<Word>, t: nat)
    requires |m| == 16 && t < 16 && Window(block, m, t)
    ensures Window(block, m, t + 1) && block[t] == Schedule(m, t)
  {
    hide Schedule;
    assert Slot(t, t) == t;
    forall k | 0 <= k < 16 ensures block[k] == Schedule(m, Slot(k, t + 1)) {
      assert Slot(k, t + 1) == k;
    }
  }

  lemma SlotBack(t: nat, d: nat)
    requires t >= 16 && 1 <= d <= 16
    ensures Slot((t + 16 - d) % 16, t) == t - d
  {
    var k := (t + 16 - d) % 16;
    var q := (t + 16 - d) / 16;
    assert t + 16 - d == 16 * q + k;
    assert t - 1 - k == 16 * (q - 1) + (d - 1);
  }

  lemma SlotIndex(t: nat, d: nat)
    requires t >= 16 && 1 <= d <= 16
    ensures (t % 16 + 16 - d) % 16 == (t + 16 - d) % 16
  {
    assert t == 16 * (t / 16) + t % 16;
  }

  /** The slots that blk reads hold the words the schedule asks for. */
  lemma SlotsRead(t: nat)
    requires t >= 16
    ensures var i := t % 16;
            Slot((i + 13) % 16, t) == t - 3 && Slot((i + 8) % 16, t) == t - 8 &&
            Slot((i + 2) % 16, t) == t - 14 && Slot(i, t) == t - 16
  {
    hide Slot;
    SlotBack(t, 3);
    SlotBack(t, 8);
    SlotBack(t, 14);
    SlotBack(t, 16);
    SlotIndex(t, 3);
    SlotIndex(t, 8);
    SlotIndex(t, 14);
  }

  lemma SlotsAfter(t: nat, k: nat)
    requires t >= 16 && k < 16
    ensures Slot(k, t + 1) == if k == t % 16 then t else Slot(k, t)
  {
    var q := t / 16;
    assert t == 16 * q + t % 16;
    if t % 16 == 15 {
      assert t + 1 == 16 * (q + 1);
    } else {
      assert t + 1 == 16 * q + (t % 16 + 1);
    }
  }

  lemma WindowMoved(block: seq<Word>, m: seq<Word>, t: nat, w: Word)
    requires |m| == 16 && t >= 16 && Window(block, m, t) && w == Schedule(m, t)
    ensures Window(block[t % 16 := w], m, t + 1)
  {
    hide Schedule, Slot;
    var after := block[t % 16 := w];
    forall k | 0 <= k < 16 ensures after[k] == Schedule(m, Slot(k, t + 1)) {
      SlotsAfter(t, k);
    }
  }

  // ---- the expressions of the code ----

  lemma ChoiceBits(w: Word, x: Word, y: Word)
    ensures (w & (x ^ y)) ^ y == (w & x) ^ (!w & y)
  {
  }

  /** In R0 and R1. */
  function Choice(w: Word, x: Word, y: Word): (f: Word)
    ensures f == Ch(w, x, y)
  {
    ChoiceBits(w, x, y);
    (w & (x ^ y)) ^ y
  }

  lemma MajorityBits(w: Word, x: Word, y: Word)
    ensures ((w | x) & y) | (w & x) == (w & x) ^ (w & y) ^ (x & y)
  {
  }

  /** In R3. */
  function Majority(w: Word, x: Word, y: Word): (f: Word)
    ensures f == Maj(w, x, y)
  {
    MajorityBits(w, x, y);
    ((w | x) & y) | (w & x)
  }

  /** z += f + block[i] + k + rol(v, 5), which adds in another order than the definition. */
  function PlusAll(z: Word, f: Word, w: Word, k: Word, r: Word): (sum: Word)
    ensures sum == AddAll(r, f, z, k, w)
  {
    z + (f + w + k + r)
  }

  lemma StepIsRound(h: Hash, m: seq<Word>, t: nat, a: Word, b: Word, c: Word, d: Word, e: Word)
    requires |m| == 16 && At(h, m, t, a, b, c, d, e)
    ensures At(h, m, t + 1, AddAll(Rotl(a, 5), F(t, b, c, d), e, K(t), Schedule(m, t)), a, Rotl(b, 30), c, d)
  {
    hide F, K, Rotl, Schedule, AddAll;
  }

  // ---- the code ----

  /** rol. */
  function Rol(value: Word, bits: Word): (r: Word)
    requires 0 < bits < 32
    ensures r == Rotl(value, bits)
  {
    (value << bits) | (value >> (32 - bits))
  }

  /** blk: the next word of the schedule, from the sixteen that are kept. */
  method Blk(block: array<Word>, i: nat, ghost m: seq<Word>, ghost t: nat) returns (w: Word)
    requires block.Length == 16 && |m| == 16 && t >= 16 && i == t % 16 && Window(block[..], m, t)
    ensures w == Schedule(m, t)
  {
    hide Rotl, Rol, Slot, Xor;
    SlotsRead(t);
    assert block[..][(i + 13) % 16] == Schedule(m, t - 3) && block[..][(i + 8) % 16] == Schedule(m, t - 8);
    assert block[..][(i + 2) % 16] == Schedule(m, t - 14) && block[..][i] == Schedule(m, t - 16);
    w := Rol(Xor(block[(i + 13) % 16], block[(i + 8) % 16], block[(i + 2) % 16], block[i]), 1);
  }

  /** The first sixteen steps take the words of the block as they are. */
  method R0(block: array<Word>, v: Word, w0: Word, x: Word, y: Word, z0: Word, i: nat,
            ghost h: Hash, ghost m: seq<Word>, ghost t: nat)
    returns (w: Word, z: Word)
    requires block.Length == 16 && |m| == 16 && i == t < 16
    requires At(h, m, t, v, w0, x, y, z0) && Window(block[..], m, t)
    modifies block
    ensures At(h, m, t + 1, z, v, w, x, y) && Window(block[..], m, t + 1)
  {
    hide At, Window, Rotl, Rol, Schedule, AddAll, PlusAll, Ch, Choice;
    WindowKept(block[..], m, t);
    z := PlusAll(z0, Choice(w0, x, y), block[i], 0x5a827999, Rol(v, 5));
    w := Rol(w0, 30);
    StepIsRound(h, m, t, v, w0, x, y, z0);
  }

  method R1(block: array<Word>, v: Word, w0: Word, x: Word, y: Word, z0: Word, i: nat,
            ghost h: Hash, ghost m: seq<Word>, ghost t: nat)
    returns (w: Word, z: Word)
    requires block.Length == 16 && |m| == 16 && 16 <= t < 20 && i == t % 16
    requires At(h, m, t, v, w0, x, y, z0) && Window(block[..], m, t)
    modifies block
    ensures At(h, m, t + 1, z, v, w, x, y) && Window(block[..], m, t + 1)
  {
    hide At, Window, Rotl, Rol, Schedule, AddAll, PlusAll, Ch, Choice;
    var next := Blk(block, i, m, t);
    WindowMoved(block[..], m, t, next);
    ghost var was := block[..];
    block[i] := next;
    assert block[..] == was[i := next];
    z := PlusAll(z0, Choice(w0, x, y), block[i], 0x5a827999, Rol(v, 5));
    w := Rol(w0, 30);
    StepIsRound(h, m, t, v, w0, x, y, z0);
  }

  method R2(block: array<Word>, v: Word, w0: Word, x: Word, y: Word, z0: Word, i: nat,
            ghost h: Hash, ghost m: seq<Word>, ghost t: nat)
    returns (w: Word, z: Word)
    requires block.Length == 16 && |m| == 16 && 20 <= t < 40 && i == t % 16
    requires At(h, m, t, v, w0, x, y, z0) && Window(block[..], m, t)
    modifies block
    ensures At(h, m, t + 1, z, v, w, x, y) && Window(block[..], m, t + 1)
  {
    hide At, Window, Rotl, Rol, Schedule, AddAll, PlusAll, Parity;
    var next := Blk(block, i, m, t);
    WindowMoved(block[..], m, t, next);
    ghost var was := block[..];
    block[i] := next;
    assert block[..] == was[i := next];
    z := PlusAll(z0, Parity(w0, x, y), block[i], 0x6ed9eba1, Rol(v, 5));
    w := Rol(w0, 30);
    StepIsRound(h, m, t, v, w0, x, y, z0);
  }

  method R3(block: array<Word>, v: Word, w0: Word, x: Word, y: Word, z0: Word, i: nat,
            ghost h: Hash, ghost m: seq<Word>, ghost t: nat)
    returns (w: Word, z: Word)
    requires block.Length == 16 && |m| == 16 && 40 <= t < 60 && i == t % 16
    requires At(h, m, t, v, w0, x, y, z0) && Window(block[..], m, t)
    modifies block
    ensures At(h, m, t + 1, z, v, w, x, y) && Window(block[..], m, t + 1)
  {
    hide At, Window, Rotl, Rol, Schedule, AddAll, PlusAll, Maj, Majority;
    var next := Blk(block, i, m, t);
    WindowMoved(block[..], m, t, next);
    ghost var was := block[..];
    block[i] := next;
    assert block[..] == was[i := next];
    z := PlusAll(z0, Majority(w0, x, y), block[i], 0x8f1bbcdc, Rol(v, 5));
    w := Rol(w0, 30);
    StepIsRound(h, m, t, v, w0, x, y, z0);
  }

  method R4(block: array<Word>, v: Word, w0: Word, x: Word, y: Word, z0: Word, i: nat,
            ghost h: Hash, ghost m: seq<Word>, ghost t: nat)
    returns (w: Word, z: Word)
    requires block.Length == 16 && |m| == 16 && 60 <= t < 80 && i == t % 16
    requires At(h, m, t, v, w0, x, y, z0) && Window(block[..], m, t)
    modifies block
    ensures At(h, m, t + 1, z, v, w, x, y) && Window(block[..], m, t + 1)
  {
    hide At, Window, Rotl, Rol, Schedule, AddAll, PlusAll, Parity;
    var next := Blk(block, i, m, t);
    WindowMoved(block[..], m, t, next);
    ghost var was := block[..];
    block[i] := next;
    assert block[..] == was[i := next];
    z := PlusAll(z0, Parity(w0, x, y), block[i], 0xca62c1d6, Rol(v, 5));
    w := Rol(w0, 30);
    StepIsRound(h, m, t, v, w0, x, y, z0);
  }

  /** Steps 0 to 19 of the unrolled loop. */
  method Steps0To19(block: array<Word>, a0: Word, b0: Word, c0: Word, d0: Word, e0: Word,
                    ghost h: Hash, ghost m: seq<Word>, ghost t: nat)
    returns (a: Word, b: Word, c: Word, d: Word, e: Word)
    requires block.Length == 16 && |m| == 16 && t == 0
    requires At(h, m, t, a0, b0, c0, d0, e0) && Window(block[..], m, t)
    modifies block
    ensures At(h, m, t + 20, a, b, c, d, e) && Window(block[..], m, t + 20)
  {
    hide At, Window;
    a, b, c, d, e := a0, b0, c0, d0, e0;
    b, e := R0(block, a, b, c, d, e, 0, h, m, t);
    a, d := R0(block, e, a, b, c, d, 1, h, m, t + 1);
    e, c := R0(block, d, e, a, b, c, 2, h, m, t + 2);
    d, b := R0(block, c, d, e, a, b, 3, h, m, t + 3);
    c, a := R0(block, b, c, d, e, a, 4, h, m, t + 4);
    b, e := R0(block, a, b, c, d, e, 5, h, m, t + 5);
    a, d := R0(block, e, a, b, c, d, 6, h, m, t + 6);
    e, c := R0(block, d, e, a, b, c, 7, h, m, t + 7);
    d, b := R0(block, c, d, e, a, b, 8, h, m, t + 8);
    c, a := R0(block, b, c, d, e, a, 9, h, m, t + 9);
    b, e := R0(block, a, b, c, d, e, 10, h, m, t + 10);
    a, d := R0(block, e, a, b, c, d, 11, h, m, t + 11);
    e, c := R0(block, d, e, a, b, c, 12, h, m, t + 12);
    d, b := R0(block, c, d, e, a, b, 13, h, m, t + 13);
    c, a := R0(block, b, c, d, e, a, 14, h, m, t + 14);
    b, e := R0(block, a, b, c, d, e, 15, h, m, t + 15);
    a, d := R1(block, e, a, b, c, d, 0, h, m, t + 16);
    e, c := R1(block, d, e, a, b, c, 1, h, m, t + 17);
    d, b := R1(block, c, d, e, a, b, 2, h, m, t + 18);
    c, a := R1(block, b, c, d, e, a, 3, h, m, t + 19);
  }

  /** Steps 20 to 39. */
  method Steps20To39(block: array<Word>, a0: Word, b0: Word, c0: Word, d0: Word, e0: Word,
                    ghost h: Hash, ghost m: seq<Word>, ghost t: nat)
    returns (a: Word, b: Word, c: Word, d: Word, e: Word)
    requires block.Length == 16 && |m| == 16 && t == 20
    requires At(h, m, t, a0, b0, c0, d0, e0) && Window(block[..], m, t)
    modifies block
    ensures At(h, m, t + 20, a, b, c, d, e) && Window(block[..], m, t + 20)
  {
    hide At, Window;
    a, b, c, d, e := a0, b0, c0, d0, e0;
    b, e := R2(block, a, b, c, d, e, 4, h, m, t);
    a, d := R2(block, e, a, b, c, d, 5, h, m, t + 1);
    e, c := R2(block, d, e, a, b, c, 6, h, m, t + 2);
    d, b := R2(block, c, d, e, a, b, 7, h, m, t + 3);
    c, a := R2(block, b, c, d, e, a, 8, h, m, t + 4);
    b, e := R2(block, a, b, c, d, e, 9, h, m, t + 5);
    a, d := R2(block, e, a, b, c, d, 10, h, m, t + 6);
    e, c := R2(block, d, e, a, b, c, 11, h, m, t + 7);
    d, b := R2(block, c, d, e, a, b, 12, h, m, t + 8);
    c, a := R2(block, b, c, d, e, a, 13, h, m, t + 9);
    b, e := R2(block, a, b, c, d, e, 14, h, m, t + 10);
    a, d := R2(block, e, a, b, c, d, 15, h, m, t + 11);
    e, c := R2(block, d, e, a, b, c, 0, h, m, t + 12);
    d, b := R2(block, c, d, e, a, b, 1, h, m, t + 13);
    c, a := R2(block, b, c, d, e, a, 2, h, m, t + 14);
    b, e := R2(block, a, b, c, d, e, 3, h, m, t + 15);
    a, d := R2(block, e, a, b, c, d, 4, h, m, t + 16);
    e, c := R2(block, d, e, a, b, c, 5, h, m, t + 17);
    d, b := R2(block, c, d, e, a, b, 6, h, m, t + 18);
    c, a := R2(block, b, c, d, e, a, 7, h, m, t + 19);
  }

  /** Steps 40 to 59. */
  method Steps40To59(block: array<Word>, a0: Word, b0: Word, c0: Word, d0: Word, e0: Word,
                    ghost h: Hash, ghost m: seq<Word>, ghost t: nat)
    returns (a: Word, b: Word, c: Word, d: Word, e: Word)
    requires block.Length == 16 && |m| == 16 && t == 40
    requires At(h, m, t, a0, b0, c0, d0, e0) && Window(block[..], m, t)
    modifies block
    ensures At(h, m, t + 20, a, b, c, d, e) && Window(block[..], m, t + 20)
  {
    hide At, Window;
    a, b, c, d, e := a0, b0, c0, d0, e0;
    b, e := R3(block, a, b, c, d, e, 8, h, m, t);
    a, d := R3(block, e, a, b, c, d, 9, h, m, t + 1);
    e, c := R3(block, d, e, a, b, c, 10, h, m, t + 2);
    d, b := R3(block, c, d, e, a, b, 11, h, m, t + 3);
    c, a := R3(block, b, c, d, e, a, 12, h, m, t + 4);
    b, e := R3(block, a, b, c, d, e, 13, h, m, t + 5);
    a, d := R3(block, e, a, b, c, d, 14, h, m, t + 6);
    e, c := R3(block, d, e, a, b, c, 15, h, m, t + 7);
    d, b := R3(block, c, d, e, a, b, 0, h, m, t + 8);
    c, a := R3(block, b, c, d, e, a, 1, h, m, t + 9);
    b, e := R3(block, a, b, c, d, e, 2, h, m, t + 10);
    a, d := R3(block, e, a, b, c, d, 3, h, m, t + 11);
    e, c := R3(block, d, e, a, b, c, 4, h, m, t + 12);
    d, b := R3(block, c, d, e, a, b, 5, h, m, t + 13);
    c, a := R3(block, b, c, d, e, a, 6, h, m, t + 14);
    b, e := R3(block, a, b, c, d, e, 7, h, m, t + 15);
    a, d := R3(block, e, a, b, c, d, 8, h, m, t + 16);
    e, c := R3(block, d, e, a, b, c, 9, h, m, t + 17);
    d, b := R3(block, c, d, e, a, b, 10, h, m, t + 18);
    c, a := R3(block, b, c, d, e, a, 11, h, m, t + 19);
  }

  /** Steps 60 to 79. */
  method Steps60To79(block: array<Word>, a0: Word, b0: Word, c0: Word, d0: Word, e0: Word,
                    ghost h: Hash, ghost m: seq<Word>, ghost t: nat)
    returns (a: Word, b: Word, c: Word, d: Word, e: Word)
    requires block.Length == 16 && |m| == 16 && t == 60
    requires At(h, m, t, a0, b0, c0, d0, e0) && Window(block[..], m, t)
    modifies block
    ensures At(h, m, t + 20, a, b, c, d, e) && Window(block[..], m, t + 20)
  {
    hide At, Window;
    a, b, c, d, e := a0, b0, c0, d0, e0;
    b, e := R4(block, a, b, c, d, e, 12, h, m, t);
    a, d := R4(block, e, a, b, c, d, 13, h, m, t + 1);
    e, c := R4(block, d, e, a, b, c, 14, h, m, t + 2);
    d, b := R4(block, c, d, e, a, b, 15, h, m, t + 3);
    c, a := R4(block, b, c, d, e, a, 0, h, m, t + 4);
    b, e := R4(block, a, b, c, d, e, 1, h, m, t + 5);
    a, d := R4(block, e, a, b, c, d, 2, h, m, t + 6);
    e, c := R4(block, d, e, a, b, c, 3, h, m, t + 7);
    d, b := R4(block, c, d, e, a, b, 4, h, m, t + 8);
    c, a := R4(block, b, c, d, e, a, 5, h, m, t + 9);
    b, e := R4(block, a, b, c, d, e, 6, h, m, t + 10);
    a, d := R4(block, e, a, b, c, d, 7, h, m, t + 11);
    e, c := R4(block, d, e, a, b, c, 8, h, m, t + 12);
    d, b := R4(block, c, d, e, a, b, 9, h, m, t + 13);
    c, a := R4(block, b, c, d, e, a, 10, h, m, t + 14);
    b, e := R4(block, a, b, c, d, e, 11, h, m, t + 15);
    a, d := R4(block, e, a, b, c, d, 12, h, m, t + 16);
    e, c := R4(block, d, e, a, b, c, 13, h, m, t + 17);
    d, b := R4(block, c, d, e, a, b, 14, h, m, t + 18);
    c, a := R4(block, b, c, d, e, a, 15, h, m, t + 19);
  }

  function Value(digest: array<Word>): Hash
    requires digest.Length == 5
    reads digest
  {
    Hash(digest[0], digest[1], digest[2], digest[3], digest[4])
  }

  /** One block: for every digest and every block, what section 6.1.2 of FIPS 180-4 defines. */
  method Transform(digest: array<Word>, block: array<Word>)
    requires digest.Length == 5 && block.Length == 16 && digest != block
    modifies digest, block
    ensures Value(digest) == Compress(old(Value(digest)), old(block[..]))
  {
    hide Window, Rounds, Add;
    ghost var h, m := Value(digest), block[..];
    var a, b, c, d, e := digest[0], digest[1], digest[2], digest[3], digest[4];
    WindowStart(m);
    NoRounds(h, m);
    a, b, c, d, e := Steps0To19(block, a, b, c, d, e, h, m, 0);
    a, b, c, d, e := Steps20To39(block, a, b, c, d, e, h, m, 20);
    a, b, c, d, e := Steps40To59(block, a, b, c, d, e, h, m, 40);
    a, b, c, d, e := Steps60To79(block, a, b, c, d, e, h, m, 60);
    digest[0] := Add(digest[0], a);
    digest[1] := Add(digest[1], b);
    digest[2] := Add(digest[2], c);
    digest[3] := Add(digest[3], d);
    digest[4] := Add(digest[4], e);
  }

  lemma NoRounds(h: Hash, m: seq<Word>)
    requires |m| == 16
    ensures Rounds(h, m, 0) == h
  {
  }
}
