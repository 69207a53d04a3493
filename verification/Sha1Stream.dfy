/**
 The streaming interface of the SHA-1 class: whatever the sizes of the pieces passed
 to update, the state depends only on the bytes so far, and final hashes exactly the
 padded message of section 5.1.1 of FIPS 180-4.
 */
module Sha1Stream {
  import opened Sha1Definition
  import opened Sha1Transform

  // ---- words of bytes ----

  lemma NoWords()
    ensures WordsOf([]) == []
  {
  }

  lemma WordsFirst(a: seq<Byte>)
    requires |a| >= 4
    ensures WordsOf(a) == WordsOf(a[..4]) + WordsOf(a[4..])
  {
    hide BigEndian;
  }

  lemma {:induction false} WordsAppend(a: seq<Byte>, b: seq<Byte>)
    requires |a| % 4 == 0
    ensures WordsOf(a + b) == WordsOf(a) + WordsOf(b)
  {
    hide WordsOf;
    if a == [] {
      NoWords();
      assert a + b == b;
    } else {
      assert |a| >= 4 && |a[4..]| % 4 == 0;
      assert (a + b)[4..] == a[4..] + b && (a + b)[..4] == a[..4];
      WordsAppend(a[4..], b);
      WordsFirst(a);
      WordsFirst(a + b);
    }
  }

  lemma {:induction false} WordsAt(bytes: seq<Byte>, i: nat)
    requires 4 * i + 4 <= |bytes|
    ensures WordsOf(bytes)[i] == BigEndian(bytes[4 * i], bytes[4 * i + 1], bytes[4 * i + 2], bytes[4 * i + 3])
  {
    hide BigEndian;
    if i > 0 {
      WordsAt(bytes[4..], i - 1);
    }
  }

  /** The first byte of a word is its most significant one. */
  lemma BytesOfWord(a: Byte, b: Byte, c: Byte, d: Byte)
    ensures var w := BigEndian(a, b, c, d);
            w >> 24 == a as Word && (w >> 16) & 255 == b as Word && (w >> 8) & 255 == c as Word && w & 255 == d as Word
  {
  }

  lemma ZeroWord()
    ensures BigEndian(0, 0, 0, 0) == 0
  {
  }

  lemma ZeroWords(k: nat, i: nat)
    requires i < k
    ensures WordsOf(Zeros(4 * k))[i] == 0
  {
    hide BigEndian;
    WordsAt(Zeros(4 * k), i);
    ZeroWord();
  }

  // ---- blocks ----

  lemma OneBlock(h: Hash, words: seq<Word>)
    requires |words| == 16
    ensures CompressAll(h, words) == Compress(h, words)
  {
    hide Compress;
    assert words[..16] == words;
  }

  lemma {:induction false} BlocksAppend(h: Hash, a: seq<Word>, b: seq<Word>)
    requires |a| % 16 == 0
    ensures CompressAll(h, a + b) == CompressAll(CompressAll(h, a), b)
    decreases |a|
  {
    hide Compress;
    if a == [] {
      assert a + b == b;
    } else {
      assert (a + b)[..16] == a[..16] && (a + b)[16..] == a[16..] + b;
      BlocksAppend(Compress(h, a[..16]), a[16..], b);
    }
  }

  lemma WordsSize(bytes: seq<Byte>, blocks: nat)
    requires |bytes| == 64 * blocks
    ensures |bytes| % 4 == 0 && |WordsOf(bytes)| == 16 * blocks && |WordsOf(bytes)| % 16 == 0
  {
    hide WordsOf;
  }

  // ---- lengths modulo 2^64 ----

  const TWO64: nat := 0x1_0000_0000_0000_0000

  function Wrap(x: nat): nat {
    x % TWO64
  }

  /** A block counter that wraps around still gives the right number of bits modulo 2^64. */
  lemma WrappedCount(blocks: nat, rest: nat)
    ensures Wrap((Wrap(blocks) * 64 + rest) * 8) == Wrap(8 * (64 * blocks + rest))
  {
    var q := blocks / TWO64;
    var x := (Wrap(blocks) * 64 + rest) * 8;
    assert blocks == q * TWO64 + Wrap(blocks);
    assert 8 * (64 * blocks + rest) == x + (512 * q) * TWO64;
    AddMultiple(x, 512 * q);
  }

  lemma {:induction false} AddMultiple(x: nat, k: nat)
    ensures Wrap(x + k * TWO64) == Wrap(x)
  {
    if k > 0 {
      AddMultiple(x, k - 1);
      assert x + k * TWO64 == (x + (k - 1) * TWO64) + TWO64;
    }
  }

  lemma NextCount(blocks: nat)
    ensures Wrap(blocks + 1) == Wrap(Wrap(blocks) + 1)
  {
  }

  /** How many zero bytes the padding has, seen from the bytes after the last whole block. */
  lemma ZeroBytesAfter(blocks: nat, rest: nat)
    requires rest < 64
    ensures ZeroBytes(64 * blocks + rest) == if rest <= 55 then 55 - rest else 119 - rest
  {
    assert (64 * blocks + rest) % 64 == rest;
  }

  // ---- the class ----

  /** Eight hexadecimal digits. */
  function HexWord(x: Word): (s: string)
    ensures |s| == 8
  {
    [HexDigit((x >> 28) & 15), HexDigit((x >> 24) & 15), HexDigit((x >> 20) & 15), HexDigit((x >> 16) & 15),
     HexDigit((x >> 12) & 15), HexDigit((x >> 8) & 15), HexDigit((x >> 4) & 15), HexDigit(x & 15)]
  }

  function HexDigit(x: Word): char {
    if x == 0 then '0' else if x == 1 then '1' else if x == 2 then '2' else if x == 3 then '3'
    else if x == 4 then '4' else if x == 5 then '5' else if x == 6 then '6' else if x == 7 then '7'
    else if x == 8 then '8' else if x == 9 then '9' else if x == 10 then 'a' else if x == 11 then 'b'
    else if x == 12 then 'c' else if x == 13 then 'd' else if x == 14 then 'e' else 'f'
  }

  lemma HexDigits()
    ensures [HexDigit(0), HexDigit(1), HexDigit(2), HexDigit(3), HexDigit(4), HexDigit(5), HexDigit(6), HexDigit(7),
             HexDigit(8), HexDigit(9), HexDigit(10), HexDigit(11), HexDigit(12), HexDigit(13), HexDigit(14), HexDigit(15)]
            == "0123456789abcdef"
  {
  }

  function Hex(h: Hash): string {
    HexWord(h.a) + HexWord(h.b) + HexWord(h.c) + HexWord(h.d) + HexWord(h.e)
  }

  /** The digits of several words. */
  function Digits(words: seq<Word>): string {
    if words == [] then "" else Digits(words[..|words| - 1]) + HexWord(words[|words| - 1])
  }

  lemma NoDigits()
    ensures Digits([]) == ""
  {
  }

  lemma NextDigits(words: seq<Word>)
    requires words != []
    ensures Digits(words) == Digits(words[..|words| - 1]) + HexWord(words[|words| - 1])
  {
  }

  lemma FiveWords(words: seq<Word>)
    requires |words| == 5
    ensures Digits(words) == Hex(Hash(words[0], words[1], words[2], words[3], words[4]))
  {
    hide HexWord;
    assert words[..4][..3] == words[..3] && words[..3][..2] == words[..2] && words[..2][..1] == words[..1];
    assert words[..1][..0] == [];
    assert Digits(words[..1]) == HexWord(words[0]);
    assert Digits(words[..2]) == Digits(words[..1]) + HexWord(words[1]);
    assert Digits(words[..3]) == Digits(words[..2]) + HexWord(words[2]);
    assert Digits(words[..4]) == Digits(words[..3]) + HexWord(words[3]);
  }

  /** What the class keeps of the bytes hashed so far. */
  datatype State = State(digest: Hash, buffer: seq<Byte>, transforms: nat)

  /** st belongs to the message: whole is what has been compressed, the rest waits in the buffer. */
  ghost predicate StateOf(message: seq<Byte>, whole: seq<Byte>, blocks: nat, st: State) {
    && message == whole + st.buffer
    && |whole| == 64 * blocks && |st.buffer| < 64
    && st.digest == CompressAll(INITIAL, WordsOf(whole))
    && st.transforms == Wrap(blocks)
  }

  /** The state depends on the bytes alone, not on how they were cut into pieces. */
  lemma StateDetermined(message: seq<Byte>, w1: seq<Byte>, n1: nat, s1: State, w2: seq<Byte>, n2: nat, s2: State)
    requires StateOf(message, w1, n1, s1) && StateOf(message, w2, n2, s2)
    ensures s1 == s2
  {
    hide CompressAll, WordsOf, Wrap;
    assert n1 == n2;
    assert w1 == message[..64 * n1] == w2;
    assert s1.buffer == message[64 * n1..] == s2.buffer;
  }

  /** Fewer than 64 new bytes, not filling the block, only go to the buffer. */
  lemma StateBuffered(message: seq<Byte>, whole: seq<Byte>, blocks: nat, st: State, more: seq<Byte>)
    requires StateOf(message, whole, blocks, st) && |st.buffer| + |more| < 64
    ensures StateOf(message + more, whole, blocks, st.(buffer := st.buffer + more))
  {
    hide CompressAll, WordsOf, Wrap;
    assert message + more == whole + (st.buffer + more);
  }

  /** Bytes that fill the block are compressed. */
  lemma StateCompressed(message: seq<Byte>, whole: seq<Byte>, blocks: nat, st: State, more: seq<Byte>)
    requires StateOf(message, whole, blocks, st) && |st.buffer| + |more| == 64
    ensures |WordsOf(st.buffer + more)| == 16
    ensures StateOf(message + more, whole + (st.buffer + more), blocks + 1,
                    State(Compress(st.digest, WordsOf(st.buffer + more)), [], Wrap(st.transforms + 1)))
  {
    hide Compress, CompressAll, WordsOf, Wrap;
    var full := st.buffer + more;
    assert message + more == whole + full;
    WordsSize(whole, blocks);
    WordsSize(full, 1);
    WordsAppend(whole, full);
    BlocksAppend(INITIAL, WordsOf(whole), WordsOf(full));
    OneBlock(st.digest, WordsOf(full));
    NextCount(blocks);
  }

  // ---- the last one or two blocks ----

  /** The bytes that final puts after the whole blocks, without the length. */
  function Tail(st: State): seq<Byte>
    requires |st.buffer| < 64
  {
    var r := |st.buffer|;
    st.buffer + [0x80] + Zeros(if r <= 55 then 55 - r else 119 - r)
  }

  /** Hashing the whole message is compressing that tail and the length. */
  lemma LastBlocks(message: seq<Byte>, whole: seq<Byte>, blocks: nat, st: State)
    requires StateOf(message, whole, blocks, st)
    ensures Sha1Definition.Sha1(message) == CompressAll(st.digest, WordsOf(Tail(st)) + LengthWords(8 * |message|))
  {
    hide CompressAll, WordsOf, LengthWords, Wrap, ZeroBytes;
    ZeroBytesAfter(blocks, |st.buffer|);
    assert message + [0x80] + Zeros(ZeroBytes(|message|)) == whole + Tail(st);
    WordsSize(whole, blocks);
    WordsAppend(whole, Tail(st));
    var last := WordsOf(Tail(st)) + LengthWords(8 * |message|);
    assert Padded(message) == WordsOf(whole) + last;
    BlocksAppend(INITIAL, WordsOf(whole), last);
  }

  /** The length fits behind the message: one block. */
  lemma OneMoreBlock(message: seq<Byte>, whole: seq<Byte>, blocks: nat, st: State, full: seq<Byte>, block: seq<Word>)
    requires StateOf(message, whole, blocks, st) && |st.buffer| <= 55
    requires full == st.buffer + [0x80] + Zeros(63 - |st.buffer|)
    requires |WordsOf(full)| == 16 && block == WordsOf(full)[..14] + LengthWords(8 * |message|)
    ensures |block| == 16 && Compress(st.digest, block) == Sha1Definition.Sha1(message)
  {
    hide CompressAll, WordsOf, LengthWords, Compress, Wrap, Sha1Definition.Sha1;
    LastBlocks(message, whole, blocks, st);
    assert full == Tail(st) + Zeros(8);
    WordsAppend(Tail(st), Zeros(8));
    assert WordsOf(full)[..14] == WordsOf(Tail(st));
    TwoLengthWords(8 * |message|);
    OneBlock(st.digest, block);
  }

  lemma TwoLengthWords(bits: nat)
    ensures |LengthWords(bits)| == 2
  {
    hide WordOf;
  }

  /** It does not fit: the padding fills one block, and a second one holds only the length. */
  lemma TwoMoreBlocks(message: seq<Byte>, whole: seq<Byte>, blocks: nat, st: State, full: seq<Byte>, block: seq<Word>)
    requires StateOf(message, whole, blocks, st) && 55 < |st.buffer|
    requires full == st.buffer + [0x80] + Zeros(63 - |st.buffer|)
    requires |block| == 16 && block[14..] == LengthWords(8 * |message|) && forall k :: 0 <= k < 14 ==> block[k] == 0
    ensures |WordsOf(full)| == 16 && Compress(Compress(st.digest, WordsOf(full)), block) == Sha1Definition.Sha1(message)
  {
    hide CompressAll, WordsOf, LengthWords, Compress, Wrap, Sha1Definition.Sha1;
    LastBlocks(message, whole, blocks, st);
    assert Tail(st) == full + Zeros(56);
    WordsSize(full, 1);
    WordsAppend(full, Zeros(56));
    ZeroBlock(block, LengthWords(8 * |message|));
    assert WordsOf(Tail(st)) + LengthWords(8 * |message|) == WordsOf(full) + block;
    BlocksAppend(st.digest, WordsOf(full), block);
    OneBlock(st.digest, WordsOf(full));
    OneBlock(Compress(st.digest, WordsOf(full)), block);
  }

  lemma ZeroBlock(block: seq<Word>, length: seq<Word>)
    requires |block| == 16 && block[14..] == length && forall k :: 0 <= k < 14 ==> block[k] == 0
    ensures block == WordsOf(Zeros(56)) + length
  {
    hide WordsOf;
    forall k | 0 <= k < 14 ensures block[k] == WordsOf(Zeros(56))[k] {
      ZeroWords(14, k);
    }
  }

  /** buffer_to_block. */
  method BufferToBlock(buffer: seq<Byte>, block: array<Word>)
    requires |buffer| == 64 && block.Length == 16
    modifies block
    ensures block[..] == WordsOf(buffer)
  {
    hide BigEndian, WordsOf;
    for i := 0 to 16
      invariant block[..i] == WordsOf(buffer)[..i]
    {
      WordsAt(buffer, i);
      block[i] := BigEndian(buffer[4 * i], buffer[4 * i + 1], buffer[4 * i + 2], buffer[4 * i + 3]);
      assert block[..i + 1] == block[..i] + [block[i]];
    }
    assert block[..16] == block[..];
  }

  class Sha1 {
    const digest: array<Word>
    var buffer: seq<Byte>
    var transforms: nat
    ghost var message: seq<Byte>
    ghost var whole: seq<Byte>
    ghost var blocks: nat

    ghost predicate Valid()
      reads this, digest
    {
      digest.Length == 5 && StateOf(message, whole, blocks, Current())
    }

    function Current(): State
      requires digest.Length == 5
      reads this, digest
    {
      State(Value(digest), buffer, transforms)
    }

    constructor ()
      ensures Valid() && fresh(digest) && message == []
    {
      digest := new Word[5];
      buffer, transforms := [], 0;
      message, whole, blocks := [], [], 0;
      new;
      Reset();
    }

    method Reset()
      requires digest.Length == 5
      modifies this, digest
      ensures Valid() && message == []
    {
      digest[0], digest[1], digest[2], digest[3], digest[4] :=
        0x67452301, 0xefcdab89, 0x98badcfe, 0x10325476, 0xc3d2e1f0;
      buffer := [];
      transforms := 0;
      message, whole, blocks := [], [], 0;
    }

    method Compressed(block: array<Word>)
      requires digest.Length == 5 && block.Length == 16 && digest != block
      modifies this`transforms, digest, block
      ensures Value(digest) == Compress(old(Value(digest)), old(block[..]))
      ensures transforms == Wrap(old(transforms) + 1)
    {
      Transform(digest, block);
      transforms := Wrap(transforms + 1);
    }

    /** update: the bytes of s are consumed in pieces that fill the buffer. */
    method Update(s: seq<Byte>)
      requires Valid()
      modifies this, digest
      ensures Valid() && message == old(message) + s
    {
      hide Compress, WordsOf, CompressAll, Wrap, StateOf;
      var pos := 0;
      ghost var start := message;
      assert start + s[..0] == start;
      while true
        invariant digest.Length == 5 && 0 <= pos <= |s|
        invariant message == start + s[..pos]
        invariant StateOf(message, whole, blocks, Current())
        decreases |s| - pos
      {
        BufferFits(message, whole, blocks, Current());
        var size := if |s| - pos < 64 - |buffer| then |s| - pos else 64 - |buffer|;
        var sbuf := s[pos..pos + size];
        assert start + s[..pos + size] == message + sbuf;
        if |buffer| + size != 64 {
          StateBuffered(message, whole, blocks, Current(), sbuf);
          buffer := buffer + sbuf;
          message := message + sbuf;
          assert s[..pos + size] == s;
          return;
        }
        StateCompressed(message, whole, blocks, Current(), sbuf);
        buffer := buffer + sbuf;
        var block := new Word[16];
        BufferToBlock(buffer, block);
        Compressed(block);
        message, whole, blocks := message + sbuf, whole + buffer, blocks + 1;
        buffer := [];
        pos := pos + size;
      }
    }

    /** final's padding: the buffer becomes a full block of message, 0x80 and zeros. */
    method Pad() returns (origSize: nat)
      requires |buffer| < 64
      modifies this`buffer
      ensures origSize == old(|buffer|) + 1
      ensures buffer == old(buffer) + [0x80] + Zeros(63 - old(|buffer|))
    {
      buffer := buffer + [0x80];
      origSize := |buffer|;
      while |buffer| < 64
        invariant origSize <= |buffer| <= 64 && buffer == old(buffer) + [0x80] + Zeros(|buffer| - origSize)
      {
        buffer := buffer + [0];
      }
    }

    /** The first of two blocks is compressed, and all but the length is cleared. */
    method FirstOfTwo(block: array<Word>)
      requires digest.Length == 5 && block.Length == 16 && digest != block
      modifies this`transforms, digest, block
      ensures Value(digest) == Compress(old(Value(digest)), old(block[..]))
      ensures forall k :: 0 <= k < 14 ==> block[k] == 0
    {
      hide Compress;
      ghost var h, m := Value(digest), block[..];
      Compressed(block);
      for i := 0 to 16 - 2
        invariant Value(digest) == Compress(h, m)
        invariant forall k :: 0 <= k < i ==> block[k] == 0
      {
        block[i] := 0;
      }
    }

    /** The length of the message goes into the last two words of the block. */
    method PutLength(totalBits: nat, block: array<Word>)
      requires block.Length == 16 && totalBits < TWO64
      modifies block
      ensures block[..14] == old(block[..14])
      ensures block[14..] == [WordOf(totalBits / 0x1_0000_0000), WordOf(totalBits % 0x1_0000_0000)]
    {
      hide WordOf;
      block[16 - 1] := WordOf(totalBits % 0x1_0000_0000);
      block[16 - 2] := WordOf(totalBits / 0x1_0000_0000);
    }

    /** final's last block, or last two blocks. */
    method CompressPadded()
      requires Valid()
      modifies this, digest
      ensures digest.Length == 5 && Value(digest) == Sha1Definition.Sha1(old(message))
    {
      hide Sha1Definition.Sha1, Compress, WordsOf, CompressAll, WordOf, Wrap, LengthWords, StateOf;
      ghost var st := Current();
      var totalBits := Wrap((transforms * 64 + |buffer|) * 8);
      MessageBits(message, whole, blocks, st);
      LengthHalves(8 * |message|);
      BufferFits(message, whole, blocks, st);
      var origSize := Pad();
      var block := new Word[16];
      BufferToBlock(buffer, block);
      ghost var full := block[..];
      if origSize > 64 - 8 {
        FirstOfTwo(block);
        PutLength(totalBits, block);
        TwoMoreBlocks(message, whole, blocks, st, buffer, block[..]);
      } else {
        PutLength(totalBits, block);
        assert block[..] == full[..14] + LengthWords(8 * |message|);
        OneMoreBlock(message, whole, blocks, st, buffer, block[..]);
      }
      Compressed(block);
    }

    /** final: the hash of everything since the last reset, and a state fit for the next message. */
    method Final() returns (result: string)
      requires Valid()
      modifies this, digest
      ensures result == Hex(Sha1Definition.Sha1(old(message)))
      ensures Valid() && message == []
    {
      hide Sha1Definition.Sha1, StateOf, HexWord, Hex, Digits;
      CompressPadded();
      result := "";
      NoDigits();
      for i := 0 to 5
        invariant Value(digest) == Sha1Definition.Sha1(old(message))
        invariant result == Digits(digest[..i])
      {
        NextDigits(digest[..i + 1]);
        assert digest[..i + 1][..i] == digest[..i];
        result := result + HexWord(digest[i]);
      }
      assert digest[..5] == digest[..];
      FiveWords(digest[..]);
      Reset();
    }
  }

  lemma MessageBits(message: seq<Byte>, whole: seq<Byte>, blocks: nat, st: State)
    requires StateOf(message, whole, blocks, st)
    ensures Wrap((st.transforms * 64 + |st.buffer|) * 8) == Wrap(8 * |message|) < TWO64
  {
    hide CompressAll, WordsOf;
    WrappedCount(blocks, |st.buffer|);
  }

  lemma BufferFits(message: seq<Byte>, whole: seq<Byte>, blocks: nat, st: State)
    requires StateOf(message, whole, blocks, st)
    ensures |st.buffer| < 64
  {
    hide CompressAll, WordsOf;
  }

  lemma LengthHalves(bits: nat)
    ensures LengthWords(bits) == [WordOf(Wrap(bits) / 0x1_0000_0000), WordOf(Wrap(bits) % 0x1_0000_0000)]
  {
    hide WordOf;
  }

  /**
   Cutting a message into two calls of update, or passing it in one, leads to the
   same state and so to the same hash.
   */
  method UpdateInPieces(a: seq<Byte>, b: seq<Byte>) returns (one: Sha1, two: Sha1)
    ensures one.Valid() && two.Valid() && one.message == two.message == a + b
    ensures one.Current() == two.Current()
  {
    hide StateOf;
    one := new Sha1();
    one.Update(a + b);
    two := new Sha1();
    two.Update(a);
    two.Update(b);
    assert [] + a + b == a + b && [] + (a + b) == a + b;
    StateDetermined(a + b, one.whole, one.blocks, one.Current(), two.whole, two.blocks, two.Current());
  }
}
