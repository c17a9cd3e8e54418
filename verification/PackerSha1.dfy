/** The hand-written SHA-1 of the update packer. */
module PackerSha1 {
  import opened Fips180

  function HashIn(s: seq<Word>): Hash
    requires |s| == 5
  {
    Hash(s[0], s[1], s[2], s[3], s[4])
  }

  // The round functions as the source writes them.
  function ChOr(b: Word, c: Word, d: Word): Word { (b & c) | (!b & d) }

  function Parity(b: Word, c: Word, d: Word): Word { b ^ c ^ d }

  function MajOr(b: Word, c: Word, d: Word): Word { (b & c) | (b & d) | (c & d) }

  /** They are the exclusive-or forms of section 4.1.1. */
  lemma OrForms(t: nat, b: Word, c: Word, d: Word)
    ensures t < 20 ==> ChOr(b, c, d) == F(t, b, c, d)
    ensures 40 <= t < 60 ==> MajOr(b, c, d) == F(t, b, c, d)
    ensures 20 <= t < 40 || 60 <= t ==> Parity(b, c, d) == F(t, b, c, d)
  {
    assert ChOr(b, c, d) == (b & c) ^ (!b & d);
    assert MajOr(b, c, d) == (b & c) ^ (b & d) ^ (c & d);
  }

  /** Words 0..n-1 of the buffer hold the message schedule of `block`. */
  ghost predicate Scheduled(temp: seq<Word>, block: seq<Word>, n: nat)
    requires |block| == 16 && n <= |temp|
  {
    forall t :: 0 <= t < n ==> temp[t] == W(block, t)
  }

  /** The round function a phase of the source uses. */
  function PhaseF(t: nat, b: Word, c: Word, d: Word): Word
  {
    if t < 20 then ChOr(b, c, d) else if t < 40 then Parity(b, c, d)
    else if t < 60 then MajOr(b, c, d) else Parity(b, c, d)
  }

  /** The source's `_shiftswap` macro at round `round`. */
  method ShiftSwap(f: Word, v: Word, w: Word, a: Word, b: Word, c: Word, d: Word, e: Word,
    ghost h: Hash, ghost block: seq<Word>, ghost round: nat)
    returns (a': Word, b': Word, c': Word, d': Word, e': Word)
    requires |block| == 16 && w == W(block, round)
    requires f == PhaseF(round, b, c, d) && v == K(round)
    requires Hash(a, b, c, d, e) == Rounds(h, block, round)
    ensures Hash(a', b', c', d', e') == Rounds(h, block, round + 1)
  {
    OrForms(round, b, c, d);
    var t := Sum((a << 5) | (a >> 27), f, e, v, w);
    e' := d;
    d' := c;
    c' := (b << 30) | (b >> 2);
    b' := a;
    a' := t;
  }

  /** The source's `_shiftshiftswap` macro: extend the schedule, then one round. */
  method ShiftShiftSwap(temp: array<Word>, f: Word, v: Word, a: Word, b: Word, c: Word, d: Word, e: Word,
    ghost h: Hash, ghost block: seq<Word>, round: nat)
    returns (a': Word, b': Word, c': Word, d': Word, e': Word)
    requires 16 <= round < temp.Length && |block| == 16
    requires Scheduled(temp[..], block, round)
    requires f == PhaseF(round, b, c, d) && v == K(round)
    requires Hash(a, b, c, d, e) == Rounds(h, block, round)
    modifies temp
    ensures Scheduled(temp[..], block, round + 1)
    ensures Hash(a', b', c', d', e') == Rounds(h, block, round + 1)
  {
    var x := temp[round - 3] ^ temp[round - 8] ^ temp[round - 14] ^ temp[round - 16];
    temp[round] := (x << 1) | (x >> 31);
    assert temp[round] == W(block, round);
    a', b', c', d', e' := ShiftSwap(f, v, temp[round], a, b, c, d, e, h, block, round);
  }

  method Sha1PartHash(sha: array<Word>, temp: array<Word>)
    requires sha.Length == 5 && temp.Length == 80 && sha != temp
    modifies sha, temp
    ensures HashIn(sha[..]) == Compress(old(HashIn(sha[..])), old(temp[..16]))
  {
    ghost var h := HashIn(sha[..]);
    ghost var block := temp[..16];
    var a, b, c, d, e, round := sha[0], sha[1], sha[2], sha[3], sha[4], 0;
    while round < 16
      invariant 0 <= round <= 16
      invariant temp[..] == old(temp[..]) && sha[..] == old(sha[..])
      invariant Hash(a, b, c, d, e) == Rounds(h, block, round)
    {
      a, b, c, d, e := ShiftSwap(ChOr(b, c, d), 0x5a827999, temp[round], a, b, c, d, e, h, block, round);
      round := round + 1;
    }
    assert Scheduled(temp[..], block, 16);
    while round < 20
      invariant 16 <= round <= 20 && sha[..] == old(sha[..])
      invariant Scheduled(temp[..], block, round)
      invariant Hash(a, b, c, d, e) == Rounds(h, block, round)
    {
      a, b, c, d, e := ShiftShiftSwap(temp, ChOr(b, c, d), 0x5a827999, a, b, c, d, e, h, block, round);
      round := round + 1;
    }
    while round < 40
      invariant 20 <= round <= 40 && sha[..] == old(sha[..])
      invariant Scheduled(temp[..], block, round)
      invariant Hash(a, b, c, d, e) == Rounds(h, block, round)
    {
      a, b, c, d, e := ShiftShiftSwap(temp, Parity(b, c, d), 0x6ed9eba1, a, b, c, d, e, h, block, round);
      round := round + 1;
    }
    while round < 60
      invariant 40 <= round <= 60 && sha[..] == old(sha[..])
      invariant Scheduled(temp[..], block, round)
      invariant Hash(a, b, c, d, e) == Rounds(h, block, round)
    {
      a, b, c, d, e := ShiftShiftSwap(temp, MajOr(b, c, d), 0x8f1bbcdc, a, b, c, d, e, h, block, round);
      round := round + 1;
    }
    while round < 80
      invariant 60 <= round <= 80 && sha[..] == old(sha[..])
      invariant Scheduled(temp[..], block, round)
      invariant Hash(a, b, c, d, e) == Rounds(h, block, round)
    {
      a, b, c, d, e := ShiftShiftSwap(temp, Parity(b, c, d), 0xca62c1d6, a, b, c, d, e, h, block, round);
      round := round + 1;
    }
    AddInto(sha, a, b, c, d, e);
  }

  method AddInto(sha: array<Word>, a: Word, b: Word, c: Word, d: Word, e: Word)
    requires sha.Length == 5
    modifies sha
    ensures HashIn(sha[..]) == Plus(old(HashIn(sha[..])), Hash(a, b, c, d, e))
  {
    sha[0] := Add(sha[0], a);
    sha[1] := Add(sha[1], b);
    sha[2] := Add(sha[2], c);
    sha[3] := Add(sha[3], d);
    sha[4] := Add(sha[4], e);
  }

  /** `len << 3` in 32 bits. */
  function LowBits(data: seq<Byte>): Word { ((8 * |data|) % TWO32) as Word }

  /** The padding the source produces: only the low 32 bits of the bit length. */
  function PackerPad(data: seq<Byte>): (p: seq<Byte>)
    ensures |p| % 64 == 0 && |p| == |data| + 9 + ZeroCount(|data|)
  {
    PadWith(data, BytesOf(LowBits(data)))
  }

  function PadWith(data: seq<Byte>, low: seq<Byte>): (p: seq<Byte>)
    requires |low| == 4
    ensures |p| % 64 == 0 && |p| == |data| + 9 + ZeroCount(|data|)
  {
    data + [0x80] + Zeros(ZeroCount(|data|)) + [0, 0, 0, 0] + low
  }

  lemma ZeroWord(n: nat)
    requires n < 8
    ensures BytesOf(n as Word) == [0, 0, 0, 0] <==> n == 0
  {
    if n == 0 {
      assert BytesOf(0) == [0, 0, 0, 0];
    } else {
      assert WordOf(0, 0, 0, 0) == 0;
      if n == 1 { assert 1 as Word != 0; }
      else if n == 2 { assert 2 as Word != 0; }
      else if n == 3 { assert 3 as Word != 0; }
      else if n == 4 { assert 4 as Word != 0; }
      else if n == 5 { assert 5 as Word != 0; }
      else if n == 6 { assert 6 as Word != 0; }
      else { assert 7 as Word != 0; }
    }
  }

  /** What the source feeds to the compression function is the padded message of
      section 5.1.1 exactly for inputs under 2^29 bytes. */
  lemma PadAgrees(data: seq<Byte>)
    requires |data| < TWO32
    ensures PackerPad(data) == Pad(data) <==> |data| < 0x2000_0000
  {
    var bits := 8 * |data|;
    ZeroWord(bits / TWO32);
    FieldDiffers(data + [0x80] + Zeros(ZeroCount(|data|)), BytesOf((bits / TWO32) as Word),
      BytesOf((bits % TWO32) as Word));
  }

  lemma FieldDiffers(head: seq<Byte>, high: seq<Byte>, low: seq<Byte>)
    requires |high| == 4
    ensures head + [0, 0, 0, 0] + low == head + (high + low) <==> high == [0, 0, 0, 0]
  {
    assert (head + (high + low))[|head|..][..4] == high;
    assert (head + [0, 0, 0, 0] + low)[|head|..][..4] == [0, 0, 0, 0];
    assert high == [0, 0, 0, 0] ==> head + [0, 0, 0, 0] + low == head + (high + low);
  }

  /** `b << ((3 - k) << 3)`: a byte moved to place k of a big-endian word. */
  function Placed(b: Byte, k: nat): Word
    requires k < 4
  {
    if k == 0 then (b as Word) << 24
    else if k == 1 then (b as Word) << 16
    else if k == 2 then (b as Word) << 8
    else b as Word
  }

  function Or(v: Word, w: Word): Word { v | w }

  /** `s` followed by zeros up to one block. */
  function ZeroFill(s: seq<Byte>): (r: seq<Byte>)
    requires |s| <= 64
    ensures |r| == 64
  {
    s + Zeros(64 - |s|)
  }

  lemma OrFirst(b1: Byte, b2: Byte, b3: Byte, b: Byte)
    ensures Or(WordOf(0, b1, b2, b3), Placed(b, 0)) == WordOf(b, b1, b2, b3)
  {
  }

  lemma OrSecond(b0: Byte, b2: Byte, b3: Byte, b: Byte)
    ensures Or(WordOf(b0, 0, b2, b3), Placed(b, 1)) == WordOf(b0, b, b2, b3)
  {
  }

  lemma OrThird(b0: Byte, b1: Byte, b3: Byte, b: Byte)
    ensures Or(WordOf(b0, b1, 0, b3), Placed(b, 2)) == WordOf(b0, b1, b, b3)
  {
  }

  lemma OrFourth(b0: Byte, b1: Byte, b2: Byte, b: Byte)
    ensures Or(WordOf(b0, b1, b2, 0), Placed(b, 3)) == WordOf(b0, b1, b2, b)
  {
  }

  /** OR-ing one more byte into its place extends the zero-filled block by that byte. */
  lemma OrByte(s: seq<Byte>, b: Byte)
    requires |s| < 64
    ensures Or(WordAt(ZeroFill(s), |s| / 4), Placed(b, |s| % 4)) == WordAt(ZeroFill(s + [b]), |s| / 4)
    ensures forall w :: 0 <= w < 16 && w != |s| / 4 ==> WordAt(ZeroFill(s + [b]), w) == WordAt(ZeroFill(s), w)
  {
    hide Or, Placed, WordOf, ZeroFill;
    ZeroFillStep(s, b);
    var z, i := ZeroFill(s), 4 * (|s| / 4);
    OrAt(z, i, b, |s| % 4);
    assert |s| == i + |s| % 4;
  }

  /** One more byte of a block OR-ed into the buffer. */
  lemma OrStep(temp: seq<Word>, s: seq<Byte>, b: Byte)
    requires |temp| == 80 && |s| < 64 && Holds(temp, ZeroFill(s))
    ensures Holds(temp[|s| / 4 := Or(temp[|s| / 4], Placed(b, |s| % 4))], ZeroFill(s + [b]))
  {
    hide Or, Placed, WordAt, ZeroFill;
    OrByte(s, b);
  }

  lemma AllZero(temp: seq<Word>)
    requires |temp| == 80 && forall w :: 0 <= w < 16 ==> temp[w] == 0
    ensures Holds(temp, ZeroFill([]))
  {
    forall w | 0 <= w < 16
      ensures WordAt(ZeroFill([]), w) == 0
    {
      ZeroWordAt(ZeroFill([]), w);
    }
  }

  lemma ZeroFillStep(s: seq<Byte>, b: Byte)
    requires |s| < 64
    ensures ZeroFill(s + [b]) == ZeroFill(s)[|s| := b]
    ensures ZeroFill(s)[|s|] == 0
  {
  }

  lemma OrAt(p: seq<Byte>, i: nat, b: Byte, k: nat)
    requires k < 4 && i + 4 <= |p| && p[i + k] == 0
    ensures Or(WordOf(p[i], p[i + 1], p[i + 2], p[i + 3]), Placed(b, k))
         == var q := p[i + k := b]; WordOf(q[i], q[i + 1], q[i + 2], q[i + 3])
  {
    if k == 0 { OrFirst(p[i + 1], p[i + 2], p[i + 3], b); }
    else if k == 1 { OrSecond(p[i], p[i + 2], p[i + 3], b); }
    else if k == 2 { OrThird(p[i], p[i + 1], p[i + 3], b); }
    else { OrFourth(p[i], p[i + 1], p[i + 2], b); }
  }

  /** The source's big-endian load of one word. */
  function LoadWord(b0: Byte, b1: Byte, b2: Byte, b3: Byte): Word
  {
    (b3 as Word) | ((b2 as Word) << 8) | ((b1 as Word) << 16) | ((b0 as Word) << 24)
  }

  lemma LoadOrder(b0: Byte, b1: Byte, b2: Byte, b3: Byte)
    ensures LoadWord(b0, b1, b2, b3) == WordOf(b0, b1, b2, b3)
  {
  }

  /** `(w >> (k << 3)) & 0xFF`: byte k of a word, counted from the low end. */
  function ByteAt(w: Word, k: nat): Byte
    requires k < 4
  {
    if k == 0 then (w & 0xFF) as Byte
    else if k == 1 then ((w >> 8) & 0xFF) as Byte
    else if k == 2 then ((w >> 16) & 0xFF) as Byte
    else ((w >> 24) & 0xFF) as Byte
  }

  /** The first sixteen words of the buffer are the words of the 64 bytes `p`. */
  ghost predicate Holds(temp: seq<Word>, p: seq<Byte>)
    requires |temp| == 80 && |p| == 64
  {
    forall w :: 0 <= w < 16 ==> temp[w] == WordAt(p, w)
  }

  lemma HoldsBlock(temp: seq<Word>, p: seq<Byte>, j: nat)
    requires |temp| == 80 && 64 * j + 64 <= |p|
    requires Holds(temp, p[64 * j..64 * j + 64])
    ensures temp[..16] == Block(p, j)
  {
    var q := p[64 * j..64 * j + 64];
    forall w | 0 <= w < 16
      ensures WordAt(q, w) == WordAt(p, 16 * j + w)
    {
    }
  }

  lemma ZeroWordAt(p: seq<Byte>, w: nat)
    requires 4 * w + 4 <= |p|
    requires forall i :: 4 * w <= i < 4 * w + 4 ==> p[i] == 0
    ensures WordAt(p, w) == 0
  {
    assert WordOf(0, 0, 0, 0) == 0;
  }

  /** Blocks that lie inside the data are the same after padding. */
  lemma HashPrefix(data: seq<Byte>, p: seq<Byte>, n: nat)
    requires 64 * n <= |data| && data <= p
    ensures HashBlocks(data, n) == HashBlocks(p, n)
  {
    if n > 0 {
      HashPrefix(data, p, n - 1);
      BlockPrefix(data, p, n - 1);
    }
  }

  lemma BlockPrefix(data: seq<Byte>, p: seq<Byte>, j: nat)
    requires 64 * j + 64 <= |data| && data <= p
    ensures Block(data, j) == Block(p, j)
  {
    forall w | 16 * j <= w < 16 * j + 16
      ensures WordAt(data, w) == WordAt(p, w)
    {
    }
    assert forall t :: 0 <= t < 16 ==>
      Block(data, j)[t] == WordAt(data, 16 * j + t) && Block(p, j)[t] == WordAt(p, 16 * j + t);
  }

  method LoadBlock(data: seq<Byte>, block: nat, temp: array<Word>)
    requires temp.Length == 80 && block + 64 <= |data|
    modifies temp
    ensures Holds(temp[..], data[block..block + 64])
  {
    var i, at, end := 0, block, block + 64;
    ghost var p := data[block..block + 64];
    while at < end
      invariant 0 <= i <= 16 && at == block + 4 * i
      invariant forall w :: 0 <= w < i ==> temp[w] == WordAt(p, w)
    {
      LoadOrder(data[at], data[at + 1], data[at + 2], data[at + 3]);
      assert WordAt(p, i) == WordOf(data[at], data[at + 1], data[at + 2], data[at + 3]);
      temp[i] := LoadWord(data[at], data[at + 1], data[at + 2], data[at + 3]);
      i := i + 1;
      at := at + 4;
    }
  }

  /** `memset(temp, 0, sizeof(uint32) * 16)`. */
  method ClearBlock(temp: array<Word>)
    requires temp.Length == 80
    modifies temp
    ensures forall w :: 0 <= w < 16 ==> temp[w] == 0
  {
    for i := 0 to 16
      invariant forall w :: 0 <= w < i ==> temp[w] == 0
    {
      temp[i] := 0;
    }
  }

  /** The first `last` bytes of the tail are in the buffer, the rest is zero. */
  ghost predicate TailHeld(temp: seq<Word>, tail: seq<Byte>, last: nat)
  {
    |temp| == 80 && last <= |tail| < 64 && Holds(temp, ZeroFill(tail[..last]))
  }

  lemma TailStep(temp: seq<Word>, tail: seq<Byte>, last: nat)
    requires TailHeld(temp, tail, last) && last < |tail|
    ensures TailHeld(temp[last / 4 := Or(temp[last / 4], Placed(tail[last], last % 4))], tail, last + 1)
  {
    OrStep(temp, tail[..last], tail[last]);
    assert tail[..last + 1] == tail[..last] + [tail[last]];
  }

  lemma TailEnd(temp: seq<Word>, tail: seq<Byte>)
    requires TailHeld(temp, tail, |tail|)
    ensures Holds(temp[|tail| / 4 := Or(temp[|tail| / 4], Placed(0x80, |tail| % 4))], ZeroFill(tail + [0x80]))
  {
    assert tail[..|tail|] == tail;
    OrStep(temp, tail, 0x80);
  }

  /** Zeros, the last partial block OR-ed in byte by byte, then the 0x80 byte. */
  method FillTail(data: seq<Byte>, block: nat, temp: array<Word>)
    requires temp.Length == 80 && block <= |data| < block + 64
    modifies temp
    ensures Holds(temp[..], ZeroFill(data[block..] + [0x80]))
  {
    var end := |data| - block;
    ghost var tail := data[block..];
    ClearBlock(temp);
    var last := 0;
    AllZero(temp[..]);
    assert tail[..0] == [];
    assert TailHeld(temp[..], tail, 0);
    hide *;
    while last < end
      invariant 0 <= last <= end
      invariant TailHeld(temp[..], tail, last)
    {
      TailStep(temp[..], tail, last);
      temp[last / 4] := Or(temp[last / 4], Placed(data[last + block], last % 4));
      last := last + 1;
    }
    TailEnd(temp[..], tail);
    temp[last / 4] := Or(temp[last / 4], Placed(0x80, last % 4));
  }

  lemma SameWord(p: seq<Byte>, q: seq<Byte>, w: nat)
    requires 4 * w + 4 <= |p| && 4 * w + 4 <= |q|
    requires p[4 * w..4 * w + 4] == q[4 * w..4 * w + 4]
    ensures WordAt(p, w) == WordAt(q, w)
  {
    assert forall i :: 4 * w <= i < 4 * w + 4 ==>
      p[i] == p[4 * w..4 * w + 4][i - 4 * w] && q[i] == q[4 * w..4 * w + 4][i - 4 * w];
  }

  lemma WordOfBytes(p: seq<Byte>, w: nat, low: Word)
    requires 4 * w + 4 <= |p|
    requires p[4 * w..4 * w + 4] == BytesOf(low)
    ensures WordAt(p, w) == low
  {
    var s := BytesOf(low);
    BytesAndBack(low);
    assert forall i :: 4 * w <= i < 4 * w + 4 ==> p[i] == p[4 * w..4 * w + 4][i - 4 * w];
    assert p[4 * w] == s[0] && p[4 * w + 1] == s[1] && p[4 * w + 2] == s[2] && p[4 * w + 3] == s[3];
  }

  /** A block that is `z` up to its length word. */
  lemma LengthLast(q: seq<Byte>, z: seq<Byte>, temp: seq<Word>, low: Word)
    requires |temp| == 80 && |q| == |z| == 64
    requires q[..60] == z[..60] && q[60..] == BytesOf(low)
    requires forall w :: 0 <= w < 15 ==> temp[w] == WordAt(z, w)
    requires temp[15] == low
    ensures Holds(temp, q)
  {
    forall w | 0 <= w < 16
      ensures temp[w] == WordAt(q, w)
    {
      if w < 15 {
        assert q[4 * w..4 * w + 4] == q[..60][4 * w..4 * w + 4] == z[4 * w..4 * w + 4];
        SameWord(q, z, w);
      } else {
        assert q[60..64] == q[60..];
        WordOfBytes(q, 15, low);
      }
    }
  }

  /** Zero bytes from the 0x80 byte up to the four bytes of the length. */
  lemma PadShape(data: seq<Byte>, low: seq<Byte>)
    requires |low| == 4
    ensures var p := PadWith(data, low);
      && |p| == |data| + 9 + ZeroCount(|data|)
      && (forall i :: 0 <= i < |data| ==> p[i] == data[i])
      && p[|data|] == 0x80
      && (forall i :: |data| < i < |p| - 4 ==> p[i] == 0)
      && p[|p| - 4..] == low
  {
  }

  lemma FillShape(data: seq<Byte>, n: nat)
    requires 64 * n <= |data| < 64 * n + 64
    ensures var z := ZeroFill(data[64 * n..] + [0x80]);
      forall i :: 0 <= i < 64 ==>
        z[i] == if 64 * n + i < |data| then data[64 * n + i] else if 64 * n + i == |data| then 0x80 else 0
  {
  }

  /** The final block when the length field fits behind the 0x80 byte. */
  lemma LastBlock(data: seq<Byte>, n: nat, low: seq<Byte>)
    requires 64 * n <= |data| < 64 * n + 56 && |low| == 4
    ensures var p := PadWith(data, low);
      && |p| == 64 * n + 64
      && p[64 * n..64 * n + 64][..60] == ZeroFill(data[64 * n..] + [0x80])[..60]
      && p[64 * n..64 * n + 64][60..] == low
  {
    hide PadWith, ZeroFill;
    PadShape(data, low);
    FillShape(data, n);
    var p := PadWith(data, low);
    assert |p| == 64 * n + 64;
    var last := p[64 * n..64 * n + 64];
    assert last[60..] == p[64 * n + 60..];
  }

  /** When it does not fit: the 0x80 block, then a block of zeros and the length. */
  lemma LastTwoBlocks(data: seq<Byte>, n: nat, low: seq<Byte>)
    requires 64 * n + 56 <= |data| < 64 * n + 64 && |low| == 4
    ensures var p := PadWith(data, low);
      && |p| == 64 * n + 128
      && p[64 * n..64 * n + 64] == ZeroFill(data[64 * n..] + [0x80])
      && p[64 * n + 64..64 * n + 128][..60] == Zeros(64)[..60]
      && p[64 * n + 64..64 * n + 128][60..] == low
  {
    hide PadWith, ZeroFill;
    PadShape(data, low);
    FillShape(data, n);
    var p := PadWith(data, low);
    assert |p| == 64 * n + 128;
    var last := p[64 * n + 64..64 * n + 128];
    assert last[60..] == p[64 * n + 124..];
    assert forall i :: 0 <= i < 60 ==> last[i] == p[64 * n + 64 + i] == 0;
  }

  /** One block: what the source leaves in the buffer before its last compression. */
  lemma OneBlockTail(data: seq<Byte>, n: nat, filled: seq<Word>, temp: seq<Word>)
    requires 64 * n <= |data| < 64 * n + 56 && |filled| == 80
    requires Holds(filled, ZeroFill(data[64 * n..] + [0x80]))
    requires temp == filled[15 := LowBits(data)]
    ensures |PackerPad(data)| == 64 * n + 64 && temp[..16] == Block(PackerPad(data), n)
  {
    var p, low := PackerPad(data), LowBits(data);
    LastBlock(data, n, BytesOf(low));
    LengthLast(p[64 * n..64 * n + 64], ZeroFill(data[64 * n..] + [0x80]), temp, low);
    HoldsBlock(temp, p, n);
  }

  /** Two blocks: the spilled block, and the block of zeros and the length. */
  lemma SpilledBlock(data: seq<Byte>, n: nat, temp: seq<Word>)
    requires 64 * n + 56 <= |data| < 64 * n + 64 && |temp| == 80
    requires Holds(temp, ZeroFill(data[64 * n..] + [0x80]))
    ensures |PackerPad(data)| == 64 * n + 128 && temp[..16] == Block(PackerPad(data), n)
  {
    LastTwoBlocks(data, n, BytesOf(LowBits(data)));
    HoldsBlock(temp, PackerPad(data), n);
  }

  lemma LengthBlock(data: seq<Byte>, n: nat, cleared: seq<Word>, temp: seq<Word>)
    requires 64 * n + 56 <= |data| < 64 * n + 64 && |cleared| == 80
    requires forall w :: 0 <= w < 16 ==> cleared[w] == 0
    requires temp == cleared[15 := LowBits(data)]
    ensures |PackerPad(data)| == 64 * n + 128 && temp[..16] == Block(PackerPad(data), n + 1)
  {
    var p, low, z := PackerPad(data), LowBits(data), Zeros(64);
    LastTwoBlocks(data, n, BytesOf(low));
    forall w | 0 <= w < 15
      ensures temp[w] == WordAt(z, w)
    {
      ZeroWordAt(z, w);
    }
    LengthLast(p[64 * (n + 1)..64 * (n + 1) + 64], z, temp, low);
    HoldsBlock(temp, p, n + 1);
  }

  lemma DigestAt(s: seq<Word>, i: nat)
    requires |s| == 5 && i < 20
    ensures DigestOf(HashIn(s))[i] == BytesOf(s[i / 4])[i % 4]
  {
    Concat5(BytesOf(s[0]), BytesOf(s[1]), BytesOf(s[2]), BytesOf(s[3]), BytesOf(s[4]), i);
  }

  lemma ByteIndex(w: Word, k: nat)
    requires k < 4
    ensures BytesOf(w)[k] == ByteAt(w, 3 - k)
  {
  }

  lemma Concat5(b0: seq<Byte>, b1: seq<Byte>, b2: seq<Byte>, b3: seq<Byte>, b4: seq<Byte>, i: nat)
    requires |b0| == |b1| == |b2| == |b3| == |b4| == 4 && i < 20
    ensures (b0 + b1 + b2 + b3 + b4)[i] == [b0, b1, b2, b3, b4][i / 4][i % 4]
  {
  }

  method WriteDigest(sha: array<Word>, dest: array<Byte>)
    requires sha.Length == 5 && dest.Length >= 20
    modifies dest
    ensures dest[..20] == DigestOf(HashIn(sha[..]))
    ensures dest[20..] == old(dest[20..])
  {
    hide *;
    ghost var digest := DigestOf(HashIn(sha[..]));
    forall i | 0 <= i < 20
      ensures digest[i] == ByteAt(sha[i / 4], (3 - i) % 4)
    {
      DigestAt(sha[..], i);
      ByteIndex(sha[i / 4], i % 4);
    }
    var i := 19;
    while i >= 0
      invariant -1 <= i <= 19
      invariant forall k :: i < k < 20 ==> dest[k] == digest[k]
      invariant dest[20..] == old(dest[20..])
    {
      dest[i] := ByteAt(sha[i / 4], (3 - i) % 4);
      i := i - 1;
    }
  }

  /** The tail of the source's `hashSha1`, after the whole blocks. */
  method HashTail(data: seq<Byte>, block: nat, sha: array<Word>, temp: array<Word>)
    requires sha.Length == 5 && temp.Length == 80 && sha != temp
    requires block % 64 == 0 && block <= |data| < block + 64
    requires HashIn(sha[..]) == HashBlocks(data, block / 64)
    modifies sha, temp
    ensures HashIn(sha[..]) == HashBlocks(PackerPad(data), |PackerPad(data)| / 64)
  {
    hide Compress, Block, WordOf, WordAt, Rounds, Plus, LowBits, BytesOf, Holds;
    ghost var n := block / 64;
    HashPrefix(data, PackerPad(data), n);
    var end := |data| - block;
    FillTail(data, block, temp);
    if end >= 56 {
      SpilledBlock(data, n, temp[..]);
      Sha1PartHash(sha, temp);
      ClearBlock(temp);
    }
    ghost var filled := temp[..];
    temp[15] := LowBits(data);
    if end >= 56 {
      LengthBlock(data, n, filled, temp[..]);
    } else {
      OneBlockTail(data, n, filled, temp[..]);
    }
    Sha1PartHash(sha, temp);
  }

  method HashSha1(data: seq<Byte>, dest: array<Byte>)
    requires |data| < TWO32 - 64 && dest.Length >= 20
    modifies dest
    ensures dest[..20] == DigestOf(HashBlocks(PackerPad(data), |PackerPad(data)| / 64))
    ensures |data| < 0x2000_0000 ==> dest[..20] == Sha1(data)
    ensures dest[20..] == old(dest[20..])
  {
    hide Compress, Block, WordOf, WordAt, Rounds, Plus, LowBits, BytesOf, Holds, Pad, PackerPad;
    var temp := new Word[80];
    var sha := new Word[5] [0x67452301, 0xefcdab89, 0x98badcfe, 0x10325476, 0xc3d2e1f0];
    var block := 0;
    while block + 64 <= |data|
      invariant block % 64 == 0 && block <= |data| && dest[..] == old(dest[..])
      invariant HashIn(sha[..]) == HashBlocks(data, block / 64)
    {
      LoadBlock(data, block, temp);
      HoldsBlock(temp[..], data, block / 64);
      Sha1PartHash(sha, temp);
      block := block + 64;
    }
    HashTail(data, block, sha, temp);
    PadAgrees(data);
    WriteDigest(sha, dest);
  }
}
