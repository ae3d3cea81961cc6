/** The unsigned 32-bit words that Serial::getCrcCheck computes with, and the few facts about
    them that its proof needs. */
module MachineWords {
  const TOP: bv32 := 0x8000_0000

  // ---------- The operations of the loops ----------

  predicate Msb(w: bv32) {
    w & TOP != 0
  }

  function Left(w: bv32): bv32 {
    w << 1
  }

  function Right(w: bv32): bv32 {
    w >> 1
  }

  function Plus(v: bv32, w: bv32): bv32 {
    v ^ w
  }

  predicate Chosen(w: bv32, mask: bv32) {
    w & mask != 0
  }

  lemma PlusIsXor(v: bv32, w: bv32)
    ensures Msb(Plus(v, w)) == (Msb(v) != Msb(w))
    ensures Left(Plus(v, w)) == Plus(Left(v), Left(w))
  {
  }

  lemma MaskMoves(w: bv32, mask: bv32)
    ensures Chosen(Left(w), mask) == Chosen(w, Right(mask))
    ensures Chosen(w, TOP) == Msb(w)
  {
  }

  /** w shifted left n times by one. */
  function Shl(w: bv32, n: nat): bv32
    decreases n
  {
    if n == 0 then w else Shl(w << 1, n - 1)
  }

  lemma {:induction false} ShlSplit(w: bv32, m: nat, n: nat)
    ensures Shl(w, m + n) == Shl(Shl(w, m), n)
    decreases m
  {
    if m > 0 {
      ShlSplit(w << 1, m - 1, n);
    }
  }

  lemma ShlEight(w: bv32)
    ensures Shl(w, 8) == w << 8
  {
    var w4 := w << 1 << 1 << 1 << 1;
    assert Shl(w, 8) == Shl(w4, 4);
    assert Shl(w4, 4) == w4 << 1 << 1 << 1 << 1;
  }

  lemma ShlAll(w: bv32)
    ensures Shl(w, 32) == 0
  {
    ShlSplit(w, 8, 24);
    ShlSplit(w << 8, 8, 16);
    ShlSplit(w << 8 << 8, 8, 8);
    ShlEight(w);
    ShlEight(w << 8);
    ShlEight(w << 8 << 8);
    ShlEight(w << 8 << 8 << 8);
  }

  // ---------- Bytes into words ----------

  function Wide(x: bv8): bv32 {
    x as bv32
  }

  function Or(v: bv32, w: bv32): bv32 {
    v | w
  }

  /** x << (8 * j) */
  function ShiftUp(x: bv32, j: nat): bv32 {
    if j == 0 then x else if j == 1 then x << 8 else if j == 2 then x << 16 else x << 24
  }

  /** Up to four bytes, the first one least significant; the four lanes do not overlap. */
  function Word(chunk: seq<bv8>): bv32
    requires |chunk| <= 4
    decreases |chunk|
  {
    if chunk == [] then 0
    else var n := |chunk| - 1; Plus(Word(chunk[..n]), ShiftUp(Wide(chunk[n]), n))
  }

  /** The lanes from n on are still empty. */
  predicate Below(w: bv32, n: nat) {
    if n == 0 then w == 0 else if n == 1 then w <= 0xFF else if n == 2 then w <= 0xFFFF
    else if n == 3 then w <= 0xFF_FFFF else true
  }

  lemma Lane0(w: bv32, x: bv8)
    requires w <= 0
    ensures Or(w, ShiftUp(Wide(x), 0)) == Plus(w, ShiftUp(Wide(x), 0))
    ensures Plus(w, ShiftUp(Wide(x), 0)) <= 0xFF
  {
  }

  lemma Lane1(w: bv32, x: bv8)
    requires w <= 0xFF
    ensures Or(w, ShiftUp(Wide(x), 1)) == Plus(w, ShiftUp(Wide(x), 1))
    ensures Plus(w, ShiftUp(Wide(x), 1)) <= 0xFFFF
  {
  }

  lemma RawLane2(w: bv32, x: bv8)
    requires w <= 0xFFFF
    ensures w | (x as bv32 << 16) == w ^ (x as bv32 << 16)
    ensures w ^ (x as bv32 << 16) <= 0xFF_FFFF
  {
  }

  lemma Lane2(w: bv32, x: bv8)
    requires w <= 0xFFFF
    ensures Or(w, ShiftUp(Wide(x), 2)) == Plus(w, ShiftUp(Wide(x), 2))
    ensures Plus(w, ShiftUp(Wide(x), 2)) <= 0xFF_FFFF
  {
    calc {
      Or(w, ShiftUp(Wide(x), 2));
      w | (x as bv32 << 16);
      { RawLane2(w, x); }
      w ^ (x as bv32 << 16);
      Plus(w, ShiftUp(Wide(x), 2));
    }
    assert Plus(w, ShiftUp(Wide(x), 2)) <= 0xFF_FFFF by {
      RawLane2(w, x);
      assert Plus(w, ShiftUp(Wide(x), 2)) == w ^ (x as bv32 << 16);
    }
  }

  lemma RawLane3(w: bv32, x: bv8)
    requires w <= 0xFF_FFFF
    ensures w | (x as bv32 << 24) == w ^ (x as bv32 << 24)
  {
  }

  lemma Lane3(w: bv32, x: bv8)
    requires w <= 0xFF_FFFF
    ensures Or(w, ShiftUp(Wide(x), 3)) == Plus(w, ShiftUp(Wide(x), 3))
  {
    calc {
      Or(w, ShiftUp(Wide(x), 3));
      w | (x as bv32 << 24);
      { RawLane3(w, x); }
      w ^ (x as bv32 << 24);
      Plus(w, ShiftUp(Wide(x), 3));
    }
  }

  /** Or-ing a byte into an empty lane is xoring it in. */
  lemma OrIntoLane(w: bv32, x: bv8, n: nat)
    requires n < 4 && Below(w, n)
    ensures Or(w, ShiftUp(Wide(x), n)) == Plus(w, ShiftUp(Wide(x), n))
    ensures Below(Plus(w, ShiftUp(Wide(x), n)), n + 1)
  {
    hide Or, Plus, ShiftUp, Wide;
    match n
    case 0 => Lane0(w, x);
    case 1 => Lane1(w, x);
    case 2 => Lane2(w, x);
    case 3 => Lane3(w, x);
  }

  lemma {:induction false} WordBelow(chunk: seq<bv8>)
    requires |chunk| <= 4
    ensures Below(Word(chunk), |chunk|)
    decreases |chunk|
  {
    if chunk == [] {
      assert Below(0, 0);
    } else {
      var n := |chunk| - 1;
      WordBelow(chunk[..n]);
      OrIntoLane(Word(chunk[..n]), chunk[n], n);
      hide Plus, Below, ShiftUp, Wide;
    }
  }

  function XorBytes(a: seq<bv8>, b: seq<bv8>): (r: seq<bv8>)
    requires |a| == |b|
    ensures |r| == |a| && forall i :: 0 <= i < |a| ==> r[i] == a[i] ^ b[i]
  {
    seq(|a|, i requires 0 <= i < |a| => a[i] ^ b[i])
  }

  lemma WideXor(x: bv8, y: bv8)
    ensures Wide(x ^ y) == Plus(Wide(x), Wide(y))
  {
  }

  lemma Shift0Xor(v: bv32, w: bv32)
    ensures ShiftUp(Plus(v, w), 0) == Plus(ShiftUp(v, 0), ShiftUp(w, 0))
  {
  }

  lemma Shift1Xor(v: bv32, w: bv32)
    ensures ShiftUp(Plus(v, w), 1) == Plus(ShiftUp(v, 1), ShiftUp(w, 1))
  {
  }

  lemma Shift2Xor(v: bv32, w: bv32)
    ensures ShiftUp(Plus(v, w), 2) == Plus(ShiftUp(v, 2), ShiftUp(w, 2))
  {
  }

  lemma Shift3Xor(v: bv32, w: bv32)
    ensures ShiftUp(Plus(v, w), 3) == Plus(ShiftUp(v, 3), ShiftUp(w, 3))
  {
  }

  lemma LaneXor(x: bv8, y: bv8, n: nat)
    requires n < 4
    ensures ShiftUp(Wide(x ^ y), n) == Plus(ShiftUp(Wide(x), n), ShiftUp(Wide(y), n))
  {
    WideXor(x, y);
    hide Plus, ShiftUp, Wide;
    match n
    case 0 => Shift0Xor(Wide(x), Wide(y));
    case 1 => Shift1Xor(Wide(x), Wide(y));
    case 2 => Shift2Xor(Wide(x), Wide(y));
    case 3 => Shift3Xor(Wide(x), Wide(y));
  }

  lemma PlusSwap(a: bv32, b: bv32, c: bv32, d: bv32)
    ensures Plus(Plus(a, b), Plus(c, d)) == Plus(Plus(a, c), Plus(b, d))
    ensures Plus(0, 0) == 0
  {
  }

  lemma {:induction false} WordXor(a: seq<bv8>, b: seq<bv8>)
    requires |a| == |b| <= 4
    ensures Word(XorBytes(a, b)) == Plus(Word(a), Word(b))
    decreases |a|
  {
    hide ShiftUp, Plus, Wide;
    if a == [] {
      PlusSwap(0, 0, 0, 0);
    } else {
      var n := |a| - 1;
      WordXor(a[..n], b[..n]);
      assert XorBytes(a, b)[..n] == XorBytes(a[..n], b[..n]);
      LaneXor(a[n], b[n], n);
      PlusSwap(Word(a[..n]), Word(b[..n]), ShiftUp(Wide(a[n]), n), ShiftUp(Wide(b[n]), n));
    }
  }
}

/** Serial::getCrcCheck on unsigned machine words, and what its result means. */
module SerialCrc {
  import opened CrcTheory
  import opened MachineWords

  const X_CODE: bv32 := 0x04C11DB7
  const SEED: bv32 := 0xFFFF_FFFF

  // ---------- Machine words as bits ----------

  /** The n most significant bits of w, first one first. */
  function Top(w: bv32, n: nat): (r: seq<bool>)
    ensures |r| == n
    decreases n
  {
    if n == 0 then [] else [Msb(w)] + Top(Left(w), n - 1)
  }

  function Bits(w: bv32): Register {
    Top(w, 32)
  }

  lemma {:induction false} TopXor(v: bv32, w: bv32, n: nat)
    ensures Top(Plus(v, w), n) == Xor(Top(v, n), Top(w, n))
    decreases n
  {
    hide Msb, Left, Plus;
    if n > 0 {
      PlusIsXor(v, w);
      TopXor(Left(v), Left(w), n - 1);
    }
  }

  lemma {:induction false} TopSnoc(w: bv32, n: nat)
    ensures Top(w, n + 1) == Top(w, n) + [Msb(Shl(w, n))]
    decreases n
  {
    hide Msb;
    if n > 0 {
      TopSnoc(w << 1, n - 1);
    }
  }

  lemma BitsOfShift(w: bv32)
    ensures Bits(Left(w)) == Bits(w)[1..] + [false]
  {
    TopSnoc(w, 32);
    ShlAll(w);
    assert Top(w, 33)[1..] == Top(Left(w), 32);
  }

  lemma BitsOfPlus(v: bv32, w: bv32)
    ensures Bits(Plus(v, w)) == Xor(Bits(v), Bits(w))
  {
    TopXor(v, w, 32);
  }

  lemma {:induction false} TopSplit(w: bv32, m: nat, n: nat)
    ensures Top(w, m + n) == Top(w, m) + Top(Shl(w, m), n)
    decreases m
  {
    hide Msb;
    if m > 0 {
      TopSplit(w << 1, m - 1, n);
    }
  }

  lemma TopByte(w: bv32, n: nat)
    ensures Top(w, 8 + n) == Top(w, 8) + Top(w << 8, n)
  {
    TopSplit(w, 8, n);
    ShlEight(w);
  }

  lemma MaskedStep(w: bv32, mask: bv32, half: bv32, b: seq<bool>, k: nat)
    requires |b| == 8 && k < 8 && Right(mask) == half
    requires Masked(w, half, 7 - k) == b[k + 1..] && b[k] == Chosen(w, mask)
    ensures Masked(w, mask, 8 - k) == b[k..]
  {
    hide Chosen;
  }

  /** The first eight bits, spelled out. */
  lemma FirstByte(w: bv32, b: seq<bool>)
    requires |b| == 8
    requires b[0] == Chosen(w, 0x8000_0000) && b[1] == Chosen(w, 0x4000_0000)
    requires b[2] == Chosen(w, 0x2000_0000) && b[3] == Chosen(w, 0x1000_0000)
    requires b[4] == Chosen(w, 0x0800_0000) && b[5] == Chosen(w, 0x0400_0000)
    requires b[6] == Chosen(w, 0x0200_0000) && b[7] == Chosen(w, 0x0100_0000)
    ensures Top(w, 8) == b
  {
    hide Masked, Chosen, Top;
    MaskedIsTop(w, 8);
    MaskedNone(w, 0x0080_0000);
    assert b[8..] == [] && b[0..] == b;
    MaskedStep(w, 0x0100_0000, 0x0080_0000, b, 7);
    MaskedStep(w, 0x0200_0000, 0x0100_0000, b, 6);
    MaskedStep(w, 0x0400_0000, 0x0200_0000, b, 5);
    MaskedStep(w, 0x0800_0000, 0x0400_0000, b, 4);
    MaskedStep(w, 0x1000_0000, 0x0800_0000, b, 3);
    MaskedStep(w, 0x2000_0000, 0x1000_0000, b, 2);
    MaskedStep(w, 0x4000_0000, 0x2000_0000, b, 1);
    MaskedStep(w, 0x8000_0000, 0x4000_0000, b, 0);
  }

  lemma MaskedNone(w: bv32, mask: bv32)
    ensures Masked(w, mask, 0) == []
  {
  }

  /** The hexadecimal constant is the generator of the theory. */
  lemma BitsOfCode()
    ensures Bits(X_CODE) == Code()
  {
    var b3 := [false, false, false, false, false, true, false, false];
    var b2 := [true, true, false, false, false, false, false, true];
    var b1 := [false, false, false, true, true, true, false, true];
    var b0 := [true, false, true, true, false, true, true, true];
    CodeSpelled();
    hide Code, Top;
    TopByte(X_CODE, 24);
    TopByte(X_CODE << 8, 16);
    TopByte(X_CODE << 8 << 8, 8);
    FirstByte(X_CODE, b3);
    FirstByte(X_CODE << 8, b2);
    FirstByte(X_CODE << 8 << 8, b1);
    FirstByte(X_CODE << 8 << 8 << 8, b0);
    assert b3 + (b2 + (b1 + b0)) == b3 + b2 + b1 + b0;
  }

  lemma CodeSpelled()
    ensures Code() ==
      [false, false, false, false, false, true, false, false]
      + [true, true, false, false, false, false, false, true]
      + [false, false, false, true, true, true, false, true]
      + [true, false, true, true, false, true, true, true]
  {
    var c := Code();
    assert c == c[..8] + c[8..16] + c[16..24] + c[24..];
  }

  /** The bits selected by a mask that moves right, as the loop tests them. */
  function Masked(w: bv32, mask: bv32, n: nat): (r: seq<bool>)
    ensures |r| == n
    decreases n
  {
    if n == 0 then [] else [Chosen(w, mask)] + Masked(w, Right(mask), n - 1)
  }

  lemma {:induction false} MaskedShift(w: bv32, mask: bv32, n: nat)
    ensures Masked(w, Right(mask), n) == Masked(Left(w), mask, n)
    decreases n
  {
    hide Chosen, Left, Right;
    if n > 0 {
      MaskMoves(w, mask);
      MaskedShift(w, Right(mask), n - 1);
    }
  }

  lemma {:induction false} MaskedIsTop(w: bv32, n: nat)
    ensures Masked(w, TOP, n) == Top(w, n)
    decreases n
  {
    hide Chosen, Left, Right, Msb;
    if n > 0 {
      MaskMoves(w, TOP);
      MaskedShift(w, TOP, n - 1);
      MaskedIsTop(Left(w), n - 1);
    }
  }

  /** The bits determine the word. */
  lemma {:induction false} NonZeroKeeps(w: bv32, n: nat)
    ensures Top(w, n) == Zeros(n) && w != 0 ==> Shl(w, n) != 0
    decreases n
  {
    if n > 0 && Top(w, n) == Zeros(n) && w != 0 {
      assert !Msb(w) by { assert Top(w, n)[0] == Zeros(n)[0]; }
      assert w << 1 != 0;
      hide Msb;
      assert Zeros(n)[1..] == Zeros(n - 1) && Top(w, n)[1..] == Top(w << 1, n - 1);
      NonZeroKeeps(w << 1, n - 1);
    }
  }

  lemma BitsInjective(v: bv32, w: bv32)
    ensures Bits(v) == Bits(w) ==> v == w
  {
    BitsOfPlus(v, w);
    NonZeroKeeps(Plus(v, w), 32);
    ShlAll(Plus(v, w));
    XorIsZero(Bits(v), Bits(w));
    hide Bits, Shl;
    assert Plus(v, w) == 0 ==> v == w;
  }

  lemma MaskedIsBits(w: bv32)
    ensures Masked(w, TOP, 32) == Bits(w)
  {
    MaskedIsTop(w, 32);
  }

  // ---------- The message ----------

  function ChunkSize(buf: seq<bv8>): (n: nat)
    ensures n <= |buf| && n <= 4 && (buf != [] ==> n > 0)
  {
    if |buf| > 4 then 4 else |buf|
  }

  /** The bits of a buffer in processing order, the last word filled up with zeros. */
  function Message(buf: seq<bv8>): (m: seq<bool>)
    ensures |m| == 32 * ((|buf| + 3) / 4)
    decreases |buf|
  {
    if buf == [] then []
    else Bits(Word(buf[..ChunkSize(buf)])) + Message(buf[ChunkSize(buf)..])
  }

  function Crc(buf: seq<bv8>): Register {
    Feed(Bits(SEED), Message(buf))
  }

  // ---------- Which bit comes from where ----------

  /** The bit of weight 2^n. */
  predicate BitOf(x: bv8, n: nat) {
    if n == 0 then x & 0x01 != 0 else if n == 1 then x & 0x02 != 0
    else if n == 2 then x & 0x04 != 0 else if n == 3 then x & 0x08 != 0
    else if n == 4 then x & 0x10 != 0 else if n == 5 then x & 0x20 != 0
    else if n == 6 then x & 0x40 != 0 else x & 0x80 != 0
  }

  function ByteBits(x: bv8): (b: seq<bool>)
    ensures |b| == 8 && forall i :: 0 <= i < 8 ==> b[i] == BitOf(x, 7 - i)
  {
    [BitOf(x, 7), BitOf(x, 6), BitOf(x, 5), BitOf(x, 4), BitOf(x, 3), BitOf(x, 2), BitOf(x, 1), BitOf(x, 0)]
  }

  lemma TopLaneHigh(x: bv8)
    ensures Chosen(ShiftUp(Wide(x), 3), 0x8000_0000) == BitOf(x, 7)
    ensures Chosen(ShiftUp(Wide(x), 3), 0x4000_0000) == BitOf(x, 6)
    ensures Chosen(ShiftUp(Wide(x), 3), 0x2000_0000) == BitOf(x, 5)
    ensures Chosen(ShiftUp(Wide(x), 3), 0x1000_0000) == BitOf(x, 4)
  {
  }

  lemma TopLaneLow(x: bv8)
    ensures Chosen(ShiftUp(Wide(x), 3), 0x0800_0000) == BitOf(x, 3)
    ensures Chosen(ShiftUp(Wide(x), 3), 0x0400_0000) == BitOf(x, 2)
    ensures Chosen(ShiftUp(Wide(x), 3), 0x0200_0000) == BitOf(x, 1)
    ensures Chosen(ShiftUp(Wide(x), 3), 0x0100_0000) == BitOf(x, 0)
  {
  }

  lemma NothingChosen(w: bv32)
    requires w <= 0xFF_FFFF
    ensures !Chosen(w, 0x8000_0000) && !Chosen(w, 0x4000_0000) && !Chosen(w, 0x2000_0000) && !Chosen(w, 0x1000_0000)
    ensures !Chosen(w, 0x0800_0000) && !Chosen(w, 0x0400_0000) && !Chosen(w, 0x0200_0000) && !Chosen(w, 0x0100_0000)
  {
  }

  lemma LaneMoves(x: bv8)
    ensures ShiftUp(Wide(x), 3) << 8 == 0
    ensures ShiftUp(Wide(x), 2) << 8 == ShiftUp(Wide(x), 3) && ShiftUp(Wide(x), 2) <= 0xFF_FFFF
    ensures ShiftUp(Wide(x), 1) << 8 == ShiftUp(Wide(x), 2) && ShiftUp(Wide(x), 1) <= 0xFF_FFFF
    ensures ShiftUp(Wide(x), 0) << 8 == ShiftUp(Wide(x), 1) && ShiftUp(Wide(x), 0) <= 0xFF_FFFF
  {
  }

  lemma {:induction false} TopOfZero(n: nat)
    ensures Top(0, n) == Zeros(n)
    decreases n
  {
    if n > 0 {
      TopOfZero(n - 1);
    }
  }

  lemma TopLaneBits(x: bv8)
    ensures Bits(ShiftUp(Wide(x), 3)) == ByteBits(x) + Zeros(24)
  {
    TopLaneHigh(x);
    TopLaneLow(x);
    LaneMoves(x);
    hide Chosen, ShiftUp, Wide, Top, BitOf;
    var w := ShiftUp(Wide(x), 3);
    TopByte(w, 24);
    FirstByte(w, ByteBits(x));
    TopOfZero(24);
  }

  /** A word with an empty top byte is the one a byte higher, moved down. */
  lemma LowerLane(w: bv32)
    requires w <= 0xFF_FFFF
    ensures Bits(w) == Zeros(8) + Bits(w << 8)[..24]
  {
    NothingChosen(w);
    hide Chosen, Top;
    TopByte(w, 24);
    FirstByte(w, Zeros(8));
    TopSplit(w << 8, 24, 8);
  }

  lemma LaneMove(x: bv8, j: nat)
    requires j < 3
    ensures ShiftUp(Wide(x), j) <= 0xFF_FFFF && ShiftUp(Wide(x), j) << 8 == ShiftUp(Wide(x), j + 1)
  {
    LaneMoves(x);
    hide ShiftUp, Wide;
    assert j == 0 || j == 1 || j == 2;
  }

  lemma MoveDown(b: seq<bool>, m: nat)
    requires |b| == 8 && m <= 16
    ensures Zeros(8) + (Zeros(m) + b + Zeros(24 - m))[..24] == Zeros(m + 8) + b + Zeros(16 - m)
  {
  }

  lemma LaneBelow(x: bv8, j: nat, m: nat)
    requires j < 3 && m <= 16
    requires Bits(ShiftUp(Wide(x), j + 1)) == Zeros(m) + ByteBits(x) + Zeros(24 - m)
    ensures Bits(ShiftUp(Wide(x), j)) == Zeros(m + 8) + ByteBits(x) + Zeros(16 - m)
  {
    hide Bits, ShiftUp, Wide, ByteBits, Zeros;
    LaneMove(x, j);
    LowerLane(ShiftUp(Wide(x), j));
    MoveDown(ByteBits(x), m);
  }

  lemma TopLane(x: bv8)
    ensures Bits(ShiftUp(Wide(x), 3)) == Zeros(0) + ByteBits(x) + Zeros(24)
  {
    TopLaneBits(x);
    hide Bits, ShiftUp, Wide, ByteBits;
    assert Zeros(0) + ByteBits(x) == ByteBits(x);
  }

  /** A byte in lane n occupies the eight bits of the (3 - n)-th byte, most significant first. */
  lemma LaneBit(x: bv8, n: nat, q: nat, r: nat)
    requires n < 4 && q < 4 && r < 8
    ensures Bits(ShiftUp(Wide(x), n))[8 * q + r] == (q == 3 - n && BitOf(x, 7 - r))
  {
    hide BitOf, Bits, ShiftUp, Wide, ByteBits;
    TopLane(x);
    if n < 3 { LaneBelow(x, 2, 0); }
    if n < 2 { LaneBelow(x, 1, 8); }
    if n < 1 { LaneBelow(x, 0, 16); }
    var m := 8 * (3 - n);
    assert Bits(ShiftUp(Wide(x), n)) == Zeros(m) + ByteBits(x) + Zeros(24 - m);
    InTheMiddle(ByteBits(x), m, 8 * q + r);
  }

  lemma InTheMiddle(b: seq<bool>, m: nat, i: nat)
    requires |b| == 8 && m <= 24 && i < 32
    ensures (Zeros(m) + b + Zeros(24 - m))[i] == (m <= i < m + 8 && b[i - m])
  {
  }

  lemma WordSnocBit(chunk: seq<bv8>, i: nat)
    requires 0 < |chunk| <= 4 && i < 32
    ensures var n := |chunk| - 1;
      Bits(Word(chunk))[i] == (Bits(Word(chunk[..n]))[i] != Bits(ShiftUp(Wide(chunk[n]), n))[i])
  {
    hide Bits, Plus, ShiftUp, Wide;
    var n := |chunk| - 1;
    BitsOfPlus(Word(chunk[..n]), ShiftUp(Wide(chunk[n]), n));
  }

  lemma EmptyWord(i: nat)
    requires i < 32
    ensures !Bits(Word([]))[i]
  {
    hide Top;
    TopOfZero(32);
  }

  /** Bits 8q to 8q + 7 of a word, most significant first, are those of its byte number 3 - q: the first
      byte is the least significant one. */
  lemma {:induction false} WordBits(chunk: seq<bv8>, q: nat, r: nat)
    requires |chunk| <= 4 && q < 4 && r < 8
    ensures Bits(Word(chunk))[8 * q + r] == (3 - q < |chunk| && BitOf(chunk[3 - q], 7 - r))
    decreases |chunk|
  {
    hide Bits, Word, BitOf, ShiftUp, Wide;
    if chunk == [] {
      EmptyWord(8 * q + r);
    } else {
      var n := |chunk| - 1;
      WordBits(chunk[..n], q, r);
      WordSnocBit(chunk, 8 * q + r);
      LaneBit(chunk[n], n, q, r);
    }
  }

  lemma FirstChunk(buf: seq<bv8>)
    requires buf != []
    ensures var n := if |buf| > 4 then 4 else |buf|;
      Message(buf) == Bits(Word(buf[..n])) + Message(buf[n..])
  {
  }

  /** Bits 8q to 8q + 7 of the w-th word of a message are those of byte 4w + 3 - q of the buffer, most
      significant first, and false where the buffer has ended. */
  lemma {:induction false} MessageBits(buf: seq<bv8>, w: nat, q: nat, r: nat)
    requires q < 4 && r < 8 && 4 * w < |buf|
    ensures 32 * w + 8 * q + r < |Message(buf)|
    ensures var j := 4 * w + 3 - q;
      Message(buf)[32 * w + 8 * q + r] == (j < |buf| && BitOf(buf[j], 7 - r))
    decreases w
  {
    hide Message, Bits, Word, BitOf;
    FirstChunk(buf);
    if w == 0 {
      WordBits(buf[..if |buf| > 4 then 4 else |buf|], q, r);
    } else {
      MessageBits(buf[4..], w - 1, q, r);
    }
  }

  // ---------- The loops ----------

  /** One round of the bit loop is one step of the register. */
  lemma RoundIsStep(s: bv32, b: bool)
    ensures var t := if Msb(s) then Plus(Left(s), X_CODE) else Left(s);
      Bits(if b then Plus(t, X_CODE) else t) == BitStep(Bits(s), b)
  {
    BitsOfShift(s);
    BitsOfCode();
    BitsOfPlus(Left(s), X_CODE);
    var t := if Msb(s) then Plus(Left(s), X_CODE) else Left(s);
    BitsOfPlus(t, X_CODE);
    assert Bits(s)[0] == Msb(s);
    hide Bits, Msb, Left, Plus, Code;
  }

  method GetCrcCheck(buf: seq<bv8>) returns (reCrc: bv32)
    ensures Bits(reCrc) == Crc(buf)
  {
    hide Bits, Msb, Left, Plus, Code, Word, Masked, Chosen, BitStep;
    reCrc := SEED;
    var ptr := 0;
    while ptr < |buf|
      invariant 0 <= ptr <= |buf|
      invariant Feed(Bits(reCrc), Message(buf[ptr..])) == Crc(buf)
    {
      var cnt := if |buf| - ptr > 4 then 4 else |buf| - ptr;
      var temp := GatherWord(buf[ptr..ptr + cnt]);
      ghost var rest := buf[ptr..];
      assert rest[..cnt] == buf[ptr..ptr + cnt] && rest[cnt..] == buf[ptr + cnt..];
      FeedAppend(Bits(reCrc), Bits(temp), Message(buf[ptr + cnt..]));
      reCrc := FeedWord(reCrc, temp);
      ptr := ptr + cnt;
    }
  }

  method GatherWord(chunk: seq<bv8>) returns (temp: bv32)
    requires |chunk| <= 4
    ensures temp == Word(chunk)
  {
    temp := 0;
    var j := 0;
    hide ShiftUp, Or, Wide, Plus, Below;
    while j < |chunk|
      invariant 0 <= j <= |chunk| && temp == Word(chunk[..j])
    {
      assert chunk[..j + 1][..j] == chunk[..j];
      WordBelow(chunk[..j]);
      OrIntoLane(temp, chunk[j], j);
      temp := Or(temp, ShiftUp(Wide(chunk[j]), j));
      j := j + 1;
    }
    assert chunk[..|chunk|] == chunk;
  }

  lemma MaskedRound(s: Register, temp: bv32, xbit: bv32, n: nat)
    requires n > 0
    ensures Feed(s, Masked(temp, xbit, n)) == Feed(BitStep(s, Chosen(temp, xbit)), Masked(temp, Right(xbit), n - 1))
  {
    hide BitStep, Chosen, Right;
    var bits := Masked(temp, xbit, n);
    assert bits[0] == Chosen(temp, xbit) && bits[1..] == Masked(temp, Right(xbit), n - 1);
  }

  method FeedWord(s: bv32, temp: bv32) returns (reCrc: bv32)
    ensures Bits(reCrc) == Feed(Bits(s), Bits(temp))
  {
    reCrc := s;
    var xbit := TOP;
    hide Bits, Right, Chosen, BitStep, Masked, Feed;
    MaskedIsBits(temp);
    var bit := 0;
    while bit < 32
      invariant 0 <= bit <= 32
      invariant Feed(Bits(reCrc), Masked(temp, xbit, 32 - bit)) == Feed(Bits(s), Bits(temp))
    {
      MaskedRound(Bits(reCrc), temp, xbit, 32 - bit);
      reCrc := Round(reCrc, Chosen(temp, xbit));
      xbit := Right(xbit);
      bit := bit + 1;
    }
    NoMoreBits(Bits(reCrc), temp, xbit);
  }

  lemma NoMoreBits(s: Register, temp: bv32, xbit: bv32)
    ensures Feed(s, Masked(temp, xbit, 0)) == s
  {
  }

  method Round(s: bv32, b: bool) returns (reCrc: bv32)
    ensures Bits(reCrc) == BitStep(Bits(s), b)
  {
    hide Bits, Msb, Left, Plus, BitStep;
    RoundIsStep(s, b);
    reCrc := s;
    if Msb(reCrc) {
      reCrc := Left(reCrc);
      reCrc := Plus(reCrc, X_CODE);
    } else {
      reCrc := Left(reCrc);
    }
    if b {
      reCrc := Plus(reCrc, X_CODE);
    }
  }

  // ---------- Theorems ----------

  /** A word at a time: xor the word in, then shift 32 times. */
  lemma WordUpdate(s: Register, w: bv32)
    ensures Feed(s, Bits(w)) == Shifts(Xor(s, Bits(w)), 32)
  {
    hide Bits;
    FeedIsShifts(s, Bits(w));
    assert Bits(w) + Zeros(0) == Bits(w);
  }

  /** Two equally long buffers that differ in one burst of at most 32 consecutive bits, in
      processing order, never have the same CRC. */
  lemma DetectsBurst(a: seq<bv8>, b: seq<bv8>, from: nat, len: nat)
    requires |a| == |b| && |Message(a)| == |Message(b)|
    requires Burst(Xor(Message(a), Message(b)), from, len)
    ensures Crc(a) != Crc(b)
  {
    BurstDetected(Bits(SEED), Message(a), Message(b), from, len);
  }

  /** The seed is all ones: so is the CRC of nothing. */
  lemma SeedIsOnes()
    ensures forall i :: 0 <= i < 32 ==> Bits(SEED)[i]
    ensures Crc([]) == Bits(0xFFFF_FFFF)
  {
    var b := [true, true, true, true, true, true, true, true];
    hide Top;
    TopByte(SEED, 24);
    TopByte(SEED << 8, 16);
    TopByte(SEED << 8 << 8, 8);
    FirstByte(SEED, b);
    FirstByte(SEED << 8, b);
    FirstByte(SEED << 8 << 8, b);
    FirstByte(SEED << 8 << 8 << 8, b);
  }

  /** The CRC is the remainder of the message times x^32, plus the seed in front, by the generator. */
  lemma IsRemainder(buf: seq<bv8>)
    ensures var m := Message(buf);
      Crc(buf) == Remainder(Xor(Bits(0xFFFF_FFFF) + Zeros(|m|), m + Zeros(32)))
  {
    FeedIsRemainder(Bits(SEED), Message(buf));
  }

  lemma FirstWord(buf: seq<bv8>)
    requires |buf| >= 4
    ensures Message(buf) == Bits(Word(buf[..4])) + Message(buf[4..])
  {
  }

  lemma WholeWords(n: nat)
    requires n % 4 == 0 && n > 0
    ensures n >= 4 && (n - 4) % 4 == 0
  {
  }

  lemma JoinBits(w: seq<bool>, m: seq<bool>, n: seq<bool>)
    ensures w + m + n == w + (m + n)
  {
  }

  lemma CutWord(a: seq<bv8>, b: seq<bv8>)
    requires |a| >= 4
    ensures (a + b)[..4] == a[..4] && (a + b)[4..] == a[4..] + b
  {
  }

  lemma SplitWord(a: seq<bv8>, b: seq<bv8>)
    requires |a| >= 4 && Message(a[4..] + b) == Message(a[4..]) + Message(b)
    ensures Message(a + b) == Message(a) + Message(b)
  {
    hide Bits, Word, Message;
    FirstWord(a);
    FirstWord(a + b);
    CutWord(a, b);
    JoinBits(Bits(Word(a[..4])), Message(a[4..]), Message(b));
  }

  /** Any front part of whole words is processed on its own. */
  lemma {:induction false} MessageSplit(a: seq<bv8>, b: seq<bv8>)
    requires |a| % 4 == 0
    ensures Message(a + b) == Message(a) + Message(b)
    decreases |a|
  {
    if a == [] {
      assert a + b == b;
    } else {
      hide Message;
      WholeWords(|a|);
      MessageSplit(a[4..], b);
      SplitWord(a, b);
    }
  }

  /** The CRC of a buffer continues from that of any front part of whole words. */
  lemma Continues(a: seq<bv8>, b: seq<bv8>)
    requires |a| % 4 == 0
    ensures Crc(a + b) == Feed(Crc(a), Message(b))
  {
    MessageSplit(a, b);
    FeedAppend(Bits(SEED), Message(a), Message(b));
  }

  lemma XorConcat(a: seq<bool>, b: seq<bool>, c: seq<bool>, d: seq<bool>)
    requires |a| == |b| && |c| == |d|
    ensures Xor(a + c, b + d) == Xor(a, b) + Xor(c, d)
  {
  }

  lemma XorBytesSplit(a: seq<bv8>, b: seq<bv8>, n: nat)
    requires |a| == |b| && n <= |a|
    ensures XorBytes(a, b)[..n] == XorBytes(a[..n], b[..n]) && XorBytes(a, b)[n..] == XorBytes(a[n..], b[n..])
  {
  }

  lemma {:induction false} MessageXor(a: seq<bv8>, b: seq<bv8>)
    requires |a| == |b|
    ensures Message(XorBytes(a, b)) == Xor(Message(a), Message(b))
    decreases |a|
  {
    hide Bits, Word, XorBytes, Xor, Plus;
    if a != [] {
      var n := ChunkSize(a);
      MessageXor(a[n..], b[n..]);
      XorBytesSplit(a, b, n);
      WordXor(a[..n], b[..n]);
      BitsOfPlus(Word(a[..n]), Word(b[..n]));
      XorConcat(Bits(Word(a[..n])), Bits(Word(b[..n])), Message(a[n..]), Message(b[n..]));
    }
  }

  /** The CRC is affine: xoring three equally long buffers xors their CRCs. */
  lemma Affine(a: seq<bv8>, b: seq<bv8>, c: seq<bv8>)
    requires |a| == |b| == |c|
    ensures Crc(XorBytes(a, XorBytes(b, c))) == Xor(Crc(a), Xor(Crc(b), Crc(c)))
  {
    var s := Bits(SEED);
    MessageXor(b, c);
    MessageXor(a, XorBytes(b, c));
    hide Feed, Message, Bits;
    FeedLinear(s, s, Message(b), Message(c));
    FeedLinear(s, Xor(s, s), Message(a), Xor(Message(b), Message(c)));
    assert Xor(s, Xor(s, s)) == s;
  }
}
