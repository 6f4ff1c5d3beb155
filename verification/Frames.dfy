/** Physical frames: the allocation bitmap of lib/pmm.c and its first-fit scans. */
module Frames {

  /** Number of frames the bitmap covers: 4 GB of 4 KB frames. */
  const MAX_FRAMES: nat := 0x10_0000

  /** Number of 32-bit words in the bitmap. */
  const BITMAP_SIZE: nat := 0x8000

  /** Frames below this one have addresses that survive the trip through the C type int. */
  const INT_FRAMES: nat := 0x8_0000

  /** A C uint32_t. */
  type Word = w: int | 0 <= w < 0x1_0000_0000

  const FULL: Word := 0xFFFF_FFFF

  // ---------------------------------------------------------------------------------------
  // The specification: the lowest frame outside a set of marked frames
  // ---------------------------------------------------------------------------------------

  /** The lowest frame at or above `n` that is not in `used`. */
  function FirstFreeFrom(used: set<nat>, n: nat): (r: nat)
    ensures n <= r && r !in used && forall f: nat | n <= f < r :: f in used
    decreases |used - Below(n)|
  {
    if n in used then
      FewerAbove(used, n);
      FirstFreeFrom(used, n + 1)
    else n
  }

  /** The lowest frame that is not in `used`. */
  function FirstFree(used: set<nat>): (r: nat)
    ensures r !in used && forall f: nat | f < r :: f in used
  {
    FirstFreeFrom(used, 0)
  }

  lemma FewerAbove(used: set<nat>, n: nat)
    requires n in used
    ensures |used - Below(n + 1)| < |used - Below(n)|
  {
    assert used - Below(n) == (used - Below(n + 1)) + {n};
  }

  /** The frames below `n`. */
  function Below(n: nat): (s: set<nat>)
    ensures forall f: nat :: f in s <==> f < n
    ensures |s| == n
  {
    if n == 0 then {} else Below(n - 1) + {n - 1}
  }

  lemma SubsetSize<T>(a: set<T>, b: set<T>)
    requires a <= b
    ensures |a| <= |b|
  {
    assert b == a + (b - a);
  }

  /** First fit never looks past the number of marked frames. */
  lemma FirstFreeBound(used: set<nat>)
    ensures FirstFree(used) <= |used|
  {
    SubsetSize(Below(FirstFree(used)), used);
  }

  // ---------------------------------------------------------------------------------------
  // Bitwise operations on naturals
  // ---------------------------------------------------------------------------------------

  function Pow2(n: nat): (p: nat)
    ensures p >= 1
  {
    if n == 0 then 1 else 2 * Pow2(n - 1)
  }

  /** Bit `b` of `w`. */
  predicate Bit(w: nat, b: nat) {
    if b == 0 then w % 2 == 1 else Bit(w / 2, b - 1)
  }

  /** The C operator & on unsigned words. */
  function And(x: nat, y: nat): nat {
    if x == 0 || y == 0 then 0 else 2 * And(x / 2, y / 2) + if x % 2 == 1 && y % 2 == 1 then 1 else 0
  }

  /** The C operator | on unsigned words. */
  function Or(x: nat, y: nat): nat {
    if x == 0 then y else if y == 0 then x
    else 2 * Or(x / 2, y / 2) + if x % 2 == 1 || y % 2 == 1 then 1 else 0
  }

  /** The C operator ~ on a 32-bit word. */
  function Not(x: Word): Word {
    FULL - x
  }

  lemma {:induction false} ZeroBits(b: nat)
    ensures !Bit(0, b)
  {
    if b > 0 { ZeroBits(b - 1); }
  }

  lemma {:induction false} AndBits(x: nat, y: nat, b: nat)
    ensures Bit(And(x, y), b) <==> Bit(x, b) && Bit(y, b)
  {
    if x == 0 || y == 0 {
      ZeroBits(b);
    } else if b > 0 {
      AndBits(x / 2, y / 2, b - 1);
    }
  }

  lemma {:induction false} OrBits(x: nat, y: nat, b: nat)
    ensures Bit(Or(x, y), b) <==> Bit(x, b) || Bit(y, b)
  {
    if x == 0 || y == 0 {
      ZeroBits(b);
    } else if b > 0 {
      OrBits(x / 2, y / 2, b - 1);
    }
  }

  lemma PowStep(n: nat)
    requires n > 0
    ensures Pow2(n) == 2 * Pow2(n - 1)
  {
  }

  lemma HalfComplement(p: nat, x: nat)
    requires x < 2 * p
    ensures (2 * p - 1 - x) / 2 == p - 1 - x / 2 && x / 2 < p
    ensures (2 * p - 1 - x) % 2 == 1 - x % 2
  {
  }

  lemma {:induction false} NotBits(n: nat, x: nat, b: nat)
    requires x < Pow2(n) && b < n
    ensures Bit(Pow2(n) - 1 - x, b) <==> !Bit(x, b)
  {
    hide Pow2;
    PowStep(n);
    HalfComplement(Pow2(n - 1), x);
    if b > 0 { NotBits(n - 1, x / 2, b - 1); }
  }

  /** 1 << m has bit m set and no other. */
  lemma {:induction false} MaskBits(m: nat, b: nat)
    ensures Bit(Pow2(m), b) <==> b == m
  {
    if m == 0 {
      if b > 0 { ZeroBits(b - 1); }
    } else if b > 0 {
      MaskBits(m - 1, b - 1);
    }
  }

  lemma {:induction false} NonzeroHasBit(w: nat) returns (b: nat)
    requires w != 0
    ensures Bit(w, b)
  {
    if w % 2 == 1 {
      b := 0;
    } else {
      b := NonzeroHasBit(w / 2);
      b := b + 1;
    }
  }

  /** The test of both scans: `w & (1 << m)` is non-zero exactly when bit m of w is set. */
  lemma TestBit(w: nat, m: nat)
    ensures And(w, Pow2(m)) != 0 <==> Bit(w, m)
  {
    AndBits(w, Pow2(m), m);
    MaskBits(m, m);
    ZeroBits(m);
    if And(w, Pow2(m)) != 0 {
      var b := NonzeroHasBit(And(w, Pow2(m)));
      AndBits(w, Pow2(m), b);
      MaskBits(m, b);
    }
  }

  lemma Pow2Of32()
    ensures Pow2(32) == FULL + 1
  {
    assert Pow2(8) == 0x100;
    assert Pow2(16) == 0x1_0000;
    assert Pow2(24) == 0x100_0000;
  }

  lemma {:induction false} Pow2Monotone(a: nat, b: nat)
    requires a <= b
    ensures Pow2(a) <= Pow2(b)
  {
    if a < b { Pow2Monotone(a, b - 1); }
  }

  lemma {:induction false} BoundedAndOr(n: nat, x: nat, y: nat)
    requires x < Pow2(n) && y < Pow2(n)
    ensures And(x, y) < Pow2(n) && Or(x, y) < Pow2(n)
  {
    if n > 0 { BoundedAndOr(n - 1, x / 2, y / 2); }
  }

  lemma {:induction false} AllBits(n: nat, w: nat)
    requires w < Pow2(n)
    requires forall b: nat | b < n :: Bit(w, b)
    ensures w == Pow2(n) - 1
  {
    if n > 0 {
      assert Bit(w, 0);
      forall b: nat | b < n - 1 ensures Bit(w / 2, b) { assert Bit(w, b + 1); }
      AllBits(n - 1, w / 2);
    }
  }

  /** w | (1 << m) sets bit m and no other. */
  lemma SetOne(w: nat, m: nat)
    ensures forall c: nat | c < 32 :: Bit(Or(w, Pow2(m)), c) <==> c == m || Bit(w, c)
  {
    forall c: nat | c < 32 ensures Bit(Or(w, Pow2(m)), c) <==> c == m || Bit(w, c) {
      OrBits(w, Pow2(m), c);
      MaskBits(m, c);
    }
  }

  /** w & ~(1 << m) clears bit m and no other. */
  lemma ClearOne(w: nat, m: nat)
    requires Pow2(m) <= FULL
    ensures forall c: nat | c < 32 :: Bit(And(w, Not(Pow2(m))), c) <==> c != m && Bit(w, c)
  {
    Pow2Of32();
    forall c: nat | c < 32 ensures Bit(And(w, Not(Pow2(m))), c) <==> c != m && Bit(w, c) {
      AndBits(w, Not(Pow2(m)), c);
      NotBits(32, Pow2(m), c);
      MaskBits(m, c);
    }
  }

  /** The shortcut of both scans: a word equals 0xFFFFFFFF exactly when all its 32 bits are set. */
  predicate AllSet(w: Word) {
    forall b: nat | b < 32 :: Bit(w, b)
  }

  lemma FullWord(w: Word)
    ensures w == FULL <==> AllSet(w)
  {
    Pow2Of32();
    if AllSet(w) {
      AllBits(32, w);
    }
    if w == FULL {
      forall b: nat | b < 32 ensures Bit(w, b) {
        NotBits(32, 0, b);
        ZeroBits(b);
        assert w == Pow2(32) - 1 - 0;
      }
    }
  }

  // ---------------------------------------------------------------------------------------
  // The bitmap
  // ---------------------------------------------------------------------------------------

  /** calculate_page, find_index and find_bit: exact for the non-negative values of a C int. */
  function CalculatePage(address: nat): (frame: nat)
    requires address < 0x8000_0000
  {
    address / 4096
  }

  function FindIndex(frame: nat): nat {
    frame / 32
  }

  function FindBit(frame: nat): nat {
    frame % 32
  }

  /** Virtual address 0xC0000000: physical addresses lie below it. */
  const KERNEL_BASE: nat := 0xC000_0000

  /** The status argument of set_bit. */
  const ALLOCATE := 1
  const FREE := 0

  class FrameBitmap {
    /** First frame past the kernel image: the physical frame of _heap_start. */
    const reserve: nat
    const bitmap: array<Word>
    /** The counter used_frames, a 32-bit unsigned word. */
    var usedFrames: nat
    /** The marked frames: the abstract value of the bitmap. */
    ghost var used: set<nat>

    ghost predicate Valid()
      reads this`used, bitmap
    {
      && bitmap.Length == BITMAP_SIZE
      && reserve <= INT_FRAMES
      && (forall f | f in used :: f < MAX_FRAMES)
      && (forall i: nat, b: nat | i < BITMAP_SIZE && b < 32 :: Bit(bitmap[i], b) <==> i * 32 + b in used)
    }

    /** The static arrays before init_pmm has run. */
    constructor (reserve: nat)
      requires reserve <= INT_FRAMES
      ensures this.reserve == reserve && bitmap.Length == BITMAP_SIZE && usedFrames == 0 && fresh(bitmap)
    {
      this.reserve := reserve;
      bitmap := new Word[BITMAP_SIZE];
      usedFrames := 0;
      used := {};
    }

    /** init_pmm: clears the bitmap and marks every frame of the kernel image. */
    method InitPmm()
      requires reserve <= INT_FRAMES && bitmap.Length == BITMAP_SIZE && usedFrames == 0
      modifies this, bitmap
      ensures Valid() && used == Below(reserve) && usedFrames == reserve
    {
      for i := 0 to BITMAP_SIZE
        invariant usedFrames == 0
        invariant forall j | 0 <= j < i :: bitmap[j] == 0
      {
        bitmap[i] := 0;
      }
      used := {};
      EmptyWords();
      MarkImage();
    }

    /** The loop of init_pmm over the addresses of the kernel image. */
    method MarkImage()
      requires Valid() && used == {} && usedFrames == 0
      modifies this`used, this`usedFrames, bitmap
      ensures Valid() && used == Below(reserve) && usedFrames == reserve
    {
      hide Valid, Below;
      SmallImage();
      for frame := 0 to reserve
        invariant Valid() && usedFrames == frame && used == Below(frame)
      {
        SetFrame(frame * 4096);
        assert used == Below(frame + 1);
        usedFrames := usedFrames + 1;
      }
    }

    lemma SmallImage()
      requires Valid()
      ensures reserve <= INT_FRAMES
    {
    }

    lemma EmptyWords()
      requires reserve <= INT_FRAMES && bitmap.Length == BITMAP_SIZE && used == {}
      requires forall j | 0 <= j < BITMAP_SIZE :: bitmap[j] == 0
      ensures Valid()
    {
      forall i: nat, b: nat | i < BITMAP_SIZE && b < 32 ensures !Bit(bitmap[i], b) { ZeroBits(b); }
    }

    /** set_bit: sets or clears one bit and returns the new word; any other status changes nothing. */
    method SetBit(index: nat, bit: nat, status: int) returns (word: Word)
      requires Valid() && index < BITMAP_SIZE && bit < 32
      modifies this`used, bitmap
      ensures Valid()
      ensures status == ALLOCATE ==> used == old(used) + {index * 32 + bit} && word == bitmap[index]
      ensures status == FREE ==> used == old(used) - {index * 32 + bit} && word == bitmap[index]
      ensures status != ALLOCATE && status != FREE ==> used == old(used) && word == 0
    {
      hide And, Or, Bit, Pow2;
      ghost var was := bitmap[index];
      Pow2Of32();
      PowStep(bit + 1);
      Pow2Monotone(bit + 1, 32);
      if status == ALLOCATE {
        BoundedAndOr(32, was, Pow2(bit));
        bitmap[index] := Or(bitmap[index], Pow2(bit));
        word := bitmap[index];
        used := used + {index * 32 + bit};
        SetOne(was, bit);
      } else if status == FREE {
        BoundedAndOr(32, was, Not(Pow2(bit)));
        bitmap[index] := And(bitmap[index], Not(Pow2(bit)));
        word := bitmap[index];
        used := used - {index * 32 + bit};
        ClearOne(was, bit);
      } else {
        word := 0;
      }
    }

    /** set_frame. An address at or above 0xC0000000 fails the physical-address check and is ignored. */
    method SetFrame(address: Word)
      requires Valid() && (address < INT_FRAMES * 4096 || KERNEL_BASE <= address)
      modifies this`used, bitmap
      ensures Valid()
      ensures used == if address < KERNEL_BASE then old(used) + {address / 4096} else old(used)
    {
      if address >= KERNEL_BASE { return; }
      var frame := CalculatePage(address);
      var w := SetBit(FindIndex(frame), FindBit(frame), ALLOCATE);
    }

    /** clear_frame, with the same check. */
    method ClearFrame(address: Word) returns (word: Word)
      requires Valid() && (address < INT_FRAMES * 4096 || KERNEL_BASE <= address)
      modifies this`used, bitmap
      ensures Valid()
      ensures used == if address < KERNEL_BASE then old(used) - {address / 4096} else old(used)
      ensures word == if address < KERNEL_BASE then bitmap[address / 4096 / 32] else 0
    {
      if address >= KERNEL_BASE { return 0; }
      var frame := CalculatePage(address);
      word := SetBit(FindIndex(frame), FindBit(frame), FREE);
    }

    /** What a scan that found frame `f` does: returns its address, marks it and counts it. */
    ghost predicate Took(before: set<nat>, count: nat, f: nat, address: Word)
      reads this
    {
      && address == f * 4096
      && used == before + {f}
      && usedFrames == (count + 1) % 0x1_0000_0000
    }

    /**
     * get_next_free_kernel_frame: the lowest clear frame past the kernel image, or 0 when
     * there is none.
     */
    method GetNextFreeKernelFrame() returns (address: Word)
      requires Valid()
      requires var f := FirstFreeFrom(used, reserve); f < INT_FRAMES || MAX_FRAMES <= f
      modifies this`used, this`usedFrames, bitmap
      ensures Valid()
      ensures var f := FirstFreeFrom(old(used), reserve);
              if f < MAX_FRAMES then Took(old(used), old(usedFrames), f, address)
              else address == 0 && used == old(used) && usedFrames == old(usedFrames)
    {
      ghost var free := FirstFreeFrom(used, reserve);
      var safeStart := reserve * 4096;
      var index := safeStart / 4096 / 32;
      while index < BITMAP_SIZE
        invariant reserve / 32 <= index <= BITMAP_SIZE
        invariant Valid() && used == old(used) && usedFrames == old(usedFrames)
        invariant index * 32 <= free || index == reserve / 32
      {
        if bitmap[index] == FULL {
          WordSkipped(index);
          index := index + 1;
          continue;
        }
        var bitCheck := 1;
        for bit := 0 to 32
          invariant bitCheck == Pow2(bit)
          invariant Valid() && used == old(used) && usedFrames == old(usedFrames)
          invariant index * 32 + bit <= free || index * 32 + bit <= reserve
        {
          var frame := index * 32 + bit;
          address := frame * 4096;
          TestBit(bitmap[index], bit);
          if And(bitmap[index], bitCheck) == 0 {
            assert frame !in used;
            if address < safeStart {
              bitCheck := bitCheck * 2;
              continue;
            }
            SetFrame(address);
            usedFrames := (usedFrames + 1) % 0x1_0000_0000;
            return;
          }
          assert frame in used;
          bitCheck := bitCheck * 2;
        }
        index := index + 1;
      }
      address := 0;
    }

    /**
     * get_next_free_process_frame: the lowest clear frame of all, or 0 when there is none. The
     * scan stops the machine as soon as it looks at frame 0, which happens exactly when some
     * frame of the first bitmap word is clear.
     */
    method GetNextFreeProcessFrame() returns (halted: bool, address: Word)
      requires Valid()
      requires FirstFree(used) < INT_FRAMES || MAX_FRAMES <= FirstFree(used)
      modifies this`used, this`usedFrames, bitmap
      ensures Valid()
      ensures halted <==> FirstFree(old(used)) < 32
      ensures if 32 <= FirstFree(old(used)) < MAX_FRAMES
              then Took(old(used), old(usedFrames), FirstFree(old(used)), address)
              else address == 0 && used == old(used) && usedFrames == old(usedFrames)
    {
      ghost var free := FirstFree(used);
      halted := false;
      var index := 0;
      while index < BITMAP_SIZE
        invariant 0 <= index <= BITMAP_SIZE && !halted
        invariant Valid() && used == old(used) && usedFrames == old(usedFrames)
        invariant index * 32 <= free
      {
        if bitmap[index] == FULL {
          WordSkipped(index);
          index := index + 1;
          continue;
        }
        WordNotFull(index);
        var bitCheck := 1;
        for bit := 0 to 32
          invariant bitCheck == Pow2(bit) && !halted && (index == 0 ==> bit == 0)
          invariant Valid() && used == old(used) && usedFrames == old(usedFrames)
          invariant index * 32 + bit <= free
        {
          var frame := index * 32 + bit;
          address := frame * 4096;
          if address == 0 {
            halted := true;
            return;
          }
          TestBit(bitmap[index], bit);
          if And(bitmap[index], bitCheck) == 0 {
            assert frame !in used;
            SetFrame(address);
            usedFrames := (usedFrames + 1) % 0x1_0000_0000;
            return;
          }
          assert frame in used;
          bitCheck := bitCheck * 2;
        }
        index := index + 1;
      }
      address := 0;
    }

    lemma WordSkipped(index: nat)
      requires Valid() && index < BITMAP_SIZE && bitmap[index] == FULL
      ensures forall f: nat | index * 32 <= f < (index + 1) * 32 :: f in used
    {
      FullWord(bitmap[index]);
      forall f: nat | index * 32 <= f < (index + 1) * 32 ensures f in used {
        assert Bit(bitmap[index], f - index * 32);
      }
    }

    lemma WordNotFull(index: nat)
      requires Valid() && index < BITMAP_SIZE && bitmap[index] != FULL
      ensures exists f: nat | index * 32 <= f < (index + 1) * 32 :: f !in used
    {
      FullWord(bitmap[index]);
      var b: nat :| b < 32 && !Bit(bitmap[index], b);
      assert index * 32 + b !in used;
    }
  }
}
