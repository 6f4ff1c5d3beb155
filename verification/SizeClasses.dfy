/** One size class: its free and live blocks partition the address range it has carved. */
module SizeClasses {
  import opened HeapModel

  predicate Distinct(s: seq<nat>) {
    forall i, j | 0 <= i < j < |s| :: s[i] != s[j]
  }

  /** Every block boundary of the carved pages is live or free, none is both, and none is listed twice. */
  ghost predicate Partition(k: nat, d: Dom)
    requires k < CLASSES
  {
    && Distinct(d.free)
    && (forall a | a in d.free :: IsBlock(k, d.carved, a) && a !in d.live)
    && (forall a | a in d.live :: IsBlock(k, d.carved, a))
    && (forall a: nat | IsBlock(k, d.carved, a) :: a in d.live || a in d.free)
  }

  predicate Sizes(k: nat, d: Dom)
    requires k < CLASSES
  {
    && |d.live| + |d.free| == d.carved * BlocksPerPage(k)
    && |d.live| <= d.peak <= d.carved * BlocksPerPage(k)
  }

  ghost predicate DomOk(k: nat, d: Dom)
    requires k < CLASSES
  {
    d.carved <= BAND_PAGES && Partition(k, d) && Sizes(k, d)
  }

  /** Past the premapped pages, a page is carved only when every block of the others was live. */
  predicate HighWater(k: nat, d: Dom)
    requires k < CLASSES
  {
    d.carved > PREMAP ==> d.peak > (d.carved - 1) * BlocksPerPage(k)
  }

  // ---------------------------------------------------------------------------------------
  // Geometry
  // ---------------------------------------------------------------------------------------

  lemma Surplus(x: int, d: nat, b: nat)
    ensures (x + d + 1) * b >= x * b + b && x * b + b >= x * b
  {
    assert (x + d + 1) * b == x * b + d * b + b;
  }

  lemma OrderedMultiples(x: int, y: int, b: nat)
    ensures x < y ==> x * b + b <= y * b
    ensures x <= y ==> x * b <= y * b
  {
    if x < y { Surplus(x, y - x - 1, b); }
  }

  lemma DivMod(a: int, b: nat, q: int, r: nat)
    requires b > 0 && a == q * b + r && r < b
    ensures a / b == q && a % b == r
  {
    assert a == a / b * b + a % b;
    OrderedMultiples(a / b, q, b);
    OrderedMultiples(q, a / b, b);
  }

  /** A multiple of b between 0 and n * b has its factor between 0 and n. */
  lemma FactorBounds(i: int, n: nat, b: nat)
    requires b > 0 && 0 <= i * b < n * b
    ensures 0 <= i < n && i * b + b <= n * b
  {
    OrderedMultiples(i, 0, b);
    OrderedMultiples(n, i, b);
    OrderedMultiples(i, n, b);
  }

  lemma BlockFacts(k: nat)
    requires k < CLASSES
    ensures BlockSize(k) * BlocksPerPage(k) == 4096 && BlockSize(k) >= 64 && BlockSize(k) == 4 * (BlockSize(k) / 4)
  {
  }

  lemma BlockSmall(k: nat)
    requires k < CLASSES
    ensures 64 <= BlockSize(k) <= 4096
  {
  }

  /** A multiple of b is a multiple of 4 when b is. */
  lemma MultipleOfFour(x: nat, b: nat)
    requires b == 4 * (b / 4)
    ensures x * b % 4 == 0
  {
    assert x * b == (x * (b / 4)) * 4;
  }

  /** Position of a block within its page. */
  lemma BlockIndex(k: nat, a: nat)
    requires k < CLASSES && a % BlockSize(k) == 0
    ensures var i := a % 4096 / BlockSize(k);
            0 <= i < BlocksPerPage(k) && a == a / 4096 * 4096 + i * BlockSize(k) && a % 4096 == i * BlockSize(k)
    ensures a % 4 == 0 && a % 4096 + BlockSize(k) <= 4096
  {
    BlockFacts(k);
    hide BlockSize, BlocksPerPage;
    OffsetIndex(a, BlockSize(k), BlocksPerPage(k));
  }

  lemma OffsetIndex(a: nat, b: nat, n: nat)
    requires b > 0 && b * n == 4096 && a % b == 0 && b == 4 * (b / 4)
    ensures var i := a % 4096 / b;
            0 <= i < n && a == a / 4096 * 4096 + i * b && a % 4096 == i * b && a % 4 == 0 && a % 4096 + b <= 4096
  {
    var t := a / b;
    var i := t - a / 4096 * n;
    WholeMultiple(a, b);
    OffsetMultiple(a, a / 4096, t, b, n);
    FactorBounds(i, n, b);
    DivMod(a % 4096, b, i, 0);
    MultipleOfFour(t, b);
  }

  lemma WholeMultiple(a: nat, b: nat)
    requires b > 0 && a % b == 0
    ensures a == a / b * b
  {
  }

  lemma OffsetMultiple(a: nat, q: nat, t: nat, b: nat, n: nat)
    requires b * n == 4096 && a == t * b && q == a / 4096
    ensures a % 4096 == (t - q * n) * b && 0 <= (t - q * n) * b < n * b
  {
    assert q * 4096 == (q * n) * b;
    assert n * b == 4096;
  }

  lemma PageBlockIn(k: nat, p: nat, i: nat)
    requires k < CLASSES && i < BlocksPerPage(k)
    ensures var a := PageBlocks(k, p)[i];
            && a == p * 4096 + i * BlockSize(k)
            && a / 4096 == p && a % BlockSize(k) == 0 && a % 4 == 0 && a % 4096 + BlockSize(k) <= 4096
  {
    var b, n, a := BlockSize(k), BlocksPerPage(k), PageBlocks(k, p)[i];
    BlockFacts(k);
    hide BlockSize, BlocksPerPage, PageBlocks;
    OrderedMultiples(i, n, b);
    DivMod(a, 4096, p, i * b);
    assert a == (p * n + i) * b;
    DivMod(a, b, p * n + i, 0);
    BlockIndex(k, a);
  }

  /** The blocks of a page are its multiples of the block size. */
  lemma PageBlockAt(k: nat, p: nat, a: nat)
    requires k < CLASSES && a / 4096 == p && a % BlockSize(k) == 0
    ensures a in PageBlocks(k, p)
  {
    var i := a % 4096 / BlockSize(k);
    BlockIndex(k, a);
    assert PageBlocks(k, p)[i] == a;
  }

  lemma PageBlocksDistinct(k: nat, p: nat, i: nat, j: nat)
    requires k < CLASSES && i < j < BlocksPerPage(k)
    ensures PageBlocks(k, p)[i] < PageBlocks(k, p)[j]
  {
    BlockFacts(k);
    OrderedMultiples(i, j, BlockSize(k));
  }

  /** Two blocks of a class never overlap, and no block leaves its page. */
  lemma BlocksApart(k: nat, a: nat, b: nat)
    requires k < CLASSES && a % BlockSize(k) == 0 && b % BlockSize(k) == 0 && a < b
    ensures a + BlockSize(k) <= b
  {
    BlockFacts(k);
    hide BlockSize;
    var n := BlockSize(k);
    OrderedMultiples(b / n, a / n, n);
    OrderedMultiples(a / n, b / n, n);
  }

  /** The blocks of one more page. */
  lemma NextPageBlocks(k: nat, carved: nat, a: nat)
    requires k < CLASSES
    ensures IsBlock(k, carved + 1, a) <==> IsBlock(k, carved, a) || a in PageBlocks(k, BasePage(k) + carved)
    ensures !(IsBlock(k, carved, a) && a in PageBlocks(k, BasePage(k) + carved))
  {
    var p := BasePage(k) + carved;
    if a in PageBlocks(k, p) {
      var i :| 0 <= i < BlocksPerPage(k) && PageBlocks(k, p)[i] == a;
      PageBlockIn(k, p, i);
    }
    if a / 4096 == p && a % BlockSize(k) == 0 { PageBlockAt(k, p, a); }
  }

  // ---------------------------------------------------------------------------------------
  // Steps
  // ---------------------------------------------------------------------------------------

  lemma PopPartition(k: nat, d: Dom)
    requires k < CLASSES && Partition(k, d) && d.free != []
    ensures Partition(k, PopBlock(d))
  {
    hide IsBlock;
    assert d.free == [d.free[0]] + d.free[1..];
    assert d.free[0] !in d.free[1..];
  }

  lemma PopKeeps(k: nat, d: Dom)
    requires k < CLASSES && DomOk(k, d) && d.free != []
    ensures DomOk(k, PopBlock(d)) && (HighWater(k, d) ==> HighWater(k, PopBlock(d)))
  {
    PopPartition(k, d);
    hide Partition, IsBlock, BlocksPerPage;
    assert d.free[0] !in d.live by { FreeNotLive(k, d, 0); }
  }

  lemma FreeNotLive(k: nat, d: Dom, i: nat)
    requires k < CLASSES && Partition(k, d) && i < |d.free|
    ensures d.free[i] !in d.live && IsBlock(k, d.carved, d.free[i])
  {
    hide IsBlock;
    assert d.free[i] in d.free;
  }

  lemma PushPartition(k: nat, d: Dom, ptr: nat)
    requires k < CLASSES && Partition(k, d) && ptr in d.live
    ensures Partition(k, PushBlock(d, ptr))
  {
    hide IsBlock;
    var d' := PushBlock(d, ptr);
    forall a | a in d'.free ensures IsBlock(k, d.carved, a) && a !in d'.live {
      assert a == ptr || a in d.free;
    }
    assert ptr !in d.free;
    forall a: nat | IsBlock(k, d'.carved, a) ensures a in d'.live || a in d'.free {
      assert d'.free[0] == ptr;
      assert a in d.free ==> a in d'.free;
    }
  }

  lemma PushKeeps(k: nat, d: Dom, ptr: nat)
    requires k < CLASSES && DomOk(k, d) && ptr in d.live
    ensures DomOk(k, PushBlock(d, ptr)) && (HighWater(k, d) ==> HighWater(k, PushBlock(d, ptr)))
  {
    PushPartition(k, d, ptr);
    hide Partition, IsBlock, BlocksPerPage;
  }

  lemma CarvePartition(k: nat, d: Dom)
    requires k < CLASSES && Partition(k, d)
    ensures Partition(k, CarvePage(k, d))
  {
    hide IsBlock, PageBlocks, BlocksPerPage;
    var p := BasePage(k) + d.carved;
    var new', d' := PageBlocks(k, p), CarvePage(k, d);
    assert d'.free == new' + d.free;
    forall a | a in d'.free ensures IsBlock(k, d'.carved, a) && a !in d'.live {
      NextPageBlocks(k, d.carved, a);
      assert a in new' || a in d.free;
    }
    forall a | a in d'.live ensures IsBlock(k, d'.carved, a) { NextPageBlocks(k, d.carved, a); }
    forall a: nat | IsBlock(k, d'.carved, a) ensures a in d'.live || a in d'.free {
      NextPageBlocks(k, d.carved, a);
    }
    forall i, j | 0 <= i < j < |d'.free| ensures d'.free[i] != d'.free[j] {
      CarveDistinct(k, d, i, j);
    }
  }

  lemma CarveDistinct(k: nat, d: Dom, i: nat, j: nat)
    requires k < CLASSES && Partition(k, d) && i < j < |CarvePage(k, d).free|
    ensures CarvePage(k, d).free[i] != CarvePage(k, d).free[j]
  {
    hide IsBlock, PageBlocks;
    var p := BasePage(k) + d.carved;
    var n := BlocksPerPage(k);
    if j < n {
      PageBlocksDistinct(k, p, i, j);
    } else if i < n {
      NextPageBlocks(k, d.carved, d.free[j - n]);
      assert d.free[j - n] in d.free;
      assert PageBlocks(k, p)[i] in PageBlocks(k, p);
    }
  }

  lemma CarveKeeps(k: nat, d: Dom)
    requires k < CLASSES && DomOk(k, d) && d.carved < BAND_PAGES
    ensures DomOk(k, CarvePage(k, d))
    ensures d.carved < PREMAP ==> HighWater(k, CarvePage(k, d))
  {
    CarvePartition(k, d);
    hide Partition, IsBlock, BlocksPerPage, PageBlocks;
    var n := BlocksPerPage(k);
    assert (d.carved + 1) * n == d.carved * n + n;
  }

  /** A refill keeps the high-water law, because nothing was free. */
  lemma RefillHighWater(k: nat, d: Dom)
    requires k < CLASSES && DomOk(k, d) && d.free == [] && d.carved < BAND_PAGES
    ensures CarvePage(k, d).free != [] && HighWater(k, PopBlock(CarvePage(k, d)))
  {
    hide Partition, IsBlock, BlocksPerPage, PageBlocks;
    assert |d.live| == d.carved * BlocksPerPage(k);
  }

  function CeilDiv(a: nat, b: nat): nat
    requires b > 0
  {
    (a + b - 1) / b
  }

  /** High-water footprint: the pages carved are exactly what the peak needed, and never less than the premap. */
  lemma Footprint(k: nat, d: Dom)
    requires k < CLASSES && DomOk(k, d) && HighWater(k, d) && d.carved >= PREMAP
    ensures d.carved == Max(PREMAP, CeilDiv(d.peak, BlocksPerPage(k)))
  {
    hide Partition, IsBlock;
    var n := BlocksPerPage(k);
    if k == 0 { assert n == 64; } else if k == 1 { assert n == 32; } else if k == 2 { assert n == 16; }
    else if k == 3 { assert n == 8; } else if k == 4 { assert n == 4; } else if k == 5 { assert n == 2; }
    else { assert n == 1; }
  }
}
