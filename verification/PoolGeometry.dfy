/** Where the pool's pages and slots lie (src/runtime/aphotic_shield/guarded_pool_allocator.cpp): guard
    pages and slots of one page each take turns, beginning and ending with a guard page. */
module PoolGeometry {
  import opened Bits

  datatype Config = Config(pool: nat, slots: nat, pageSize: nat)

  /** GuardedPagePoolEnd, as `init` computes it. */
  function End(c: Config): nat { c.pool + c.pageSize * (1 + c.slots) + MaximumAllocationSize(c) * c.slots }

  function MaximumAllocationSize(c: Config): nat { c.pageSize }

  /** What `init` leaves behind: mmap returns a page-aligned address other than 0. */
  ghost predicate ConfigOk(c: Config) {
    && IsPow2(c.pageSize) && c.slots > 0 && c.pool > 0 && c.pool % c.pageSize == 0 && End(c) < WORDS
  }

  predicate PointerIsMine(c: Config, p: nat) { p < End(c) && c.pool <= p }

  // ---------------------------------------------------------------------------------------------
  // Rounding
  // ---------------------------------------------------------------------------------------------

  function RoundUpTo(size: nat, boundary: nat): nat
    requires 0 < boundary < WORDS
  {
    BitAnd(size + boundary - 1, BitNot(boundary - 1))
  }

  function GetPageAddr(p: nat, pageSize: nat): nat
    requires 0 < pageSize < WORDS
  {
    BitAnd(p, BitNot(pageSize - 1))
  }

  /** `x - 1` wraps around at 0. */
  predicate IsPowerOfTwo(x: nat) { BitAnd(x, (x + WORDS - 1) % WORDS) == 0 }

  function AlignUp(p: nat, alignment: nat): (q: nat)
    requires IsPow2(alignment)
    ensures p <= q < p + alignment && q % alignment == 0
    ensures p % alignment == 0 ==> q == p
  {
    AlignmentMask(p, alignment);
    RoundedAreMultiples(p, alignment);
    var low := BitAnd(p, alignment - 1);
    if low == 0 then p else p + (alignment - low)
  }

  function AlignDown(p: nat, alignment: nat): (q: nat)
    requires IsPow2(alignment)
    ensures q <= p < q + alignment && q % alignment == 0
  {
    AlignmentMask(p, alignment);
    RoundedAreMultiples(p, alignment);
    var low := BitAnd(p, alignment - 1);
    if low == 0 then p else p - low
  }

  lemma AlignmentMask(p: nat, alignment: nat)
    requires IsPow2(alignment)
    ensures alignment > 0 && BitAnd(p, alignment - 1) == p % alignment
  {
    var k: nat :| alignment == Pow2(k);
    MaskLow(p, k);
  }

  lemma RoundedAreMultiples(p: nat, m: nat)
    requires m > 0
    ensures p % m <= p && (p - p % m) % m == 0 && (p - p % m + m) % m == 0
  {
    var q := p / m;
    assert p == q * m + p % m;
    DivModUnique(q * m, m, q, 0);
    assert (q + 1) * m == q * m + m;
    DivModUnique(q * m + m, m, q + 1, 0);
  }

  lemma PageAddrClearsOffset(p: nat, pageSize: nat)
    requires IsPow2(pageSize) && pageSize < WORDS && p < WORDS
    ensures GetPageAddr(p, pageSize) == p - p % pageSize
  {
    var k: nat :| pageSize == Pow2(k);
    WordsIsPow2();
    Pow2Grows(k, 64);
    MaskHigh(p, 64, k);
  }

  lemma SizesRoundToOnePage(size: nat, pageSize: nat)
    requires IsPow2(pageSize) && 1 <= size <= pageSize && 2 * pageSize < WORDS
    ensures RoundUpTo(size, pageSize) == pageSize
  {
    PageAddrClearsOffset(size + pageSize - 1, pageSize);
    DivModUnique(size + pageSize - 1, pageSize, 1, size - 1);
  }

  /** The test accepts 0 and the powers of two. */
  lemma PowerOfTwoTest(x: nat)
    requires x < WORDS
    ensures IsPowerOfTwo(x) <==> x == 0 || IsPow2(x)
  {
    if x > 0 {
      PowerTest(x);
      DivModUnique(x + WORDS - 1, WORDS, 1, x - 1);
    }
  }

  // ---------------------------------------------------------------------------------------------
  // Slots and guard pages
  // ---------------------------------------------------------------------------------------------

  function SlotToAddr(c: Config, n: nat): nat { c.pool + c.pageSize * (1 + n) + MaximumAllocationSize(c) * n }

  function AddrToSlot(c: Config, p: nat): nat
    requires c.pool <= p && c.pageSize > 0
  {
    var pair: nat := MaximumAllocationSize(c) + c.pageSize;
    Quotient(p - c.pool, pair)
  }

  predicate IsGuardPage(c: Config, p: nat)
    requires PointerIsMine(c, p) && c.pageSize > 0
  {
    var page := (p - c.pool) / c.pageSize;
    var pagesPerSlot := MaximumAllocationSize(c) / c.pageSize;
    page % (pagesPerSlot + 1) == 0
  }

  function NearestSlot(c: Config, p: nat): nat
    requires PointerIsMine(c, p) && c.pageSize > 0 && c.slots > 0
  {
    if p <= c.pool + c.pageSize then 0
    else if p > End(c) - c.pageSize then c.slots - 1
    else if !IsGuardPage(c, p) then AddrToSlot(c, p)
    else if p % c.pageSize <= c.pageSize / 2 then AddrToSlot(c, p - c.pageSize)
    else AddrToSlot(c, p + c.pageSize)
  }

  /** The page of the pool that an address lies on, and its place there. */
  function PageOf(c: Config, p: nat): nat
    requires c.pool <= p && c.pageSize > 0
  {
    (p - c.pool) / c.pageSize
  }

  function OffsetOf(c: Config, p: nat): nat
    requires c.pool <= p && c.pageSize > 0
  {
    (p - c.pool) % c.pageSize
  }

  lemma PageAt(c: Config, p: nat, page: nat, offset: nat)
    requires ConfigOk(c) && p == c.pool + page * c.pageSize + offset && offset < c.pageSize
    ensures PageOf(c, p) == page && OffsetOf(c, p) == offset && p % c.pageSize == offset
  {
    DivModUnique(p - c.pool, c.pageSize, page, offset);
    var base := c.pool / c.pageSize;
    assert p == (base + page) * c.pageSize + offset;
    DivModUnique(p, c.pageSize, base + page, offset);
  }

  lemma SlotStart(c: Config, s: nat)
    ensures SlotToAddr(c, s) == c.pool + (2 * s + 1) * c.pageSize
    ensures End(c) == c.pool + (2 * c.slots + 1) * c.pageSize
  {
  }

  lemma HalfPages(x: nat, m: nat)
    requires m > 0
    ensures x / (2 * m) == x / m / 2
  {
    var q, r := x / m, x % m;
    var h, b := q / 2, q % 2;
    assert x == q * m + r;
    assert (2 * h + b) * m == h * (2 * m) + b * m;
    DivModUnique(x, 2 * m, h, b * m + r);
  }

  /** Slots are two pages apart. */
  lemma PairOfPages(c: Config, p: nat)
    requires ConfigOk(c) && c.pool <= p
    ensures AddrToSlot(c, p) == PageOf(c, p) / 2
  {
    HalfPages(p - c.pool, c.pageSize);
    assert c.pageSize + c.pageSize == 2 * c.pageSize;
  }

  lemma PageOrder(c: Config, p: nat, n: nat)
    requires ConfigOk(c) && c.pool <= p
    ensures p < c.pool + n * c.pageSize <==> PageOf(c, p) < n
    ensures p == c.pool + PageOf(c, p) * c.pageSize + OffsetOf(c, p) && OffsetOf(c, p) < c.pageSize
  {
    QuotientOrder(p - c.pool, c.pageSize, n);
  }

  lemma PagesOfPool(c: Config, p: nat)
    requires ConfigOk(c) && PointerIsMine(c, p)
    ensures PageOf(c, p) <= 2 * c.slots
    ensures IsGuardPage(c, p) <==> PageOf(c, p) % 2 == 0
  {
    SlotStart(c, 0);
    PageOrder(c, p, 2 * c.slots + 1);
    DivModUnique(c.pageSize, c.pageSize, 1, 0);
  }

  /** What `NearestSlot` gives, by the number of the page: a slot page gives its slot, a guard page the
      slot below up to the middle and the slot above from there on. */
  function NearestByPage(c: Config, page: nat, offset: nat): int {
    if page % 2 == 1 then page / 2
    else if page == 0 then 0
    else if page == 2 * c.slots || offset <= c.pageSize / 2 then page / 2 - 1
    else page / 2
  }

  lemma SlotOfPage(c: Config, p: nat, page: nat, offset: nat)
    requires ConfigOk(c) && p == c.pool + page * c.pageSize + offset && offset < c.pageSize
    ensures AddrToSlot(c, p) == page / 2
  {
    assert c.pool <= p by { Multiples(page, 0, c.pageSize); }
    PageAt(c, p, page, offset);
    PairOfPages(c, p);
  }

  lemma PageBelow(c: Config, p: nat, page: nat, offset: nat)
    requires ConfigOk(c) && page > 0 && offset < c.pageSize && p == c.pool + page * c.pageSize + offset
    ensures c.pool <= p - c.pageSize && AddrToSlot(c, p - c.pageSize) == (page - 1) / 2
  {
    OneMore(page - 1, c.pageSize);
    Multiples(page - 1, 0, c.pageSize);
    SlotOfPage(c, p - c.pageSize, page - 1, offset);
  }

  lemma PageAbove(c: Config, p: nat, page: nat, offset: nat)
    requires ConfigOk(c) && offset < c.pageSize && p == c.pool + page * c.pageSize + offset
    ensures c.pool <= p + c.pageSize && AddrToSlot(c, p + c.pageSize) == (page + 1) / 2
  {
    OneMore(page, c.pageSize);
    Multiples(page, 0, c.pageSize);
    SlotOfPage(c, p + c.pageSize, page + 1, offset);
  }

  lemma NearestAtBeginning(c: Config, p: nat)
    requires ConfigOk(c) && PointerIsMine(c, p) && p <= c.pool + c.pageSize
    ensures NearestSlot(c, p) == NearestByPage(c, PageOf(c, p), OffsetOf(c, p))
  {
    PageOrder(c, p, 1);
    if p == c.pool + c.pageSize {
      PageAt(c, p, 1, 0);
    }
  }

  lemma NearestAtEnd(c: Config, p: nat)
    requires ConfigOk(c) && PointerIsMine(c, p) && p > c.pool + c.pageSize && p > End(c) - c.pageSize
    ensures NearestSlot(c, p) == NearestByPage(c, PageOf(c, p), OffsetOf(c, p))
  {
    PagesOfPool(c, p);
    PageOrder(c, p, 2 * c.slots);
    SlotStart(c, 0);
    OneMore(2 * c.slots, c.pageSize);
  }

  lemma NearestOnSlot(c: Config, p: nat)
    requires ConfigOk(c) && PointerIsMine(c, p) && c.pool + c.pageSize < p <= End(c) - c.pageSize && !IsGuardPage(c, p)
    ensures NearestSlot(c, p) == NearestByPage(c, PageOf(c, p), OffsetOf(c, p))
  {
    PagesOfPool(c, p);
    PairOfPages(c, p);
  }

  lemma NearestOnGuard(c: Config, p: nat)
    requires ConfigOk(c) && PointerIsMine(c, p) && c.pool + c.pageSize < p <= End(c) - c.pageSize && IsGuardPage(c, p)
    ensures NearestSlot(c, p) == NearestByPage(c, PageOf(c, p), OffsetOf(c, p))
  {
    var page, offset := PageOf(c, p), OffsetOf(c, p);
    PagesOfPool(c, p);
    InnerPage(c, p);
    PageAt(c, p, page, offset);
    PageBelow(c, p, page, offset);
    PageAbove(c, p, page, offset);
  }

  lemma InnerPage(c: Config, p: nat)
    requires ConfigOk(c) && c.pool + c.pageSize < p <= End(c) - c.pageSize && (IsGuardPage(c, p) ==> PageOf(c, p) % 2 == 0)
    requires IsGuardPage(c, p)
    ensures 0 < PageOf(c, p) && (PageOf(c, p) == 2 * c.slots ==> OffsetOf(c, p) == 0)
    ensures p == c.pool + PageOf(c, p) * c.pageSize + OffsetOf(c, p) && OffsetOf(c, p) < c.pageSize
  {
    PageOrder(c, p, 1);
    SlotStart(c, 0);
    OneMore(2 * c.slots, c.pageSize);
  }

  lemma NearestIsByPage(c: Config, p: nat)
    requires ConfigOk(c) && PointerIsMine(c, p)
    ensures NearestSlot(c, p) == NearestByPage(c, PageOf(c, p), OffsetOf(c, p))
  {
    if p <= c.pool + c.pageSize {
      NearestAtBeginning(c, p);
    } else if p > End(c) - c.pageSize {
      NearestAtEnd(c, p);
    } else if !IsGuardPage(c, p) {
      NearestOnSlot(c, p);
    } else {
      NearestOnGuard(c, p);
    }
  }

  predicate OnSlot(c: Config, p: nat, s: nat) { SlotToAddr(c, s) <= p < SlotToAddr(c, s) + c.pageSize }

  lemma OnSlotByPage(c: Config, p: nat, s: nat)
    requires ConfigOk(c) && PointerIsMine(c, p)
    ensures OnSlot(c, p, s) <==> PageOf(c, p) == 2 * s + 1
  {
    SlotStart(c, s);
    PageOrder(c, p, 2 * s + 1);
    PageOrder(c, p, 2 * s + 2);
    OneMore(2 * s + 1, c.pageSize);
  }

  lemma PagesFit(c: Config, s: nat)
    requires ConfigOk(c) && s < c.slots
    ensures c.pool < SlotToAddr(c, s) && SlotToAddr(c, s) + 2 * c.pageSize <= End(c) && 2 * c.pageSize < WORDS
  {
    SlotStart(c, s);
    Multiples(2 * c.slots + 1, 2 * s + 3, c.pageSize);
    Multiples(2 * s + 1, 1, c.pageSize);
    assert (2 * s + 3) * c.pageSize == (2 * s + 1) * c.pageSize + 2 * c.pageSize;
    AlignmentMask(0, c.pageSize);
  }

  /** On the bytes of a slot `NearestSlot` undoes `SlotToAddr`. */
  lemma NearestInverts(c: Config, p: nat, s: nat)
    requires ConfigOk(c) && s < c.slots && OnSlot(c, p, s)
    ensures PointerIsMine(c, p) && !IsGuardPage(c, p) && NearestSlot(c, p) == s
  {
    PagesFit(c, s);
    OnSlotByPage(c, p, s);
    PagesOfPool(c, p);
    NearestIsByPage(c, p);
  }

  /** What is not on a slot is on a guard page. */
  lemma GuardPagesAreTheRest(c: Config, p: nat)
    requires ConfigOk(c) && PointerIsMine(c, p)
    ensures NearestSlot(c, p) < c.slots
    ensures IsGuardPage(c, p) <==> forall s :: 0 <= s < c.slots ==> !OnSlot(c, p, s)
    ensures !IsGuardPage(c, p) ==> OnSlot(c, p, NearestSlot(c, p))
  {
    PagesOfPool(c, p);
    NearestIsByPage(c, p);
    forall s | 0 <= s < c.slots ensures OnSlot(c, p, s) <==> PageOf(c, p) == 2 * s + 1 {
      OnSlotByPage(c, p, s);
    }
    if PageOf(c, p) % 2 == 1 {
      OnSlotByPage(c, p, PageOf(c, p) / 2);
    }
  }

  /** How far an address is from the near boundary of a slot. */
  function Distance(c: Config, p: nat, s: nat): nat {
    var start := SlotToAddr(c, s);
    if p < start then start - p else if p < start + c.pageSize then 0 else p - (start + c.pageSize)
  }

  /** The same by the number of the page, for pages of `m` bytes. */
  function Gap(page: nat, offset: nat, m: nat, s: nat): int {
    if page < 2 * s + 1 then (2 * s + 1 - page) * m - offset
    else if page == 2 * s + 1 then 0
    else (page - (2 * s + 2)) * m + offset
  }

  lemma DistanceIsGap(c: Config, p: nat, s: nat)
    requires ConfigOk(c) && PointerIsMine(c, p)
    ensures Distance(c, p, s) == Gap(PageOf(c, p), OffsetOf(c, p), c.pageSize, s)
  {
    SlotStart(c, s);
    var page := PageOf(c, p);
    PageOrder(c, p, 2 * s + 1);
    PageOrder(c, p, 2 * s + 2);
    OneMore(2 * s + 1, c.pageSize);
    assert (2 * s + 1 - page) * c.pageSize == (2 * s + 1) * c.pageSize - page * c.pageSize;
    assert (page - (2 * s + 2)) * c.pageSize == page * c.pageSize - (2 * s + 2) * c.pageSize;
  }

  lemma GapBounds(page: nat, offset: nat, m: nat, s: nat)
    requires offset < m
    ensures page == 2 * s ==> Gap(page, offset, m, s) == m - offset
    ensures page < 2 * s ==> Gap(page, offset, m, s) >= 2 * m - offset
    ensures page == 2 * s + 2 ==> Gap(page, offset, m, s) == offset
    ensures page > 2 * s + 2 ==> Gap(page, offset, m, s) >= m + offset
  {
    if page < 2 * s {
      Multiples(2 * s + 1 - page, 2, m);
    } else if page > 2 * s + 2 {
      Multiples(page - (2 * s + 2), 1, m);
    } else if page == 2 * s {
      assert 2 * s + 1 - page == 1;
    }
  }

  /** No slot is nearer than the one `NearestSlot` gives, and a tie goes to the slot below. */
  lemma NearestIsNearest(c: Config, p: nat, s: nat)
    requires ConfigOk(c) && PointerIsMine(c, p) && s < c.slots
    ensures Distance(c, p, NearestSlot(c, p)) <= Distance(c, p, s)
    ensures Distance(c, p, NearestSlot(c, p)) == Distance(c, p, s) ==> NearestSlot(c, p) <= s
  {
    NearestIsByPage(c, p);
    PagesOfPool(c, p);
    PageOrder(c, p, 0);
    DistanceIsGap(c, p, s);
    DistanceIsGap(c, p, NearestSlot(c, p));
    GapBounds(PageOf(c, p), OffsetOf(c, p), c.pageSize, s);
    GapBounds(PageOf(c, p), OffsetOf(c, p), c.pageSize, NearestSlot(c, p));
  }

  // ---------------------------------------------------------------------------------------------
  // Placing a block
  // ---------------------------------------------------------------------------------------------

  /** Blocks go to the beginning of their slot or, aligned downwards, to its end. */
  function Place(c: Config, s: nat, size: nat, alignment: nat, left: bool): nat
    requires IsPow2(alignment) && size <= c.pageSize
  {
    if left then AlignUp(SlotToAddr(c, s), alignment)
    else AlignDown(SlotToAddr(c, s) + c.pageSize - size, alignment)
  }

  lemma SlotsAreAligned(c: Config, s: nat, alignment: nat)
    requires ConfigOk(c) && IsPow2(alignment) && alignment <= c.pageSize
    ensures alignment > 0 && SlotToAddr(c, s) % alignment == 0 && SlotToAddr(c, s) % c.pageSize == 0
  {
    SlotStart(c, s);
    AlignmentMask(0, alignment);
    var j: nat, k: nat :| alignment == Pow2(j) && c.pageSize == Pow2(k);
    Pow2Divides(j, k);
    SumOfMultiples(c.pool, 2 * s + 1, c.pageSize);
    MultipleOfMultiple(SlotToAddr(c, s), c.pageSize, alignment);
  }

  lemma SumOfMultiples(x: nat, n: nat, m: nat)
    requires m > 0 && x % m == 0
    ensures (x + n * m) % m == 0
  {
    var q := x / m;
    assert x + n * m == (q + n) * m;
    DivModUnique(x + n * m, m, q + n, 0);
  }

  lemma MultipleOfMultiple(x: nat, m: nat, d: nat)
    requires m > 0 && d > 0 && x % m == 0 && m % d == 0
    ensures x % d == 0
  {
    var a, b := x / m, m / d;
    assert x == a * m && m == b * d;
    assert x == (a * b) * d;
    DivModUnique(x, d, a * b, 0);
  }

  lemma LowerMultiple(p: nat, q: nat, m: nat)
    requires m > 0 && q % m == 0 && q <= p
    ensures q <= p - p % m
  {
    var a, b := q / m, p / m;
    assert q == a * m && p == b * m + p % m;
    assert a > b ==> a * m >= (b + 1) * m;
    assert (b + 1) * m == b * m + m;
  }

  lemma PlacedRight(start: nat, size: nat, m: nat, alignment: nat)
    requires IsPow2(alignment) && start % alignment == 0 && size <= m
    ensures start <= AlignDown(start + m - size, alignment)
  {
    AlignmentMask(start + m - size, alignment);
    LowerMultiple(start + m - size, start, alignment);
  }

  lemma PageOfByte(start: nat, p: nat, m: nat)
    requires m > 0 && start % m == 0 && start <= p < start + m
    ensures p - p % m == start
  {
    var q := start / m;
    assert p == q * m + (p - start);
    DivModUnique(p, m, q, p - start);
  }

  /** A block is aligned, lies in its slot, and the pages that are opened for it are the slot's page. */
  lemma PlacedInSlot(c: Config, s: nat, size: nat, alignment: nat, left: bool)
    requires ConfigOk(c) && s < c.slots && 1 <= size <= c.pageSize && IsPow2(alignment) && alignment <= c.pageSize
    ensures alignment > 0
    ensures var p := Place(c, s, size, alignment, left);
            && p % alignment == 0 && SlotToAddr(c, s) <= p && p + size <= SlotToAddr(c, s) + c.pageSize
            && GetPageAddr(p, c.pageSize) == SlotToAddr(c, s) && RoundUpTo(size, c.pageSize) == c.pageSize
            && OnSlot(c, p, s)
  {
    var start, p := SlotToAddr(c, s), Place(c, s, size, alignment, left);
    SlotsAreAligned(c, s, alignment);
    PagesFit(c, s);
    PlacedRight(start, size, c.pageSize, alignment);
    SizesRoundToOnePage(size, c.pageSize);
    PageAddrClearsOffset(p, c.pageSize);
    PageOfByte(start, p, c.pageSize);
  }

  /** Different slots share no byte. */
  lemma SlotsAreApart(c: Config, s: nat, t: nat, p: nat)
    requires ConfigOk(c) && s < c.slots && t < c.slots && OnSlot(c, p, s) && OnSlot(c, p, t)
    ensures s == t
  {
    NearestInverts(c, p, s);
    NearestInverts(c, p, t);
  }
}
