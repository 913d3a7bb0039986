/** Keeping the MSI-X table out of the mmaps of the BAR that holds it. */
module MsixRegion {

  const ENTRY_SIZE := 16

  datatype Mmap = Mmap(offset: nat, size: nat) {
    predicate Covers(b: nat) { offset <= b < offset + size }
  }

  function Power2(n: nat): (p: nat)
    ensures p > 0
  {
    if n == 0 then 1 else 2 * Power2(n - 1)
  }

  /** A larger power of two is a whole number of smaller ones. */
  lemma {:induction false} Power2Divides(small: nat, large: nat)
    requires small <= large
    ensures Power2(large) % Power2(small) == 0
    decreases large
  {
    if small < large {
      Power2Divides(small, large - 1);
      var k := Power2(large - 1) / Power2(small);
      assert Power2(large) == 2 * (k * Power2(small)) == (2 * k) * Power2(small);
      ModOfMultiple(2 * k, Power2(small));
    } else {
      ModOfMultiple(1, Power2(small));
    }
  }

  lemma ModOfMultiple(k: nat, d: nat)
    requires d > 0
    ensures (k * d) % d == 0
  {
    var q, r := (k * d) / d, (k * d) % d;
    assert k * d == d * q + r;
    MultipleBound(k - q, d);
    assert (k - q) * d == r;
  }

  // The only multiple of d strictly between -d and d is 0.
  lemma MultipleBound(x: int, d: int)
    requires d > 0
    ensures x > 0 ==> x * d >= d
    ensures x < 0 ==> x * d <= -d
  {
  }

  lemma {:induction false} Power2Grows(small: nat, large: nat)
    requires small <= large
    ensures Power2(small) <= Power2(large)
    decreases large
  {
    if small < large {
      Power2Grows(small, large - 1);
    }
  }

  // The masks of the source, for a page size that is a power of two.
  function PageFloor(x: nat, page: nat): nat
    requires page > 0
  {
    x / page * page
  }

  function PageCeil(x: nat, page: nat): nat
    requires page > 0
  {
    (x + page - 1) / page * page
  }

  lemma PageRounding(x: nat, page: nat)
    requires page > 0
    ensures PageFloor(x, page) <= x < PageFloor(x, page) + page && PageFloor(x, page) % page == 0
    ensures x <= PageCeil(x, page) < x + page && PageCeil(x, page) % page == 0
  {
    ModOfMultiple(x / page, page);
    ModOfMultiple((x + page - 1) / page, page);
  }

  lemma DifferenceAligned(x: nat, y: nat, d: nat)
    requires d > 0 && x >= y && x % d == 0 && y % d == 0
    ensures (x - y) % d == 0
  {
    var p, q := x / d, y / d;
    assert x == p * d && y == q * d && p >= q;
    assert x - y == (p - q) * d;
    ModOfMultiple(p - q, d);
  }

  lemma NoMultipleBelow(x: nat, d: nat)
    requires d > 0 && x < d && x % d == 0
    ensures x == 0
  {
  }

  /** Non-empty, page aligned, inside the BAR and in increasing order without overlap. */
  predicate WellFormed(mmaps: seq<Mmap>, size: nat, page: nat)
    requires page > 0
  {
    && (forall i | 0 <= i < |mmaps| ::
          && mmaps[i].size > 0 && mmaps[i].offset % page == 0 && mmaps[i].size % page == 0
          && mmaps[i].offset + mmaps[i].size <= size)
    && (forall i, j | 0 <= i < j < |mmaps| :: mmaps[i].offset + mmaps[i].size <= mmaps[j].offset)
  }

  predicate Covered(mmaps: seq<Mmap>, b: nat) {
    exists i :: 0 <= i < |mmaps| && mmaps[i].Covers(b)
  }

  /** The mmaps are in order and cover exactly the bytes of the BAR outside [start, end). */
  predicate Carved(mmaps: seq<Mmap>, size: nat, page: nat, start: nat, end: nat)
    requires page > 0
  {
    && |mmaps| <= 2 && WellFormed(mmaps, size, page)
    && forall b: nat | b < size :: Covered(mmaps, b) <==> !(start <= b < end)
  }

  lemma CarvedCases(size: nat, page: nat, start: nat, end: nat)
    requires page > 0 && start < size && start < end && start % page == 0 && end % page == 0
    requires end < size ==> (size - end) % page == 0
    ensures start == 0 && end >= size ==> Carved([], size, page, start, end)
    ensures start == 0 && end < size ==> Carved([Mmap(end, size - end)], size, page, start, end)
    ensures start > 0 && end >= size ==> Carved([Mmap(0, start)], size, page, start, end)
    ensures start > 0 && end < size ==> Carved([Mmap(0, start), Mmap(end, size - end)], size, page, start, end)
  {
    if end < size {
      var low, high := Mmap(0, start), Mmap(end, size - end);
      assert [high][0] == high;
      assert [low, high][0] == low && [low, high][1] == high;
    }
    assert [Mmap(0, start)][0] == Mmap(0, start);
    ZeroAligned(page);
  }

  lemma ZeroAligned(page: nat)
    requires page > 0
    ensures 0 % page == 0
  {
  }

  class Region {
    const size: nat
    var mmaps: seq<Mmap>

    constructor (size: nat)
      ensures this.size == size && mmaps == [Mmap(0, size)]
    {
      this.size, mmaps := size, [Mmap(0, size)];
    }

    // vfio_pci_fixup_msix_region
    method FixupMsixRegion(tableOffset: nat, entries: nat, pageShift: nat, ghost barShift: nat)
      requires size == Power2(barShift) && entries > 0 && tableOffset + entries * ENTRY_SIZE <= size
      modifies this
      ensures old(mmaps) != [Mmap(0, size)] ==> mmaps == old(mmaps)
      ensures old(mmaps) == [Mmap(0, size)] ==>
                var page := Power2(pageShift);
                Carved(mmaps, size, page, PageFloor(tableOffset, page),
                       PageCeil(tableOffset + entries * ENTRY_SIZE, page))
      // So no byte of the table is mapped.
      ensures old(mmaps) == [Mmap(0, size)] ==>
                forall b | tableOffset <= b < tableOffset + entries * ENTRY_SIZE :: !Covered(mmaps, b)
    {
      hide Power2, PageFloor, PageCeil, WellFormed, Covered;
      if |mmaps| != 1 || mmaps[0].offset != 0 || size != mmaps[0].size {
        return;
      }
      assert mmaps == [mmaps[0]] == [Mmap(0, size)];
      var page := Power2(pageShift);
      var start := PageFloor(tableOffset, page);
      var end := PageCeil(tableOffset + entries * ENTRY_SIZE, page);
      PageRounding(tableOffset, page);
      PageRounding(tableOffset + entries * ENTRY_SIZE, page);
      RemainderAligned(pageShift, barShift, end);
      CarvedCases(size, page, start, end);
      if start == 0 {
        if end >= size {
          mmaps := [];
        } else {
          mmaps := [Mmap(end, size - end)];
        }
      } else if end >= size {
        mmaps := [Mmap(0, start)];
      } else {
        mmaps := [Mmap(0, start), Mmap(end, size - end)];
      }
    }
  }

  // What is left of the BAR behind the table is a whole number of pages.
  lemma RemainderAligned(pageShift: nat, barShift: nat, end: nat)
    requires end % Power2(pageShift) == 0 && 0 < end
    ensures end < Power2(barShift) ==> (Power2(barShift) - end) % Power2(pageShift) == 0
  {
    hide Power2;
    var page, size := Power2(pageShift), Power2(barShift);
    if end < size {
      if pageShift <= barShift {
        Power2Divides(pageShift, barShift);
        DifferenceAligned(size, end, page);
      } else {
        Power2Grows(barShift, pageShift);
        NoMultipleBelow(end, page);
      }
    }
  }
}
