/** Sector arithmetic shared by every view of the store.
    The Python code computes `floor(x / 512) * 512` and `ceil(x / 512) * 512`
    over floats; dividing by a power of two is exact, and every offset used
    is below 2^53, so integer division gives the same numbers. */
module Sectors {

  const SECTOR_SIZE: nat := 512

  /** Byte offset of a logical block address. */
  function LbaOffset(lba: nat): (r: nat)
    ensures r % SECTOR_SIZE == 0 && r / SECTOR_SIZE == lba
  {
    lba * SECTOR_SIZE
  }

  /** Start of the sector holding byte `x`: the largest multiple of 512 not above `x`. */
  function AlignDown(x: nat): (r: nat)
    ensures r % SECTOR_SIZE == 0
    ensures r <= x < r + SECTOR_SIZE
  {
    (x / SECTOR_SIZE) * SECTOR_SIZE
  }

  /** End of the sector window reaching `x`: the smallest multiple of 512 not below `x`. */
  function AlignUp(x: nat): (r: nat)
    ensures r % SECTOR_SIZE == 0
    ensures x <= r < x + SECTOR_SIZE
  {
    var down := AlignDown(x);
    if down == x then x else down + SECTOR_SIZE
  }

  /** Rounds up to a multiple of 16, as the batch script does for the
      first entry view that follows the GPT header. */
  function AlignUp16(x: nat): (r: nat)
    ensures r % 16 == 0
    ensures x <= r < x + 16
  {
    ((x + 15) / 16) * 16
  }

  /** The distance between two sector boundaries is a whole number of sectors. */
  lemma AlignedDistance(lo: nat, hi: nat)
    requires lo % SECTOR_SIZE == 0 && hi % SECTOR_SIZE == 0 && lo <= hi
    ensures (hi - lo) % SECTOR_SIZE == 0
  {
    assert hi - lo == (hi / SECTOR_SIZE - lo / SECTOR_SIZE) * SECTOR_SIZE;
  }

  /** A byte range [start, end) transferred to or from the store. */
  datatype Window = Window(start: nat, end: nat)

  /** The aligned window a request of `n` bytes at absolute position `p` is
      rounded out to. */
  function WindowOf(p: nat, n: nat): (w: Window)
    ensures w.start % SECTOR_SIZE == 0 && w.end % SECTOR_SIZE == 0
    ensures w.start <= p && p + n <= w.end
    ensures p - w.start < SECTOR_SIZE && w.end - (p + n) < SECTOR_SIZE
  {
    Window(AlignDown(p), AlignUp(p + n))
  }
}
