/** Page alignment of the index writer's position.

    The index writer pads the output with zero bytes up to the next
    multiple of the page size (`FlushCurrentBlockWithZeros`). Only the
    resulting position matters to the index layout, so padding is modelled
    as rounding a position up. The small division lemmas below are the
    facts about `%` the layout proofs need.
 */
module Padding {

  /** k * p is at least p for every positive factor k. */
  lemma MulAtLeast(k: int, p: int)
    requires k >= 1 && p >= 0
    ensures k * p >= p
  {
    if k > 1 {
      MulAtLeast(k - 1, p);
      assert k * p == (k - 1) * p + p;
    }
  }

  /** Quotient and remainder are unique. */
  lemma ModUnique(x: int, q: int, r: int, p: int)
    requires p > 0 && 0 <= r < p && x == q * p + r
    ensures x / p == q && x % p == r
  {
    var q', r' := x / p, x % p;
    assert x == q' * p + r';
    assert (q - q') * p == r' - r;
    if q > q' {
      MulAtLeast(q - q', p);
    } else if q < q' {
      MulAtLeast(q' - q, p);
    }
  }

  /** The position after padding with zeros up to the next page boundary. */
  function PadToPage(pos: nat, pageSize: nat): (r: nat)
    requires pageSize > 0
    ensures r % pageSize == 0
    ensures pos <= r < pos + pageSize
    ensures pos % pageSize == 0 ==> r == pos
  {
    if pos % pageSize == 0 then pos
    else
      ModUnique(pos - pos % pageSize + pageSize, pos / pageSize + 1, 0, pageSize);
      pos - pos % pageSize + pageSize
  }

  /** Bytes written from a page boundary are the position modulo the page size. */
  lemma OffsetInPage(start: nat, used: nat, pageSize: nat)
    requires pageSize > 0 && start % pageSize == 0 && used < pageSize
    ensures (start + used) % pageSize == used
  {
    ModUnique(start + used, start / pageSize, used, pageSize);
  }

  /** The next page boundary is aligned too. */
  lemma NextPageAligned(start: nat, pageSize: nat)
    requires pageSize > 0 && start % pageSize == 0
    ensures (start + pageSize) % pageSize == 0
  {
    ModUnique(start + pageSize, start / pageSize + 1, 0, pageSize);
  }

  /** Padding a partly filled page ends exactly one page after its start. */
  lemma PadAfterPage(start: nat, used: nat, pageSize: nat)
    requires pageSize > 0 && start % pageSize == 0 && 0 < used <= pageSize
    ensures PadToPage(start + used, pageSize) == start + pageSize
  {
    if used < pageSize {
      OffsetInPage(start, used, pageSize);
    } else {
      NextPageAligned(start, pageSize);
    }
  }
}
