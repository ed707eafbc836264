/**
 * The index arithmetic of the prev/next handlers: modular wrap-around within
 * a group of `n` images. The operands are never negative here, so the
 * source's truncating `%` and Dafny's Euclidean `%` agree.
 */
module GalleryNavigation {

  /** The next handler's new index: `(i + 1) % n`. */
  function NextIndex(i: int, n: int): (r: int)
    requires 0 <= i < n
    ensures 0 <= r < n
    ensures r == if i == n - 1 then 0 else i + 1
  {
    (i + 1) % n
  }

  /** The prev handler's new index: `(i - 1 + n) % n`. */
  function PrevIndex(i: int, n: int): (r: int)
    requires 0 <= i < n
    ensures 0 <= r < n
    ensures r == if i == 0 then n - 1 else i - 1
  {
    (i - 1 + n) % n
  }

  /** Prev undoes next. */
  lemma PrevUndoesNext(i: int, n: int)
    requires 0 <= i < n
    ensures PrevIndex(NextIndex(i, n), n) == i
  {
  }

  /** Next undoes prev. */
  lemma NextUndoesPrev(i: int, n: int)
    requires 0 <= i < n
    ensures NextIndex(PrevIndex(i, n), n) == i
  {
  }

  /** A group of one image: both directions stay on it. */
  lemma SingleImageStays(i: int)
    requires 0 <= i < 1
    ensures NextIndex(i, 1) == 0 && PrevIndex(i, 1) == 0
  {
  }

  /** The index after `k` presses of next, starting from `i`. */
  function NextTimes(i: int, n: int, k: nat): (r: int)
    requires 0 <= i < n
    ensures 0 <= r < n
  {
    if k == 0 then i else NextIndex(NextTimes(i, n, k - 1), n)
  }

  /** Up to `n` presses of next move forward `k` places, wrapping once past the end. */
  lemma {:induction false} NextTimesShifts(i: int, n: int, k: nat)
    requires 0 <= i < n && k <= n
    ensures NextTimes(i, n, k) == if i + k < n then i + k else i + k - n
  {
    if k > 0 {
      NextTimesShifts(i, n, k - 1);
    }
  }

  /** Pressing next `n` times in a group of `n` images returns to the start. */
  lemma NextWrapsAround(i: int, n: int)
    requires 0 <= i < n
    ensures NextTimes(i, n, n) == i
  {
    NextTimesShifts(i, n, n);
  }
}
