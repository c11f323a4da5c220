/** Small geometric helpers shared by the game code (NOLF2/Shared/Globals.h). */
module Globals {

  /** A Windows RECT: left/top inclusive, right/bottom exclusive. */
  datatype Rect = Rect(left: int, top: int, right: int, bottom: int)

  /** PtInRect: false as soon as the point is on or past the right/bottom edge or
      before the left/top edge; true otherwise. */
  predicate PtInRect(r: Rect, x: int, y: int)
    ensures PtInRect(r, x, y) <==> r.left <= x < r.right && r.top <= y < r.bottom
  {
    if x >= r.right || x < r.left || y >= r.bottom || y < r.top then false else true
  }

  /** No point lies in a rectangle whose right edge is not past its left edge. */
  lemma EmptyRectHoldsNothing(r: Rect, x: int, y: int)
    requires r.right <= r.left || r.bottom <= r.top
    ensures !PtInRect(r, x, y)
  {
  }

  /** Half-open rectangles tile: splitting at column m gives two disjoint halves
      whose union is the original rectangle. */
  lemma SplitColumns(r: Rect, m: int, x: int, y: int)
    requires r.left <= m <= r.right
    ensures PtInRect(r, x, y) <==>
              PtInRect(Rect(r.left, r.top, m, r.bottom), x, y) || PtInRect(Rect(m, r.top, r.right, r.bottom), x, y)
    ensures !(PtInRect(Rect(r.left, r.top, m, r.bottom), x, y) && PtInRect(Rect(m, r.top, r.right, r.bottom), x, y))
  {
  }

  /** CRange: a pair of bounds that is only ever set or read. */
  class CRange<T> {
    var fMin: T
    var fMax: T

    constructor (min: T, max: T)
      ensures GetMin() == min && GetMax() == max
    {
      fMin := min;
      fMax := max;
    }

    method Set(min: T, max: T)
      modifies this
      ensures GetMin() == min && GetMax() == max
    {
      fMin := min;
      fMax := max;
    }

    function GetMin(): T
      reads this
    {
      fMin
    }

    function GetMax(): T
      reads this
    {
      fMax
    }
  }

  function Abs(a: int): nat
  {
    if a < 0 then -a else a
  }

  /** MinAbs: the argument of smaller magnitude; on a tie, the second. */
  function MinAbs(a: int, b: int): (r: int)
    ensures r == a <==> (Abs(a) < Abs(b) || a == b)
    ensures r == a || r == b
    ensures Abs(r) <= Abs(a) && Abs(r) <= Abs(b)
  {
    if Abs(a) < Abs(b) then a else b
  }

  /** MaxAbs: the argument of greater magnitude; on a tie, the second. */
  function MaxAbs(a: int, b: int): (r: int)
    ensures r == a <==> (Abs(a) > Abs(b) || a == b)
    ensures r == a || r == b
    ensures Abs(r) >= Abs(a) && Abs(r) >= Abs(b)
  {
    if Abs(a) > Abs(b) then a else b
  }

  /** When the magnitudes differ, MinAbs and MaxAbs pick opposite arguments. */
  lemma MinMaxAbsSplit(a: int, b: int)
    requires Abs(a) != Abs(b)
    ensures {MinAbs(a, b), MaxAbs(a, b)} == {a, b}
  {
  }

  function Min(a: int, b: int): int { if a < b then a else b }
  function Max(a: int, b: int): int { if a > b then a else b }

  /** Clamp(val, min, max) = Min(max, Max(val, min)). */
  function Clamp(v: int, lo: int, hi: int): (r: int)
    ensures lo <= hi ==> lo <= r <= hi
    ensures lo <= v <= hi ==> r == v
    ensures lo > hi ==> r == hi
  {
    Min(hi, Max(v, lo))
  }

  /** Clamping is idempotent and gives the point of [lo, hi] nearest to v. */
  lemma ClampNearest(v: int, lo: int, hi: int, w: int)
    requires lo <= hi && lo <= w <= hi
    ensures Clamp(Clamp(v, lo, hi), lo, hi) == Clamp(v, lo, hi)
    ensures Abs(Clamp(v, lo, hi) - v) <= Abs(w - v)
  {
  }
}
