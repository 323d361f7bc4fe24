/** Integer axis-aligned rectangles with the semantics of pygame's Rect:
    (x, y) is the top-left corner, y grows downward, and assigning one of the
    edge or centre attributes moves the rectangle without resizing it. */
module Rects {

  function Min(a: int, b: int): int { if a <= b then a else b }
  function Max(a: int, b: int): int { if a >= b then a else b }

  /** `v` pulled into [lo, hi]; the caller ensures lo <= hi. */
  function Clamp(v: int, lo: int, hi: int): (c: int)
    requires lo <= hi
    ensures lo <= c <= hi
    ensures lo <= v <= hi ==> c == v
    ensures v < lo ==> c == lo
    ensures v > hi ==> c == hi
  {
    if v < lo then lo else if v > hi then hi else v
  }

  datatype Rect = Rect(x: int, y: int, w: nat, h: nat) {

    function Left(): int { x }
    function Right(): int { x + w }
    function Top(): int { y }
    function Bottom(): int { y + h }
    // pygame halves the size with C integer division; sizes are never negative.
    function CenterX(): int { x + w / 2 }
    function CenterY(): int { y + h / 2 }

    function Shift(dx: int, dy: int): (r: Rect)
      ensures r.w == w && r.h == h
      ensures r.Left() - Left() == dx && r.Top() - Top() == dy
    {
      Rect(x + dx, y + dy, w, h)
    }

    function SetLeft(v: int): (r: Rect)
      ensures r.Left() == v && r.Top() == Top()
      ensures r.w == w && r.h == h
    {
      this.(x := v)
    }

    function SetRight(v: int): (r: Rect)
      ensures r.Right() == v && r.Top() == Top()
      ensures r.w == w && r.h == h
    {
      this.(x := v - w)
    }

    function SetTop(v: int): (r: Rect)
      ensures r.Top() == v && r.Left() == Left()
      ensures r.w == w && r.h == h
    {
      this.(y := v)
    }

    function SetBottom(v: int): (r: Rect)
      ensures r.Bottom() == v && r.Left() == Left()
      ensures r.w == w && r.h == h
    {
      this.(y := v - h)
    }

    function SetCenterX(v: int): (r: Rect)
      ensures r.CenterX() == v && r.Top() == Top()
      ensures r.w == w && r.h == h
    {
      this.(x := v - w / 2)
    }
  }

  /** The rectangle of the given size whose centre is (cx, cy), as pygame's
      `get_rect(center=...)` builds it. */
  function AtCenter(w: nat, h: nat, cx: int, cy: int): (r: Rect)
    ensures r.w == w && r.h == h
    ensures r.CenterX() == cx && r.CenterY() == cy
  {
    Rect(cx - w / 2, cy - h / 2, w, h)
  }

  /** pygame's `colliderect`: rectangles with a zero side never collide, and
      touching edges do not count as overlap. */
  predicate Collides(a: Rect, b: Rect): (c: bool)
    ensures c <==> OverlapWidth(a, b) > 0 && OverlapHeight(a, b) > 0
  {
    && a.w > 0 && a.h > 0 && b.w > 0 && b.h > 0
    && a.Left() < b.Right() && a.Top() < b.Bottom()
    && a.Right() > b.Left() && a.Bottom() > b.Top()
  }

  /** Width and height of the intersection of two rectangles, zero when the
      rectangles are apart in that axis. */
  function OverlapWidth(a: Rect, b: Rect): nat
  {
    Max(0, Min(a.Right(), b.Right()) - Max(a.Left(), b.Left()))
  }

  function OverlapHeight(a: Rect, b: Rect): nat
  {
    Max(0, Min(a.Bottom(), b.Bottom()) - Max(a.Top(), b.Top()))
  }

  /** Area of the intersection: the reference definition of overlap. */
  function OverlapArea(a: Rect, b: Rect): nat
  {
    OverlapWidth(a, b) * OverlapHeight(a, b)
  }

  /** The rectangle lies inside [0, width] x [0, height]. */
  predicate Within(r: Rect, width: int, height: int)
  {
    0 <= r.Left() && r.Right() <= width && 0 <= r.Top() && r.Bottom() <= height
  }

  /** `colliderect` holds exactly when the intersection has positive area. */
  lemma CollidesIffPositiveOverlap(a: Rect, b: Rect)
    ensures Collides(a, b) <==> OverlapArea(a, b) > 0
  {
  }

  /** Overlap does not depend on which rectangle asks. */
  lemma CollidesSymmetric(a: Rect, b: Rect)
    ensures Collides(a, b) <==> Collides(b, a)
  {
  }

  /** A non-degenerate rectangle overlaps any rectangle with the same top-left
      corner. */
  lemma SameCornerCollides(a: Rect, b: Rect)
    requires a.w > 0 && a.h > 0 && b.w > 0 && b.h > 0
    requires a.x == b.x && a.y == b.y
    ensures Collides(a, b)
  {
  }

  /** A rectangle overlaps nothing that starts at or beyond its right edge. */
  lemma RightOfIsApart(a: Rect, b: Rect)
    requires b.Left() >= a.Right()
    ensures !Collides(a, b) && !Collides(b, a)
  {
  }
}
