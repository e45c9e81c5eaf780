/**
 * pygame's integer rectangle: position of the top-left corner and a size, the
 * derived edges and centre, the setters the games use, collision (colliderect),
 * clamping (clamp_ip) and the hitbox shrink (inflate) of Traffic Dash.
 * Sizes are never negative in these games, so they are `nat`.
 */
module Geometry {
  import opened Common

  datatype Rect = Rect(x: int, y: int, w: nat, h: nat) {
    function Left(): int { x }
    function Right(): int { x + w }
    function Top(): int { y }
    function Bottom(): int { y + h }
    /** pygame computes centres with C integer division of a non-negative size. */
    function CenterX(): int { x + w / 2 }
    function CenterY(): int { y + h / 2 }

    /** Assigning rect.left / rect.right / ... moves the rectangle, keeping its size. */
    function WithLeft(v: int): (r: Rect)
      ensures r.Left() == v && r.y == y && r.w == w && r.h == h
    { this.(x := v) }

    function WithRight(v: int): (r: Rect)
      ensures r.Right() == v && r.y == y && r.w == w && r.h == h
    { this.(x := v - w) }

    function WithTop(v: int): (r: Rect)
      ensures r.Top() == v && r.x == x && r.w == w && r.h == h
    { this.(y := v) }

    function WithBottom(v: int): (r: Rect)
      ensures r.Bottom() == v && r.x == x && r.w == w && r.h == h
    { this.(y := v - h) }

    function WithCenterX(v: int): (r: Rect)
      ensures r.CenterX() == v && r.y == y && r.w == w && r.h == h
    { this.(x := v - w / 2) }

    function WithCenterY(v: int): (r: Rect)
      ensures r.CenterY() == v && r.x == x && r.w == w && r.h == h
    { this.(y := v - h / 2) }

    function WithCenter(cx: int, cy: int): (r: Rect)
      ensures r.CenterX() == cx && r.CenterY() == cy && r.w == w && r.h == h
    { this.(x := cx - w / 2, y := cy - h / 2) }
  }

  /** surface.get_rect(center = (cx, cy)) for a surface of size w by h. */
  function CenteredAt(cx: int, cy: int, w: nat, h: nat): (r: Rect)
    ensures r.CenterX() == cx && r.CenterY() == cy && r.w == w && r.h == h
  {
    Rect(0, 0, w, h).WithCenter(cx, cy)
  }

  /** Rect.colliderect: empty rectangles never collide; otherwise the open
      interiors must intersect on both axes (touching edges do not collide). */
  predicate Overlaps(a: Rect, b: Rect)
  {
    a.w > 0 && a.h > 0 && b.w > 0 && b.h > 0 &&
    a.Left() < b.Right() && b.Left() < a.Right() &&
    a.Top() < b.Bottom() && b.Top() < a.Bottom()
  }

  lemma OverlapsSymmetric(a: Rect, b: Rect)
    ensures Overlaps(a, b) <==> Overlaps(b, a)
  {
  }

  /** True when r lies entirely within bounds. */
  predicate Inside(r: Rect, bounds: Rect)
  {
    bounds.Left() <= r.Left() && r.Right() <= bounds.Right() &&
    bounds.Top() <= r.Top() && r.Bottom() <= bounds.Bottom()
  }

  /** One axis of Rect.clamp_ip: position p of an extent of length n inside
      [lo, lo + len). A too-large extent is centred instead. */
  function ClampAxis(p: int, n: nat, lo: int, len: nat): (q: int)
    ensures n <= len ==> lo <= q && q + n <= lo + len
    ensures lo <= p && p + n <= lo + len ==> q == p
  {
    if n >= len then lo + len / 2 - n / 2
    else if p < lo then lo
    else if p + n > lo + len then lo + len - n
    else p
  }

  /** Rect.clamp_ip(bounds): move r (never resize it) so that it lies inside bounds. */
  function Clamp(r: Rect, bounds: Rect): (c: Rect)
    ensures c.w == r.w && c.h == r.h
    ensures r.w <= bounds.w && r.h <= bounds.h ==> Inside(c, bounds)
    ensures Inside(r, bounds) ==> c == r
  {
    Rect(ClampAxis(r.x, r.w, bounds.x, bounds.w), ClampAxis(r.y, r.h, bounds.y, bounds.h), r.w, r.h)
  }

  /** Integer division truncating toward zero, as C's `/` (pygame is written in C). */
  function CDiv(a: int, b: nat): int
    requires b > 0
  {
    if a >= 0 then a / b else -((-a) / b)
  }

  /** rect.inflate(0, -rect.height / 2): pygame truncates the float -h/2 to an int d,
      then grows the height by d and moves the top by -d/2 (C division). */
  function HalfHeightHitbox(r: Rect): (hb: Rect)
    ensures hb.x == r.x && hb.w == r.w && hb.CenterX() == r.CenterX()
    ensures hb.h == r.h - r.h / 2
    ensures hb.CenterY() == r.CenterY() - (if r.h % 4 == 2 then 1 else 0)
  {
    var d := -(r.h / 2);
    HalvedHeights(r.h);
    Rect(r.x, r.y - CDiv(d, 2), r.w, r.h + d)
  }

  /** The integer arithmetic of the halved height h - h/2 and its centre. */
  lemma HalvedHeights(h: nat)
    ensures CDiv(-(h / 2), 2) == -(h / 4)
    ensures (h - h / 2) / 2 == h / 2 - h / 4 - (if h % 4 == 2 then 1 else 0)
  {
    var q, m := h / 4, h % 4;
    assert h == 4 * q + m;
    if m == 0 {
      assert h / 2 == 2 * q && h - h / 2 == 2 * q;
    } else if m == 1 {
      assert h / 2 == 2 * q && h - h / 2 == 2 * q + 1;
    } else if m == 2 {
      assert h / 2 == 2 * q + 1 && h - h / 2 == 2 * q + 1;
    } else {
      assert h / 2 == 2 * q + 1 && h - h / 2 == 2 * q + 2;
    }
  }
}
