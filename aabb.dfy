/**
 * The integer axis-aligned bounding box component (`AABB`): a box of pixels
 * given by its centre and its half size, with corner and edge accessors,
 * point containment, box overlap, the Cohen-Sutherland out-code of a point
 * and the trivial accept/reject step of the segment test built on it.
 */
module Aabb {

  /** A 2d integer vector (`ivec2`). */
  datatype IVec2 = IVec2(x: int, y: int) {
    function Plus(o: IVec2): IVec2 { IVec2(x + o.x, y + o.y) }
    function Minus(o: IVec2): IVec2 { IVec2(x - o.x, y - o.y) }
  }

  /** Step by which the centre is bucketed in the change hash (`centerHashStep`). */
  const CenterHashStep: int := 10

  /** Out-code bits (`enum OutCode : uint8`). */
  const Inside: bv8 := 0
  const Left: bv8 := 1
  const Right: bv8 := 2
  const Bottom: bv8 := 4
  const Top: bv8 := 8

  datatype AABB = AABB(halfSize: IVec2, center: IVec2) {

    /** The top-right corner: no point of the box lies above or right of it. */
    function TopRight(): (p: IVec2)
      ensures halfSize.x >= 0 && halfSize.y >= 0 ==> Contains(p)
      ensures forall q :: Contains(q) ==> q.x <= p.x && q.y <= p.y
    {
      center.Plus(halfSize)
    }

    /** The bottom-right corner: no point of the box lies below or right of it. */
    function BottomRight(): (p: IVec2)
      ensures halfSize.x >= 0 && halfSize.y >= 0 ==> Contains(p)
      ensures forall q :: Contains(q) ==> q.x <= p.x && q.y >= p.y
    {
      center.Plus(IVec2(halfSize.x, -halfSize.y))
    }

    /** The bottom-left corner: no point of the box lies below or left of it. */
    function BottomLeft(): (p: IVec2)
      ensures halfSize.x >= 0 && halfSize.y >= 0 ==> Contains(p)
      ensures forall q :: Contains(q) ==> q.x >= p.x && q.y >= p.y
    {
      center.Minus(halfSize)
    }

    /** The top-left corner: no point of the box lies above or left of it. */
    function TopLeft(): (p: IVec2)
      ensures halfSize.x >= 0 && halfSize.y >= 0 ==> Contains(p)
      ensures forall q :: Contains(q) ==> q.x >= p.x && q.y <= p.y
    {
      center.Plus(IVec2(-halfSize.x, halfSize.y))
    }

    /** The middle of the top edge. */
    function TopCenter(): (p: IVec2)
      ensures halfSize.x >= 0 && halfSize.y >= 0 ==> Contains(p)
      ensures forall q :: Contains(q) ==> q.y <= p.y
      ensures p.x + p.x == TopLeft().x + TopRight().x && p.y == TopRight().y
    {
      center.Plus(IVec2(0, halfSize.y))
    }

    /** The middle of the bottom edge. */
    function BottomCenter(): (p: IVec2)
      ensures halfSize.x >= 0 && halfSize.y >= 0 ==> Contains(p)
      ensures forall q :: Contains(q) ==> q.y >= p.y
      ensures p.x + p.x == BottomLeft().x + BottomRight().x && p.y == BottomLeft().y
    {
      center.Plus(IVec2(0, -halfSize.y))
    }

    /** The middle of the right edge. */
    function RightCenter(): (p: IVec2)
      ensures halfSize.x >= 0 && halfSize.y >= 0 ==> Contains(p)
      ensures forall q :: Contains(q) ==> q.x <= p.x
      ensures p.y + p.y == BottomRight().y + TopRight().y && p.x == TopRight().x
    {
      center.Plus(IVec2(halfSize.x, 0))
    }

    /** The middle of the left edge. */
    function LeftCenter(): (p: IVec2)
      ensures halfSize.x >= 0 && halfSize.y >= 0 ==> Contains(p)
      ensures forall q :: Contains(q) ==> q.x >= p.x
      ensures p.y + p.y == BottomLeft().y + TopLeft().y && p.x == BottomLeft().x
    {
      center.Plus(IVec2(-halfSize.x, 0))
    }

    /**
     * Inclusive on all four borders: a point is inside exactly when it is at
     * most the half size away from the centre on both axes.
     */
    predicate Contains(p: IVec2): (inside: bool)
      ensures inside <==> Abs(p.x - center.x) <= halfSize.x && Abs(p.y - center.y) <= halfSize.y
      ensures inside ==> halfSize.x >= 0 && halfSize.y >= 0
    {
      p.x >= center.x - halfSize.x && p.x <= center.x + halfSize.x &&
      p.y >= center.y - halfSize.y && p.y <= center.y + halfSize.y
    }

    /**
     * Strict on all four borders, so boxes that only touch do not overlap:
     * two boxes overlap exactly when their centres are closer than the sum
     * of their half sizes on both axes.
     */
    predicate Overlaps(other: AABB): (overlap: bool)
      ensures overlap <==> Abs(center.x - other.center.x) < halfSize.x + other.halfSize.x &&
                           Abs(center.y - other.center.y) < halfSize.y + other.halfSize.y
    {
      other.center.x - other.halfSize.x < center.x + halfSize.x &&
      other.center.x + other.halfSize.x > center.x - halfSize.x &&
      other.center.y - other.halfSize.y < center.y + halfSize.y &&
      other.center.y + other.halfSize.y > center.y - halfSize.y
    }

    /**
     * The Cohen-Sutherland region of `p` relative to this box: at most one of
     * LEFT/RIGHT and at most one of BOTTOM/TOP, INSIDE exactly when the box
     * contains the point.
     */
    function ComputeOutCode(p: IVec2): (code: bv8)
      ensures code == Inside <==> Contains(p)
      ensures code & (Left | Right) != (Left | Right)
      ensures code & (Bottom | Top) != (Bottom | Top)
      ensures code <= 15
      ensures (code & Left != 0) <==> p.x < center.x - halfSize.x
      ensures (code & Right != 0) <==> p.x >= center.x - halfSize.x && p.x > center.x + halfSize.x
      ensures (code & Bottom != 0) <==> p.y < center.y - halfSize.y
      ensures (code & Top != 0) <==> p.y >= center.y - halfSize.y && p.y > center.y + halfSize.y
    {
      var h: bv8 :=
        if p.x < center.x - halfSize.x then Left
        else if p.x > center.x + halfSize.x then Right
        else Inside;
      var v: bv8 :=
        if p.y < center.y - halfSize.y then Bottom
        else if p.y > center.y + halfSize.y then Top
        else Inside;
      OutCodeBits(h, v);
      Inside | h | v
    }

    /**
     * `lineIntersectsOrInside`: both end points inside accepts; end points
     * that share an outside region reject; otherwise the segment is tested
     * against the four sides with `segmentsIntersect` (a geometric helper
     * that is not part of this model, so it is a parameter).
     */
    function LineIntersectsOrInside(p0: IVec2, p1: IVec2,
                                    segmentsIntersect: (IVec2, IVec2, IVec2, IVec2) -> bool): (hit: bool)
      ensures Contains(p0) && Contains(p1) ==> hit
      ensures ComputeOutCode(p0) & ComputeOutCode(p1) != 0 ==> !hit
      ensures hit && !(Contains(p0) && Contains(p1)) ==>
                segmentsIntersect(p0, p1, BottomLeft(), TopLeft()) ||
                segmentsIntersect(p0, p1, BottomRight(), TopRight()) ||
                segmentsIntersect(p0, p1, BottomLeft(), BottomRight()) ||
                segmentsIntersect(p0, p1, TopLeft(), TopRight())
    {
      var code0 := ComputeOutCode(p0);
      var code1 := ComputeOutCode(p1);
      if code0 | code1 == 0 then true
      else if code0 & code1 != 0 then false
      else
        segmentsIntersect(p0, p1, BottomLeft(), TopLeft()) ||
        segmentsIntersect(p0, p1, BottomRight(), TopRight()) ||
        segmentsIntersect(p0, p1, BottomLeft(), BottomRight()) ||
        segmentsIntersect(p0, p1, TopLeft(), TopRight())
    }

    /** The fields the change hash is computed from (`HASH(...)`). */
    function HashKey(): (key: (int, int, int, int))
      ensures key.0 == halfSize.x && key.1 == halfSize.y
      ensures center.x >= 0 ==> key.2 * CenterHashStep <= center.x < (key.2 + 1) * CenterHashStep
      ensures center.x < 0 ==> (key.2 - 1) * CenterHashStep < center.x <= key.2 * CenterHashStep
      ensures center.y >= 0 ==> key.3 * CenterHashStep <= center.y < (key.3 + 1) * CenterHashStep
      ensures center.y < 0 ==> (key.3 - 1) * CenterHashStep < center.y <= key.3 * CenterHashStep
    {
      (halfSize.x, halfSize.y, TruncDiv(center.x, CenterHashStep), TruncDiv(center.y, CenterHashStep))
    }
  }

  /** The bit facts of an out-code built from one horizontal and one vertical region. */
  lemma OutCodeBits(h: bv8, v: bv8)
    requires h == Inside || h == Left || h == Right
    requires v == Inside || v == Bottom || v == Top
    ensures Inside | h | v == Inside <==> h == Inside && v == Inside
    ensures (Inside | h | v) & (Left | Right) != (Left | Right)
    ensures (Inside | h | v) & (Bottom | Top) != (Bottom | Top)
    ensures Inside | h | v <= 15
    ensures ((Inside | h | v) & Left != 0) <==> h == Left
    ensures ((Inside | h | v) & Right != 0) <==> h == Right
    ensures ((Inside | h | v) & Bottom != 0) <==> v == Bottom
    ensures ((Inside | h | v) & Top != 0) <==> v == Top
  {
  }

  /** The component's field defaults: `halfSize = ivec2(1)`, `center = ivec2(0)`. */
  function DefaultAABB(): (b: AABB)
    ensures forall p :: b.Contains(p) <==> -1 <= p.x <= 1 && -1 <= p.y <= 1
    ensures b.Overlaps(b)
  {
    AABB(IVec2(1, 1), IVec2(0, 0))
  }

  function Abs(n: int): nat {
    if n < 0 then -n else n
  }

  /** Integer division rounding toward zero, as C++ `/` on `int`. */
  function TruncDiv(a: int, b: int): (q: int)
    requires b > 0
    ensures a >= 0 ==> 0 <= a - q * b < b
    ensures a < 0 ==> -b < a - q * b <= 0
  {
    if a >= 0 then a / b else -((-a) / b)
  }

  // ---------------------------------------------------------------------
  // Corners and edges

  /**
   * The accessors describe one rectangle: the two diagonal corners are the
   * centre plus and minus the half size, the other two corners mix their
   * coordinates, and every edge centre is the midpoint of the edge's corners.
   */
  lemma CornersFormRectangle(b: AABB)
    ensures b.TopRight().Plus(b.BottomLeft()) == IVec2(2 * b.center.x, 2 * b.center.y)
    ensures b.TopLeft() == IVec2(b.BottomLeft().x, b.TopRight().y)
    ensures b.BottomRight() == IVec2(b.TopRight().x, b.BottomLeft().y)
    ensures b.TopCenter().Plus(b.TopCenter()) == b.TopLeft().Plus(b.TopRight())
    ensures b.BottomCenter().Plus(b.BottomCenter()) == b.BottomLeft().Plus(b.BottomRight())
    ensures b.LeftCenter().Plus(b.LeftCenter()) == b.BottomLeft().Plus(b.TopLeft())
    ensures b.RightCenter().Plus(b.RightCenter()) == b.BottomRight().Plus(b.TopRight())
  {
  }

  /**
   * A box with a non-negative half size contains its corners and edge
   * centres, and they lie on its border (their out-code is INSIDE, while one
   * step further out is not).
   */
  lemma CornersOnBorder(b: AABB)
    requires b.halfSize.x >= 0 && b.halfSize.y >= 0
    ensures b.Contains(b.TopRight()) && b.Contains(b.TopLeft())
    ensures b.Contains(b.BottomRight()) && b.Contains(b.BottomLeft())
    ensures b.Contains(b.TopCenter()) && b.Contains(b.BottomCenter())
    ensures b.Contains(b.LeftCenter()) && b.Contains(b.RightCenter())
    ensures !b.Contains(b.TopRight().Plus(IVec2(1, 0))) && !b.Contains(b.TopRight().Plus(IVec2(0, 1)))
    ensures !b.Contains(b.BottomLeft().Minus(IVec2(1, 0))) && !b.Contains(b.BottomLeft().Minus(IVec2(0, 1)))
  {
  }

  /** A box contains a point exactly when its corners bound it. */
  lemma ContainsBetweenCorners(b: AABB, p: IVec2)
    ensures b.Contains(p) <==>
              b.BottomLeft().x <= p.x <= b.TopRight().x && b.BottomLeft().y <= p.y <= b.TopRight().y
  {
  }

  // ---------------------------------------------------------------------
  // Overlap

  /** Overlap is symmetric. */
  lemma OverlapsSymmetric(a: AABB, b: AABB)
    ensures a.Overlaps(b) == b.Overlaps(a)
  {
  }

  /**
   * Two boxes that share a vertical edge (one's right border is the other's
   * left border) do not overlap, although both contain the shared border.
   */
  lemma TouchingBoxesDoNotOverlap(a: AABB, b: AABB)
    requires a.halfSize.x >= 0 && a.halfSize.y >= 0
    requires b.halfSize.x >= 0 && b.halfSize.y >= 0
    requires a.center.x + a.halfSize.x == b.center.x - b.halfSize.x
    requires a.center.y == b.center.y
    ensures !a.Overlaps(b) && !b.Overlaps(a)
    ensures a.Contains(a.RightCenter()) && b.Contains(a.RightCenter())
  {
  }

  /** A box overlaps itself exactly when it has a positive extent on both axes. */
  lemma OverlapsSelf(a: AABB)
    ensures a.Overlaps(a) <==> a.halfSize.x > 0 && a.halfSize.y > 0
  {
  }

  /**
   * Overlap implies a common point: if two boxes overlap, the larger of
   * their two bottom-left corners lies in both (it may be on a border).
   */
  lemma OverlapWitness(a: AABB, b: AABB) returns (p: IVec2)
    requires a.halfSize.x >= 0 && a.halfSize.y >= 0
    requires b.halfSize.x >= 0 && b.halfSize.y >= 0
    requires a.Overlaps(b)
    ensures a.Contains(p) && b.Contains(p)
  {
    var lx := if a.center.x - a.halfSize.x > b.center.x - b.halfSize.x
              then a.center.x - a.halfSize.x else b.center.x - b.halfSize.x;
    var ly := if a.center.y - a.halfSize.y > b.center.y - b.halfSize.y
              then a.center.y - a.halfSize.y else b.center.y - b.halfSize.y;
    p := IVec2(lx, ly);
  }

  // ---------------------------------------------------------------------
  // Cohen-Sutherland

  /** Every point of the axis-aligned span of a segment. */
  predicate InSpan(p0: IVec2, p1: IVec2, q: IVec2) {
    (p0.x <= q.x <= p1.x || p1.x <= q.x <= p0.x) &&
    (p0.y <= q.y <= p1.y || p1.y <= q.y <= p0.y)
  }

  /**
   * Trivial accept is sound: both end points inside means the whole span of
   * the segment is inside, and the test answers true.
   */
  lemma TrivialAccept(b: AABB, p0: IVec2, p1: IVec2,
                      segmentsIntersect: (IVec2, IVec2, IVec2, IVec2) -> bool)
    requires b.Contains(p0) && b.Contains(p1)
    ensures b.LineIntersectsOrInside(p0, p1, segmentsIntersect)
    ensures forall q :: InSpan(p0, p1, q) ==> b.Contains(q)
  {
    assert b.ComputeOutCode(p0) == Inside && b.ComputeOutCode(p1) == Inside;
  }

  /**
   * Trivial reject is sound: end points whose out-codes share a bit lie on
   * the same outer side, so no point of the segment's span is in the box, and
   * the test answers false.
   */
  lemma TrivialReject(b: AABB, p0: IVec2, p1: IVec2,
                      segmentsIntersect: (IVec2, IVec2, IVec2, IVec2) -> bool)
    requires b.ComputeOutCode(p0) & b.ComputeOutCode(p1) != 0
    ensures !b.LineIntersectsOrInside(p0, p1, segmentsIntersect)
    ensures forall q :: InSpan(p0, p1, q) ==> !b.Contains(q)
  {
    var c0, c1 := b.ComputeOutCode(p0), b.ComputeOutCode(p1);
    assert c0 | c1 != 0 by { SharedBitIsNonZero(c0, c1); }
    var s := c0 & c1;
    assert s & Left != 0 || s & Right != 0 || s & Bottom != 0 || s & Top != 0 by {
      NonZeroHasOutBit(c0, c1);
    }
    if s & Left != 0 {
      BitOfConjunction(c0, c1, Left);
    } else if s & Right != 0 {
      BitOfConjunction(c0, c1, Right);
    } else if s & Bottom != 0 {
      BitOfConjunction(c0, c1, Bottom);
    } else {
      BitOfConjunction(c0, c1, Top);
    }
  }

  lemma SharedBitIsNonZero(c0: bv8, c1: bv8)
    requires c0 & c1 != 0
    ensures c0 | c1 != 0
  {
  }

  lemma NonZeroHasOutBit(c0: bv8, c1: bv8)
    requires c0 <= 15 && c1 <= 15 && c0 & c1 != 0
    ensures (c0 & c1) & Left != 0 || (c0 & c1) & Right != 0 ||
            (c0 & c1) & Bottom != 0 || (c0 & c1) & Top != 0
  {
  }

  lemma BitOfConjunction(c0: bv8, c1: bv8, m: bv8)
    requires (c0 & c1) & m != 0
    ensures c0 & m != 0 && c1 & m != 0
  {
  }

  /** Neither trivial case: the answer is exactly the side-by-side segment test. */
  lemma NonTrivialDefersToSegmentTest(b: AABB, p0: IVec2, p1: IVec2,
                                      segmentsIntersect: (IVec2, IVec2, IVec2, IVec2) -> bool)
    requires !(b.Contains(p0) && b.Contains(p1))
    requires b.ComputeOutCode(p0) & b.ComputeOutCode(p1) == 0
    ensures b.LineIntersectsOrInside(p0, p1, segmentsIntersect) ==
              (segmentsIntersect(p0, p1, b.BottomLeft(), b.TopLeft()) ||
               segmentsIntersect(p0, p1, b.BottomRight(), b.TopRight()) ||
               segmentsIntersect(p0, p1, b.BottomLeft(), b.BottomRight()) ||
               segmentsIntersect(p0, p1, b.TopLeft(), b.TopRight()))
  {
    var c0, c1 := b.ComputeOutCode(p0), b.ComputeOutCode(p1);
    assert c0 != 0 || c1 != 0;
    assert c0 | c1 != 0 by { OrOfNonZero(c0, c1); }
  }

  lemma OrOfNonZero(c0: bv8, c1: bv8)
    requires c0 != 0 || c1 != 0
    ensures c0 | c1 != 0
  {
  }

  // ---------------------------------------------------------------------
  // Change hash and defaults

  /**
   * The hash key sees the half size and only the bucket of the centre: a
   * move that keeps each centre coordinate in its bucket keeps the key, and
   * any change of the half size changes it.
   */
  lemma HashKeyBuckets(a: AABB, c: IVec2)
    requires TruncDiv(c.x, CenterHashStep) == TruncDiv(a.center.x, CenterHashStep)
    requires TruncDiv(c.y, CenterHashStep) == TruncDiv(a.center.y, CenterHashStep)
    ensures a.(center := c).HashKey() == a.HashKey()
    ensures forall h :: h != a.halfSize ==> a.(halfSize := h).HashKey() != a.HashKey()
  {
  }

  /**
   * With C++ division the buckets are ten wide away from zero, but the
   * bucket of zero is nineteen wide: every coordinate from -9 to 9 has the
   * same key, and 10 and -10 do not.
   */
  lemma {:induction false} BucketAroundZero(v: int)
    ensures TruncDiv(v, CenterHashStep) == 0 <==> -9 <= v <= 9
  {
    if v >= 0 {
      assert TruncDiv(v, CenterHashStep) == v / 10;
    } else {
      assert TruncDiv(v, CenterHashStep) == -((-v) / 10);
    }
  }

  /** Away from zero, a bucket is ten consecutive coordinates. */
  lemma PositiveBucket(v: int, w: int)
    requires v >= 0 && w >= 0
    ensures TruncDiv(v, CenterHashStep) == TruncDiv(w, CenterHashStep) <==> v / 10 == w / 10
  {
  }

  /**
   * The default box spans from (-1, -1) to (1, 1), and its hash key is its
   * half size with both centre coordinates in bucket zero.
   */
  lemma DefaultBox()
    ensures DefaultAABB().TopRight() == IVec2(1, 1) && DefaultAABB().BottomLeft() == IVec2(-1, -1)
    ensures DefaultAABB().HashKey() == (1, 1, 0, 0)
  {
    assert TruncDiv(0, CenterHashStep) == 0;
  }
}
