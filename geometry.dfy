/**
 * Rectangles, items and the quadrant-membership test of the region quadtree.
 * Coordinates are exact reals, y grows downwards (page coordinates).
 */
module Geometry {

  /** The extent of a query along one axis: a length, or the sentinel that
      the source writes as INFDIST = -1 and that means "unbounded". */
  datatype Extent = Finite(len: real) | Inf

  /** The number the source computes with when it does arithmetic on an
      extent: the sentinel is the number -1. */
  function Raw(e: Extent): (r: real)
    ensures e.Finite? ==> r == e.len
    ensures e.Inf? ==> r == -1.0
  {
    match e
    case Finite(l) => l
    case Inf => -1.0
  }

  /** A query (or any) rectangle; only queries carry `Inf`. */
  datatype Rect = Rect(x: real, y: real, w: Extent, h: Extent)

  /** The bounds of a node: always finite. */
  datatype Bounds = Bounds(x: real, y: real, w: real, h: real)

  /** A stored item: a finite rectangle plus the id used for deduplication. */
  datatype Item = Item(id: int, x: real, y: real, w: real, h: real) {
    function AsRect(): Rect { Rect(x, y, Finite(w), Finite(h)) }
  }

  /** Stored items have non-negative finite sizes. */
  predicate ValidItem(c: Item) { c.w >= 0.0 && c.h >= 0.0 }

  /** The four children of an internal node, in the source's index order
      TOP_LEFT = 0, TOP_RIGHT = 1, BOTTOM_LEFT = 2, BOTTOM_RIGHT = 3. */
  datatype Quadrant = TL | TR | BL | BR {
    predicate IsLeft() { this == TL || this == BL }
    predicate IsTop() { this == TL || this == TR }
  }

  /** The membership centre uses the exact half of the bounds. */
  function CentreX(b: Bounds): real { b.x + b.w / 2.0 }
  function CentreY(b: Bounds): real { b.y + b.h / 2.0 }

  /** The four half-plane tests that `FindIndices` combines. */
  predicate LeftHit(b: Bounds, r: Rect) { r.x < CentreX(b) }
  predicate RightHit(b: Bounds, r: Rect)
  {
    r.x >= CentreX(b) || r.w.Inf? || r.x + Raw(r.w) >= CentreX(b)
  }
  predicate TopHit(b: Bounds, r: Rect) { r.y < CentreY(b) }
  predicate BottomHit(b: Bounds, r: Rect)
  {
    r.y >= CentreY(b) || r.h.Inf? || r.y + Raw(r.h) >= CentreY(b)
  }

  /** Which children of a node with bounds `b` the rectangle `r` belongs to. */
  function FindIndices(b: Bounds, r: Rect): (out: set<Quadrant>)
    ensures TL in out <==> LeftHit(b, r) && TopHit(b, r)
    ensures TR in out <==> RightHit(b, r) && TopHit(b, r)
    ensures BL in out <==> LeftHit(b, r) && BottomHit(b, r)
    ensures BR in out <==> RightHit(b, r) && BottomHit(b, r)
    ensures out != {}
  {
    var cx := b.x + b.w / 2.0;
    var cy := b.y + b.h / 2.0;
    var top :=
      if r.y < cy then
        (if r.x < cx then
           {TL} + (if r.w.Inf? || r.x + Raw(r.w) >= cx then {TR} else {})
         else {TR})
      else {};
    var below := !(r.y < cy);
    var bottom :=
      if below || r.h.Inf? || r.y + Raw(r.h) >= cy then
        (if r.x < cx then
           {BL} + (if r.w.Inf? || r.x + Raw(r.w) >= cx then {BR} else {})
         else {BR})
      else {};
    top + bottom
  }

  /** The overlap test of the range query: closed rectangles, so touching
      edges overlap; an unbounded query extent drops its far-side test. */
  predicate Overlaps(q: Rect, c: Item)
  {
    && q.x <= c.x + c.w
    && q.y <= c.y + c.h
    && (c.x <= q.x + Raw(q.w) || q.w.Inf?)
    && (c.y <= q.y + Raw(q.h) || q.h.Inf?)
  }

  /** Two rectangles that meet along the x axis share a left/right side. */
  lemma HorizontalCommon(b: Bounds, q: Rect, c: Item)
    requires q.x <= c.x + c.w
    requires c.x <= q.x + Raw(q.w) || q.w.Inf?
    ensures (LeftHit(b, q) && LeftHit(b, c.AsRect())) ||
            (RightHit(b, q) && RightHit(b, c.AsRect()))
  {
    if !RightHit(b, q) {
      assert c.x < CentreX(b);
    } else if !RightHit(b, c.AsRect()) {
      assert q.x < CentreX(b);
    }
  }

  /** Two rectangles that meet along the y axis share a top/bottom side. */
  lemma VerticalCommon(b: Bounds, q: Rect, c: Item)
    requires q.y <= c.y + c.h
    requires c.y <= q.y + Raw(q.h) || q.h.Inf?
    ensures (TopHit(b, q) && TopHit(b, c.AsRect())) ||
            (BottomHit(b, q) && BottomHit(b, c.AsRect()))
  {
    if !BottomHit(b, q) {
      assert c.y < CentreY(b);
    } else if !BottomHit(b, c.AsRect()) {
      assert q.y < CentreY(b);
    }
  }

  /** The quadrant with the given sides. */
  function Quad(left: bool, top: bool): (k: Quadrant)
    ensures k.IsLeft() == left && k.IsTop() == top
  {
    if top then (if left then TL else TR) else (if left then BL else BR)
  }

  /** Whenever an item overlaps the query, some child of every node is
      reported for both of them: the range query cannot miss it. */
  lemma CommonQuadrant(b: Bounds, q: Rect, c: Item) returns (k: Quadrant)
    requires Overlaps(q, c)
    ensures k in FindIndices(b, q) && k in FindIndices(b, c.AsRect())
  {
    HorizontalCommon(b, q, c);
    VerticalCommon(b, q, c);
    var left := LeftHit(b, q) && LeftHit(b, c.AsRect());
    var top := TopHit(b, q) && TopHit(b, c.AsRect());
    k := Quad(left, top);
  }

  /** JavaScript's `v | 0` for |v| < 2^31: truncation toward zero. */
  function Trunc(v: real): (t: int)
    ensures v >= 0.0 ==> t as real <= v < t as real + 1.0
    ensures v < 0.0 ==> t as real - 1.0 < v <= t as real
  {
    if v >= 0.0 then v.Floor else -((-v).Floor)
  }

  /** The bounds of child `k` made by `subdivide`: floored half sizes, and
      origins shifted by those floored halves. */
  function ChildBounds(b: Bounds, k: Quadrant): (c: Bounds)
    ensures c.w == Trunc(b.w / 2.0) as real && c.h == Trunc(b.h / 2.0) as real
    ensures c.x == if k.IsLeft() then b.x else b.x + Trunc(b.w / 2.0) as real
    ensures c.y == if k.IsTop() then b.y else b.y + Trunc(b.h / 2.0) as real
  {
    var hw := Trunc(b.w / 2.0) as real;
    var hh := Trunc(b.h / 2.0) as real;
    match k
    case TL => Bounds(b.x, b.y, hw, hh)
    case TR => Bounds(b.x + hw, b.y, hw, hh)
    case BL => Bounds(b.x, b.y + hh, hw, hh)
    case BR => Bounds(b.x + hw, b.y + hh, hw, hh)
  }
}
