/**
 * Points, the offset-parent chain used to translate page coordinates into canvas
 * coordinates, and the stamp positions one pointer move produces.
 */
module Geometry {

  datatype Point = Point(x: real, y: real)

  /** An element's `offsetLeft` and `offsetTop`, or a sum of them. */
  datatype Offset = Offset(left: int, top: int)
  {
    function Plus(o: Offset): Offset
    {
      Offset(left + o.left, top + o.top)
    }
  }

  /**
   * The canvas's layout when an event arrives: whether the canvas has an `offsetParent`
   * property at all, and the chain canvas, canvas.offsetParent, ... that ends at the
   * element whose `offsetParent` is null.
   */
  datatype Layout = Layout(hasOffsetParent: bool, chain: seq<Offset>)

  /** Sum of the offsets along a chain, accumulated from the canvas outwards. */
  function Total(chain: seq<Offset>): Offset
  {
    if chain == [] then Offset(0, 0) else Total(chain[..|chain| - 1]).Plus(chain[|chain| - 1])
  }

  /**
   * The canvas's offset from the page: an inner part of the chain and the rest of it
   * contribute independently, so the canvas position inside its parent plus the parent's
   * offset from the page is the canvas's offset from the page.
   */
  lemma {:induction false} TotalAppend(inner: seq<Offset>, outer: seq<Offset>)
    ensures Total(inner + outer) == Total(inner).Plus(Total(outer))
  {
    if outer == [] {
      assert inner + outer == inner;
    } else {
      var last := |outer| - 1;
      assert (inner + outer)[..|inner + outer| - 1] == inner + outer[..last];
      TotalAppend(inner, outer[..last]);
    }
  }

  /** The offset that `getRelativePosition` subtracts from the page coordinates. */
  function LayoutOffset(layout: Layout): Offset
  {
    if layout.hasOffsetParent then Total(layout.chain) else Offset(0, 0)
  }

  /**
   * The offset walk of `getRelativePosition`: unless `offsetParent` is undefined, add up
   * `offsetLeft` and `offsetTop` of every element from the canvas up the offset-parent chain.
   */
  method ChainOffset(layout: Layout) returns (o: Offset)
    ensures o == LayoutOffset(layout)
    ensures !layout.hasOffsetParent ==> o == Offset(0, 0)
  {
    o := Offset(0, 0);
    if layout.hasOffsetParent {
      var chain := layout.chain;
      var i := 0;
      while i < |chain|
        invariant 0 <= i <= |chain|
        invariant o == Total(chain[..i])
      {
        assert chain[..i + 1][..i] == chain[..i];
        o := Offset(o.left + chain[i].left, o.top + chain[i].top);
        i := i + 1;
      }
      assert chain[..i] == chain;
    }
  }

  /** Page coordinates translated into the canvas's own coordinates. */
  function Relative(page: Point, o: Offset): Point
  {
    Point(page.x - o.left as real, page.y - o.top as real)
  }

  /**
   * The distance and the direction from the last point to the current one, as
   * `distanceBetween` and the sine and cosine of `angleBetween` give them.
   */
  datatype Segment = Segment(length: real, sin: real, cos: real)

  /** The literal `25` that `handleMove` subtracts from both coordinates of every stamp. */
  const BrushMargin: real := 25.0

  /**
   * How many times `for (i = 0; i < dist; i++)` runs: the number of naturals below `dist`,
   * that is the least natural not below `dist` (its ceiling).
   */
  function StampCount(dist: real): (n: nat)
    requires dist >= 0.0
    ensures dist <= n as real
    ensures n == 0 || (n - 1) as real < dist
  {
    if dist.Floor as real == dist then dist.Floor else dist.Floor + 1
  }

  /** A natural `i` gets a stamp exactly when `i < dist`. */
  lemma StampIndexIff(dist: real, i: nat)
    requires dist >= 0.0
    ensures i < StampCount(dist) <==> (i as real) < dist
  {
  }

  /**
   * The loop draws no stamp for a move of length 0, and `floor(dist) + 1` stamps only when
   * `dist` is not a whole number; a move of exactly `k` pixels draws `k` stamps.
   */
  lemma StampCountVersusFloor(dist: real)
    requires dist >= 0.0
    ensures StampCount(dist) == 0 <==> dist == 0.0
    ensures StampCount(dist) == dist.Floor + 1 <==> dist != dist.Floor as real
    ensures dist == dist.Floor as real ==> StampCount(dist) == dist.Floor
  {
  }

  /** Where stamp number `i` of a move starting at `from` is drawn. */
  function StampAt(from: Point, seg: Segment, i: nat): Point
  {
    Point(from.x + seg.sin * i as real - BrushMargin, from.y + seg.cos * i as real - BrushMargin)
  }

  /** The stamps one move draws, in drawing order. */
  function StrokePoints(from: Point, seg: Segment): (ps: seq<Point>)
    requires seg.length >= 0.0
  {
    seq(StampCount(seg.length), i requires 0 <= i => StampAt(from, seg, i))
  }

  /**
   * The stroke's shape: one stamp per natural below the distance, the first one at the
   * last point shifted by the margin, each next one a further (sin, cos) along, so
   * consecutive stamps are one unit apart when (sin, cos) is a unit vector.
   */
  lemma StrokeShape(from: Point, seg: Segment)
    requires seg.length >= 0.0
    ensures |StrokePoints(from, seg)| == StampCount(seg.length)
    ensures StrokePoints(from, seg) == [] <==> seg.length == 0.0
    ensures seg.length > 0.0 ==>
      StrokePoints(from, seg)[0] == Point(from.x - BrushMargin, from.y - BrushMargin)
    ensures forall i :: 0 <= i < |StrokePoints(from, seg)| - 1 ==>
      StrokePoints(from, seg)[i + 1].x == StrokePoints(from, seg)[i].x + seg.sin &&
      StrokePoints(from, seg)[i + 1].y == StrokePoints(from, seg)[i].y + seg.cos
  {
    var ps := StrokePoints(from, seg);
    forall i | 0 <= i < |ps| - 1
      ensures ps[i + 1].x == ps[i].x + seg.sin && ps[i + 1].y == ps[i].y + seg.cos
    {
      assert ps[i + 1] == StampAt(from, seg, i + 1);
      assert ps[i] == StampAt(from, seg, i);
      assert seg.sin * (i + 1) as real == seg.sin * i as real + seg.sin;
      assert seg.cos * (i + 1) as real == seg.cos * i as real + seg.cos;
    }
  }
}
