/**
 * The current version (src/Scratchie.js): an ES class whose handlers are gated by
 * `isDisabled` and `isScratching`, and whose move handler reports the coverage measured
 * before it draws.
 */
module Scratchie {
  import opened Js
  import opened Geometry
  import opened Events
  import opened Canvas

  class Module {
    const canvas: Surface
    /** Whether `onRenderEnd` and `onScratch` were given (as functions). */
    const hasOnRenderEnd: bool
    const hasOnScratch: bool

    var isDisabled: bool
    var isScratching: bool
    var lastPoint: Option<Point>
    /** The move listeners registered on the canvas. */
    var listeners: set<Listener>
    /** How many times `onRenderEnd` has run. */
    var renderEndCalls: nat
    /** Image fills whose `onload` has not fired yet. */
    var pendingImageLoads: nat
    /** The values passed to `onScratch`, in order. */
    var scratchReports: seq<nat>

    ghost predicate Valid()
      reads this
    {
      canvas.Valid() && forall l :: l in listeners ==> l.handler == BoundHandelMove
    }

    /**
     * `new Module(element, options)` for a container of `width` x `height` pixels: the
     * flags come from the options as given, not from the merged copy.
     */
    constructor (width: nat, height: nat, options: map<string, Value>)
      requires CallbackOption(options, "onRenderEnd") && CallbackOption(options, "onScratch")
      ensures Valid() && fresh(canvas) && fresh(canvas.data)
      ensures canvas.width == width && canvas.height == height && canvas.stamps == [] && canvas.originClean
      ensures canvas.data[..] == Filled(4 * (width * height), TransparentBlack)
      ensures isDisabled == Truthy(Get(options, "disabled"))
      ensures hasOnRenderEnd == Truthy(Get(options, "onRenderEnd"))
      ensures hasOnScratch == Truthy(Get(options, "onScratch"))
      ensures !isScratching && lastPoint == None && listeners == {}
      ensures renderEndCalls == 0 && pendingImageLoads == 0 && scratchReports == []
    {
      canvas := new Surface(width, height);
      hasOnRenderEnd := Truthy(Get(options, "onRenderEnd"));
      hasOnScratch := Truthy(Get(options, "onScratch"));
      isDisabled := Truthy(Get(options, "disabled"));
      isScratching := false;
      lastPoint := None;
      listeners := {};
      renderEndCalls, pendingImageLoads, scratchReports := 0, 0, [];
    }

    /**
     * `render(value)`: reset the stroke, clear the canvas, then fill it with the colour
     * (`paint`, the colour the canvas parses `value` to) or, for an image, with white and
     * start loading the image. The completion callback runs once now; an image fill runs
     * it once more when the image loads. A missing value (`null`) throws before anything
     * changes.
     */
    method Render(value: Option<string>, paint: Rgba) returns (outcome: Outcome)
      requires Valid()
      modifies this`isScratching, this`lastPoint, this`renderEndCalls, this`pendingImageLoads, canvas.data
      ensures Valid()
      ensures value.None? ==> outcome == Fail(TypeError) && unchanged(this) && unchanged(canvas.data)
      ensures value.Some? ==>
        && outcome == Pass
        && !isScratching && lastPoint == None
        && canvas.data[..] == Filled(canvas.data.Length, if IsImageValue(value.value) then White else paint)
        && renderEndCalls == old(renderEndCalls) + (if hasOnRenderEnd then 1 else 0)
        && pendingImageLoads == old(pendingImageLoads) + (if IsImageValue(value.value) then 1 else 0)
    {
      if value.None? {
        return Fail(TypeError);
      }
      var isImage := IsImageValue(value.value);
      isScratching := false;
      lastPoint := None;
      canvas.Clear();
      if isImage {
        // the white base fill calls the completion callback at once
        canvas.Fill(White);
        pendingImageLoads := pendingImageLoads + 1;
      } else {
        canvas.Fill(paint);
      }
      if hasOnRenderEnd {
        renderEndCalls := renderEndCalls + 1;
      }
      outcome := Pass;
    }

    /**
     * The `onload` of an image fill: the browser composites the image (`composited` is the
     * buffer it leaves), which taints the canvas unless the image is from the page's own
     * origin (`sameOrigin`; no `crossOrigin` is requested), and the completion callback runs
     * a second time.
     */
    method ImageLoaded(composited: seq<Byte>, sameOrigin: bool)
      requires Valid() && 0 < pendingImageLoads && |composited| == canvas.data.Length
      modifies this`renderEndCalls, this`pendingImageLoads, canvas`originClean, canvas.data
      ensures Valid()
      ensures canvas.data[..] == composited
      ensures canvas.originClean == (old(canvas.originClean) && sameOrigin)
      ensures pendingImageLoads == old(pendingImageLoads) - 1
      ensures renderEndCalls == old(renderEndCalls) + (if hasOnRenderEnd then 1 else 0)
    {
      canvas.DrawImage(composited, sameOrigin);
      pendingImageLoads := pendingImageLoads - 1;
      if hasOnRenderEnd {
        renderEndCalls := renderEndCalls + 1;
      }
    }

    /** `getScratchedPixels()`: the floored percentage of pixels with alpha 0, or the error `getImageData` throws. */
    method GetScratchedPixels() returns (r: Result<nat>)
      requires Valid()
      ensures r == Scan(canvas.data[..], canvas.width, canvas.height, canvas.originClean)
      ensures r.Ok? ==> r.value <= 100
    {
      r := canvas.ClearedPercent();
    }

    /**
     * `getRelativePosition(e, canvas)`: page coordinates (each falling back to the first
     * touch when falsy) minus the summed offsets of the canvas's offset-parent chain.
     */
    method GetRelativePosition(e: PointerEvent, layout: Layout) returns (r: Result<Point>)
      ensures r.Ok? <==> PageOrTouch(e).Ok?
      ensures r.Err? ==> r.error == TypeError
      ensures r.Ok? ==> r.value == Relative(PageOrTouch(e).value, LayoutOffset(layout))
    {
      var offset := ChainOffset(layout);
      var page := PageOrTouch(e);
      if page.Err? {
        return Err(page.error);
      }
      r := Ok(Relative(page.value, offset));
    }

    /**
     * `handleStart(e)`: ignored while disabled; otherwise the drawing flag is set first,
     * then the start point is translated (which may throw, leaving the flag set), and the
     * bound move handler is registered with capture.
     */
    method HandleStart(e: PointerEvent, layout: Layout) returns (outcome: Outcome)
      requires Valid()
      modifies this`isScratching, this`lastPoint, this`listeners
      ensures Valid()
      ensures old(isDisabled) ==> outcome == Pass && unchanged(this)
      ensures !old(isDisabled) ==>
        && isScratching
        && (outcome == Pass <==> PageOrTouch(e).Ok?)
        && (outcome.Fail? ==> outcome == Fail(TypeError) && lastPoint == old(lastPoint) && listeners == old(listeners))
        && (outcome == Pass ==>
              && lastPoint == Some(Relative(PageOrTouch(e).value, LayoutOffset(layout)))
              && listeners == old(listeners) + AddedOnStart(true))
    {
      if isDisabled {
        return Pass;
      }
      isScratching := true;
      var start := GetRelativePosition(e, layout);
      if start.Err? {
        return Fail(start.error);
      }
      lastPoint := Some(start.value);
      listeners := listeners + AddedOnStart(true);
      outcome := Pass;
    }

    /**
     * `handleMove(e)`: ignored unless scratching. Otherwise translate the event, measure
     * the coverage, draw one stamp per natural below the distance (`seg` is the distance
     * and direction from the last point to the new one), move the last point, and report
     * the coverage measured BEFORE the stamps. A throw (untranslatable event, no last
     * point, empty or tainted canvas) happens before anything changes.
     */
    method HandleMove(e: PointerEvent, layout: Layout, seg: Segment) returns (outcome: Outcome)
      requires Valid() && seg.length >= 0.0
      modifies this`lastPoint, this`scratchReports, canvas`stamps, canvas.data
      ensures Valid()
      ensures outcome.Fail? || !old(isScratching) ==>
        && unchanged(this) && unchanged(canvas) && unchanged(canvas.data)
      ensures !old(isScratching) ==> outcome == Pass
      ensures old(isScratching) ==>
        (outcome == Pass <==> PageOrTouch(e).Ok? && old(lastPoint).Some? && 0 < canvas.width && 0 < canvas.height && canvas.originClean)
      ensures old(isScratching) && outcome == Pass ==>
        && canvas.stamps == old(canvas.stamps) + StrokePoints(old(lastPoint).value, seg)
        && canvas.data[..] == StampAll(old(canvas.data[..]), canvas.width, canvas.height, StrokePoints(old(lastPoint).value, seg))
        && lastPoint == Some(Relative(PageOrTouch(e).value, LayoutOffset(layout)))
        && scratchReports == old(scratchReports) +
             (if hasOnScratch then [CoverageOf(old(canvas.data[..]), canvas.width, canvas.height).value] else [])
    {
      if !isScratching {
        return Pass;
      }
      var current := GetRelativePosition(e, layout);
      if current.Err? {
        return Fail(current.error);
      }
      if lastPoint.None? {
        // distanceBetween reads `.x` of a null last point
        return Fail(TypeError);
      }
      var scratchedPixels := GetScratchedPixels();
      if scratchedPixels.Err? {
        return Fail(scratchedPixels.error);
      }
      canvas.Stroke(lastPoint.value, seg);
      lastPoint := Some(current.value);
      if hasOnScratch {
        scratchReports := scratchReports + [scratchedPixels.value];
      }
      outcome := Pass;
    }

    /**
     * `handleEnd(e)`: its guard reads `this.disabled`, a field nothing assigns, so it never
     * returns early, even while disabled. It clears the drawing flag and tries to remove the
     * move listeners under the unbound name without capture, which removes nothing.
     */
    method HandleEnd()
      requires Valid()
      modifies this`isScratching, this`listeners
      ensures Valid()
      ensures !isScratching
      ensures listeners == old(listeners)
    {
      isScratching := false;
      listeners := listeners - RemovedOnEnd(false);
    }
  }

  /**
   * After a pointer-up, a further move has no effect: not because its listener was removed
   * (it was not), but because the drawing flag is off.
   */
  method MoveAfterEnd(m: Module, e: PointerEvent, layout: Layout, seg: Segment) returns (outcome: Outcome)
    requires m.Valid() && seg.length >= 0.0
    modifies m, m.canvas, m.canvas.data
    ensures m.Valid() && outcome == Pass && !m.isScratching
    ensures m.listeners == old(m.listeners)
    ensures m.lastPoint == old(m.lastPoint) && m.scratchReports == old(m.scratchReports)
    ensures unchanged(m.canvas) && unchanged(m.canvas.data)
  {
    m.HandleEnd();
    outcome := m.HandleMove(e, layout, seg);
  }

  /** A disabled instance ignores a pointer-down, so the following move draws and reports nothing. */
  method DisabledStartThenMove(m: Module, down: PointerEvent, move: PointerEvent, layout: Layout, seg: Segment)
    returns (outcome: Outcome)
    requires m.Valid() && m.isDisabled && !m.isScratching && seg.length >= 0.0
    modifies m, m.canvas, m.canvas.data
    ensures m.Valid() && outcome == Pass
    ensures unchanged(m) && unchanged(m.canvas) && unchanged(m.canvas.data)
  {
    var started := m.HandleStart(down, layout);
    outcome := m.HandleMove(move, layout, seg);
  }

  /**
   * On a 1x1 opaque canvas, a move of length 1 from (25, 25) draws one stamp at (0, 0),
   * which clears the only pixel.
   */
  lemma UnitCanvasStroke()
    ensures CoverageOf(Filled(4, White), 1, 1) == Ok(0)
    ensures CoverageOf(StampAll(Filled(4, White), 1, 1, StrokePoints(Point(25.0, 25.0), Segment(1.0, 0.0, 1.0))), 1, 1) == Ok(100)
  {
    FilledCoverage(1, 1, White);
    var ps := StrokePoints(Point(25.0, 25.0), Segment(1.0, 0.0, 1.0));
    assert StampCount(1.0) == 1;
    assert ps == [Point(0.0, 0.0)];
    var after := StampAll(Filled(4, White), 1, 1, ps);
    assert ps[..0] == [];
    assert after == Stamped(Filled(4, White), 1, 1, Point(0.0, 0.0));
    assert Erases(1, 1, Point(0.0, 0.0), 3);
    assert Alpha(after, 0) == 0;
    CoverageExtremes(after, 1, 1);
  }

  /**
   * The reported value lags the canvas: a 1x1 instance rendered white, pressed at (25, 25)
   * and moved to (25, 26) (distance 1, straight down) reports 0 to `onScratch` although its
   * one pixel is now cleared and the canvas is at 100.
   */
  method StaleReportExample() returns (m: Module)
    ensures m.scratchReports == [0]
    ensures m.canvas.width == 1 && m.canvas.height == 1 && m.canvas.data.Length == 4
    ensures CoverageOf(m.canvas.data[..], 1, 1) == Ok(100)
  {
    m := new Module(1, 1, map["onScratch" := Func(0)]);
    var rendered := m.Render(Some("#fff"), White);
    var noOffset := Layout(false, []);
    var started := m.HandleStart(PointerEvent(Some(25.0), Some(25.0), []), noOffset);
    var moved := m.HandleMove(PointerEvent(Some(25.0), Some(26.0), []), noOffset, Segment(1.0, 0.0, 1.0));
    UnitCanvasStroke();
  }
}
