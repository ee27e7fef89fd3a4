/**
 * The older version (scratchie.js): a prototype-based `Module` built over the shared
 * `defaults` object, with handlers gated by `enabled` and `isDrawing`, and a move handler
 * that reports the coverage measured after it draws.
 */
module ScratchieLegacy {
  import opened Js
  import opened Geometry
  import opened Events
  import opened Canvas
  import opened Objects

  class Module {
    const canvas: Surface
    /** `this.options`: the very object passed as `defaults`, not a copy. */
    const options: JsObject
    /** Whether the merged options held `onRenderEnd` and `onScratchMove` functions. */
    const hasOnRenderEnd: bool
    const hasOnScratchMove: bool

    var enabled: bool
    var isDrawing: bool
    var lastPoint: Option<Point>
    /** The move listeners registered on the canvas. */
    var listeners: set<Listener>
    /** How many times `onRenderEnd` has run. */
    var renderEndCalls: nat
    /** Image fills whose `onload` has not fired yet. */
    var pendingImageLoads: nat
    /** The values passed to `onScratchMove`, in order. */
    var scratchReports: seq<nat>

    ghost predicate Valid()
      reads this
    {
      canvas.Valid() && forall l :: l in listeners ==> l.handler == BoundHandelMove
    }

    /**
     * `new Module(element, options)`: `extend(defaults, options)` writes the options into
     * the module-wide `defaults` object and keeps that object as `this.options`; the
     * callbacks are read from it, so they include whatever earlier instances left there.
     */
    constructor (defaults: JsObject, width: nat, height: nat, opts: map<string, Value>)
      requires CallbackOption(Merged(defaults.props, [opts]), "onRenderEnd")
      requires CallbackOption(Merged(defaults.props, [opts]), "onScratchMove")
      modifies defaults
      ensures Valid() && fresh(canvas) && fresh(canvas.data)
      ensures canvas.width == width && canvas.height == height && canvas.stamps == [] && canvas.originClean
      ensures canvas.data[..] == Filled(4 * (width * height), TransparentBlack)
      ensures options == defaults
      ensures defaults.props == Merged(old(defaults.props), [opts])
      ensures hasOnRenderEnd == Truthy(Get(defaults.props, "onRenderEnd"))
      ensures hasOnScratchMove == Truthy(Get(defaults.props, "onScratchMove"))
      ensures enabled && !isDrawing && lastPoint == None && listeners == {}
      ensures renderEndCalls == 0 && pendingImageLoads == 0 && scratchReports == []
    {
      var merged := Extend(defaults, [opts]);
      options := merged;
      hasOnRenderEnd := Truthy(Get(merged.props, "onRenderEnd"));
      hasOnScratchMove := Truthy(Get(merged.props, "onScratchMove"));
      canvas := new Surface(width, height);
      enabled := true;
      isDrawing := false;
      lastPoint := None;
      listeners := {};
      renderEndCalls, pendingImageLoads, scratchReports := 0, 0, [];
    }

    /**
     * `render(value)`: reset the stroke, clear the canvas, then fill it with the colour
     * (`paint`, the colour the canvas parses `value` to) or, for an image, with white and
     * start loading the image. The completion callback runs once now; an image fill runs
     * it once more when the image loads. A missing value (`null`) throws before anything
     * changes.
     */
    method Render(value: Option<string>, paint: Rgba) returns (outcome: Outcome)
      requires Valid()
      modifies this`isDrawing, this`lastPoint, this`renderEndCalls, this`pendingImageLoads, canvas.data
      ensures Valid()
      ensures value.None? ==> outcome == Fail(TypeError) && unchanged(this) && unchanged(canvas.data)
      ensures value.Some? ==>
        && outcome == Pass
        && !isDrawing && lastPoint == None
        && canvas.data[..] == Filled(canvas.data.Length, if IsImageValue(value.value) then White else paint)
        && renderEndCalls == old(renderEndCalls) + (if hasOnRenderEnd then 1 else 0)
        && pendingImageLoads == old(pendingImageLoads) + (if IsImageValue(value.value) then 1 else 0)
    {
      if value.None? {
        return Fail(TypeError);
      }
      var isImage := IsImageValue(value.value);
      isDrawing := false;
      lastPoint := None;
      canvas.Clear();
      if isImage {
        // the white base fill calls the completion callback at once
        canvas.Fill(White);
        pendingImageLoads := pendingImageLoads + 1;
      } else {
        canvas.Fill(paint);
      }
      if hasOnRenderEnd {
        renderEndCalls := renderEndCalls + 1;
      }
      outcome := Pass;
    }

    /**
     * The `onload` of an image fill: the browser composites the image (`composited` is the
     * buffer it leaves), which taints the canvas unless the image is from the page's own
     * origin (`sameOrigin`; no `crossOrigin` is requested), and the completion callback runs
     * a second time.
     */
    method ImageLoaded(composited: seq<Byte>, sameOrigin: bool)
      requires Valid() && 0 < pendingImageLoads && |composited| == canvas.data.Length
      modifies this`renderEndCalls, this`pendingImageLoads, canvas`originClean, canvas.data
      ensures Valid()
      ensures canvas.data[..] == composited
      ensures canvas.originClean == (old(canvas.originClean) && sameOrigin)
      ensures pendingImageLoads == old(pendingImageLoads) - 1
      ensures renderEndCalls == old(renderEndCalls) + (if hasOnRenderEnd then 1 else 0)
    {
      canvas.DrawImage(composited, sameOrigin);
      pendingImageLoads := pendingImageLoads - 1;
      if hasOnRenderEnd {
        renderEndCalls := renderEndCalls + 1;
      }
    }

    /** `getFilledInPixels()`: the floored percentage of pixels with alpha 0, or the error `getImageData` throws. */
    method GetFilledInPixels() returns (r: Result<nat>)
      requires Valid()
      ensures r == Scan(canvas.data[..], canvas.width, canvas.height, canvas.originClean)
      ensures r.Ok? ==> r.value <= 100
    {
      r := canvas.ClearedPercent();
    }

    /**
     * `getRelativePosition(e, canvas)`: page coordinates (each falling back to the first
     * touch when falsy) minus the summed offsets of the canvas's offset-parent chain.
     */
    method GetRelativePosition(e: PointerEvent, layout: Layout) returns (r: Result<Point>)
      ensures r.Ok? <==> PageOrTouch(e).Ok?
      ensures r.Err? ==> r.error == TypeError
      ensures r.Ok? ==> r.value == Relative(PageOrTouch(e).value, LayoutOffset(layout))
    {
      var offset := ChainOffset(layout);
      var page := PageOrTouch(e);
      if page.Err? {
        return Err(page.error);
      }
      r := Ok(Relative(page.value, offset));
    }

    /**
     * `handleStart(e)`: ignored unless enabled; otherwise the drawing flag is set first,
     * then the start point is translated (which may throw, leaving the flag set), and the
     * bound move handler is registered without capture.
     */
    method HandleStart(e: PointerEvent, layout: Layout) returns (outcome: Outcome)
      requires Valid()
      modifies this`isDrawing, this`lastPoint, this`listeners
      ensures Valid()
      ensures !old(enabled) ==> outcome == Pass && unchanged(this)
      ensures old(enabled) ==>
        && isDrawing
        && (outcome == Pass <==> PageOrTouch(e).Ok?)
        && (outcome.Fail? ==> outcome == Fail(TypeError) && lastPoint == old(lastPoint) && listeners == old(listeners))
        && (outcome == Pass ==>
              && lastPoint == Some(Relative(PageOrTouch(e).value, LayoutOffset(layout)))
              && listeners == old(listeners) + AddedOnStart(false))
    {
      if !enabled {
        return Pass;
      }
      isDrawing := true;
      var start := GetRelativePosition(e, layout);
      if start.Err? {
        return Fail(start.error);
      }
      lastPoint := Some(start.value);
      listeners := listeners + AddedOnStart(false);
      outcome := Pass;
    }

    /**
     * `handleMove(e)`: ignored unless drawing. Otherwise translate the event, draw one
     * stamp per natural below the distance (`seg` is the distance and direction from the
     * last point to the new one), move the last point, and, when `onScratchMove` is set,
     * report the coverage measured AFTER the stamps. Translating the event or reading a
     * null last point may throw before anything changes; the coverage scan of an empty or
     * tainted canvas throws after the stamps and the new last point are in place.
     */
    method HandleMove(e: PointerEvent, layout: Layout, seg: Segment) returns (outcome: Outcome)
      requires Valid() && seg.length >= 0.0
      modifies this`lastPoint, this`scratchReports, canvas`stamps, canvas.data
      ensures Valid()
      ensures !old(isDrawing) ==> outcome == Pass
      ensures !old(isDrawing) || !PageOrTouch(e).Ok? || old(lastPoint).None? ==>
        && unchanged(this) && unchanged(canvas) && unchanged(canvas.data)
      ensures old(isDrawing) ==>
        (outcome.Fail? <==>
           || !PageOrTouch(e).Ok? || old(lastPoint).None?
           || (hasOnScratchMove && (canvas.width == 0 || canvas.height == 0 || !canvas.originClean)))
      ensures old(isDrawing) && PageOrTouch(e).Ok? && old(lastPoint).Some? ==>
        && canvas.stamps == old(canvas.stamps) + StrokePoints(old(lastPoint).value, seg)
        && canvas.data[..] == StampAll(old(canvas.data[..]), canvas.width, canvas.height, StrokePoints(old(lastPoint).value, seg))
        && lastPoint == Some(Relative(PageOrTouch(e).value, LayoutOffset(layout)))
        && scratchReports == old(scratchReports) +
             (if hasOnScratchMove && outcome == Pass
              then [CoverageOf(canvas.data[..], canvas.width, canvas.height).value] else [])
    {
      if !isDrawing {
        return Pass;
      }
      var current := GetRelativePosition(e, layout);
      if current.Err? {
        return Fail(current.error);
      }
      if lastPoint.None? {
        // distanceBetween reads `.x` of a null last point
        return Fail(TypeError);
      }
      canvas.Stroke(lastPoint.value, seg);
      lastPoint := Some(current.value);
      if hasOnScratchMove {
        var filled := GetFilledInPixels();
        if filled.Err? {
          return Fail(filled.error);
        }
        scratchReports := scratchReports + [filled.value];
      }
      outcome := Pass;
    }

    /**
     * `handleEnd(e)`: ignored unless enabled; otherwise it clears the drawing flag and
     * tries to remove the move listeners under the unbound name, which removes nothing.
     */
    method HandleEnd()
      requires Valid()
      modifies this`isDrawing, this`listeners
      ensures Valid()
      ensures isDrawing == (old(isDrawing) && !old(enabled))
      ensures listeners == old(listeners)
    {
      if !enabled {
        return;
      }
      isDrawing := false;
      listeners := listeners - RemovedOnEnd(false);
    }
  }

  /**
   * The options leak across instances: building one instance per options object `opts[i]`,
   * in order, over one `defaults` object gives instances that all share that object, and
   * each key ends up holding the value of the last options object that set it, so every
   * instance sees options it was never given.
   */
  method BuildInstances(defaults: JsObject, width: nat, height: nat, opts: seq<map<string, Value>>)
    returns (ms: seq<Module>)
    requires forall i :: 0 < i <= |opts| ==> CallbackOption(Merged(defaults.props, opts[..i]), "onRenderEnd")
    requires forall i :: 0 < i <= |opts| ==> CallbackOption(Merged(defaults.props, opts[..i]), "onScratchMove")
    modifies defaults
    ensures |ms| == |opts|
    ensures forall i :: 0 <= i < |ms| ==> ms[i].options == defaults
    ensures defaults.props == Merged(old(defaults.props), opts)
    ensures forall key, j :: LastWith(opts, key, j) ==> key in defaults.props && defaults.props[key] == opts[j][key]
  {
    ghost var initial := defaults.props;
    ms := [];
    var i := 0;
    while i < |opts|
      invariant 0 <= i <= |opts| && |ms| == i
      invariant forall k :: 0 <= k < i ==> ms[k].options == defaults
      invariant defaults.props == Merged(initial, opts[..i])
    {
      assert opts[..i + 1][..i] == opts[..i];
      assert Merged(defaults.props, [opts[i]]) == Merged(initial, opts[..i + 1]);
      var m := new Module(defaults, width, height, opts[i]);
      ms := ms + [m];
      i := i + 1;
    }
    assert opts[..i] == opts;
    forall key, j | LastWith(opts, key, j)
      ensures key in defaults.props && defaults.props[key] == opts[j][key]
    {
      MergedLastWins(initial, opts, key);
    }
  }

  /**
   * Building two instances over the same `defaults`: the second shares the first's options
   * object, and receives the first's `onRenderEnd` when it gives none of its own.
   */
  method TwoInstances(defaults: JsObject, first: map<string, Value>, second: map<string, Value>, width: nat, height: nat)
    returns (a: Module, b: Module)
    requires CallbackOption(defaults.props, "onRenderEnd") && CallbackOption(defaults.props, "onScratchMove")
    requires CallbackOption(first, "onScratchMove") && CallbackOption(second, "onScratchMove")
    requires CallbackOption(second, "onRenderEnd")
    requires Get(first, "onRenderEnd").Func? && "onRenderEnd" !in second
    modifies defaults
    ensures a.options == b.options == defaults
    ensures a.hasOnRenderEnd && b.hasOnRenderEnd
    ensures defaults.props == Merged(old(defaults.props), [first, second])
  {
    a := new Module(defaults, width, height, first);
    b := new Module(defaults, width, height, second);
    assert [first, second][..1] == [first];
  }
}
