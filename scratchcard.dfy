/**
 * The first version (scratchcard.js): like scratchie.js, but `render` takes the fill type
 * explicitly and offers a custom fill, and `getRelativePosition` reads `e.pageX`/`e.pageY`
 * with no touch fallback.
 */
module Scratchcard {
  import opened Js
  import opened Geometry
  import opened Events
  import opened Canvas
  import opened Objects

  /**
   * A last point as this version can hold it: none yet (`null` or `undefined`), a point,
   * or a point with NaN coordinates, which a touch event (no `pageX`/`pageY`) produces.
   */
  datatype Position = Unset | At(p: Point) | NotANumber

  /**
   * What `fill[type]` finds: one of the three fills, or a method `fill` inherits from
   * `Object.prototype`, which takes `(value, cb)` without throwing and never calls `cb`.
   */
  datatype FillKind = ColourFill | ImageFill | CustomFill | InheritedMethod

  /** The methods of `Object.prototype`; every one of them returns normally when called as `fill[type](value, cb)`. */
  const PrototypeMethods: set<string> := {
    "constructor", "hasOwnProperty", "isPrototypeOf", "propertyIsEnumerable",
    "toLocaleString", "toString", "valueOf", "__defineGetter__", "__defineSetter__",
    "__lookupGetter__", "__lookupSetter__"
  }

  /**
   * `type = type || 'color'`, then `fill[type]`: a falsy type means a colour fill, the
   * three fill names select their fill, the name of an inherited method finds that
   * method, and any other type finds no function (`None`).
   */
  function FillFor(kind: Value): (r: Option<FillKind>)
    ensures !Truthy(kind) ==> r == Some(ColourFill)
    ensures r == Some(ImageFill) <==> kind == Str("image")
    ensures r == Some(CustomFill) <==> kind == Str("custom")
    ensures r == Some(ColourFill) <==> !Truthy(kind) || kind == Str("color")
    ensures r == Some(InheritedMethod) <==> kind.Str? && kind.s in PrototypeMethods
  {
    if !Truthy(kind) then Some(ColourFill)
    else match kind
      case Str(name) =>
        if name == "color" then Some(ColourFill)
        else if name == "image" then Some(ImageFill)
        else if name == "custom" then Some(CustomFill)
        else if name in PrototypeMethods then Some(InheritedMethod)
        else None
      case _ => None
  }

  class Module {
    const canvas: Surface
    /** `this.options`: the very object passed as `defaults`, not a copy. */
    const options: JsObject
    /** Whether the merged options held `onRenderEnd` and `onScratchMove` functions. */
    const hasOnRenderEnd: bool
    const hasOnScratchMove: bool

    var enabled: bool
    var isDrawing: bool
    var lastPoint: Position
    /** The move listeners registered on the canvas. */
    var listeners: set<Listener>
    /** How many times `onRenderEnd` has run. */
    var renderEndCalls: nat
    /** Image fills whose `onload` has not fired yet. */
    var pendingImageLoads: nat
    /** How many times a custom fill function has been run. */
    var customFillRuns: nat
    /** The values passed to `onScratchMove`, in order. */
    var scratchReports: seq<nat>

    ghost predicate Valid()
      reads this
    {
      canvas.Valid() && forall l :: l in listeners ==> l.handler == BoundHandelMove
    }

    /**
     * `new Module(selector, options)`: `extend(defaults, options)` writes the options into
     * the module-wide `defaults` object and keeps that object as `this.options`; the
     * callbacks are read from it, so they include whatever earlier instances left there.
     */
    constructor (defaults: JsObject, width: nat, height: nat, opts: map<string, Value>)
      requires CallbackOption(Merged(defaults.props, [opts]), "onRenderEnd")
      requires CallbackOption(Merged(defaults.props, [opts]), "onScratchMove")
      modifies defaults
      ensures Valid() && fresh(canvas) && fresh(canvas.data)
      ensures canvas.width == width && canvas.height == height && canvas.stamps == [] && canvas.originClean
      ensures canvas.data[..] == Filled(4 * (width * height), TransparentBlack)
      ensures options == defaults
      ensures defaults.props == Merged(old(defaults.props), [opts])
      ensures hasOnRenderEnd == Truthy(Get(defaults.props, "onRenderEnd"))
      ensures hasOnScratchMove == Truthy(Get(defaults.props, "onScratchMove"))
      ensures enabled && !isDrawing && lastPoint == Unset && listeners == {}
      ensures renderEndCalls == 0 && pendingImageLoads == 0 && customFillRuns == 0 && scratchReports == []
    {
      var merged := Extend(defaults, [opts]);
      options := merged;
      hasOnRenderEnd := Truthy(Get(merged.props, "onRenderEnd"));
      hasOnScratchMove := Truthy(Get(merged.props, "onScratchMove"));
      canvas := new Surface(width, height);
      enabled := true;
      isDrawing := false;
      lastPoint := Unset;
      listeners := {};
      renderEndCalls, pendingImageLoads, customFillRuns, scratchReports := 0, 0, 0, [];
    }

    /**
     * `render(type, value)`: reset the stroke and clear the canvas, then dispatch on the
     * type. A colour fill paints `paint` (the colour the canvas parses `value` to); an image
     * fill paints white and starts loading the image; a custom fill runs the function
     * `value` (which must be one) with the module as `this`, and whatever it draws leaves the
     * buffer `drawn` (tainting the canvas unless `drawnSameOrigin`). The completion callback
     * runs once for each of them, and once more when an image loads. An unknown type, or a
     * custom fill whose value is not a function, throws after the reset; a type naming an
     * inherited `Object.prototype` method runs that method instead, which fills nothing and
     * never calls back.
     */
    method Render(kind: Value, value: Value, paint: Rgba, drawn: seq<Byte>, drawnSameOrigin: bool)
      returns (outcome: Outcome)
      requires Valid() && |drawn| == canvas.data.Length
      modifies this`isDrawing, this`lastPoint, this`renderEndCalls, this`pendingImageLoads, this`customFillRuns
      modifies canvas`originClean, canvas.data
      ensures Valid()
      ensures !isDrawing && lastPoint == Unset
      ensures outcome == Pass <==> FillFor(kind).Some? && (FillFor(kind) == Some(CustomFill) ==> value.Func?)
      ensures outcome.Fail? ==> outcome == Fail(TypeError)
      ensures canvas.data[..] ==
        if outcome == Pass && FillFor(kind) == Some(ColourFill) then Filled(canvas.data.Length, paint)
        else if outcome == Pass && FillFor(kind) == Some(ImageFill) then Filled(canvas.data.Length, White)
        else if outcome == Pass && FillFor(kind) == Some(CustomFill) then drawn
        else Filled(canvas.data.Length, TransparentBlack)
      ensures canvas.originClean ==
        (old(canvas.originClean) && (outcome == Pass && FillFor(kind) == Some(CustomFill) ==> drawnSameOrigin))
      ensures renderEndCalls == old(renderEndCalls) +
        (if hasOnRenderEnd && outcome == Pass && FillFor(kind) != Some(InheritedMethod) then 1 else 0)
      ensures pendingImageLoads == old(pendingImageLoads) + (if FillFor(kind) == Some(ImageFill) then 1 else 0)
      ensures customFillRuns == old(customFillRuns) + (if outcome == Pass && FillFor(kind) == Some(CustomFill) then 1 else 0)
    {
      var fill := FillFor(kind);
      isDrawing := false;
      lastPoint := Unset;
      canvas.Clear();
      if fill.None? {
        // `fill[type]` is undefined: calling it throws
        return Fail(TypeError);
      }
      match fill.value {
        case ColourFill =>
          canvas.Fill(paint);
        case ImageFill =>
          // the white base fill calls the completion callback at once
          canvas.Fill(White);
          pendingImageLoads := pendingImageLoads + 1;
        case CustomFill =>
          if !value.Func? {
            // `fn.bind` is not a function
            return Fail(TypeError);
          }
          canvas.DrawImage(drawn, drawnSameOrigin);
          customFillRuns := customFillRuns + 1;
        case InheritedMethod =>
          // the inherited method ignores the completion callback
          return Pass;
      }
      if hasOnRenderEnd {
        renderEndCalls := renderEndCalls + 1;
      }
      outcome := Pass;
    }

    /**
     * The `onload` of an image fill: the browser composites the image (`composited` is the
     * buffer it leaves), which taints the canvas unless the image is from the page's own
     * origin (`sameOrigin`; no `crossOrigin` is requested), and the completion callback runs
     * a second time.
     */
    method ImageLoaded(composited: seq<Byte>, sameOrigin: bool)
      requires Valid() && 0 < pendingImageLoads && |composited| == canvas.data.Length
      modifies this`renderEndCalls, this`pendingImageLoads, canvas`originClean, canvas.data
      ensures Valid()
      ensures canvas.data[..] == composited
      ensures canvas.originClean == (old(canvas.originClean) && sameOrigin)
      ensures pendingImageLoads == old(pendingImageLoads) - 1
      ensures renderEndCalls == old(renderEndCalls) + (if hasOnRenderEnd then 1 else 0)
    {
      canvas.DrawImage(composited, sameOrigin);
      pendingImageLoads := pendingImageLoads - 1;
      if hasOnRenderEnd {
        renderEndCalls := renderEndCalls + 1;
      }
    }

    /** `getFilledInPixels()`: the floored percentage of pixels with alpha 0, or the error `getImageData` throws. */
    method GetFilledInPixels() returns (r: Result<nat>)
      requires Valid()
      ensures r == Scan(canvas.data[..], canvas.width, canvas.height, canvas.originClean)
      ensures r.Ok? ==> r.value <= 100
    {
      r := canvas.ClearedPercent();
    }

    /**
     * `getRelativePosition(e, canvas)`: `e.pageX`/`e.pageY` minus the summed offsets of the
     * canvas's offset-parent chain; without page coordinates the result is NaN.
     */
    method GetRelativePosition(e: PointerEvent, layout: Layout) returns (r: Position)
      ensures r != Unset
      ensures r == NotANumber <==> e.pageX.None? || e.pageY.None?
      ensures r.At? ==> r.p == Relative(Point(e.pageX.value, e.pageY.value), LayoutOffset(layout))
      ensures e.pageX == Some(0.0) && e.pageY.Some? ==> r.At? && r.p.x == -(LayoutOffset(layout).left as real)
    {
      var offset := ChainOffset(layout);
      if e.pageX.None? || e.pageY.None? {
        return NotANumber;
      }
      r := At(Relative(Point(e.pageX.value, e.pageY.value), offset));
    }

    /**
     * `handleStart(e)`: ignored unless enabled; otherwise set the drawing flag and the start
     * point, and register the bound move handler without capture.
     */
    method HandleStart(e: PointerEvent, layout: Layout)
      requires Valid()
      modifies this`isDrawing, this`lastPoint, this`listeners
      ensures Valid()
      ensures !old(enabled) ==> unchanged(this)
      ensures old(enabled) ==>
        && isDrawing
        && lastPoint == (if e.pageX.None? || e.pageY.None? then NotANumber
                         else At(Relative(Point(e.pageX.value, e.pageY.value), LayoutOffset(layout))))
        && listeners == old(listeners) + AddedOnStart(false)
    {
      if !enabled {
        return;
      }
      isDrawing := true;
      lastPoint := GetRelativePosition(e, layout);
      listeners := listeners + AddedOnStart(false);
    }

    /**
     * `handleMove(e)`: ignored unless drawing. Otherwise translate the event; with no last
     * point, `distanceBetween` throws; otherwise draw one stamp per natural below the
     * distance (none when either point is NaN), move the last point, and, when
     * `onScratchMove` is set, report the coverage measured AFTER the stamps (the scan of an
     * empty or tainted canvas throws at that point).
     */
    method HandleMove(e: PointerEvent, layout: Layout, seg: Segment) returns (outcome: Outcome)
      requires Valid() && seg.length >= 0.0
      modifies this`lastPoint, this`scratchReports, canvas`stamps, canvas.data
      ensures Valid()
      ensures !old(isDrawing) || old(lastPoint) == Unset ==>
        && unchanged(this) && unchanged(canvas) && unchanged(canvas.data)
      ensures !old(isDrawing) ==> outcome == Pass
      ensures old(isDrawing) ==>
        (outcome.Fail? <==> old(lastPoint) == Unset || (hasOnScratchMove && (canvas.width == 0 || canvas.height == 0 || !canvas.originClean)))
      ensures old(isDrawing) && old(lastPoint) != Unset ==>
        && var drawn := if old(lastPoint).At? && !(e.pageX.None? || e.pageY.None?)
                        then StrokePoints(old(lastPoint).p, seg) else [];
        && canvas.stamps == old(canvas.stamps) + drawn
        && canvas.data[..] == StampAll(old(canvas.data[..]), canvas.width, canvas.height, drawn)
        && lastPoint == (if e.pageX.None? || e.pageY.None? then NotANumber
                         else At(Relative(Point(e.pageX.value, e.pageY.value), LayoutOffset(layout))))
        && scratchReports == old(scratchReports) +
             (if hasOnScratchMove && outcome == Pass
              then [CoverageOf(canvas.data[..], canvas.width, canvas.height).value] else [])
    {
      if !isDrawing {
        return Pass;
      }
      var current := GetRelativePosition(e, layout);
      if lastPoint == Unset {
        // distanceBetween reads `.x` of a null last point
        return Fail(TypeError);
      }
      if lastPoint.At? && current.At? {
        canvas.Stroke(lastPoint.p, seg);
      } else {
        // a NaN distance: `i < dist` is false at once
        assert StampAll(canvas.data[..], canvas.width, canvas.height, []) == canvas.data[..];
      }
      lastPoint := current;
      if hasOnScratchMove {
        var filled := GetFilledInPixels();
        if filled.Err? {
          return Fail(filled.error);
        }
        scratchReports := scratchReports + [filled.value];
      }
      outcome := Pass;
    }

    /**
     * `handleEnd(e)`: ignored unless enabled; otherwise it clears the drawing flag and
     * tries to remove the move listeners under the unbound name, which removes nothing.
     */
    method HandleEnd()
      requires Valid()
      modifies this`isDrawing, this`listeners
      ensures Valid()
      ensures isDrawing == (old(isDrawing) && !old(enabled))
      ensures listeners == old(listeners)
    {
      if !enabled {
        return;
      }
      isDrawing := false;
      listeners := listeners - RemovedOnEnd(false);
    }
  }

  /**
   * Disabling mid-stroke makes the pointer-up a no-op, so the stroke goes on: a move after
   * the pointer-up still draws its stamps.
   */
  method DisabledMidStroke(m: Module, down: PointerEvent, move: PointerEvent, layout: Layout, seg: Segment)
    returns (outcome: Outcome)
    requires m.Valid() && m.enabled && seg.length >= 0.0
    requires down.pageX.Some? && down.pageY.Some? && move.pageX.Some? && move.pageY.Some?
    modifies m, m.canvas, m.canvas.data
    ensures m.isDrawing
    ensures m.canvas.stamps ==
      old(m.canvas.stamps) + StrokePoints(Relative(Point(down.pageX.value, down.pageY.value), LayoutOffset(layout)), seg)
  {
    m.HandleStart(down, layout);
    m.enabled := false;
    m.HandleEnd();
    outcome := m.HandleMove(move, layout, seg);
  }
}
