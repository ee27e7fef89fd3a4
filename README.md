# Scratchie: a Dafny model of the scratch-card module

Scratchie covers a container element with a canvas. The canvas is painted with a colour or an
image. The user "scratches" it away with a mouse or finger, and the module reports how much of
the canvas has been cleared. The repository holds three generations of the same module:

- `scratchcard.js`, the first version. `render(type, value)` takes the fill type explicitly and
  offers a `custom` fill. Positions come from `e.pageX`/`e.pageY` only.
- `scratchie.js`, the second version. The fill type is guessed from the value: a value with a
  dot is an image URL. Positions fall back to the first touch.
- `src/Scratchie.js`, the current ES-class version. It takes a `disabled` option. It reports
  the coverage to `onScratch` as measured before the stroke is drawn.

The model is split by concern:

- `js.dfy` (`Js`): JavaScript values, truthiness, property lookup, and errors. A thrown
  exception is modelled as a returned `Outcome`/`Result`. State changed before the throw
  stays changed.
- `geometry.dfy` (`Geometry`):
  - the offset-parent walk, as a loop proved against a fold of the offsets;
  - the translation of page coordinates;
  - the number of brush stamps for a stroke, and where they land.
- `events.dfy` (`Events`):
  - reading page coordinates from an event, with the touch fallback of the two later
    versions;
  - the move-listener registrations, which are added under one function object and removed
    under another.
- `canvas.dfy` (`Canvas`): the RGBA pixel buffer as a `Surface` class over an `array<Byte>`.
  It has:
  - `Clear`, `Fill` and the `destination-out` brush `Stamp`;
  - a loop over many stamps (`Stroke`);
  - the cleared-pixel scan (`ClearedPercent`), proved against the specification function
    `CoverageOf`, which is itself proved to lie in 0..100, to be 100 exactly when every pixel
    is clear, and to never fall while scratching.
- `objects.dfy` (`Objects`): the in-place `extend` of the two older versions and the
  "last source wins" property of the merge.
- `scratchie.dfy`, `scratchie_legacy.dfy`, `scratchcard.dfy`: one `Module` class per version.
  Each has the version's own flags, guards, error points, listener registrations and
  callback reports. Counters record how often `onRenderEnd` ran. Sequences record the values
  passed to `onScratch` / `onScratchMove`.

Several behaviours of the code differ from what its documentation suggests. The model follows
the code:

- **Number of stamps.** A stroke of length `d` draws one stamp for each natural `i < d`, which
  is `ceil(d)` stamps. That is no stamp at all for `d = 0`, and `floor(d)` stamps for a whole
  `d`. It is not `floor(d) + 1`. See `Geometry.StampCountVersusFloor`.
- **Empty container.** A container of width or height 0 makes `getImageData` throw an
  `IndexSizeError`. The coverage is therefore an error, not `NaN`.
- **Cross-origin images.** Image fills are loaded without `crossOrigin`. An image from another
  origin therefore taints the canvas, and every later `getImageData` throws a
  `SecurityError`. In `src/Scratchie.js` that throw comes before the stamp loop, so no later
  move erases anything. The older versions draw the stroke and then throw at the report.
- **`handleEnd` in `src/Scratchie.js`.** It tests `this.disabled`, a field nothing assigns, so
  it is never skipped. The two older versions skip it while disabled, which lets a stroke go
  on after the pointer-up (`Scratchcard.DisabledMidStroke`).
- **Move listeners.** They are registered as the bound `handelMove` but removed as the unbound
  prototype `handleMove`, so they are never removed. In `src/Scratchie.js` the capture flags
  differ as well. A move after a pointer-up is ignored only because the drawing flag is off.
- **Stale coverage in `src/Scratchie.js`.** It measures the coverage before drawing the
  stamps, so the reported value lags the canvas by one move
  (`Scratchie.StaleReportExample`). The older versions measure after drawing.
- **Shared options.** The older versions merge the options into the module-wide `defaults`
  object in place. Every instance shares that object, and options leak from one instance to
  the next.
- **Touch events in `scratchcard.js`.** A touch event has no `pageX`, so the point is `NaN`
  and no stamp is drawn.
- **Unknown fill type in `scratchcard.js`.** `render` looks the fill type up on a plain
  object, so a name such as `toString` finds an inherited `Object.prototype` method. That
  method fills nothing and never calls back. Any other unknown type throws.

## Model

| member | source | states |
|---|---|---|
| Geometry.TotalAppend | scratchie.js:178-184 | the summed offsets of a chain split into an inner and an outer part are the sum of the two parts' offsets |
| Geometry.ChainOffset | src/Scratchie.js:145-151 | the offset-parent loop ends with exactly the summed offsets of the chain, or zero when the canvas has no `offsetParent` property |
| Geometry.StampCount | src/Scratchie.js:186 | the loop `for (i = 0; i < dist; i++)` runs `n` times, where `n` is the least natural not below `dist` |
| Geometry.StampIndexIff | scratchie.js:218 | index `i` is visited by the stamp loop exactly when `i < dist` |
| Geometry.StampCountVersusFloor | scratchcard.js:190 | the stamp count is 0 exactly when the distance is 0; it is `floor(dist) + 1` exactly when the distance is not whole, and `floor(dist)` when it is |
| Geometry.StrokeShape | src/Scratchie.js:186-191 | a stroke has `StampCount(dist)` stamps, none exactly when `dist` is 0; the first is 25 up and left of the last point, and each next one is displaced by `(sin, cos)` |
| Events.PageOrTouch | scratchie.js:187-188 | truthy page coordinates are used as they are; each falsy one falls back to the first touch on its own; with no touches a falsy coordinate throws a TypeError, so a page coordinate of 0 cannot be read |
| Events.RemoveNeverMatches | src/Scratchie.js:204-205 | removing the unbound handler leaves every registration made with the bound handler in place, whatever the capture flags |
| Canvas.ClearedCount | src/Scratchie.js:124-133 | the count of pixels with alpha 0 among the first `n` is at most `n` |
| Canvas.ClearedCountAlphaOnly | src/Scratchie.js:128-133 | the count depends only on the alpha bytes of the buffer |
| Canvas.ClearedCountFull | scratchie.js:159-164 | the count is `n` exactly when every one of the first `n` pixels has alpha 0 |
| Canvas.ClearedCountNone | scratchcard.js:136-141 | the count is 0 exactly when none of the first `n` pixels has alpha 0 |
| Canvas.ClearedCountMonotone | src/Scratchie.js:189-190 | a buffer that only clears alpha bytes never has fewer cleared pixels |
| Canvas.PercentBounds | src/Scratchie.js:135 | the floored percentage is at most 100, is 100 exactly when every pixel is cleared, and is 0 when none is |
| Canvas.PercentMonotone | scratchie.js:166 | more cleared pixels never give a smaller percentage |
| Canvas.CoverageOf | src/Scratchie.js:123-135 | the coverage of a buffer is an IndexSizeError exactly when the canvas is empty, and a percentage of at most 100 otherwise |
| Canvas.Scan | src/Scratchie.js:117-122 | reading the pixels back throws an IndexSizeError exactly when the canvas is empty, and otherwise a SecurityError exactly when the canvas is tainted; it succeeds exactly on a non-empty untainted canvas, with the coverage |
| Canvas.CoverageExtremes | scratchie.js:152-166 | on a non-empty canvas the coverage is 100 exactly when every pixel is transparent, and 0 when none is (the converse fails: below 1% cleared also floors to 0) |
| Canvas.CoverageAlphaOnly | scratchcard.js:129-143 | buffers with the same alpha bytes have the same coverage |
| Canvas.CoverageMonotone | scratchcard.js:190-200 | a buffer that only clears alpha bytes never reports a lower coverage |
| Canvas.FilledCoverage | src/Scratchie.js:86-92 | right after a fill, the coverage is 0 for a colour with any alpha above 0 and 100 for a colour with alpha 0 |
| Canvas.Stamped | src/Scratchie.js:189-190 | a `destination-out` stamp keeps the buffer's length and either keeps or zeroes each byte |
| Canvas.PixelIndex | src/Scratchie.js:128-130 | pixel `row * width + col` of the scanned buffer lies inside the canvas, in column `col` and row `row` |
| Canvas.StampClearsCovered | src/Scratchie.js:189-190 | every in-bounds pixel the 30x30 brush fully covers is transparent after the stamp |
| Canvas.StampKeepsUncovered | src/Scratchie.js:189-190 | a stamp is local: every byte of an in-bounds pixel the brush does not fully cover keeps its value |
| Canvas.StampAll | src/Scratchie.js:186-191 | the buffer after stamping a stroke's points one after another has the buffer's length |
| Canvas.StampAllOnlyErases | scratchie.js:218-223 | a whole stroke keeps the buffer's length and only zeroes bytes |
| Canvas.StampAllCoverageMonotone | scratchcard.js:190-195 | drawing a stroke never lowers the coverage |
| Canvas.Surface.constructor | src/Scratchie.js:35-38 | a new canvas of the container's size is transparent black |
| Canvas.Surface.Clear | src/Scratchie.js:83-84 | resizing the canvas makes every byte 0 and changes nothing else |
| Canvas.Surface.Fill | src/Scratchie.js:87-90 | filling the whole canvas sets every pixel to the paint |
| Canvas.Surface.DrawImage | src/Scratchie.js:99-101 | drawing an image leaves the composited buffer, and the canvas stays untainted only if it was untainted and the image is from the page's origin |
| Canvas.Surface.Stamp | src/Scratchie.js:189-190 | one brush stamp leaves the buffer equal to `Stamped` of the old buffer and records the stamp position |
| Canvas.Surface.Stroke | src/Scratchie.js:186-191 | the stamp loop draws exactly the stroke's points, in order, and leaves the buffer equal to stamping them all |
| Canvas.Surface.ClearedPercent | src/Scratchie.js:116-136 | the counting loop returns exactly `Scan` of the current buffer: the coverage, or the IndexSizeError or SecurityError that `getImageData` throws |
| Objects.MergedLastWins | scratchie.js:11-22 | after the merge a key is present exactly when the target or a source had it; a key no source has keeps its value; otherwise the last source with the key wins |
| Objects.Extend | scratchcard.js:11-22 | `extend` overwrites the target object in place with the merge of the sources and returns that same object |
| Scratchie.Module.constructor | src/Scratchie.js:21-48 | the disabled flag and the callbacks come from the options as given; the canvas has the container's size and is transparent and untainted; nothing is scratching and no move listener is registered |
| Scratchie.Module.Render | src/Scratchie.js:74-114 | a missing value throws before any change; otherwise the stroke is reset and the canvas is cleared and filled with the colour or with white for an image; `onRenderEnd` runs once, and one image load becomes pending |
| Scratchie.Module.ImageLoaded | src/Scratchie.js:99-102 | a loaded image leaves the composited buffer, taints the canvas when it is from another origin, and runs `onRenderEnd` once more |
| Scratchie.Module.GetScratchedPixels | src/Scratchie.js:116-136 | the result is the coverage of the current buffer, at most 100; or an IndexSizeError on an empty canvas, or a SecurityError on a tainted one |
| Scratchie.Module.GetRelativePosition | src/Scratchie.js:139-160 | the position is the event's page (or touch) point minus the chain offset, and a TypeError exactly when the event has no usable coordinates |
| Scratchie.Module.HandleStart | src/Scratchie.js:162-170 | a disabled instance ignores the event; otherwise scratching starts even when the translation then throws, and on success the last point is set and the bound move handler is registered with capture |
| Scratchie.Module.HandleMove | src/Scratchie.js:172-198 | a move draws the stroke from the last point, moves the last point, and reports the coverage from BEFORE the stroke; it fails, changing nothing, exactly when the event, a missing last point, an empty canvas or a tainted canvas makes the source throw |
| Scratchie.Module.HandleEnd | src/Scratchie.js:200-206 | scratching always stops, even while disabled, and the registered move listeners stay |
| Scratchie.MoveAfterEnd | src/Scratchie.js:172-173 | after a pointer-up a move changes nothing, although its listener is still registered |
| Scratchie.DisabledStartThenMove | src/Scratchie.js:162-163 | on a disabled instance a pointer-down followed by a move changes nothing |
| Scratchie.UnitCanvasStroke | src/Scratchie.js:186-191 | on a 1x1 white canvas, a stroke of length 1 from (25, 25) takes the coverage from 0 to 100 |
| Scratchie.StaleReportExample | src/Scratchie.js:181-196 | a 1x1 instance rendered white, pressed and moved by 1 pixel, reports 0 to `onScratch` while its canvas is at coverage 100 |
| ScratchieLegacy.Module.constructor | scratchie.js:61-79 | the options are merged into the shared `defaults` object in place and the instance keeps that very object; the callbacks are read from the merge; the canvas has the container's size and is transparent and untainted |
| ScratchieLegacy.Module.Render | scratchie.js:111-150 | a missing value throws before any change; otherwise the stroke is reset and the canvas is cleared and filled with the colour or with white for an image; `onRenderEnd` runs once, and one image load becomes pending |
| ScratchieLegacy.Module.ImageLoaded | scratchie.js:135-138 | a loaded image leaves the composited buffer, taints the canvas when it is from another origin, and runs `onRenderEnd` once more |
| ScratchieLegacy.Module.GetFilledInPixels | scratchie.js:152-167 | the result is the coverage of the current buffer, at most 100; or an IndexSizeError on an empty canvas, or a SecurityError on a tainted one |
| ScratchieLegacy.Module.GetRelativePosition | scratchie.js:170-195 | the position is the event's page (or touch) point minus the chain offset, and a TypeError exactly when the event has no usable coordinates |
| ScratchieLegacy.Module.HandleStart | scratchie.js:197-205 | a disabled instance ignores the event; otherwise drawing starts even when the translation then throws, and on success the last point is set and the bound move handler is registered without capture |
| ScratchieLegacy.Module.HandleMove | scratchie.js:207-230 | a move draws the stroke and moves the last point, then reports the coverage from AFTER the stroke when `onScratchMove` is set; on an empty or tainted canvas that report throws after the stroke is drawn |
| ScratchieLegacy.Module.HandleEnd | scratchie.js:232-239 | drawing stops only when enabled, and the registered move listeners stay |
| ScratchieLegacy.BuildInstances | scratchie.js:49-63 | building instances one after another over one `defaults` object gives instances that all share it, and each option holds the value of the last options object that set it |
| ScratchieLegacy.TwoInstances | scratchie.js:61-70 | two instances share one options object, and the second inherits the first's `onRenderEnd` when it gives none |
| Scratchcard.FillFor | scratchcard.js:85-122 | a falsy type means `color`; `image` and `custom` select their fills; the name of an inherited `Object.prototype` method finds that method; every other type finds no function |
| Scratchcard.Module.constructor | scratchcard.js:47-65 | the options are merged into the shared `defaults` object in place and the instance keeps that very object; the callbacks are read from the merge; the canvas has the container's size and is transparent and untainted |
| Scratchcard.Module.Render | scratchcard.js:84-127 | the stroke is reset and the canvas cleared, then the fill type decides: a colour; white plus a pending image; a custom function that runs, leaves the buffer it drew (tainting the canvas if it drew from another origin) and calls back; a TypeError for a custom value that is not a function or for a type with no fill; or an inherited method that fills nothing and never calls back |
| Scratchcard.Module.ImageLoaded | scratchcard.js:108-111 | a loaded image leaves the composited buffer, taints the canvas when it is from another origin, and runs `onRenderEnd` once more |
| Scratchcard.Module.GetFilledInPixels | scratchcard.js:129-144 | the result is the coverage of the current buffer, at most 100; or an IndexSizeError on an empty canvas, or a SecurityError on a tainted one |
| Scratchcard.Module.GetRelativePosition | scratchcard.js:147-167 | the position is the page point minus the chain offset; it is NaN exactly when the event lacks a page coordinate; a page x of 0 is read as 0 |
| Scratchcard.Module.HandleStart | scratchcard.js:169-177 | a disabled instance ignores the event; otherwise drawing starts, the last point is set (NaN for a touch), and the bound move handler is registered without capture |
| Scratchcard.Module.HandleMove | scratchcard.js:179-202 | with no last point the move throws and changes nothing; otherwise it draws the stroke only when both points are numbers, moves the last point, and reports the coverage from AFTER the stroke, which throws on an empty or tainted canvas |
| Scratchcard.Module.HandleEnd | scratchcard.js:204-211 | drawing stops only when enabled, and the registered move listeners stay |
| Scratchcard.DisabledMidStroke | scratchcard.js:204-207 | after disabling mid-stroke, a pointer-up does not stop drawing and the next move still draws its stamps |

## Left out

- DOM work is not modelled: element lookup, canvas creation and insertion, class names,
  identifiers, the instance list, the injected style sheet, and the module wrappers that
  build one instance per matched element. None of it affects the scratch state.
- `Math.sqrt`, `Math.atan2`, `Math.sin` and `Math.cos` are not computed. Each move takes the
  distance and the direction's sine and cosine as a `Segment` input.
- Floating-point arithmetic is not modelled. Coordinates are exact reals. The percentage is
  the exact `floor(count * 100 / total)`, whereas in doubles `count / total * 100` can land
  just below a whole number (29 of 100 pixels gives 28).
- Canvas.Stamped: a pixel the brush covers only partly is left unchanged. Anti-aliasing and
  resampling at fractional positions are not modelled. The default brush image is a fully
  opaque 30x30 square.
- Colour parsing is not modelled. `render` takes the parsed colour as `paint`. A translucent
  colour is composited only onto the cleared canvas, which is the only case the source
  produces.
- The pixels of a loaded image are not modelled. `ImageLoaded` takes the composited buffer,
  and the asynchronous timing of `onload` is left to the caller.
- The cache-busting URL suffix is not modelled, because it only affects image loading.
- Scratchcard.Module.Render: what a `custom` fill function draws is an input (`drawn`, and
  whether it drew only same-origin images), not computed. Its calls on the context, its side
  effects on the module, and a throw from inside it are not modelled. The model records that
  it ran.
- The `brush` option is not modelled. Every stamp erases the default brush, an opaque 30x30
  square (`BrushSize`). A custom brush of another size or shape is not modelled. Neither is a
  brush URL that fails to load, on which `drawImage` throws.
- The compositing mode at image load is not modelled. A move before the image has loaded
  leaves `globalCompositeOperation` at `destination-out` until the next `render`, so the
  `onload` `drawImage` erases instead of painting. `ImageLoaded` takes whatever buffer the
  browser leaves as `composited`, and does not derive it.
- A `NaN` page coordinate in the two later versions is not modelled; those coordinates are
  present or absent. In `scratchcard.js` a point with only one coordinate missing is treated
  as wholly `NaN`, which draws the same nothing.
- What the callbacks themselves do is not modelled. The model records when `onRenderEnd`
  runs and which values `onScratch`/`onScratchMove` receive.
- `e.preventDefault()` is not modelled. Event dispatch itself is not modelled either: the
  handlers are called directly, and registrations are recorded as sets.
- `extend` is modelled for own enumerable properties only, which is all its loop copies.
  Property order is not modelled.
- Scratchie.Module.constructor: requires every truthy callback option to be a function. With
  a truthy non-function, `.bind` throws in the constructor, and that throw is not modelled.
  The options are always a map. A call with no options object at all throws a TypeError
  when the constructor destructures it, and that throw is not modelled either.
- ScratchieLegacy.Module.constructor: requires every truthy callback option in the merged
  options to be a function. Otherwise `.bind` throws, and that throw is not modelled. A
  missing options object is a map with no keys, as `extend` copies nothing from it.
- Scratchcard.Module.constructor: requires every truthy callback option in the merged options
  to be a function. Otherwise `.bind` throws, and that throw is not modelled. A missing
  options object is a map with no keys, as `extend` copies nothing from it.
- The canvas's default 300x150 size before the first `render` is not modelled. The surface has
  the container's size from the start and is transparent.
- Teardown and re-render bookkeeping (a destroy operation, a render generation counter) do not
  exist in this source and are not modelled.
