/**
 * The scratch layer: a canvas whose RGBA pixel buffer the module fills, erases with the
 * brush, and scans for fully transparent pixels.
 */
module Canvas {
  import opened Js
  import opened Geometry

  type Byte = b: int | 0 <= b < 256

  /**
   * Edge length of the default brush. Its data URL decodes to a 30x30 PNG whose every
   * pixel has alpha 255, so drawing it with `destination-out` clears a 30x30 square.
   */
  const BrushSize: int := 30

  datatype Rgba = Rgba(r: Byte, g: Byte, b: Byte, a: Byte)

  const White: Rgba := Rgba(255, 255, 255, 255)

  /**
   * How `render(value)` of the two later versions tells the fill apart: a value containing
   * a dot names an image, any other value a colour.
   */
  predicate IsImageValue(value: string)
  {
    '.' in value
  }

  /** What `canvas.width = ...` leaves: every byte 0. */
  const TransparentBlack: Rgba := Rgba(0, 0, 0, 0)

  /** The alpha byte of pixel `p`: byte `p*4+3` of the buffer. */
  function Alpha(data: seq<Byte>, p: nat): Byte
    requires 4 * p + 3 < |data|
  {
    data[4 * p + 3]
  }

  /** Number of pixels among the first `n` whose alpha byte is exactly 0. */
  function ClearedCount(data: seq<Byte>, n: nat): (c: nat)
    requires 4 * n <= |data|
    ensures c <= n
  {
    if n == 0 then 0 else ClearedCount(data, n - 1) + (if Alpha(data, n - 1) == 0 then 1 else 0)
  }

  /** Only the alpha bytes count: buffers that agree on them have the same count. */
  lemma {:induction false} ClearedCountAlphaOnly(a: seq<Byte>, b: seq<Byte>, n: nat)
    requires 4 * n <= |a| && 4 * n <= |b|
    requires forall p :: 0 <= p < n ==> Alpha(a, p) == Alpha(b, p)
    ensures ClearedCount(a, n) == ClearedCount(b, n)
  {
    if n > 0 {
      ClearedCountAlphaOnly(a, b, n - 1);
    }
  }

  /** The count reaches `n` exactly when every one of the `n` pixels has alpha 0. */
  lemma {:induction false} ClearedCountFull(data: seq<Byte>, n: nat)
    requires 4 * n <= |data|
    ensures ClearedCount(data, n) == n <==> forall p :: 0 <= p < n ==> Alpha(data, p) == 0
  {
    if n > 0 {
      ClearedCountFull(data, n - 1);
    }
  }

  /** The count is 0 exactly when no pixel has alpha 0. */
  lemma {:induction false} ClearedCountNone(data: seq<Byte>, n: nat)
    requires 4 * n <= |data|
    ensures ClearedCount(data, n) == 0 <==> forall p :: 0 <= p < n ==> Alpha(data, p) != 0
  {
    if n > 0 {
      ClearedCountNone(data, n - 1);
    }
  }

  /** A buffer change that only zeroes bytes never lowers the count. */
  lemma {:induction false} ClearedCountMonotone(before: seq<Byte>, after: seq<Byte>, n: nat)
    requires |before| == |after| && 4 * n <= |before|
    requires forall k :: 0 <= k < |after| ==> after[k] == before[k] || after[k] == 0
    ensures ClearedCount(before, n) <= ClearedCount(after, n)
  {
    if n > 0 {
      ClearedCountMonotone(before, after, n - 1);
    }
  }

  /** `Math.floor(count / total * 100)`, computed exactly. */
  function Percent(count: nat, total: nat): nat
    requires 0 < total
  {
    count * 100 / total
  }

  /** Multiplying both sides of `a <= b` by the same natural keeps the order. */
  lemma MulMonotone(a: int, b: int, c: nat)
    requires a <= b
    ensures a * c <= b * c
  {
    assert b * c - a * c == (b - a) * c;
  }

  /** Euclidean division by a positive divisor, spelled out. */
  lemma DivDecompose(m: nat, n: nat) returns (q: nat, rem: nat)
    requires 0 < n
    ensures q == m / n && m == q * n + rem && rem < n
  {
    q, rem := m / n, m % n;
  }

  lemma PercentBounds(count: nat, total: nat)
    requires 0 < total && count <= total
    ensures Percent(count, total) <= 100
    ensures Percent(count, total) == 100 <==> count == total
    ensures count == 0 ==> Percent(count, total) == 0
  {
    var q, rem := DivDecompose(count * 100, total);
    if q >= 101 {
      MulMonotone(101, q, total);
      assert false;
    }
    if q == 100 {
      assert count * 100 >= 100 * total;
    }
    if count == total && q <= 99 {
      MulMonotone(q, 99, total);
      assert false;
    }
    if count == 0 && q >= 1 {
      MulMonotone(1, q, total);
      assert false;
    }
  }

  lemma PercentMonotone(c1: nat, c2: nat, total: nat)
    requires 0 < total && c1 <= c2
    ensures Percent(c1, total) <= Percent(c2, total)
  {
    var q1, r1 := DivDecompose(c1 * 100, total);
    var q2, r2 := DivDecompose(c2 * 100, total);
    if q1 > q2 {
      MulMonotone(q2 + 1, q1, total);
      assert false;
    }
  }

  /**
   * What `getScratchedPixels`/`getFilledInPixels` returns for a `width` x `height` buffer:
   * `getImageData` throws for an empty rectangle, otherwise the floored percentage of
   * pixels with alpha 0.
   */
  function CoverageOf(data: seq<Byte>, width: nat, height: nat): (r: Result<nat>)
    requires |data| == 4 * (width * height)
    ensures r.Err? <==> width == 0 || height == 0
    ensures r.Err? ==> r.error == IndexSizeError
    ensures r.Ok? ==> r.value <= 100
  {
    if width == 0 || height == 0 then
      Err(IndexSizeError)
    else
      var n := width * height;
      PercentBounds(ClearedCount(data, n), n);
      Ok(Percent(ClearedCount(data, n), n))
  }

  /**
   * What `ctx.getImageData(0, 0, width, height)` followed by the scan yields on a canvas
   * whose origin-clean flag is `originClean`: an empty rectangle throws an IndexSizeError
   * first, a tainted canvas throws a SecurityError, and otherwise the coverage is read.
   */
  function Scan(data: seq<Byte>, width: nat, height: nat, originClean: bool): (r: Result<nat>)
    requires |data| == 4 * (width * height)
    ensures r == Err(IndexSizeError) <==> width == 0 || height == 0
    ensures r == Err(SecurityError) <==> 0 < width && 0 < height && !originClean
    ensures r.Ok? <==> 0 < width && 0 < height && originClean
    ensures r.Ok? ==> r == CoverageOf(data, width, height) && r.value <= 100
  {
    if width == 0 || height == 0 then Err(IndexSizeError)
    else if !originClean then Err(SecurityError)
    else CoverageOf(data, width, height)
  }

  /** 100 exactly when every pixel is transparent; 0 when none is. */
  lemma CoverageExtremes(data: seq<Byte>, width: nat, height: nat)
    requires |data| == 4 * (width * height) && 0 < width && 0 < height
    ensures CoverageOf(data, width, height) == Ok(100) <==>
      forall p :: 0 <= p < width * height ==> Alpha(data, p) == 0
    ensures (forall p :: 0 <= p < width * height ==> Alpha(data, p) != 0) ==>
      CoverageOf(data, width, height) == Ok(0)
  {
    var n := width * height;
    PercentBounds(ClearedCount(data, n), n);
    ClearedCountFull(data, n);
    ClearedCountNone(data, n);
  }

  /** No byte other than the alpha bytes affects the coverage. */
  lemma CoverageAlphaOnly(a: seq<Byte>, b: seq<Byte>, width: nat, height: nat)
    requires |a| == 4 * (width * height) && |b| == |a|
    requires forall p :: 0 <= p < width * height ==> Alpha(a, p) == Alpha(b, p)
    ensures CoverageOf(a, width, height) == CoverageOf(b, width, height)
  {
    ClearedCountAlphaOnly(a, b, width * height);
  }

  /** Coverage never drops when a change only zeroes bytes. */
  lemma CoverageMonotone(before: seq<Byte>, after: seq<Byte>, width: nat, height: nat)
    requires |before| == 4 * (width * height) && |after| == |before|
    requires forall k :: 0 <= k < |after| ==> after[k] == before[k] || after[k] == 0
    ensures CoverageOf(before, width, height).Ok? ==>
      CoverageOf(before, width, height).value <= CoverageOf(after, width, height).value
  {
    if 0 < width && 0 < height {
      var n := width * height;
      ClearedCountMonotone(before, after, n);
      PercentMonotone(ClearedCount(before, n), ClearedCount(after, n), n);
    }
  }

  /** Byte `j` (0..3) of a pixel of colour `paint`. */
  function Channel(paint: Rgba, j: int): Byte
  {
    if j % 4 == 0 then paint.r else if j % 4 == 1 then paint.g else if j % 4 == 2 then paint.b else paint.a
  }

  /** A buffer of `len` bytes in which every pixel has colour `paint`. */
  function Filled(len: nat, paint: Rgba): seq<Byte>
  {
    seq(len, k => Channel(paint, k))
  }

  /**
   * After a fill every pixel is `paint`, so the coverage is 100 for a fully transparent
   * paint and 0 for any other.
   */
  lemma FilledCoverage(width: nat, height: nat, paint: Rgba)
    requires 0 < width && 0 < height
    ensures CoverageOf(Filled(4 * (width * height), paint), width, height) ==
      Ok(if paint.a == 0 then 100 else 0)
  {
    var data := Filled(4 * (width * height), paint);
    forall p | 0 <= p < width * height
      ensures Alpha(data, p) == paint.a
    {
      assert (4 * p + 3) % 4 == 3;
    }
    CoverageExtremes(data, width, height);
  }

  /**
   * Whether the brush drawn with its top-left corner at `at` covers the whole of the
   * pixel in column `col` and row `row`.
   */
  predicate Covers(at: Point, col: int, row: int)
  {
    && at.x <= col as real && (col + 1) as real <= at.x + BrushSize as real
    && at.y <= row as real && (row + 1) as real <= at.y + BrushSize as real
  }

  /** Whether byte `k` of a `width` x `height` buffer lies in a pixel the brush at `at` covers. */
  predicate Erases(width: nat, height: nat, at: Point, k: nat)
  {
    0 < width && (k / 4) / width < height && Covers(at, (k / 4) % width, (k / 4) / width)
  }

  /**
   * The buffer after `drawImage(brush, at.x, at.y)` with `destination-out`: every pixel
   * the opaque brush fully covers becomes transparent black; clipped at the edges.
   */
  function Stamped(data: seq<Byte>, width: nat, height: nat, at: Point): (r: seq<Byte>)
    ensures |r| == |data|
    ensures forall k :: 0 <= k < |r| ==> r[k] == data[k] || r[k] == 0
  {
    seq(|data|, k requires 0 <= k < |data| => if Erases(width, height, at, k) then 0 else data[k])
  }

  /** Pixel `row * width + col` lies in column `col` and row `row`. */
  lemma PixelIndex(width: nat, height: nat, col: nat, row: nat)
    requires col < width && row < height
    ensures row * width + col < width * height
    ensures (row * width + col) / width == row && (row * width + col) % width == col
  {
    MulMonotone(row, height - 1, width);
    var p := row * width + col;
    var q, rem := DivDecompose(p, width);
    if q < row {
      MulMonotone(q + 1, row, width);
      assert false;
    }
    if q > row {
      MulMonotone(row + 1, q, width);
      assert false;
    }
  }

  /** A stamp makes every in-bounds pixel that the brush fully covers transparent. */
  lemma StampClearsCovered(data: seq<Byte>, width: nat, height: nat, at: Point, col: nat, row: nat)
    requires |data| == 4 * (width * height) && col < width && row < height
    requires Covers(at, col, row)
    ensures 4 * (row * width + col) + 3 < |data|
    ensures Alpha(Stamped(data, width, height, at), row * width + col) == 0
  {
    PixelIndex(width, height, col, row);
    var p := row * width + col;
    assert (4 * p + 3) / 4 == p;
    assert Erases(width, height, at, 4 * p + 3);
  }

  /** A stamp is local: every byte of an in-bounds pixel the brush does not fully cover is kept. */
  lemma StampKeepsUncovered(data: seq<Byte>, width: nat, height: nat, at: Point, col: nat, row: nat)
    requires |data| == 4 * (width * height) && col < width && row < height
    requires !Covers(at, col, row)
    ensures 4 * (row * width + col) + 4 <= |data|
    ensures Stamped(data, width, height, at)[4 * (row * width + col)..4 * (row * width + col) + 4]
         == data[4 * (row * width + col)..4 * (row * width + col) + 4]
  {
    PixelIndex(width, height, col, row);
    var p := row * width + col;
    var r := Stamped(data, width, height, at);
    forall k | 4 * p <= k < 4 * p + 4
      ensures r[k] == data[k]
    {
      assert k / 4 == p;
      assert !Erases(width, height, at, k);
    }
  }

  /** The buffer after drawing the brush at each point of `ats`, in order. */
  function StampAll(data: seq<Byte>, width: nat, height: nat, ats: seq<Point>): (r: seq<Byte>)
    ensures |r| == |data|
  {
    if ats == [] then data
    else Stamped(StampAll(data, width, height, ats[..|ats| - 1]), width, height, ats[|ats| - 1])
  }

  /** Stamping only ever erases: each byte keeps its value or becomes 0. */
  lemma {:induction false} StampAllOnlyErases(data: seq<Byte>, width: nat, height: nat, ats: seq<Point>)
    ensures forall k :: 0 <= k < |data| ==>
      StampAll(data, width, height, ats)[k] == data[k] || StampAll(data, width, height, ats)[k] == 0
  {
    if ats != [] {
      StampAllOnlyErases(data, width, height, ats[..|ats| - 1]);
    }
  }

  /** Scratching never lowers the coverage. */
  lemma StampAllCoverageMonotone(data: seq<Byte>, width: nat, height: nat, ats: seq<Point>)
    requires |data| == 4 * (width * height)
    ensures CoverageOf(data, width, height).Ok? ==>
      CoverageOf(data, width, height).value <= CoverageOf(StampAll(data, width, height, ats), width, height).value
  {
    StampAllOnlyErases(data, width, height, ats);
    CoverageMonotone(data, StampAll(data, width, height, ats), width, height);
  }

  /** The canvas and its 2D context: the pixel buffer and the log of brush positions drawn. */
  class Surface {
    const width: nat
    const height: nat
    const data: array<Byte>
    /** Every position the brush has been drawn at, in order. */
    var stamps: seq<Point>
    /**
     * The canvas's origin-clean flag: drawing a cross-origin image clears it for good
     * (resizing the canvas does not set it again), and `getImageData` then throws.
     */
    var originClean: bool

    ghost predicate Valid()
    {
      data.Length == 4 * (width * height)
    }

    /** A fresh canvas of the container's size: fully transparent. */
    constructor (w: nat, h: nat)
      ensures Valid() && width == w && height == h
      ensures fresh(data) && data[..] == Filled(4 * (w * h), TransparentBlack)
      ensures stamps == [] && originClean
    {
      width, height := w, h;
      data := new Byte[4 * (w * h)](_ => 0);
      stamps := [];
      originClean := true;
      new;
      assert data[..] == Filled(4 * (w * h), TransparentBlack);
    }

    /** `canvas.width = ...; canvas.height = ...`: resetting the size clears every pixel. */
    method Clear()
      requires Valid()
      modifies data
      ensures data[..] == Filled(data.Length, TransparentBlack)
    {
      forall k | 0 <= k < data.Length {
        data[k] := 0;
      }
    }

    /**
     * `ctx.rect(0, 0, w, h); ctx.fillStyle = paint; ctx.fill()` on a canvas that was just
     * cleared: every pixel becomes `paint`.
     */
    method Fill(paint: Rgba)
      requires Valid()
      modifies data
      ensures data[..] == Filled(data.Length, paint)
    {
      forall k | 0 <= k < data.Length {
        data[k] := Channel(paint, k);
      }
    }

    /**
     * Drawing an image over the whole canvas (`ctx.drawImage(image, 0, 0)`), or any other
     * drawing that leaves the buffer `pixels`; an image not from the page's own origin
     * taints the canvas.
     */
    method DrawImage(pixels: seq<Byte>, sameOrigin: bool)
      requires Valid() && |pixels| == data.Length
      modifies this`originClean, data
      ensures data[..] == pixels
      ensures originClean == (old(originClean) && sameOrigin)
    {
      forall k | 0 <= k < data.Length {
        data[k] := pixels[k];
      }
      originClean := originClean && sameOrigin;
    }

    /** `ctx.globalCompositeOperation = 'destination-out'; ctx.drawImage(brush, at.x, at.y)`. */
    method Stamp(at: Point)
      requires Valid()
      modifies this`stamps, data
      ensures stamps == old(stamps) + [at]
      ensures data[..] == Stamped(old(data[..]), width, height, at)
    {
      forall k | 0 <= k < data.Length && Erases(width, height, at, k) {
        data[k] := 0;
      }
      stamps := stamps + [at];
    }

    /**
     * The stamping loop of `handleMove`: `for (i = 0; i < dist; i++)` draws the brush at
     * `from + i * (sin, cos) - 25`.
     */
    method Stroke(from: Point, seg: Segment)
      requires Valid() && seg.length >= 0.0
      modifies this`stamps, data
      ensures stamps == old(stamps) + StrokePoints(from, seg)
      ensures data[..] == StampAll(old(data[..]), width, height, StrokePoints(from, seg))
    {
      ghost var ps := StrokePoints(from, seg);
      var i: nat := 0;
      while (i as real) < seg.length
        invariant i <= |ps|
        invariant stamps == old(stamps) + ps[..i]
        invariant data[..] == StampAll(old(data[..]), width, height, ps[..i])
        decreases |ps| - i
      {
        Stamp(StampAt(from, seg, i));
        assert ps[..i + 1] == ps[..i] + [ps[i]];
        assert ps[..i + 1][..i] == ps[..i];
        i := i + 1;
      }
      assert ps[..i] == ps;
    }

    /**
     * The scan of `getScratchedPixels`/`getFilledInPixels`: count the pixels whose alpha
     * byte is 0 and return the floored percentage; `getImageData` throws first on an empty
     * or a tainted canvas.
     */
    method ClearedPercent() returns (r: Result<nat>)
      requires Valid()
      ensures r == Scan(data[..], width, height, originClean)
    {
      if width == 0 || height == 0 {
        return Err(IndexSizeError);
      }
      if !originClean {
        return Err(SecurityError);
      }
      var numPixels := width * height;
      assert data.Length == 4 * numPixels;
      var count := 0;
      var i := 0;
      while i < numPixels
        invariant 0 <= i <= numPixels
        invariant count == ClearedCount(data[..], i)
      {
        if data[i * 4 + 3] == 0 {
          count := count + 1;
        }
        i := i + 1;
      }
      r := Ok(Percent(count, numPixels));
    }
  }
}
