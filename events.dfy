/** Pointer events and the move listeners the handlers register and remove. */
module Events {
  import opened Js
  import opened Geometry

  /** One entry of `e.touches`. */
  datatype Touch = Touch(pageX: real, pageY: real)

  /**
   * A mouse or touch event. `pageX`/`pageY` are `None` where the event has no such
   * property (touch events); `touches` is empty for mouse events and for a touch list
   * with no entry, where `e.touches[0].pageX` throws alike.
   */
  datatype PointerEvent = PointerEvent(pageX: Option<real>, pageY: Option<real>, touches: seq<Touch>)

  /** Truthiness of a coordinate: `undefined` and `0` are falsy. */
  predicate TruthyCoord(c: Option<real>)
  {
    c.Some? && c.value != 0.0
  }

  /**
   * `pageX = e.pageX || e.touches[0].pageX; pageY = e.pageY || e.touches[0].pageY`:
   * each coordinate falls back to the first touch when the event's own one is falsy,
   * which includes a mouse event at page coordinate exactly 0.
   */
  function PageOrTouch(e: PointerEvent): (r: Result<Point>)
    ensures TruthyCoord(e.pageX) && TruthyCoord(e.pageY) ==> r == Ok(Point(e.pageX.value, e.pageY.value))
    ensures e.touches == [] ==> (r.Ok? <==> TruthyCoord(e.pageX) && TruthyCoord(e.pageY))
    ensures !r.Ok? ==> r == Err(TypeError)
    ensures e.touches != [] ==>
      && r.Ok?
      && r.value.x == (if TruthyCoord(e.pageX) then e.pageX.value else e.touches[0].pageX)
      && r.value.y == (if TruthyCoord(e.pageY) then e.pageY.value else e.touches[0].pageY)
    ensures e.touches == [] && e.pageX == Some(0.0) ==> r == Err(TypeError)
  {
    if TruthyCoord(e.pageX) && TruthyCoord(e.pageY) then
      Ok(Point(e.pageX.value, e.pageY.value))
    else if e.touches == [] then
      Err(TypeError)
    else
      Ok(Point(if TruthyCoord(e.pageX) then e.pageX.value else e.touches[0].pageX,
               if TruthyCoord(e.pageY) then e.pageY.value else e.touches[0].pageY))
  }

  datatype MoveEvent = MouseMove | TouchMove

  /**
   * The two function objects the module calls "the move handler": the bound copy the
   * constructor stores as `handelMove`, and the unbound prototype method `handleMove`.
   */
  datatype Handler = BoundHandelMove | PrototypeHandleMove

  /** A registration: event type, listener function and `useCapture` flag. */
  datatype Listener = Listener(event: MoveEvent, handler: Handler, capture: bool)

  /** The two registrations `handleStart` makes (`addEventListener` ignores duplicates). */
  function AddedOnStart(capture: bool): set<Listener>
  {
    {Listener(MouseMove, BoundHandelMove, capture), Listener(TouchMove, BoundHandelMove, capture)}
  }

  /** The two registrations `handleEnd` asks to remove. */
  function RemovedOnEnd(capture: bool): set<Listener>
  {
    {Listener(MouseMove, PrototypeHandleMove, capture), Listener(TouchMove, PrototypeHandleMove, capture)}
  }

  /**
   * Removing a listener only matches the same function and capture flag, so what
   * `handleEnd` removes never matches what `handleStart` added: the move listeners, once
   * added, stay registered whatever the capture flags.
   */
  lemma RemoveNeverMatches(listeners: set<Listener>, added: bool, removed: bool)
    requires forall l :: l in listeners ==> l.handler == BoundHandelMove
    ensures (listeners + AddedOnStart(added)) - RemovedOnEnd(removed) == listeners + AddedOnStart(added)
    ensures AddedOnStart(added) !! RemovedOnEnd(removed)
  {
  }
}
