/** The geometry of module/crop.js: mapping between canvas and image space,
    the eight resize handles and their hit test, the per-handle edit rules,
    the final clamp, the seeded rectangle and the source area of a crop.
    The crop rectangle lives in image space (the working bitmap of
    currentW x currentH pixels); the canvas is only a letterboxed view of it. */
module Crop {
  import opened Numeric
  import opened Wrappers
  import Canvas

  datatype Point = Point(x: real, y: real)

  /** A crop rectangle in image space: top-left corner and size. */
  datatype Rect = Rect(x: real, y: real, w: real, h: real)

  /** The drag modes: the eight handles, and moving the whole rectangle. */
  datatype Handle = NW | N | NE | E | SE | S | SW | W | Move

  /** A handle's position on the canvas. */
  datatype HandlePoint = HandlePoint(name: Handle, x: real, y: real)

  /** What the coordinate mapping reads: whether an image is loaded, the working
      image size and the canvas size. */
  datatype View = View(loaded: bool, currentW: nat, currentH: nat, canvasW: nat, canvasH: nat)

  /** A loaded image has a size, so image points can be placed on the canvas. */
  predicate HasImage(v: View)
  {
    v.loaded ==> v.currentW >= 1 && v.currentH >= 1
  }

  /** The canvas has an area too, so canvas points can be mapped back. */
  predicate HasSurface(v: View)
  {
    HasImage(v) && (v.loaded ==> v.canvasW >= 1 && v.canvasH >= 1)
  }

  function Letterbox(v: View): Canvas.Placement
    requires v.currentW >= 1 && v.currentH >= 1
  {
    Canvas.ImagePosition(v.currentW, v.currentH, v.canvasW, v.canvasH)
  }

  // ---------------------------------------------------------------------------
  // Coordinate mapping

  /** One axis of canvasToImageCoords: remove the offset, undo the scale, clamp into [0, size]. */
  function AxisToImage(t: real, offset: real, scale: real, size: real): real
    requires scale > 0.0
  {
    Clamp((t - offset) / scale, 0.0, size)
  }

  /** One axis of imageToCanvasCoords. */
  function AxisToCanvas(t: real, offset: real, scale: real): real
  {
    t * scale + offset
  }

  /** Image space to canvas space under a given placement. */
  function PlaceOnCanvas(pos: Canvas.Placement, q: Point): Point
  {
    Point(AxisToCanvas(q.x, pos.x, pos.scale), AxisToCanvas(q.y, pos.y, pos.scale))
  }

  /** Canvas space to an image of W x H under a given placement, clamped into the image. */
  function PlaceInImage(pos: Canvas.Placement, W: real, H: real, p: Point): Point
    requires pos.scale > 0.0
  {
    Point(AxisToImage(p.x, pos.x, pos.scale, W), AxisToImage(p.y, pos.y, pos.scale, H))
  }

  /** canvasToImageCoords: undo the letterbox, then clamp into the image. */
  function CanvasToImage(v: View, p: Point): (q: Point)
    requires HasSurface(v)
    ensures v.loaded ==> 0.0 <= q.x <= v.currentW as real && 0.0 <= q.y <= v.currentH as real
    ensures !v.loaded ==> q == p
  {
    if !v.loaded then p
    else PlaceInImage(Letterbox(v), v.currentW as real, v.currentH as real, p)
  }

  /** imageToCanvasCoords: the letterbox itself, unclamped. */
  function ImageToCanvas(v: View, q: Point): (p: Point)
    requires HasImage(v)
    ensures !v.loaded ==> p == q
  {
    if !v.loaded then q
    else PlaceOnCanvas(Letterbox(v), q)
  }

  /** Points of the image land on the canvas surface. */
  lemma {:induction false} ImagePointsLandOnCanvas(v: View, q: Point)
    requires HasImage(v) && v.loaded
    requires 0.0 <= q.x <= v.currentW as real && 0.0 <= q.y <= v.currentH as real
    ensures var p := ImageToCanvas(v, q);
            0.0 <= p.x <= v.canvasW as real && 0.0 <= p.y <= v.canvasH as real
  {
    var pos := Letterbox(v);
    AxisLands(q.x, v.currentW as real, pos.scale, pos.x, v.canvasW as real);
    AxisLands(q.y, v.currentH as real, pos.scale, pos.y, v.canvasH as real);
  }

  lemma AxisLands(t: real, size: real, scale: real, offset: real, room: real)
    requires scale >= 0.0 && 0.0 <= t <= size && 0.0 <= offset && offset == room - (offset + size * scale)
    ensures 0.0 <= AxisToCanvas(t, offset, scale) <= room
  {
    assert t * scale <= size * scale by {
      assert (size - t) * scale >= 0.0;
    }
    assert t * scale >= 0.0;
  }

  /** The canvas points on which the image is drawn. */
  predicate OnImage(v: View, p: Point)
    requires v.currentW >= 1 && v.currentH >= 1
  {
    OnImageAt(Letterbox(v), v.currentW as real, v.currentH as real, p)
  }

  /** The canvas points covered by an image of W x H under a given placement. */
  predicate OnImageAt(pos: Canvas.Placement, W: real, H: real, p: Point)
  {
    pos.x <= p.x <= pos.x + W * pos.scale && pos.y <= p.y <= pos.y + H * pos.scale
  }

  /** Mapping a canvas point on the drawn image to image space and back gives it back. */
  lemma {:induction false} CanvasRoundTrip(v: View, p: Point)
    requires HasSurface(v) && v.loaded && OnImage(v, p)
    ensures ImageToCanvas(v, CanvasToImage(v, p)) == p
  {
    var pos := Letterbox(v);
    UnscaleInside(p.x, pos.x, v.currentW as real, pos.scale);
    UnscaleInside(p.y, pos.y, v.currentH as real, pos.scale);
  }

  lemma UnscaleInside(t: real, offset: real, size: real, scale: real)
    requires scale > 0.0 && offset <= t <= offset + size * scale
    ensures AxisToCanvas(AxisToImage(t, offset, scale, size), offset, scale) == t
  {
    var d := t - offset;
    assert d / scale <= size by {
      assert size * scale / scale == size;
    }
    assert d / scale * scale == d;
  }

  /** Mapping an image point to the canvas and back gives it back. */
  lemma {:induction false} ImageRoundTrip(v: View, q: Point)
    requires HasSurface(v) && v.loaded
    requires 0.0 <= q.x <= v.currentW as real && 0.0 <= q.y <= v.currentH as real
    ensures CanvasToImage(v, ImageToCanvas(v, q)) == q
  {
    var pos := Letterbox(v);
    AxisRoundTrip(q.x, v.currentW as real, pos.scale, pos.x);
    AxisRoundTrip(q.y, v.currentH as real, pos.scale, pos.y);
  }

  lemma AxisRoundTrip(t: real, size: real, scale: real, offset: real)
    requires scale > 0.0 && 0.0 <= t <= size
    ensures AxisToImage(AxisToCanvas(t, offset, scale), offset, scale, size) == t
  {
    assert t * scale + offset - offset == t * scale;
    assert t * scale / scale == t;
  }

  /** An 800x600 image on a 400x300 canvas: the canvas point (100,100) is the image point (200,200). */
  lemma HalfSizeClick()
    ensures CanvasToImage(View(true, 800, 600, 400, 300), Point(100.0, 100.0)) == Point(200.0, 200.0)
  {
    Canvas.HalfSizeExample();
  }

  // ---------------------------------------------------------------------------
  // Handles and hit testing

  /** The fixed order in which handles are produced and tested. */
  const HandleOrder: seq<Handle> := [NW, N, NE, E, SE, S, SW, W]

  /** getHandles: corners and edge midpoints of the rectangle, on the canvas. */
  function Handles(v: View, r: Rect): (hs: seq<HandlePoint>)
    requires HasImage(v)
    ensures |hs| == |HandleOrder|
    ensures forall i :: 0 <= i < |hs| ==> hs[i].name == HandleOrder[i]
  {
    var c1 := ImageToCanvas(v, Point(r.x, r.y));
    var c2 := ImageToCanvas(v, Point(r.x + r.w, r.y + r.h));
    var cx, cy := (c1.x + c2.x) / 2.0, (c1.y + c2.y) / 2.0;
    [ HandlePoint(NW, c1.x, c1.y), HandlePoint(N, cx, c1.y),
      HandlePoint(NE, c2.x, c1.y), HandlePoint(E, c2.x, cy),
      HandlePoint(SE, c2.x, c2.y), HandlePoint(S, cx, c2.y),
      HandlePoint(SW, c1.x, c2.y), HandlePoint(W, c1.x, cy) ]
  }

  /** Where a handle sits on the rectangle in image space (the centre for Move). */
  function Anchor(r: Rect, h: Handle): Point
  {
    var mx, my := r.x + r.w / 2.0, r.y + r.h / 2.0;
    match h
    case NW => Point(r.x, r.y)
    case N => Point(mx, r.y)
    case NE => Point(r.x + r.w, r.y)
    case E => Point(r.x + r.w, my)
    case SE => Point(r.x + r.w, r.y + r.h)
    case S => Point(mx, r.y + r.h)
    case SW => Point(r.x, r.y + r.h)
    case W => Point(r.x, my)
    case Move => Point(mx, my)
  }

  /** Each canvas handle is the image of its corner or edge midpoint. */
  lemma {:induction false} HandlesSitOnAnchors(v: View, r: Rect, i: nat)
    requires HasImage(v) && i < |HandleOrder|
    ensures var hp := Handles(v, r)[i];
            Point(hp.x, hp.y) == ImageToCanvas(v, Anchor(r, HandleOrder[i]))
  {
    if v.loaded {
      PlacedAnchor(Letterbox(v), r, HandleOrder[i]);
    }
  }

  /** The canvas handle positions, for a given placement. */
  lemma PlacedAnchor(pos: Canvas.Placement, r: Rect, h: Handle)
    ensures var c1 := PlaceOnCanvas(pos, Point(r.x, r.y));
            var c2 := PlaceOnCanvas(pos, Point(r.x + r.w, r.y + r.h));
            var cx, cy := (c1.x + c2.x) / 2.0, (c1.y + c2.y) / 2.0;
            PlaceOnCanvas(pos, Anchor(r, h)) ==
              match h
              case NW => Point(c1.x, c1.y)
              case N => Point(cx, c1.y)
              case NE => Point(c2.x, c1.y)
              case E => Point(c2.x, cy)
              case SE => Point(c2.x, c2.y)
              case S => Point(cx, c2.y)
              case SW => Point(c1.x, c2.y)
              case W => Point(c1.x, cy)
              case Move => Point(cx, cy)
  {
    var c1 := PlaceOnCanvas(pos, Point(r.x, r.y));
    var c2 := PlaceOnCanvas(pos, Point(r.x + r.w, r.y + r.h));
    var m := PlaceOnCanvas(pos, Point(r.x + r.w / 2.0, r.y + r.h / 2.0));
    MidpointCommutes(r.x, r.w, pos.scale, pos.x);
    MidpointCommutes(r.y, r.h, pos.scale, pos.y);
    assert (c1.x + c2.x) / 2.0 == m.x && (c1.y + c2.y) / 2.0 == m.y;
  }

  lemma MidpointCommutes(a: real, d: real, scale: real, offset: real)
    ensures (a * scale + offset + ((a + d) * scale + offset)) / 2.0 == (a + d / 2.0) * scale + offset
  {
  }

  const HitRadius: real := 8.0

  /** Math.hypot(p - h) <= 8, compared squared. */
  predicate Within(h: HandlePoint, p: Point)
  {
    (p.x - h.x) * (p.x - h.x) + (p.y - h.y) * (p.y - h.y) <= HitRadius * HitRadius
  }

  /** The index of the first handle within reach of p, or |hs| if there is none. */
  function FirstHit(hs: seq<HandlePoint>, p: Point): (k: nat)
    ensures k <= |hs|
    ensures forall j :: 0 <= j < k ==> !Within(hs[j], p)
    ensures k < |hs| ==> Within(hs[k], p)
  {
    if |hs| == 0 then 0
    else if Within(hs[0], p) then 0
    else 1 + FirstHit(hs[1..], p)
  }

  /** The point lies inside the rectangle as drawn on the canvas (edges included). */
  predicate InsideOnCanvas(v: View, r: Rect, p: Point)
    requires HasImage(v)
  {
    InBox(ImageToCanvas(v, Point(r.x, r.y)), ImageToCanvas(v, Point(r.x + r.w, r.y + r.h)), p)
  }

  /** p lies in the axis-aligned box from c1 to c2, edges included. */
  predicate InBox(c1: Point, c2: Point, p: Point)
  {
    c1.x <= p.x <= c2.x && c1.y <= p.y <= c2.y
  }

  /** The canvas containment test agrees with containment of the mapped point in image space. */
  lemma {:induction false} InsideOnCanvasIsInsideImage(v: View, r: Rect, p: Point)
    requires HasSurface(v) && v.loaded
    requires 0.0 <= r.x && 0.0 <= r.y && 0.0 <= r.w && 0.0 <= r.h
    requires r.x + r.w <= v.currentW as real && r.y + r.h <= v.currentH as real
    ensures InsideOnCanvas(v, r, p) <==>
              (OnImage(v, p) &&
               var q := CanvasToImage(v, p);
               r.x <= q.x <= r.x + r.w && r.y <= q.y <= r.y + r.h)
  {
    BoxInside(Letterbox(v), v.currentW as real, v.currentH as real, r, p);
  }

  /** InsideOnCanvasIsInsideImage for any placement with a positive scale. */
  lemma BoxInside(pos: Canvas.Placement, W: real, H: real, r: Rect, p: Point)
    requires pos.scale > 0.0
    requires 0.0 <= r.x && 0.0 <= r.y && 0.0 <= r.w && 0.0 <= r.h && r.x + r.w <= W && r.y + r.h <= H
    ensures InBox(PlaceOnCanvas(pos, Point(r.x, r.y)), PlaceOnCanvas(pos, Point(r.x + r.w, r.y + r.h)), p) <==>
            (OnImageAt(pos, W, H, p) &&
             var q := PlaceInImage(pos, W, H, p);
             r.x <= q.x <= r.x + r.w && r.y <= q.y <= r.y + r.h)
  {
    AxisInside(r.x, r.w, W, pos.scale, pos.x, p.x);
    AxisInside(r.y, r.h, H, pos.scale, pos.y, p.y);
    assert InBox(PlaceOnCanvas(pos, Point(r.x, r.y)), PlaceOnCanvas(pos, Point(r.x + r.w, r.y + r.h)), p) <==>
           AxisOnCanvas(r.x, r.w, pos.x, pos.scale, p.x) && AxisOnCanvas(r.y, r.h, pos.y, pos.scale, p.y);
    var q := PlaceInImage(pos, W, H, p);
    assert (OnImageAt(pos, W, H, p) && r.x <= q.x <= r.x + r.w && r.y <= q.y <= r.y + r.h) <==>
           AxisOnImage(r.x, r.w, W, pos.x, pos.scale, p.x) && AxisOnImage(r.y, r.h, H, pos.y, pos.scale, p.y);
  }

  /** One axis of the canvas-space box test. */
  predicate AxisOnCanvas(a: real, d: real, offset: real, scale: real, t: real)
  {
    AxisToCanvas(a, offset, scale) <= t <= AxisToCanvas(a + d, offset, scale)
  }

  /** One axis of the image-space test: on the image, and mapped into [a, a + d]. */
  predicate AxisOnImage(a: real, d: real, size: real, offset: real, scale: real, t: real)
    requires scale > 0.0
  {
    offset <= t <= offset + size * scale && a <= AxisToImage(t, offset, scale, size) <= a + d
  }

  lemma AxisInside(a: real, d: real, size: real, scale: real, offset: real, t: real)
    requires scale > 0.0 && 0.0 <= a && 0.0 <= d && a + d <= size
    ensures AxisOnCanvas(a, d, offset, scale, t) <==> AxisOnImage(a, d, size, offset, scale, t)
  {
    var u := (t - offset) / scale;
    BoundOrder(a, t, offset, scale);
    BoundOrder(a + d, t, offset, scale);
    BoundOrder(0.0, t, offset, scale);
    BoundOrder(size, t, offset, scale);
    if 0.0 <= u <= size {
      assert AxisToImage(t, offset, scale, size) == u;
    }
  }

  /** A canvas bound lo * scale + offset compares with t as lo compares with t's unscaled position. */
  lemma BoundOrder(lo: real, t: real, offset: real, scale: real)
    requires scale > 0.0
    ensures lo * scale + offset <= t <==> lo <= (t - offset) / scale
    ensures t <= lo * scale + offset <==> (t - offset) / scale <= lo
  {
    var u := (t - offset) / scale;
    assert u * scale == t - offset;
    ScaleOrder(lo, u, scale);
    ScaleOrder(u, lo, scale);
  }

  /** Multiplying by a positive scale keeps order. */
  lemma ScaleOrder(a: real, b: real, scale: real)
    requires scale > 0.0
    ensures a <= b <==> a * scale <= b * scale
  {
    if a <= b {
      assert (b - a) * scale >= 0.0;
    } else {
      assert (a - b) * scale > 0.0;
    }
  }

  /** What a pointer-down on the canvas does with the current rectangle. */
  datatype Grab = GrabHandle(handle: Handle) | GrabMove | NewRect

  /** onPointerDown's decision: the first handle in reach, else move when inside, else a new rectangle. */
  function DownGrab(v: View, rect: Option<Rect>, p: Point): (g: Grab)
    requires HasImage(v)
    ensures rect.None? ==> g == NewRect
    ensures g.GrabHandle? ==>
              && g.handle != Move && rect.Some?
              && exists i :: 0 <= i < |HandleOrder| && HandleOrder[i] == g.handle &&
                   Within(Handles(v, rect.value)[i], p) &&
                   forall j :: 0 <= j < i ==> !Within(Handles(v, rect.value)[j], p)
    ensures !g.GrabHandle? && rect.Some? ==>
              && (forall j :: 0 <= j < |HandleOrder| ==> !Within(Handles(v, rect.value)[j], p))
              && (g == GrabMove <==> InsideOnCanvas(v, rect.value, p))
  {
    if rect.None? then NewRect
    else
      var hs := Handles(v, rect.value);
      var k := FirstHit(hs, p);
      if k < |hs| then GrabHandle(hs[k].name)
      else if InsideOnCanvas(v, rect.value, p) then GrabMove
      else NewRect
  }

  /** getCursorForHandle. */
  function CursorFor(h: Option<Handle>): string
  {
    match h
    case Some(N) => "ns-resize"
    case Some(S) => "ns-resize"
    case Some(E) => "ew-resize"
    case Some(W) => "ew-resize"
    case Some(NE) => "nesw-resize"
    case Some(SW) => "nesw-resize"
    case Some(NW) => "nwse-resize"
    case Some(SE) => "nwse-resize"
    case Some(Move) => "move"
    case None => "default"
  }

  /** The handle on the other side of the rectangle. */
  function Opposite(h: Handle): Handle
  {
    match h
    case NW => SE
    case N => S
    case NE => SW
    case E => W
    case SE => NW
    case S => N
    case SW => NE
    case W => E
    case Move => Move
  }

  /** A resize cursor names an axis, so opposite handles show the same one, and
      handles on different axes show different ones. */
  lemma CursorNamesAxis(h: Handle, k: Handle)
    ensures CursorFor(Some(Opposite(h))) == CursorFor(Some(h))
    ensures h != Move && k != Move ==> (CursorFor(Some(h)) == CursorFor(Some(k)) <==> k == h || k == Opposite(h))
    ensures CursorFor(Some(h)) != CursorFor(None)
  {
  }

  /** onPointerHover while crop mode is active and a rectangle exists. */
  function HoverCursor(v: View, r: Rect, p: Point): string
    requires HasImage(v)
  {
    var hs := Handles(v, r);
    var k := FirstHit(hs, p);
    if k < |hs| then CursorFor(Some(hs[k].name))
    else if InsideOnCanvas(v, r, p) then "move"
    else "crosshair"
  }

  /** Hovering shows the cursor of the drag that a press at the same point would start. */
  lemma HoverPreviewsGrab(v: View, r: Rect, p: Point)
    requires HasImage(v)
    ensures HoverCursor(v, r, p) ==
              match DownGrab(v, Some(r), p)
              case GrabHandle(h) => CursorFor(Some(h))
              case GrabMove => CursorFor(Some(Move))
              case NewRect => "crosshair"
  {
  }

  // ---------------------------------------------------------------------------
  // Edit rules of a drag

  /** The n rule: move the top edge to the pointer, keeping the bottom edge where it is. */
  function DragTop(r: Rect, py: real): Rect
  {
    var ny := Clamp(py, 0.0, r.y + r.h - 1.0);
    r.(y := ny, h := r.y + r.h - ny)
  }

  /** The s rule: move the bottom edge to the pointer, up to the image edge. */
  function DragBottom(r: Rect, py: real, maxH: real): Rect
  {
    r.(h := Clamp(py - r.y, 1.0, maxH - r.y))
  }

  /** The w rule: move the left edge to the pointer, keeping the right edge where it is. */
  function DragLeft(r: Rect, px: real): Rect
  {
    var nx := Clamp(px, 0.0, r.x + r.w - 1.0);
    r.(x := nx, w := r.x + r.w - nx)
  }

  /** The e rule: move the right edge to the pointer, up to the image edge. */
  function DragRight(r: Rect, px: real, maxW: real): Rect
  {
    r.(w := Clamp(px - r.x, 1.0, maxW - r.x))
  }

  /** The rectangle a handle drag proposes before it is accepted (the switch of onPointerMove).
      No handle proposes the rectangle unchanged. */
  function Proposed(r: Rect, handle: Option<Handle>, pt: Point, maxW: real, maxH: real): Rect
  {
    match handle
    case Some(N) => DragTop(r, pt.y)
    case Some(S) => DragBottom(r, pt.y, maxH)
    case Some(W) => DragLeft(r, pt.x)
    case Some(E) => DragRight(r, pt.x, maxW)
    case Some(NW) =>
      var nx := Clamp(pt.x, 0.0, r.x + r.w - 1.0);
      var ny := Clamp(pt.y, 0.0, r.y + r.h - 1.0);
      Rect(nx, ny, r.x + r.w - nx, r.y + r.h - ny)
    case Some(NE) =>
      var ny := Clamp(pt.y, 0.0, r.y + r.h - 1.0);
      Rect(r.x, ny, Clamp(pt.x - r.x, 1.0, maxW - r.x), r.y + r.h - ny)
    case Some(SW) =>
      var nx := Clamp(pt.x, 0.0, r.x + r.w - 1.0);
      Rect(nx, r.y, r.x + r.w - nx, Clamp(pt.y - r.y, 1.0, maxH - r.y))
    case Some(SE) =>
      Rect(r.x, r.y, Clamp(pt.x - r.x, 1.0, maxW - r.x), Clamp(pt.y - r.y, 1.0, maxH - r.y))
    case _ => r
  }

  /** The move rule: the grab offset keeps its place under the pointer, within the image. */
  function Moved(r: Rect, pt: Point, offsetX: real, offsetY: real, maxW: real, maxH: real): Rect
  {
    r.(x := Clamp(pt.x - offsetX, 0.0, maxW - r.w),
       y := Clamp(pt.y - offsetY, 0.0, maxH - r.h))
  }

  /** One pointer-move of a drag before the final clamp: move, or a handle edit that is
      dropped when it would leave the rectangle thinner than one pixel. */
  function Dragged(r: Rect, handle: Option<Handle>, pt: Point, offsetX: real, offsetY: real,
                   maxW: real, maxH: real): Rect
  {
    if handle == Some(Move) then Moved(r, pt, offsetX, offsetY, maxW, maxH)
    else
      var nr := Proposed(r, handle, pt, maxW, maxH);
      if nr.w >= 1.0 && nr.h >= 1.0 then nr else r
  }

  /** The final bounds check of onPointerMove, four clamps applied in order. */
  function Settled(r: Rect, maxW: real, maxH: real): Rect
  {
    var x := Clamp(r.x, 0.0, maxW - r.w);
    var y := Clamp(r.y, 0.0, maxH - r.h);
    var w := Clamp(r.w, 1.0, maxW - x);
    var h := Clamp(r.h, 1.0, maxH - y);
    Rect(x, y, w, h)
  }

  /** The standing invariant of a settled crop rectangle. */
  predicate InImage(r: Rect, maxW: real, maxH: real)
  {
    0.0 <= r.x && 0.0 <= r.y && 1.0 <= r.w && 1.0 <= r.h &&
    r.x + r.w <= maxW && r.y + r.h <= maxH
  }

  /** The n and w rules keep the opposite edge fixed and the origin within [0, far edge - 1]. */
  lemma TopAndLeftAnchorOppositeEdge(r: Rect, pt: Point)
    requires r.y + r.h >= 1.0 && r.x + r.w >= 1.0
    ensures var t := DragTop(r, pt.y);
            t.y + t.h == r.y + r.h && 0.0 <= t.y <= r.y + r.h - 1.0 && t.h >= 1.0 &&
            t.x == r.x && t.w == r.w
    ensures var l := DragLeft(r, pt.x);
            l.x + l.w == r.x + r.w && 0.0 <= l.x <= r.x + r.w - 1.0 && l.w >= 1.0 &&
            l.y == r.y && l.h == r.h
  {
  }

  /** The s and e rules keep the origin and give a size in [1, room to the image edge]. */
  lemma BottomAndRightKeepOrigin(r: Rect, pt: Point, maxW: real, maxH: real)
    requires maxH - r.y >= 1.0 && maxW - r.x >= 1.0
    ensures var b := DragBottom(r, pt.y, maxH);
            b.x == r.x && b.y == r.y && b.w == r.w && 1.0 <= b.h <= maxH - r.y
    ensures var e := DragRight(r, pt.x, maxW);
            e.x == r.x && e.y == r.y && e.h == r.h && 1.0 <= e.w <= maxW - r.x
  {
  }

  /** Dragging e further right never narrows the rectangle, and past the image edge it stays put. */
  lemma RightEdgeMonotone(r: Rect, px1: real, px2: real, maxW: real)
    requires px1 <= px2 && maxW - r.x >= 1.0
    ensures DragRight(r, px1, maxW).w <= DragRight(r, px2, maxW).w
    ensures px1 >= maxW ==> DragRight(r, px1, maxW).w == maxW - r.x &&
                            DragRight(r, px2, maxW) == DragRight(r, px1, maxW)
  {
  }

  /** A corner drag is its two edge drags applied one after the other. */
  lemma CornersCompose(r: Rect, pt: Point, maxW: real, maxH: real)
    ensures Proposed(r, Some(NW), pt, maxW, maxH) == DragLeft(DragTop(r, pt.y), pt.x)
    ensures Proposed(r, Some(NE), pt, maxW, maxH) == DragRight(DragTop(r, pt.y), pt.x, maxW)
    ensures Proposed(r, Some(SW), pt, maxW, maxH) == DragLeft(DragBottom(r, pt.y, maxH), pt.x)
    ensures Proposed(r, Some(SE), pt, maxW, maxH) == DragRight(DragBottom(r, pt.y, maxH), pt.x, maxW)
  {
  }

  /** Moving translates only, and stays inside the image when the rectangle fits. */
  lemma MoveOnlyTranslates(r: Rect, pt: Point, offsetX: real, offsetY: real, maxW: real, maxH: real)
    ensures var m := Dragged(r, Some(Move), pt, offsetX, offsetY, maxW, maxH);
            m.w == r.w && m.h == r.h &&
            (r.w <= maxW ==> 0.0 <= m.x <= maxW - r.w) &&
            (r.h <= maxH ==> 0.0 <= m.y <= maxH - r.h)
  {
  }

  /** An edit that would leave the rectangle thinner than a pixel is dropped, and nothing inverts. */
  lemma NoInversion(r: Rect, handle: Option<Handle>, pt: Point, offsetX: real, offsetY: real,
                    maxW: real, maxH: real)
    ensures handle != Some(Move) ==>
              var nr := Proposed(r, handle, pt, maxW, maxH);
              (nr.w < 1.0 || nr.h < 1.0) ==> Dragged(r, handle, pt, offsetX, offsetY, maxW, maxH) == r
    ensures r.w >= 1.0 && r.h >= 1.0 ==>
              var d := Dragged(r, handle, pt, offsetX, offsetY, maxW, maxH);
              d.w >= 1.0 && d.h >= 1.0
  {
  }

  /** The final clamp puts a rectangle at least a pixel wide and high inside the image. */
  lemma {:induction false} SettledIsInImage(r: Rect, maxW: real, maxH: real)
    requires r.w >= 1.0 && r.h >= 1.0 && maxW >= 1.0 && maxH >= 1.0
    ensures InImage(Settled(r, maxW, maxH), maxW, maxH)
  {
  }

  /** The final clamp leaves a rectangle that is already inside the image alone. */
  lemma SettledFixesInImage(r: Rect, maxW: real, maxH: real)
    requires InImage(r, maxW, maxH)
    ensures Settled(r, maxW, maxH) == r
  {
  }

  /** Clamping twice is clamping once. */
  lemma SettledIdempotent(r: Rect, maxW: real, maxH: real)
    requires r.w >= 1.0 && r.h >= 1.0 && maxW >= 1.0 && maxH >= 1.0
    ensures Settled(Settled(r, maxW, maxH), maxW, maxH) == Settled(r, maxW, maxH)
  {
    SettledIsInImage(r, maxW, maxH);
    SettledFixesInImage(Settled(r, maxW, maxH), maxW, maxH);
  }

  /** A drag step followed by the clamp keeps the rectangle inside the image. */
  lemma {:induction false} DragStepStaysInImage(r: Rect, handle: Option<Handle>, pt: Point,
                                                 offsetX: real, offsetY: real, maxW: real, maxH: real)
    requires r.w >= 1.0 && r.h >= 1.0 && maxW >= 1.0 && maxH >= 1.0
    ensures InImage(Settled(Dragged(r, handle, pt, offsetX, offsetY, maxW, maxH), maxW, maxH), maxW, maxH)
  {
    NoInversion(r, handle, pt, offsetX, offsetY, maxW, maxH);
    SettledIsInImage(Dragged(r, handle, pt, offsetX, offsetY, maxW, maxH), maxW, maxH);
  }

  /** Dragging se from {0,0,100,100} to (250,250) in a 200x200 image stops at the image edge. */
  lemma SouthEastDragExample()
    ensures Settled(Dragged(Rect(0.0, 0.0, 100.0, 100.0), Some(SE), Point(250.0, 250.0), 0.0, 0.0, 200.0, 200.0),
                    200.0, 200.0) == Rect(0.0, 0.0, 200.0, 200.0)
  {
  }

  // ---------------------------------------------------------------------------
  // Seeding and applying

  /** startCropMode's default: 60% of the image on each axis, centred, in whole pixels. */
  function SeedRect(currentW: nat, currentH: nat): Rect
  {
    var w := Round(currentW as real * 0.6);
    var h := Round(currentH as real * 0.6);
    Rect(Round((currentW - w) as real / 2.0) as real, Round((currentH - h) as real / 2.0) as real,
         w as real, h as real)
  }

  /** The seeded rectangle lies inside the image, is about 60% of it and is centred to
      within a pixel. */
  lemma {:induction false} SeedInImage(currentW: nat, currentH: nat)
    requires currentW >= 1 && currentH >= 1
    ensures var r := SeedRect(currentW, currentH);
            InImage(r, currentW as real, currentH as real) &&
            currentW as real * 0.6 - 0.5 < r.w <= currentW as real * 0.6 + 0.5 &&
            currentH as real * 0.6 - 0.5 < r.h <= currentH as real * 0.6 + 0.5 &&
            -1.0 <= (currentW as real - (r.x + r.w)) - r.x <= 1.0 &&
            -1.0 <= (currentH as real - (r.y + r.h)) - r.y <= 1.0
  {
    SeedAxis(currentW);
    SeedAxis(currentH);
  }

  lemma SeedAxis(size: nat)
    requires size >= 1
    ensures var w := Round(size as real * 0.6);
            var x := Round((size - w) as real / 2.0);
            1 <= w <= size && 0 <= x && x + w <= size && -1 <= (size - (x + w)) - x <= 1
  {
  }

  /** An 800x600 image is seeded with {160, 120, 480, 360}. */
  lemma SeedExample()
    ensures SeedRect(800, 600) == Rect(160.0, 120.0, 480.0, 360.0)
  {
    RoundUnique(800.0 * 0.6, 480);
    RoundUnique(600.0 * 0.6, 360);
    RoundUnique(160.0, 160);
    RoundUnique(120.0, 120);
  }

  /** The resampling request of applyCrop: a source area in natural pixels and a target size. */
  datatype CropPlan = CropPlan(sx: real, sy: real, sw: real, sh: real, targetW: int, targetH: int)

  /** applyCrop's geometry: scale the rectangle to natural resolution by naturalW / currentW
      on both axes, clamp it into the natural image, and take the target size from the
      fields or else from the rounded source size. */
  function PlanCrop(r: Rect, naturalW: nat, naturalH: nat, currentW: nat,
                    fieldW: Option<int>, fieldH: Option<int>): (c: CropPlan)
    requires currentW >= 1
    ensures naturalW >= 1 ==> 0.0 <= c.sx <= naturalW as real - 1.0 && 1.0 <= c.sw && c.sx + c.sw <= naturalW as real
    ensures naturalH >= 1 ==> 0.0 <= c.sy <= naturalH as real - 1.0 && 1.0 <= c.sh && c.sy + c.sh <= naturalH as real
    ensures Truthy(fieldW, 0) ==> c.targetW == fieldW.value
    ensures !Truthy(fieldW, 0) ==> c.targetW == Round(c.sw)
    ensures Truthy(fieldH, 0) ==> c.targetH == fieldH.value
    ensures !Truthy(fieldH, 0) ==> c.targetH == Round(c.sh)
  {
    var toNatural := naturalW as real / currentW as real;
    var sx := Clamp(r.x * toNatural, 0.0, naturalW as real - 1.0);
    var sy := Clamp(r.y * toNatural, 0.0, naturalH as real - 1.0);
    var sw := Clamp(r.w * toNatural, 1.0, naturalW as real - sx);
    var sh := Clamp(r.h * toNatural, 1.0, naturalH as real - sy);
    CropPlan(sx, sy, sw, sh,
             if Truthy(fieldW, 0) then fieldW.value else Round(sw),
             if Truthy(fieldH, 0) then fieldH.value else Round(sh))
  }

  /** When the working image is at natural size (as every load leaves it), a rectangle
      inside the image is cut out exactly. */
  lemma {:induction false} PlanExactAtNaturalSize(r: Rect, w: nat, h: nat)
    requires w >= 1 && h >= 1 && InImage(r, w as real, h as real)
    ensures var c := PlanCrop(r, w, h, w, None, None);
            c.sx == r.x && c.sy == r.y && c.sw == r.w && c.sh == r.h &&
            c.targetW == Round(r.w) && c.targetH == Round(r.h)
  {
    var k := w as real / w as real;
    assert k == 1.0;
    assert r.x * k == r.x && r.y * k == r.y && r.w * k == r.w && r.h * k == r.h;
  }

  /** Cropping {100,100,200,150} out of an 800x600 image gives a 200x150 bitmap cut from (100,100). */
  lemma CropExample()
    ensures PlanCrop(Rect(100.0, 100.0, 200.0, 150.0), 800, 600, 800, None, None) ==
              CropPlan(100.0, 100.0, 200.0, 150.0, 200, 150)
  {
    PlanExactAtNaturalSize(Rect(100.0, 100.0, 200.0, 150.0), 800, 600);
    RoundOfInteger(200);
    RoundOfInteger(150);
  }
}
