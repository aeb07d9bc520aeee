/** The stateful half of module/crop.js: the pointer handlers that drive the crop
    rectangle, entering and leaving crop mode, committing a crop, and the two
    numeric size fields. One Editor object holds the parts of the global editor
    state (module/state.js) that these handlers read and write. The rectangle
    itself is a value: module/crop.js mutates it in place but never shares it. */
module CropEditor {
  import opened Numeric
  import opened Wrappers
  import opened Status
  import opened Crop

  class Editor {
    // the working image; written only by the image-load path
    var imgLoaded: bool
    var naturalW: nat
    var naturalH: nat
    var currentW: nat
    var currentH: nat
    // the drawing surface, in device pixels
    var canvasW: nat
    var canvasH: nat
    // state.crop and state.isApplyingCrop
    var active: bool
    var rect: Option<Rect>
    var dragHandle: Option<Handle>
    var startPoint: Option<Point>
    var offsetX: real
    var offsetY: real
    var isApplyingCrop: bool
    // crop.js's own flag: a pointer is pressed on the canvas
    var isPointerDown: bool
    // output ports: the crop width/height fields, the canvas cursor, the info line
    var cropWField: Option<real>
    var cropHField: Option<real>
    var cursor: string
    var info: Info

    /** A loaded image has positive natural and working sizes. */
    ghost predicate Valid()
      reads this
    {
      imgLoaded ==> naturalW >= 1 && naturalH >= 1 && currentW >= 1 && currentH >= 1
    }

    /** What the coordinate mapping reads of this state. */
    function CurrentView(): (v: View)
      reads this
      ensures Valid() ==> HasImage(v)
    {
      View(imgLoaded, currentW, currentH, canvasW, canvasH)
    }

    /** The state of initCrop and initCanvas before any image is loaded. */
    constructor (cw: nat, ch: nat)
      ensures Valid()
      ensures !imgLoaded && naturalW == 0 && naturalH == 0 && currentW == 0 && currentH == 0
      ensures canvasW == cw && canvasH == ch
      ensures !active && rect.None? && dragHandle.None? && startPoint.None?
      ensures offsetX == 0.0 && offsetY == 0.0 && !isApplyingCrop && !isPointerDown
      ensures cursor == "" && cropWField.None? && cropHField.None? && info == Text("")
    {
      imgLoaded := false;
      naturalW, naturalH, currentW, currentH := 0, 0, 0, 0;
      canvasW, canvasH := cw, ch;
      active := false;
      rect, dragHandle, startPoint := None, None, None;
      offsetX, offsetY := 0.0, 0.0;
      isApplyingCrop, isPointerDown := false, false;
      cropWField, cropHField := None, None;
      cursor := "";  // no inline cursor style until a handler sets one
      info := Text("");
    }

    /** fitCanvasToWrap: the layout gives the canvas a new size. */
    method FitCanvas(cw: nat, ch: nat)
      requires Valid()
      modifies this`canvasW, this`canvasH
      ensures Valid() && canvasW == cw && canvasH == ch
    {
      canvasW, canvasH := cw, ch;
    }

    /** The completion of an image load (imageLoader.js onload): the new bitmap becomes
        the working image at its natural size and any crop is discarded. */
    method OnImageLoaded(w: nat, h: nat)
      requires Valid() && w >= 1 && h >= 1
      modifies this`imgLoaded, this`naturalW, this`naturalH, this`currentW, this`currentH,
               this`info, this`rect, this`isApplyingCrop, this`active, this`cursor
      ensures Valid()
      ensures imgLoaded && naturalW == w && naturalH == h && currentW == w && currentH == h
      ensures info == Loaded(w, h)
      ensures rect.None? && !active
      ensures old(active) ==> !isApplyingCrop && cursor == "default"
      ensures !old(active) ==> isApplyingCrop == old(isApplyingCrop) && cursor == old(cursor)
    {
      imgLoaded := true;
      naturalW, naturalH := w, h;
      currentW, currentH := w, h;
      info := Loaded(w, h);
      ResetCrop(true);
    }

    // -------------------------------------------------------------------------
    // Pointer handlers

    /** onPointerDown: choose the drag mode for a press at canvas point p. */
    method OnPointerDown(p: Point)
      requires Valid() && (imgLoaded ==> canvasW >= 1 && canvasH >= 1)
      modifies this`isPointerDown, this`dragHandle, this`rect, this`startPoint, this`offsetX, this`offsetY
      ensures Valid()
      ensures !(old(active) && old(imgLoaded)) ==> unchanged(this)
      ensures old(active) && old(imgLoaded) ==>
                var q := CanvasToImage(CurrentView(), p);
                && isPointerDown
                && match DownGrab(CurrentView(), old(rect), p)
                   case NewRect =>
                     && rect == Some(Rect(q.x, q.y, 1.0, 1.0)) && dragHandle == Some(SE) && startPoint == Some(q)
                     && offsetX == old(offsetX) && offsetY == old(offsetY)
                   case GrabHandle(h) =>
                     && rect == old(rect) && dragHandle == Some(h) && startPoint == Some(q)
                     && offsetX == old(offsetX) && offsetY == old(offsetY)
                   case GrabMove =>
                     && rect == old(rect) && dragHandle == Some(Move) && startPoint == old(startPoint)
                     && offsetX == q.x - old(rect).value.x && offsetY == q.y - old(rect).value.y
    {
      if !active || !imgLoaded {
        return;
      }
      isPointerDown := true;
      var v := CurrentView();

      if rect.None? {
        var q := CanvasToImage(v, p);
        dragHandle := Some(SE);
        rect := Some(Rect(q.x, q.y, 1.0, 1.0));
        startPoint := Some(q);
        return;
      }

      var r := rect.value;
      var hs := Handles(v, r);
      var found := false;
      var i := 0;
      while i < |hs|
        invariant 0 <= i <= |hs|
        invariant forall j :: 0 <= j < i ==> !Within(hs[j], p)
        invariant !found && dragHandle == old(dragHandle) && startPoint == old(startPoint)
      {
        if Within(hs[i], p) {
          dragHandle := Some(hs[i].name);
          startPoint := Some(CanvasToImage(v, p));
          found := true;
          break;
        }
        i := i + 1;
      }

      if !found {
        var q := CanvasToImage(v, p);
        if InsideOnCanvas(v, r, p) {
          dragHandle := Some(Move);
          offsetX := q.x - r.x;
          offsetY := q.y - r.y;
        } else {
          dragHandle := Some(SE);
          rect := Some(Rect(q.x, q.y, 1.0, 1.0));
          startPoint := Some(q);
        }
      }
    }

    /** The cursor onPointerHover leaves for a pointer at canvas point p. */
    function HoverOutcome(p: Point): string
      requires Valid()
      reads this
    {
      if active && rect.Some? && !isPointerDown && imgLoaded then HoverCursor(CurrentView(), rect.value, p)
      else if !isPointerDown then "default"
      else cursor
    }

    /** onPointerHover: show what a press at p would do. */
    method OnPointerHover(p: Point)
      requires Valid()
      modifies this`cursor
      ensures Valid()
      ensures cursor == old(HoverOutcome(p))
    {
      if !active || rect.None? || isPointerDown || !imgLoaded {
        if !isPointerDown {
          cursor := "default";
        }
        return;
      }
      var v := CurrentView();
      var hs := Handles(v, rect.value);
      var i := 0;
      while i < |hs|
        invariant 0 <= i <= |hs|
        invariant forall j :: 0 <= j < i ==> !Within(hs[j], p)
      {
        if Within(hs[i], p) {
          cursor := CursorFor(Some(hs[i].name));
          return;
        }
        i := i + 1;
      }
      if InsideOnCanvas(v, rect.value, p) {
        cursor := "move";
      } else {
        cursor := "crosshair";
      }
    }

    /** onPointerMove: while dragging, apply the edit rule of the drag mode and re-clamp;
        otherwise only hover. */
    method OnPointerMove(p: Point)
      requires Valid() && (imgLoaded ==> canvasW >= 1 && canvasH >= 1)
      modifies this`rect, this`cropWField, this`cropHField, this`cursor
      ensures Valid()
      ensures !(old(isPointerDown) && old(rect).Some? && old(imgLoaded)) ==>
                && rect == old(rect) && cropWField == old(cropWField) && cropHField == old(cropHField)
                && cursor == old(HoverOutcome(p))
      ensures old(isPointerDown) && old(rect).Some? && old(imgLoaded) ==>
                var maxW, maxH := currentW as real, currentH as real;
                var q := CanvasToImage(old(CurrentView()), p);
                && rect == Some(Settled(Dragged(old(rect).value, dragHandle, q, offsetX, offsetY, maxW, maxH), maxW, maxH))
                && cropWField == Some(Round(rect.value.w) as real) && cropHField == Some(Round(rect.value.h) as real)
                && cursor == CursorFor(dragHandle)
      // a rectangle at least a pixel in size ends every drag step inside the image
      ensures old(isPointerDown) && old(imgLoaded) && old(rect).Some? &&
              old(rect).value.w >= 1.0 && old(rect).value.h >= 1.0 ==>
                rect.Some? && InImage(rect.value, currentW as real, currentH as real)
    {
      if !isPointerDown || rect.None? || !imgLoaded {
        OnPointerHover(p);
        return;
      }
      var q := CanvasToImage(CurrentView(), p);
      var r := rect.value;
      var maxW, maxH := currentW as real, currentH as real;
      ghost var r0 := r;
      r := DragStep(r, dragHandle, q, offsetX, offsetY, maxW, maxH);
      ghost var dragged := r;

      // final bounds check in image space
      r := r.(x := Clamp(r.x, 0.0, maxW - r.w));
      r := r.(y := Clamp(r.y, 0.0, maxH - r.h));
      r := r.(w := Clamp(r.w, 1.0, maxW - r.x));
      r := r.(h := Clamp(r.h, 1.0, maxH - r.y));
      assert r == Settled(dragged, maxW, maxH);
      rect := Some(r);

      cropWField := Some(Round(r.w) as real);
      cropHField := Some(Round(r.h) as real);
      cursor := CursorFor(dragHandle);

      if r0.w >= 1.0 && r0.h >= 1.0 {
        DragStepStaysInImage(r0, dragHandle, q, offsetX, offsetY, maxW, maxH);
      }
    }

    /** The edit rule of onPointerMove for one pointer position q: the move mode
        translates and clamps, a handle proposes a new rectangle that is kept only
        when it is at least a pixel in each direction. */
    static method DragStep(r: Rect, handle: Option<Handle>, q: Point, offsetX: real, offsetY: real,
                           maxW: real, maxH: real) returns (nr: Rect)
      ensures nr == Dragged(r, handle, q, offsetX, offsetY, maxW, maxH)
    {
      nr := r;
      if handle == Some(Move) {
        nr := nr.(x := Clamp(q.x - offsetX, 0.0, maxW - nr.w));
        nr := nr.(y := Clamp(q.y - offsetY, 0.0, maxH - nr.h));
      } else {
        var newRect := Proposed(r, handle, q, maxW, maxH);
        if newRect.w >= 1.0 && newRect.h >= 1.0 {
          nr := newRect;
        }
      }
    }

    /** onPointerUp: end the drag session. */
    method OnPointerUp(p: Point)
      requires Valid()
      modifies this`isPointerDown, this`dragHandle, this`startPoint, this`offsetX, this`offsetY, this`cursor
      ensures Valid()
      ensures !old(isPointerDown) ==> unchanged(this)
      ensures old(isPointerDown) ==>
                && !isPointerDown && dragHandle.None? && startPoint.None?
                && offsetX == 0.0 && offsetY == 0.0
                && cursor == HoverOutcome(p)
    {
      if !isPointerDown {
        return;
      }
      isPointerDown := false;
      dragHandle := None;
      startPoint := None;
      offsetX, offsetY := 0.0, 0.0;
      OnPointerHover(p);
    }

    // -------------------------------------------------------------------------
    // Crop mode

    /** startCropMode: enter crop mode, seeding a centred rectangle if there is none. */
    method StartCropMode()
      requires Valid()
      modifies this`info, this`isApplyingCrop, this`active, this`rect, this`cropWField, this`cropHField
      ensures Valid()
      ensures !imgLoaded ==>
                && info == Text(LoadImageFirst)
                && active == old(active) && isApplyingCrop == old(isApplyingCrop) && rect == old(rect)
                && cropWField == old(cropWField) && cropHField == old(cropHField)
      ensures imgLoaded ==>
                && active && isApplyingCrop && info == old(info)
                && rect == (if old(rect).None? then Some(SeedRect(currentW, currentH)) else old(rect))
                && cropWField == Some(Round(rect.value.w) as real) && cropHField == Some(Round(rect.value.h) as real)
      ensures imgLoaded ==> old(rect).Some? || InImage(rect.value, currentW as real, currentH as real)
    {
      if !imgLoaded {
        info := Text(LoadImageFirst);
        return;
      }
      isApplyingCrop := true;
      active := true;
      if rect.None? && currentW != 0 && currentH != 0 {
        rect := Some(SeedRect(currentW, currentH));
        SeedInImage(currentW, currentH);
      }
      if rect.Some? {
        cropWField := Some(Round(rect.value.w) as real);
        cropHField := Some(Round(rect.value.h) as real);
      }
    }

    /** exitCropMode: leave crop mode; the rectangle survives. */
    method ExitCropMode()
      requires Valid()
      modifies this`isApplyingCrop, this`active, this`cursor
      ensures Valid()
      ensures !active && !isApplyingCrop && cursor == "default"
    {
      isApplyingCrop := false;
      active := false;
      cursor := "default";
    }

    /** resetCrop: optionally discard the rectangle, and leave crop mode if in it. */
    method ResetCrop(fullReset: bool)
      requires Valid()
      modifies this`rect, this`isApplyingCrop, this`active, this`cursor
      ensures Valid()
      ensures rect == (if fullReset then None else old(rect))
      ensures !active
      ensures old(active) ==> !isApplyingCrop && cursor == "default"
      ensures !old(active) ==> isApplyingCrop == old(isApplyingCrop) && cursor == old(cursor)
    {
      if fullReset {
        rect := None;
      }
      if active {
        ExitCropMode();
      }
    }

    /** The crop toggle button: enter or leave crop mode, once an image is loaded. */
    method ToggleCropMode()
      requires Valid()
      modifies this`info, this`isApplyingCrop, this`active, this`rect, this`cropWField, this`cropHField, this`cursor
      ensures Valid()
      ensures !imgLoaded ==>
                && info == Text(LoadImageFirst)
                && active == old(active) && isApplyingCrop == old(isApplyingCrop) && rect == old(rect)
                && cropWField == old(cropWField) && cropHField == old(cropHField) && cursor == old(cursor)
      ensures imgLoaded ==> active == !old(active) && info == old(info)
      // entering: as StartCropMode
      ensures imgLoaded && !old(active) ==>
                && isApplyingCrop && cursor == old(cursor)
                && rect == (if old(rect).None? then Some(SeedRect(currentW, currentH)) else old(rect))
                && cropWField == Some(Round(rect.value.w) as real) && cropHField == Some(Round(rect.value.h) as real)
      ensures imgLoaded && !old(active) ==> old(rect).Some? || InImage(rect.value, currentW as real, currentH as real)
      // leaving: as ExitCropMode
      ensures imgLoaded && old(active) ==>
                && !isApplyingCrop && cursor == "default" && rect == old(rect)
                && cropWField == old(cropWField) && cropHField == old(cropHField)
    {
      if !imgLoaded {
        info := Text(LoadImageFirst);
        return;
      }
      if active {
        ExitCropMode();
      } else {
        StartCropMode();
      }
    }

    /** applyCrop: compute the source area and target size of the crop, report it and
        leave crop mode. The target size comes from the crop size fields. The resampled
        bitmap arrives later through OnImageLoaded. */
    method ApplyCrop() returns (plan: Option<CropPlan>)
      requires Valid()
      modifies this`info, this`isApplyingCrop, this`active, this`cursor
      ensures Valid()
      ensures rect.None? || !imgLoaded ==>
                && plan.None? && info == Text(CannotApplyCrop)
                && active == old(active) && isApplyingCrop == old(isApplyingCrop) && cursor == old(cursor)
      ensures rect.Some? && imgLoaded ==>
                && plan == Some(PlanCrop(rect.value, naturalW, naturalH, currentW, ParseInt(cropWField), ParseInt(cropHField)))
                && info == CropApplied(plan.value.targetW, plan.value.targetH, Round(plan.value.sw), Round(plan.value.sh))
                && !active && !isApplyingCrop && cursor == "default"
      // the source area always lies inside the natural bitmap
      ensures plan.Some? ==>
                && 0.0 <= plan.value.sx && plan.value.sx + plan.value.sw <= naturalW as real && 1.0 <= plan.value.sw
                && 0.0 <= plan.value.sy && plan.value.sy + plan.value.sh <= naturalH as real && 1.0 <= plan.value.sh
    {
      if rect.None? || !imgLoaded {
        info := Text(CannotApplyCrop);
        return None;
      }
      var c := PlanCrop(rect.value, naturalW, naturalH, currentW, ParseInt(cropWField), ParseInt(cropHField));
      plan := Some(c);
      info := CropApplied(c.targetW, c.targetH, Round(c.sw), Round(c.sh));
      ExitCropMode();
    }

    // -------------------------------------------------------------------------
    // The numeric size fields

    /** The crop width field's input handler. The field now holds what was typed; a positive
        whole number of pixels becomes the width, capped at the image's right edge, and is
        written back. */
    method OnCropWidthInput(typed: Option<real>)
      requires Valid()
      modifies this`rect, this`cropWField
      ensures Valid()
      ensures var n := ParseInt(typed);
              !(old(rect).Some? && n.Some? && n.value > 0) ==> rect == old(rect) && cropWField == typed
      ensures var n := ParseInt(typed);
              old(rect).Some? && n.Some? && n.value > 0 ==>
                && rect.Some? && rect.value == old(rect).value.(w := rect.value.w)
                && rect.value.w <= currentW as real - rect.value.x
                && (n.value as real <= currentW as real - rect.value.x ==> rect.value.w == n.value as real)
                && (n.value as real > currentW as real - rect.value.x ==> rect.value.w == currentW as real - rect.value.x)
                && cropWField == Some(rect.value.w)
    {
      cropWField := typed;
      if rect.Some? {
        var n := ParseInt(typed);
        if n.Some? && n.value > 0 {
          var maxW := currentW as real - rect.value.x;
          rect := Some(rect.value.(w := Min(n.value as real, maxW)));
          cropWField := Some(rect.value.w);
        }
      }
    }

    /** The crop height field's input handler, the same rule on the vertical axis. */
    method OnCropHeightInput(typed: Option<real>)
      requires Valid()
      modifies this`rect, this`cropHField
      ensures Valid()
      ensures var n := ParseInt(typed);
              !(old(rect).Some? && n.Some? && n.value > 0) ==> rect == old(rect) && cropHField == typed
      ensures var n := ParseInt(typed);
              old(rect).Some? && n.Some? && n.value > 0 ==>
                && rect.Some? && rect.value == old(rect).value.(h := rect.value.h)
                && rect.value.h <= currentH as real - rect.value.y
                && (n.value as real <= currentH as real - rect.value.y ==> rect.value.h == n.value as real)
                && (n.value as real > currentH as real - rect.value.y ==> rect.value.h == currentH as real - rect.value.y)
                && cropHField == Some(rect.value.h)
    {
      cropHField := typed;
      if rect.Some? {
        var n := ParseInt(typed);
        if n.Some? && n.value > 0 {
          var maxH := currentH as real - rect.value.y;
          rect := Some(rect.value.(h := Min(n.value as real, maxH)));
          cropHField := Some(rect.value.h);
        }
      }
    }
  }
}
