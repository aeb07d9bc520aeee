/** The letterbox transform of module/canvas.js: where the working image of
    currentW x currentH pixels is drawn on a canvas of cw x ch pixels. */
module Canvas {
  import opened Numeric

  /** The offset of the image's top-left corner on the canvas and the uniform scale. */
  datatype Placement = Placement(x: real, y: real, scale: real)

  /** The destination box redraw() hands to drawImage. */
  datatype DrawBox = DrawBox(dx: real, dy: real, dw: real, dh: real)

  /** getCanvasImagePosition: fit the image inside the canvas, preserving its
      aspect ratio, and centre it. */
  function ImagePosition(currentW: nat, currentH: nat, cw: nat, ch: nat): (p: Placement)
    requires currentW >= 1 && currentH >= 1
    ensures p.scale >= 0.0
    ensures cw >= 1 && ch >= 1 ==> p.scale > 0.0
    // the scaled image fits the canvas on both axes ...
    ensures currentW as real * p.scale <= cw as real
    ensures currentH as real * p.scale <= ch as real
    // ... and fills it on at least one
    ensures currentW as real * p.scale == cw as real || currentH as real * p.scale == ch as real
    // centred: the margins on either side are equal and never negative
    ensures p.x >= 0.0 && p.y >= 0.0
    ensures p.x == cw as real - (p.x + currentW as real * p.scale)
    ensures p.y == ch as real - (p.y + currentH as real * p.scale)
  {
    var W, H := currentW as real, currentH as real;
    var scale := Min(cw as real / W, ch as real / H);
    ScaledFit(W, cw as real, scale);
    ScaledFit(H, ch as real, scale);
    Placement((cw as real - W * scale) / 2.0, (ch as real - H * scale) / 2.0, scale)
  }

  /** A scale no larger than room/size keeps size*scale within room; equality gives equality. */
  lemma ScaledFit(size: real, room: real, scale: real)
    requires size > 0.0 && room >= 0.0 && 0.0 <= scale <= room / size
    ensures size * scale <= room
    ensures scale == room / size ==> size * scale == room
  {
    assert size * (room / size) == room;
  }

  /** No uniform scale larger than the one chosen keeps the image inside the canvas. */
  lemma {:induction false} ScaleIsLargestFit(currentW: nat, currentH: nat, cw: nat, ch: nat, s: real)
    requires currentW >= 1 && currentH >= 1
    requires currentW as real * s <= cw as real && currentH as real * s <= ch as real
    ensures s <= ImagePosition(currentW, currentH, cw, ch).scale
  {
    var W, H := currentW as real, currentH as real;
    assert s <= cw as real / W by {
      assert W * s / W == s;
    }
    assert s <= ch as real / H by {
      assert H * s / H == s;
    }
  }

  /** The scale, width and height that redraw() computes for drawImage. */
  function RedrawBox(currentW: nat, currentH: nat, cw: nat, ch: nat): (d: DrawBox)
    requires currentW >= 1 && currentH >= 1
    // drawing uses exactly the placement that hit-testing uses
    ensures d.dx == ImagePosition(currentW, currentH, cw, ch).x
    ensures d.dy == ImagePosition(currentW, currentH, cw, ch).y
    ensures d.dw == currentW as real * ImagePosition(currentW, currentH, cw, ch).scale
    ensures d.dh == currentH as real * ImagePosition(currentW, currentH, cw, ch).scale
  {
    var scale := Min(cw as real / currentW as real, ch as real / currentH as real);
    var dw, dh := currentW as real * scale, currentH as real * scale;
    DrawBox((cw as real - dw) / 2.0, (ch as real - dh) / 2.0, dw, dh)
  }

  /** An 800x600 image on a 400x300 canvas is drawn at half size with no margins. */
  lemma HalfSizeExample()
    ensures ImagePosition(800, 600, 400, 300) == Placement(0.0, 0.0, 0.5)
  {
  }
}
