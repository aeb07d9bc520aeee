/** The resize panel of module/resize.js: validating a target size, the size presets,
    filling one dimension from the other at the image's aspect ratio, and going back
    to the natural size. The pure arithmetic comes first; the ResizeForm class then
    writes its results into the two size fields and the info line. */
module Resize {
  import opened Numeric
  import opened Wrappers
  import opened Status

  /** A target width and height, in pixels. */
  datatype Dims = Dims(w: int, h: int)

  /** The largest width or height applyResize accepts. */
  const MaxDimension: int := 10000

  /** A parsed size is usable when it is a number of at least one pixel (neither NaN nor 0). */
  predicate AtLeastOnePixel(n: Option<int>)
  {
    n.Some? && n.value >= 1
  }

  /** The validation in applyResize: a size too small or missing is reported before a size
      that is too large; what passes is exactly a pair of integers in [1, 10000]. */
  function ValidateResize(w: Option<int>, h: Option<int>): (r: Result<Dims, string>)
    ensures r.Success? <==>
              w.Some? && h.Some? && 1 <= w.value <= MaxDimension && 1 <= h.value <= MaxDimension
    ensures r.Success? ==> r.value == Dims(w.value, h.value)
    ensures r.Failure? ==>
              r.error == (if AtLeastOnePixel(w) && AtLeastOnePixel(h) then DimensionsTooLarge else InvalidDimensions)
  {
    if !AtLeastOnePixel(w) || !AtLeastOnePixel(h) then Failure(InvalidDimensions)
    else if w.value > MaxDimension || h.value > MaxDimension then Failure(DimensionsTooLarge)
    else Success(Dims(w.value, h.value))
  }

  // ---------------------------------------------------------------------------
  // Aspect-ratio arithmetic

  /** naturalW / naturalH. */
  function Ratio(naturalW: nat, naturalH: nat): real
    requires naturalH >= 1
  {
    naturalW as real / naturalH as real
  }

  /** The height that goes with width t at the natural aspect ratio, round(t / ratio):
      the integer nearest to t · naturalH / naturalW. */
  function HeightFor(t: real, naturalW: nat, naturalH: nat): (h: int)
    requires naturalW >= 1 && naturalH >= 1
    ensures t * naturalH as real / naturalW as real - 0.5 < h as real <= t * naturalH as real / naturalW as real + 0.5
  {
    var x := t / Ratio(naturalW, naturalH);
    assert x == t * naturalH as real / naturalW as real;
    Round(x)
  }

  /** The width that goes with height t at the natural aspect ratio, round(t · ratio):
      the integer nearest to t · naturalW / naturalH. */
  function WidthFor(t: real, naturalW: nat, naturalH: nat): (w: int)
    requires naturalW >= 1 && naturalH >= 1
    ensures t * naturalW as real / naturalH as real - 0.5 < w as real <= t * naturalW as real / naturalH as real + 0.5
  {
    var x := t * Ratio(naturalW, naturalH);
    assert x == t * naturalW as real / naturalH as real;
    Round(x)
  }

  /** On a landscape image the other side is at most the given one. */
  lemma FractionAtMost(t: real, a: nat, b: nat)
    requires t >= 0.0 && 1 <= b <= a
    ensures t * b as real / a as real <= t
  {
    var q := t * b as real / a as real;
    assert q * a as real == t * b as real;
    assert (t - q) * a as real == t * (a - b) as real;
    assert t * (a - b) as real >= 0.0;
  }

  /** On an image at most twice as wide as tall the other side is at least half the given one. */
  lemma FractionAtLeastHalf(t: real, a: nat, b: nat)
    requires t >= 0.0 && 1 <= b && 1 <= a <= 2 * b
    ensures t / 2.0 <= t * b as real / a as real
  {
    var q := t * b as real / a as real;
    assert q * a as real == t * b as real;
    assert t * a as real <= t * (2 * b) as real;
    assert q * a as real * 2.0 >= t * a as real;
  }

  // ---------------------------------------------------------------------------
  // Presets

  /** The sizes of applyPreset for the natural size naturalW×naturalH; None for an unknown name. */
  function PresetDims(naturalW: nat, naturalH: nat, preset: string): (r: Option<Dims>)
    requires naturalW >= 1 && naturalH >= 1
    ensures r.Some? <==> preset in {"hd", "4k", "square", "half", "double"}
    // hd and 4k fix the width and keep the aspect ratio to within rounding
    ensures preset == "hd" || preset == "4k" ==>
              && r.value.w == (if preset == "hd" then 1920 else 3840)
              && r.value.w as real * naturalH as real / naturalW as real - 0.5 < r.value.h as real
              && r.value.h as real <= r.value.w as real * naturalH as real / naturalW as real + 0.5
    // square is the largest square of the image's shorter side
    ensures preset == "square" ==>
              && r.value.w == r.value.h && r.value.w <= naturalW && r.value.w <= naturalH
              && (r.value.w == naturalW || r.value.w == naturalH)
    // half halves each side, rounding .5 up
    ensures preset == "half" ==>
              && naturalW <= 2 * r.value.w <= naturalW + 1
              && naturalH <= 2 * r.value.h <= naturalH + 1
    ensures preset == "double" ==> r.value == Dims(2 * naturalW, 2 * naturalH)
  {
    if preset == "hd" then
      Some(Dims(1920, HeightFor(1920.0, naturalW, naturalH)))
    else if preset == "4k" then
      Some(Dims(3840, HeightFor(3840.0, naturalW, naturalH)))
    else if preset == "square" then
      var s := if naturalW <= naturalH then naturalW else naturalH;
      Some(Dims(s, s))
    else if preset == "half" then
      Some(Dims(Round(naturalW as real / 2.0), Round(naturalH as real / 2.0)))
    else if preset == "double" then
      Some(Dims(naturalW * 2, naturalH * 2))
    else
      None
  }

  /** setDimensionsWithAspect: one given side fixes the other at the aspect ratio; with both
      or neither given, each side is the given value or the natural size. */
  function DimensionsWithAspect(naturalW: nat, naturalH: nat, width: Option<real>, height: Option<real>): (d: Dims)
    requires naturalW >= 1 && naturalH >= 1
    ensures Truthy(width, 0.0) && !Truthy(height, 0.0) ==>
              d.w == Round(width.value) &&
              width.value * naturalH as real / naturalW as real - 0.5 < d.h as real <=
                width.value * naturalH as real / naturalW as real + 0.5
    ensures Truthy(height, 0.0) && !Truthy(width, 0.0) ==>
              d.h == Round(height.value) &&
              height.value * naturalW as real / naturalH as real - 0.5 < d.w as real <=
                height.value * naturalW as real / naturalH as real + 0.5
    ensures Truthy(width, 0.0) == Truthy(height, 0.0) ==>
              && d.w == (if Truthy(width, 0.0) then Round(width.value) else naturalW)
              && d.h == (if Truthy(height, 0.0) then Round(height.value) else naturalH)
  {
    if Truthy(width, 0.0) && !Truthy(height, 0.0) then
      Dims(Round(width.value), HeightFor(width.value, naturalW, naturalH))
    else if Truthy(height, 0.0) && !Truthy(width, 0.0) then
      Dims(WidthFor(height.value, naturalW, naturalH), Round(height.value))
    else
      var w := if Truthy(width, 0.0) then width.value else naturalW as real;
      var h := if Truthy(height, 0.0) then height.value else naturalH as real;
      RoundOfInteger(naturalW);
      RoundOfInteger(naturalH);
      Dims(Round(w), Round(h))
  }

  /** Which size field an input event came from. */
  datatype Axis = WidthField | HeightField

  /** What handleAspectRatio writes: nothing, the height field or the width field. */
  datatype AspectEdit = NoEdit | SetHeight(h: int) | SetWidth(w: int)

  /** parseFloat(value) || 0. */
  function NumberOrZero(x: Option<real>): real
  {
    if x.Some? then x.value else 0.0
  }

  /** handleAspectRatio's decision: with keep-aspect on, an image loaded and the edited field
      not being written by the handler itself, a positive entry fixes the other field. */
  function AspectEditFor(keepAspect: bool, loaded: bool, updating: bool, edited: Axis,
                         w: real, h: real, naturalW: nat, naturalH: nat): (e: AspectEdit)
    requires loaded ==> naturalW >= 1 && naturalH >= 1
    ensures !keepAspect || !loaded || updating ==> e == NoEdit
    ensures e.SetHeight? <==> keepAspect && loaded && !updating && edited == WidthField && w > 0.0
    ensures e.SetWidth? <==> keepAspect && loaded && !updating && edited == HeightField && h > 0.0
    ensures e.SetHeight? ==>
              w * naturalH as real / naturalW as real - 0.5 < e.h as real <=
                w * naturalH as real / naturalW as real + 0.5
    ensures e.SetWidth? ==>
              h * naturalW as real / naturalH as real - 0.5 < e.w as real <=
                h * naturalW as real / naturalH as real + 0.5
  {
    if !keepAspect || !loaded || updating then NoEdit
    else if edited == WidthField && w > 0.0 then SetHeight(HeightFor(w, naturalW, naturalH))
    else if edited == HeightField && h > 0.0 then SetWidth(WidthFor(h, naturalW, naturalH))
    else NoEdit
  }

  // ---------------------------------------------------------------------------
  // How the rules agree

  /** The hd and 4k presets are setDimensionsWithAspect given only their width. */
  lemma {:induction false} WidePresetsKeepAspect(naturalW: nat, naturalH: nat)
    requires naturalW >= 1 && naturalH >= 1
    ensures PresetDims(naturalW, naturalH, "hd") == Some(DimensionsWithAspect(naturalW, naturalH, Some(1920.0), None))
    ensures PresetDims(naturalW, naturalH, "4k") == Some(DimensionsWithAspect(naturalW, naturalH, Some(3840.0), None))
  {
    RoundOfInteger(1920);
    RoundOfInteger(3840);
  }

  /** Typing a width with keep-aspect on gives the height setDimensionsWithAspect gives that width. */
  lemma {:induction false} TypingMatchesSetDimensions(naturalW: nat, naturalH: nat, w: real, h: real)
    requires naturalW >= 1 && naturalH >= 1 && w > 0.0 && h > 0.0
    ensures AspectEditFor(true, true, false, WidthField, w, h, naturalW, naturalH) ==
              SetHeight(DimensionsWithAspect(naturalW, naturalH, Some(w), None).h)
    ensures AspectEditFor(true, true, false, HeightField, w, h, naturalW, naturalH) ==
              SetWidth(DimensionsWithAspect(naturalW, naturalH, None, Some(h)).w)
  {
  }

  /** The natural size passes applyResize's validation exactly when neither side exceeds 10000. */
  lemma {:induction false} OriginalSizeValidates(naturalW: nat, naturalH: nat)
    requires naturalW >= 1 && naturalH >= 1
    ensures ValidateResize(ParseInt(Some(naturalW as real)), ParseInt(Some(naturalH as real))).Success? <==>
              naturalW <= MaxDimension && naturalH <= MaxDimension
  {
    assert ParseInt(Some(naturalW as real)) == Some(naturalW);
    assert ParseInt(Some(naturalH as real)) == Some(naturalH);
  }

  /** Every preset of a landscape image at most 5000 px wide and at most twice as wide
      as it is tall is a valid resize target. */
  lemma {:induction false} PresetsValidForLandscape(naturalW: nat, naturalH: nat, preset: string)
    requires 1 <= naturalH <= naturalW <= 5000 && naturalW <= 2 * naturalH
    requires preset in {"hd", "4k", "square", "half", "double"}
    ensures var d := PresetDims(naturalW, naturalH, preset).value;
            ValidateResize(Some(d.w), Some(d.h)).Success?
  {
    if preset == "hd" || preset == "4k" {
      var t := if preset == "hd" then 1920.0 else 3840.0;
      FractionAtMost(t, naturalW, naturalH);
      FractionAtLeastHalf(t, naturalW, naturalH);
    }
  }

  /** A 1000×500 image: hd gives 1920×960 and half gives 500×250. */
  lemma PresetExample()
    ensures PresetDims(1000, 500, "hd") == Some(Dims(1920, 960))
    ensures PresetDims(1000, 500, "half") == Some(Dims(500, 250))
    ensures PresetDims(1000, 500, "square") == Some(Dims(500, 500))
    ensures PresetDims(1000, 500, "thumbnail") == None
    // a tall image's 4k height exceeds the resize limit
    ensures PresetDims(1000, 3000, "4k") == Some(Dims(3840, 11520))
    ensures ValidateResize(Some(3840), Some(11520)) == Failure(DimensionsTooLarge)
  {
    assert 3840.0 * 3000 as real / 1000 as real == 11520.0;
    RoundOfInteger(11520);
    assert Ratio(1000, 500) == 2.0;
    assert 1920.0 / 2.0 == 960.0;
    RoundOfInteger(960);
    RoundOfInteger(500);
    RoundOfInteger(250);
    assert 1000 as real / 2.0 == 500 as real;
    assert 500 as real / 2.0 == 250 as real;
  }

  // ---------------------------------------------------------------------------
  // The panel

  /** The width and height fields of the resize panel with the image facts they read.
      A field holds the number its text spells, or None when it spells none. */
  class ResizeForm {
    var imgLoaded: bool
    var naturalW: nat
    var naturalH: nat
    var keepAspect: bool
    var widthValue: Option<real>
    var heightValue: Option<real>
    // dataset.updating on each field, set while handleAspectRatio writes it
    var widthUpdating: bool
    var heightUpdating: bool
    var info: Info

    ghost predicate Valid()
      reads this
    {
      imgLoaded ==> naturalW >= 1 && naturalH >= 1
    }

    /** The form before any load. The keep-aspect checkbox starts as the page markup sets it. */
    constructor (keepAspectChecked: bool)
      ensures Valid() && !imgLoaded && !widthUpdating && !heightUpdating
      ensures widthValue.None? && heightValue.None?
      ensures keepAspect == keepAspectChecked && info == Text("")
    {
      imgLoaded := false;
      naturalW, naturalH := 0, 0;
      keepAspect := keepAspectChecked;
      widthValue, heightValue := None, None;
      widthUpdating, heightUpdating := false, false;
      info := Text("");
    }

    /** The user ticks or clears the keep-aspect checkbox. */
    method OnKeepAspectToggled(checked: bool)
      modifies this`keepAspect
      ensures keepAspect == checked
    {
      keepAspect := checked;
    }

    /** An image load completes: the fields show its natural size (updateResizeInputs). */
    method OnImageLoaded(w: nat, h: nat)
      requires Valid() && w >= 1 && h >= 1
      modifies this`imgLoaded, this`naturalW, this`naturalH, this`widthValue, this`heightValue, this`info
      ensures Valid() && imgLoaded && naturalW == w && naturalH == h
      ensures widthValue == Some(w as real) && heightValue == Some(h as real)
      ensures info == Loaded(w, h)
    {
      imgLoaded, naturalW, naturalH := true, w, h;
      widthValue, heightValue := Some(w as real), Some(h as real);
      info := Loaded(w, h);
    }

    /** applyResize: the validated target size, or None with the reason in the info line. */
    method ApplyResize() returns (target: Option<Dims>)
      requires Valid()
      modifies this`info
      ensures Valid()
      ensures !imgLoaded ==> target.None? && info == Text(LoadImageFirst)
      ensures imgLoaded ==>
                var v := ValidateResize(ParseInt(widthValue), ParseInt(heightValue));
                && (v.Success? ==> target == Some(v.value) && info == ResizeApplied(v.value.w, v.value.h))
                && (v.Failure? ==> target.None? && info == Text(v.error))
      ensures target.Some? ==> 1 <= target.value.w <= MaxDimension && 1 <= target.value.h <= MaxDimension
    {
      if !imgLoaded {
        info := Text(LoadImageFirst);
        return None;
      }
      var v := ValidateResize(ParseInt(widthValue), ParseInt(heightValue));
      if v.Failure? {
        info := Text(v.error);
        return None;
      }
      target := Some(v.value);
      info := ResizeApplied(v.value.w, v.value.h);
    }

    /** applyPreset: write a preset's size into the fields; an unknown name changes no field. */
    method ApplyPreset(preset: string)
      requires Valid()
      modifies this`widthValue, this`heightValue, this`info
      ensures Valid()
      ensures !imgLoaded ==>
                info == Text(LoadImageFirst) && widthValue == old(widthValue) && heightValue == old(heightValue)
      ensures imgLoaded ==>
                var r := PresetDims(naturalW, naturalH, preset);
                && (r.None? ==> info == Text(UnknownPreset) && widthValue == old(widthValue) && heightValue == old(heightValue))
                && (r.Some? ==> widthValue == Some(r.value.w as real) && heightValue == Some(r.value.h as real)
                                && info == PresetApplied(preset, r.value.w, r.value.h))
    {
      if !imgLoaded {
        info := Text(LoadImageFirst);
        return;
      }
      var r := PresetDims(naturalW, naturalH, preset);
      if r.None? {
        info := Text(UnknownPreset);
        return;
      }
      widthValue := Some(r.value.w as real);
      heightValue := Some(r.value.h as real);
      info := PresetApplied(preset, r.value.w, r.value.h);
    }

    /** setDimensionsWithAspect: with an image loaded, write the derived size into both fields. */
    method SetDimensionsWithAspect(width: Option<real>, height: Option<real>)
      requires Valid()
      modifies this`widthValue, this`heightValue
      ensures Valid()
      ensures !imgLoaded ==> widthValue == old(widthValue) && heightValue == old(heightValue)
      ensures imgLoaded ==>
                var d := DimensionsWithAspect(naturalW, naturalH, width, height);
                widthValue == Some(d.w as real) && heightValue == Some(d.h as real)
    {
      if !imgLoaded {
        return;
      }
      var d := DimensionsWithAspect(naturalW, naturalH, width, height);
      widthValue := Some(d.w as real);
      heightValue := Some(d.h as real);
    }

    /** resetToOriginal: show the natural size again. */
    method ResetToOriginal()
      requires Valid()
      modifies this`widthValue, this`heightValue, this`info
      ensures Valid()
      ensures !imgLoaded ==>
                info == Text(LoadImageFirst) && widthValue == old(widthValue) && heightValue == old(heightValue)
      ensures imgLoaded ==>
                && widthValue == Some(naturalW as real) && heightValue == Some(naturalH as real)
                && info == ResetToOriginalSize(naturalW, naturalH)
                && ParseInt(widthValue) == Some(naturalW as int) && ParseInt(heightValue) == Some(naturalH as int)
    {
      if !imgLoaded {
        info := Text(LoadImageFirst);
        return;
      }
      widthValue := Some(naturalW as real);
      heightValue := Some(naturalH as real);
      info := ResetToOriginalSize(naturalW, naturalH);
    }

    /** An input event on the edited field: the field takes what was typed, then
        handleAspectRatio marks the other field as being written and, when the rule says
        so, writes it. */
    method OnSizeInput(edited: Axis, typed: Option<real>)
      requires Valid()
      modifies this`widthValue, this`heightValue, this`widthUpdating, this`heightUpdating
      ensures Valid()
      ensures var updating := if edited == WidthField then old(widthUpdating) else old(heightUpdating);
              var w0 := if edited == WidthField then typed else old(widthValue);
              var h0 := if edited == HeightField then typed else old(heightValue);
              var e := AspectEditFor(keepAspect, imgLoaded, updating, edited,
                                     NumberOrZero(w0), NumberOrZero(h0), naturalW, naturalH);
              && widthValue == (if e.SetWidth? then Some(e.w as real) else w0)
              && heightValue == (if e.SetHeight? then Some(e.h as real) else h0)
              && (keepAspect && imgLoaded && !updating ==>
                    if edited == WidthField then heightUpdating && widthUpdating == old(widthUpdating)
                    else widthUpdating && heightUpdating == old(heightUpdating))
              && (!(keepAspect && imgLoaded && !updating) ==>
                    widthUpdating == old(widthUpdating) && heightUpdating == old(heightUpdating))
    {
      if edited == WidthField {
        widthValue := typed;
      } else {
        heightValue := typed;
      }
      if !keepAspect || !imgLoaded {
        return;
      }
      var updating := if edited == WidthField then widthUpdating else heightUpdating;
      if updating {
        return;
      }
      var w := NumberOrZero(widthValue);
      var h := NumberOrZero(heightValue);
      if edited == WidthField {
        heightUpdating := true;
      } else {
        widthUpdating := true;
      }
      if edited == WidthField && w > 0.0 {
        heightValue := Some(HeightFor(w, naturalW, naturalH) as real);
      } else if edited == HeightField && h > 0.0 {
        widthValue := Some(WidthFor(h, naturalW, naturalH) as real);
      }
    }

    /** The zero-delay timer of handleAspectRatio: the other field is no longer being written. */
    method UpdatingTimerFired(edited: Axis)
      requires Valid()
      modifies this`widthUpdating, this`heightUpdating
      ensures Valid()
      ensures edited == WidthField ==> !heightUpdating && widthUpdating == old(widthUpdating)
      ensures edited == HeightField ==> !widthUpdating && heightUpdating == old(heightUpdating)
    {
      if edited == WidthField {
        heightUpdating := false;
      } else {
        widthUpdating := false;
      }
    }
  }
}
