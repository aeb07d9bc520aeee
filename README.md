# Quick Image Tools: crop engine, letterbox and resize rules

This project is a Dafny model of the editing core of Quick Image Tools. It is a browser side-panel image editor. The user loads a bitmap onto a canvas. There they drag out a crop rectangle and commit it, or type a new size into the resize panel.

The model has five modules.

- `Canvas` (canvas.dfy) is the letterbox transform. The working image of `currentW × currentH` pixels is scaled uniformly to fit the canvas, and centred. This is the one placement that both drawing and hit-testing use.
- `Crop` (crop.dfy) is the crop geometry, as pure functions over values:
  - mapping canvas points to image points and back;
  - the eight resize handles;
  - the 8-pixel hit test;
  - the pointer-down decision;
  - the per-handle edit rules;
  - rejecting edits thinner than a pixel;
  - the final clamp;
  - the 60% centred seed rectangle;
  - the source area and target size handed to the resampler when a crop is committed.
- `CropEditor` (crop_editor.dfy) is the event-driven half of `module/crop.js`. It is a class `Editor` with the editor state that the handlers update in place: the image sizes, the crop session, the pointer flag, the two crop-size fields, the canvas cursor and the info line. Each handler is a method proved against the `Crop` functions. For example, a pointer-move while dragging leaves `rect == Some(Settled(Dragged(old rect, …)))`, and it ends inside the image whenever the rectangle entering the step was at least a pixel in each direction.
- `Resize` (resize.dfy) holds the resize panel's rules, first as functions and then as the class `ResizeForm` that writes the two size fields:
  - validating a target size to whole pixels in [1, 10000];
  - the `hd`, `4k`, `square`, `half` and `double` presets;
  - deriving one side from the other at the natural aspect ratio;
  - going back to the natural size.
- `Numeric`, `Wrappers` and `Status` are shared pieces:
  - `Numeric` models JavaScript's `Math.min`, `Math.max`, the clamp idiom `Math.max(lo, Math.min(v, hi))`, `Math.round`, `parseInt` and the truthiness of a number;
  - `Wrappers` holds `Option` and `Result`;
  - `Status` holds the info-line messages.

Coordinates are `real`. `Math.round(x)` is `⌊x + 0.5⌋`, so halves round up. `Math.hypot(d) <= 8` is compared squared. A text field holds the number its text spells, or `None` when it spells none. `parseInt` truncates that number toward zero.

The crop rectangle lives in image space, and the model follows the code here. The comment in `module/state.js:11` says canvas coordinates, but every handler in `module/crop.js` reads and writes image coordinates.

`applyCrop` rescales both axes by `naturalW / currentW` (`module/crop.js:278-283`). Every image load sets the working size to the natural size, so that ratio is 1 in the running program. The model keeps the general formula, and `Crop.PlanExactAtNaturalSize` states what happens at ratio 1.

## Model

| member | source | states |
|---|---|---|
| Numeric.Min | module/crop.js:18-19 | `Math.min`: the result is at most both arguments and equals one of them. |
| Numeric.Max | module/crop.js:18-19 | `Math.max`: the result is at least both arguments and equals one of them. |
| Numeric.Clamp | module/crop.js:18-19 | The clamp is never below `lo`, and never above `hi` when `lo <= hi`. A value already in `[lo, hi]` comes back unchanged. When the value is at most `hi`, the result is `max(lo, v)`. When it is at least `hi`, the result is `max(lo, hi)`, so a value above `hi` comes back as `hi` whenever `lo <= hi`. |
| Numeric.Round | module/crop.js:226-227 | `Math.round`: the result lies within half a unit of `x`, with halves rounding up. |
| Numeric.ParseInt | module/crop.js:427-428 | A field that spells no number parses as NaN (`None`). Otherwise the result is the number truncated toward zero, within one unit of it on the side of zero. |
| Canvas.ImagePosition | module/canvas.js:48-57 | The scale is non-negative, and positive on a canvas with area. The scaled image fits inside the canvas on both axes and fills it on at least one. Both margins on each axis are equal and non-negative, so the image is centred. |
| Canvas.ScaleIsLargestFit | module/canvas.js:51 | No uniform scale larger than the chosen one keeps the image inside the canvas. |
| Canvas.RedrawBox | module/canvas.js:28-32 | `redraw` draws the image at exactly the offsets and scale that `getCanvasImagePosition` reports, so drawing and hit-testing agree. |
| Canvas.HalfSizeExample | module/canvas.js:48-57 | An 800×600 image on a 400×300 canvas is placed at (0,0) with scale 0.5. |
| Crop.CanvasToImage | module/crop.js:10-21 | With an image loaded, every canvas point maps into `[0, currentW] × [0, currentH]`. With no image, the point is returned as given. |
| Crop.ImageToCanvas | module/crop.js:24-32 | With no image, the point is returned as given. |
| Crop.ImagePointsLandOnCanvas | module/crop.js:24-32 | Every point of the image maps onto the canvas surface. |
| Crop.CanvasRoundTrip | module/crop.js:10-32 | For a canvas point on the drawn image, mapping to image space and back gives the point back. |
| Crop.ImageRoundTrip | module/crop.js:10-32 | For a point of the image, mapping to the canvas and back gives the point back. |
| Crop.HalfSizeClick | module/crop.js:10-21 | On an 800×600 image shown on a 400×300 canvas, the canvas point (100,100) is the image point (200,200). |
| Crop.Handles | module/crop.js:35-52 | There are eight handles, named in the order nw, n, ne, e, se, s, sw, w. |
| Crop.HandlesSitOnAnchors | module/crop.js:35-52 | Each handle is the canvas image of its corner or edge midpoint of the rectangle. |
| Crop.FirstHit | module/crop.js:79-86 | The index found is the first handle within 8 canvas pixels of the point: no earlier handle is within reach. Without a hit, the index is the number of handles. |
| Crop.Within | module/crop.js:80 | Definition of the hit test, with no ensures of its own: the point is within 8 canvas pixels of the handle, compared squared. `Crop.FirstHit` and `Crop.DownGrab` state how it picks a handle. |
| Crop.InsideOnCanvasIsInsideImage | module/crop.js:88-97 | For a rectangle inside the image, the canvas containment test holds exactly when the point is on the drawn image and its image point lies in the rectangle. Both directions are proved. |
| Crop.InsideOnCanvas | module/crop.js:88-97 | Definition of the canvas box test, with no ensures of its own. `Crop.InsideOnCanvasIsInsideImage` states what it means in image space, and `Crop.DownGrab` and `Crop.HoverPreviewsGrab` state its use. |
| Crop.DownGrab | module/crop.js:67-110 | With no rectangle, a press starts a new one. A handle grab is the first handle in order within reach. If no handle is within reach, the press moves the rectangle exactly when the point is inside it, and otherwise starts a new one. |
| Crop.CursorFor | module/crop.js:472-491 | Definition of `getCursorForHandle`, with no ensures of its own. `Crop.CursorNamesAxis` states which handles share a cursor. |
| Crop.HoverCursor | module/crop.js:501-524 | Definition of the hover decision, with no ensures of its own. `Crop.HoverPreviewsGrab` states that it shows the cursor of the drag a press would start. |
| Crop.CursorNamesAxis | module/crop.js:472-491 | Opposite handles show the same resize cursor. Two handles share a cursor exactly when they are equal or opposite. No handle shows the default cursor. |
| Crop.HoverPreviewsGrab | module/crop.js:493-525 | The hover cursor is the cursor of the drag that a press at the same point would start. Crosshair means a new rectangle. |
| Crop.DragTop | module/crop.js:136-139 | Definition of the n rule, with no ensures of its own. `Crop.TopAndLeftAnchorOppositeEdge` and `Crop.CornersCompose` state its properties. |
| Crop.DragBottom | module/crop.js:140-142 | Definition of the s rule, with no ensures of its own. `Crop.BottomAndRightKeepOrigin` and `Crop.CornersCompose` state its properties. |
| Crop.DragLeft | module/crop.js:143-146 | Definition of the w rule, with no ensures of its own. `Crop.TopAndLeftAnchorOppositeEdge` and `Crop.CornersCompose` state its properties. |
| Crop.DragRight | module/crop.js:147-149 | Definition of the e rule, with no ensures of its own. `Crop.BottomAndRightKeepOrigin`, `Crop.RightEdgeMonotone` and `Crop.CornersCompose` state its properties. |
| Crop.Proposed | module/crop.js:133-170 | Definition of the handle switch, with no ensures of its own. `Crop.CornersCompose` states that each corner is its two edge rules, and `Crop.NoInversion` states when the proposal is kept. |
| Crop.Moved | module/crop.js:126-131 | Definition of a move, with no ensures of its own. `Crop.MoveOnlyTranslates` states its properties. |
| Crop.Dragged | module/crop.js:126-175 | Definition of one drag edit, with no ensures of its own. `Crop.NoInversion`, `Crop.MoveOnlyTranslates` and `Crop.DragStepStaysInImage` state its properties, and `CropEditor.Editor.DragStep` is proved equal to it. |
| Crop.Settled | module/crop.js:177-181 | Definition of the final clamp, with no ensures of its own. `Crop.SettledIsInImage`, `Crop.SettledFixesInImage` and `Crop.SettledIdempotent` state its properties. |
| Crop.TopAndLeftAnchorOppositeEdge | module/crop.js:136-146 | The n and w rules keep the opposite edge fixed. They put the new origin in `[0, far edge − 1]` and leave the other axis alone. |
| Crop.BottomAndRightKeepOrigin | module/crop.js:140-149 | The s and e rules keep the origin. When there is room, they give a size in `[1, image edge − origin]`. |
| Crop.RightEdgeMonotone | module/crop.js:147-149 | Dragging the e handle further right never narrows the rectangle. Past the image edge, it stays at the edge. |
| Crop.CornersCompose | module/crop.js:150-169 | Each corner rule equals its two edge rules applied one after the other. |
| Crop.MoveOnlyTranslates | module/crop.js:126-131 | A move keeps the size. It keeps the origin in `[0, max − size]` on each axis where the rectangle fits. |
| Crop.NoInversion | module/crop.js:172-174 | A handle edit that would leave the rectangle thinner than a pixel is discarded, and the rectangle stays as it was. A rectangle at least a pixel in size stays at least a pixel after any drag step. |
| Crop.SettledIsInImage | module/crop.js:177-181 | Given a rectangle of at least a pixel and an image of at least a pixel, the final clamp yields `x, y >= 0`, `w, h >= 1`, `x + w <= maxW` and `y + h <= maxH`. |
| Crop.SettledFixesInImage | module/crop.js:177-181 | The final clamp is the identity on a rectangle already inside the image. |
| Crop.SettledIdempotent | module/crop.js:177-181 | Clamping twice is the same as clamping once. |
| Crop.DragStepStaysInImage | module/crop.js:126-181 | Any drag step followed by the final clamp leaves a rectangle of at least a pixel inside the image. |
| Crop.SeedRect | module/crop.js:225-233 | Definition of the 60% centred seed, with no ensures of its own. `Crop.SeedInImage` and `Crop.SeedExample` state its properties. |
| Crop.SouthEastDragExample | module/crop.js:166-181 | Dragging se from {0,0,100,100} to (250,250) in a 200×200 image stops at {0,0,200,200}. |
| Crop.SeedInImage | module/crop.js:225-233 | The seed rectangle lies inside the image. Its size is within half a pixel of 60% of the image. Its two margins differ by at most one pixel. |
| Crop.SeedExample | module/crop.js:225-233 | An 800×600 image is seeded with {160,120,480,360}. |
| Crop.PlanCrop | module/crop.js:274-293 | The source area lies in the natural bitmap: `0 <= sx <= naturalW − 1`, `1 <= sw` and `sx + sw <= naturalW`, and the same on y. The target size is the field's value when it is non-zero. Otherwise it is the rounded source size. |
| Crop.PlanExactAtNaturalSize | module/crop.js:278-293 | When the working size equals the natural size, the source area is the crop rectangle itself. |
| Crop.CropExample | module/crop.js:274-293 | Cropping {100,100,200,150} out of 800×600 reads that area and gives a 200×150 target. |
| CropEditor.Editor.CurrentView | module/canvas.js:48-50 | For a valid editor state, the view handed to the mapping has an image size whenever an image is loaded. |
| CropEditor.Editor.constructor | module/state.js:1-17 | The initial state has no image, no crop session and no pointer down. The crop fields and the info line are empty, and the cursor has no inline style. |
| CropEditor.Editor.FitCanvas | module/canvas.js:41-46 | The canvas takes the new size. |
| CropEditor.Editor.OnImageLoaded | module/imageLoader.js:16-25 | A load sets the natural and working sizes to the bitmap's size. It reports the size and discards the crop rectangle, leaving crop mode. |
| CropEditor.Editor.OnPointerDown | module/crop.js:59-111 | Outside crop mode, or without an image, the state is unchanged. Otherwise the pointer is down, and the session follows `DownGrab`. A new rectangle is 1×1 at the clamped image point with handle se. A handle grab records the handle and the start point. A move records the grab offset `imagePt − (x, y)`. |
| CropEditor.Editor.HoverOutcome | module/crop.js:493-499 | Definition of the cursor a hover sets, with no ensures of its own: the guard of `onPointerHover`, then `HoverCursor`. `CropEditor.Editor.OnPointerHover` states that the cursor becomes it. |
| CropEditor.Editor.OnPointerHover | module/crop.js:493-525 | With the pointer down, the cursor is unchanged, so during a drag it keeps the drag mode's cursor. Otherwise, outside crop mode, without a rectangle or without a loaded image, it is the default. Otherwise it is `HoverCursor`. |
| CropEditor.Editor.OnPointerMove | module/crop.js:113-189 | When not dragging, it only hovers. While dragging, the new rectangle is the drag step followed by the final clamp, and the fields show its rounded size. The cursor is the drag mode's cursor. A rectangle of at least a pixel ends the step inside the image. |
| CropEditor.Editor.DragStep | module/crop.js:126-175 | The edit of one pointer-move is exactly `Dragged`: a move, or the proposed rectangle when it is at least 1×1, else the old rectangle. |
| CropEditor.Editor.OnPointerUp | module/crop.js:191-206 | With no pointer down, nothing changes. Otherwise the drag handle, start point and offsets are cleared, the pointer is up, and the cursor is what hovering now shows. |
| CropEditor.Editor.StartCropMode | module/crop.js:208-241 | Without an image, it reports "Load an image first." and changes nothing else. Otherwise crop mode is on. A missing rectangle is seeded inside the image, and an existing one is kept. The fields show the rectangle's rounded size. |
| CropEditor.Editor.ExitCropMode | module/crop.js:243-256 | Crop mode is off, and the cursor is the default. |
| CropEditor.Editor.ResetCrop | module/crop.js:258-265 | A full reset discards the rectangle. Either way, crop mode ends, and leaving it resets the flag and the cursor. |
| CropEditor.Editor.ToggleCropMode | module/crop.js:406-412 | Without an image, it reports "Load an image first." and changes nothing else. Otherwise it flips crop mode and keeps the info line. Entering is `StartCropMode`: the applying flag is on, a missing rectangle is seeded with `SeedRect` and lies in the image, an existing one is kept, and the fields show its rounded size. Leaving is `ExitCropMode`: the flag is off, the cursor is the default, and the rectangle and fields are kept. |
| CropEditor.Editor.ApplyCrop | module/crop.js:267-322 | With no rectangle or no image, it reports the error and leaves crop mode as it was. Otherwise the plan is `PlanCrop` of the rectangle and the two fields, the source area lies in the natural bitmap, the report names target and source sizes, and crop mode ends. |
| CropEditor.Editor.OnCropWidthInput | module/crop.js:425-435 | The field holds what was typed. A positive whole width becomes the width, capped at `currentW − x`, and is written back. Any other entry leaves the rectangle alone. |
| CropEditor.Editor.OnCropHeightInput | module/crop.js:446-456 | The same rule for the height, capped at `currentH − y`. |
| Resize.ValidateResize | module/resize.js:9-18 | A size is accepted exactly when both sides are integers in [1, 10000], and the accepted size is the one given. Otherwise the error is the too-large message when both sides are at least 1, and the minimum-1px message when either is missing or below 1. |
| Resize.HeightFor | module/resize.js:62-63 | The height is the integer nearest to `t · naturalH / naturalW`, so the aspect ratio is kept to within rounding. |
| Resize.WidthFor | module/resize.js:64-65 | The width is the integer nearest to `t · naturalW / naturalH`. |
| Resize.PresetDims | module/resize.js:98-126 | The five preset names, and only those, give a size. hd and 4k fix the width at 1920 or 3840 and keep the aspect ratio to within rounding. square is the image's shorter side. half is each side halved, with .5 rounding up. double is each side doubled. |
| Resize.DimensionsWithAspect | module/resize.js:73-88 | With only a width given, the height follows at the aspect ratio, and likewise for only a height. With both or neither given, each side is the given value rounded, or else the natural size. |
| Resize.AspectEditFor | module/resize.js:49-66 | With keep-aspect off, no image, or the field being written by the handler, nothing is edited. A positive width entry sets the height at the aspect ratio, and a positive height entry sets the width. These are the only cases that edit. |
| Resize.WidePresetsKeepAspect | module/resize.js:73-81 | The hd and 4k presets give the same size as setDimensionsWithAspect with only the width 1920 or 3840. |
| Resize.TypingMatchesSetDimensions | module/resize.js:49-83 | Typing a side with keep-aspect on gives the other side that setDimensionsWithAspect gives. |
| Resize.OriginalSizeValidates | module/resize.js:9-18 | The natural size passes validation exactly when neither side exceeds 10000. |
| Resize.PresetsValidForLandscape | module/resize.js:98-123 | On an image at most 5000 px wide and at most twice as wide as tall, every preset is a valid resize target. |
| Resize.PresetExample | module/resize.js:98-126 | On 1000×500, hd gives 1920×960, half gives 500×250 and square gives 500×500. An unknown name gives nothing. 4k on 1000×3000 gives 3840×11520, which validation rejects as too large. |
| Resize.ResizeForm.constructor | module/state.js:1-17 | The form starts with no image, empty size fields, neither field marked as being written, an empty info line, and keep-aspect as the checkbox starts. |
| Resize.ResizeForm.OnKeepAspectToggled | module/resize.js:50 | The checkbox state that `handleAspectRatio` reads becomes the one the user set. |
| Resize.ResizeForm.OnImageLoaded | module/imageLoader.js:16-24 | A load shows the natural size in both fields. |
| Resize.ResizeForm.ApplyResize | module/resize.js:6-47 | Without an image, it reports "Load an image first.". Otherwise it parses both fields and validates them. An accepted size is returned and reported, and a rejected one is reported with its reason. Any returned size lies in [1, 10000]. |
| Resize.ResizeForm.ApplyPreset | module/resize.js:98-131 | Without an image, or for an unknown preset, it reports why and leaves both fields unchanged. Otherwise both fields show the preset's size, and the preset is reported. |
| Resize.ResizeForm.SetDimensionsWithAspect | module/resize.js:73-88 | Without an image, nothing changes. Otherwise both fields show `DimensionsWithAspect`. |
| Resize.ResizeForm.ResetToOriginal | module/resize.js:90-96 | Without an image, it reports "Load an image first.". Otherwise both fields show the natural size, which parses back to it, and the size is reported. |
| Resize.ResizeForm.OnSizeInput | module/resize.js:49-71 | The edited field first takes what was typed. The other field is then written exactly as `AspectEditFor` decides on the new values. It is marked as being written whenever the handler gets past its guards. |
| Resize.ResizeForm.UpdatingTimerFired | module/resize.js:68-70 | The timer clears the other field's mark. |

## Left out

- Drawing: the crop overlay (`drawCropOverlay`), the placeholder text and the drawing calls of `redraw` are rendering with no checkable output. Only the placement `redraw` computes is modelled.
- Pixel work: resampling with `drawImage`, `toDataURL` and the off-screen canvases of applyCrop and applyResize are browser calls. The model stops at the geometry and sizes handed to them. It leaves out the failure to get a 2D context and the catch paths with their messages.
- Image loading: `module/imageLoader.js` is asynchronous. `Editor.OnImageLoaded` and `ResizeForm.OnImageLoaded` stand for the completion of a load. A committed crop or resize does not itself load the new bitmap: the caller does that by calling `OnImageLoaded` with the target size. Load ordering, CORS, drag-and-drop, the file picker and `onerror` are not modelled.
- `sidepanel.js` (tab wiring and the reset button), `module/export.js` (encoding and download), `module/dom.js`, `module/ui.js` and `service-worker.js` are not part of this model. The reset button (`sidepanel.js:10-23`) does nothing unless an image is loaded and an original image was kept. Only loads from URLs other than `data:image` keep an original (`module/imageLoader.js:12-14`), so when every load so far came from a data URL the button does nothing. When it does act, its path is the same as `OnImageLoaded` on the original's size, apart from its message.
- Shared state: `module/state.js` is one state object and `module/ui.js` has one info line. The model splits them between `CropEditor.Editor` and `Resize.ResizeForm`, and each keeps its own copy of the loaded flag, the natural size and the info line. Nothing ties the copies together: every load must call both `OnImageLoaded` methods with the same size, and the info line is whichever was written last.
- Text parsing: a field is modelled as the number its text spells. Partly numeric text such as "12px", exponents, and the text a number is written back as are not modelled.
- The blur handlers that rewrite the crop fields (`module/crop.js:437-441`, `458-462`) are text resync only, and are left out.
- Pointer mechanics: pointer capture, `preventDefault` and `getBoundingClientRect` are left out. Handlers take the canvas point directly.
- The unused `quality` value in applyResize has no effect, and the unused `updateCropInputs` helper is never called. Both are left out.
- Buttons: their text and enabled state are not modelled.
- The page markup is not part of this model. The keep-aspect checkbox's initial state comes from it, so `ResizeForm.constructor` takes that state as a parameter. The canvas's initial cursor is taken to be no inline style (`""`), as `Editor.constructor` states.
- Floating point: reals replace IEEE doubles, so rounding error, NaN and infinities are not modelled.
- A zero-size canvas with an image loaded is excluded by the pointer handlers' preconditions. `canvasToImageCoords` in `module/crop.js` would divide by a zero scale there.
- `Editor.OnPointerMove`: containment holds after a drag step only when the rectangle entering it is at least a pixel in each direction. Two states break this. The crop-field handlers do not floor the size at 1 or re-clamp the origin. A press that starts a new rectangle (`module/crop.js:105-107`) puts a 1×1 rectangle at the clamped image point, so any press whose image x is above `currentW − 1`, or whose image y is above `currentH − 1`, leaves it reaching past the image edge until the next drag step clamps it. So containment is not claimed as an invariant of every state.
- `Editor.OnPointerDown`, `Editor.OnPointerMove` and the editor's other handlers require natural and working sizes of at least one pixel whenever an image is loaded (`Editor.Valid`). A loaded bitmap always has such a size.
