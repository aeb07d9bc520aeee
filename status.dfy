/** The one-line status texts the editor shows in its info line (module/ui.js setInfo).
    Fixed texts are kept verbatim; texts with numbers in them are kept as their numbers. */
module Status {

  datatype Info =
    | Text(message: string)
    | Loaded(w: int, h: int)
    | CropApplied(targetW: int, targetH: int, sourceW: int, sourceH: int)
    | ResizeApplied(w: int, h: int)
    | PresetApplied(preset: string, w: int, h: int)
    | ResetToOriginalSize(w: int, h: int)

  const LoadImageFirst: string := "Load an image first."
  const CannotApplyCrop: string := "Cannot apply crop: no crop area or image loaded"
  const InvalidDimensions: string := "Enter valid width and height (minimum 1px)."
  const DimensionsTooLarge: string := "Maximum dimensions are 10,000px to prevent memory issues."
  const UnknownPreset: string := "Unknown preset."
}
