/**
 * The legacy settings state the translator inherits from `CameraSettings`.
 * Its setters are modelled as plain field writes, so the state is one
 * immutable record that a caller updates with `s.(field := v)`.
 */
module CameraSettings {
  import opened Wrappers
  import opened Geometry
  import C = Capabilities

  /** A legacy metering or focus area: a rectangle in [-1000, 1000]^2 and a weight. */
  datatype Area = Area(rect: Rect, weight: int)

  datatype Settings = Settings(
    previewFpsRangeMin: int,
    previewFpsRangeMax: int,
    jpegCompressQuality: int,
    exposureCompensationIndex: int,
    currentFlashMode: Option<C.FlashMode>,
    currentFocusMode: Option<C.FocusMode>,
    currentSceneMode: Option<C.SceneMode>,
    whiteBalance: Option<C.WhiteBalance>,
    videoStabilizationEnabled: bool,
    autoExposureLocked: bool,
    autoWhiteBalanceLocked: bool,
    exifThumbnailSize: Size,
    meteringAreas: seq<Area>,
    focusAreas: seq<Area>)
}
