/**
 * The native (camera2) side: the request keys the translator touches, the
 * values they carry, the integer constants of the enumerated keys, and the
 * two maps the translator works on.  The constants are the framework's
 * `CameraMetadata` values.
 */
module Native {
  import opened Wrappers

  /** Every capture-request key the translator reads or writes. */
  datatype Key =
    | ControlAeRegions
    | ControlAfRegions
    | ControlAeTargetFpsRange
    | JpegQuality
    | ControlAeExposureCompensation
    | ControlAeMode
    | FlashMode
    | ControlAfMode
    | ControlSceneMode
    | ControlAwbMode
    | ControlVideoStabilizationMode
    | LensOpticalStabilizationMode
    | ControlAeLock
    | ControlAwbLock
    | JpegThumbnailSize

  /** A native metering region: origin, extent and weight, in active-array pixels. */
  datatype MeteringRectangle = MeteringRectangle(x: int, y: int, width: int, height: int, weight: int)

  /** The value carried by a key: an integer (also the byte of JPEG quality), a flag, a range, a size or regions. */
  datatype Value =
    | IntV(n: int)
    | BoolV(b: bool)
    | RangeV(lower: int, upper: int)
    | SizeV(width: int, height: int)
    | RegionsV(regions: seq<MeteringRectangle>)

  /** The template's defaults: a key that is absent has no default. */
  type Template = map<Key, Value>

  /** The request-settings set: a present key mapped to `None` is forced to the template default. */
  type Request = map<Key, Option<Value>>

  // CONTROL_AE_MODE
  const ControlAeModeOff := 0
  const ControlAeModeOn := 1
  const ControlAeModeOnAutoFlash := 2
  const ControlAeModeOnAlwaysFlash := 3
  const ControlAeModeOnAutoFlashRedeye := 4

  // FLASH_MODE
  const FlashModeOff := 0
  const FlashModeSingle := 1
  const FlashModeTorch := 2

  // CONTROL_AF_MODE
  const ControlAfModeOff := 0
  const ControlAfModeAuto := 1
  const ControlAfModeMacro := 2
  const ControlAfModeContinuousVideo := 3
  const ControlAfModeContinuousPicture := 4
  const ControlAfModeEdof := 5

  // CONTROL_SCENE_MODE
  const ControlSceneModeDisabled := 0
  const ControlSceneModeFacePriority := 1
  const ControlSceneModeAction := 2
  const ControlSceneModePortrait := 3
  const ControlSceneModeLandscape := 4
  const ControlSceneModeNight := 5
  const ControlSceneModeNightPortrait := 6
  const ControlSceneModeTheatre := 7
  const ControlSceneModeBeach := 8
  const ControlSceneModeSnow := 9
  const ControlSceneModeSunset := 10
  const ControlSceneModeSteadyphoto := 11
  const ControlSceneModeFireworks := 12
  const ControlSceneModeSports := 13
  const ControlSceneModeParty := 14
  const ControlSceneModeCandlelight := 15
  const ControlSceneModeBarcode := 16

  // CONTROL_AWB_MODE
  const ControlAwbModeOff := 0
  const ControlAwbModeAuto := 1
  const ControlAwbModeIncandescent := 2
  const ControlAwbModeFluorescent := 3
  const ControlAwbModeWarmFluorescent := 4
  const ControlAwbModeDaylight := 5
  const ControlAwbModeCloudyDaylight := 6
  const ControlAwbModeTwilight := 7
  const ControlAwbModeShade := 8

  // CONTROL_VIDEO_STABILIZATION_MODE and LENS_OPTICAL_STABILIZATION_MODE
  const ControlVideoStabilizationModeOff := 0
  const ControlVideoStabilizationModeOn := 1
  const LensOpticalStabilizationModeOff := 0

  /** The template lookup `Builder.get`: `None` when the template has no value. */
  function Get(template: Template, key: Key): (r: Option<Value>)
    ensures r.Some? <==> key in template
    ensures r.Some? ==> r.value == template[key]
  {
    if key in template then Some(template[key]) else None
  }

  /** The Java value type each key is declared with (`Key<T>`). */
  predicate HasKeyType(key: Key, v: Value)
  {
    match key
    case ControlAeRegions => v.RegionsV?
    case ControlAfRegions => v.RegionsV?
    case ControlAeTargetFpsRange => v.RangeV?
    case ControlAeLock => v.BoolV?
    case ControlAwbLock => v.BoolV?
    case JpegThumbnailSize => v.SizeV?
    case _ => v.IntV?
  }

  /** A template every value of which has its key's declared type, as Java's typed keys guarantee. */
  predicate WellTyped(template: Template)
  {
    forall k :: k in template ==> HasKeyType(k, template[k])
  }

  /** An optional native integer as an optional request value. */
  function IntValue(n: Option<int>): (r: Option<Value>)
    ensures r.Some? <==> n.Some?
    ensures n.Some? ==> r.value == IntV(n.value)
  {
    match n
    case None => None
    case Some(i) => Some(IntV(i))
  }
}
