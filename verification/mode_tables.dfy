/**
 * The four case tables from legacy enumerations to native integers
 * (`updateRequestFlashMode`, `updateRequestFocusMode`, `updateRequestSceneMode`,
 * `updateRequestWhiteBalance`), and the reverse readings used when the
 * translator is built from a template.  A `None` output is "no override":
 * an unsupported legacy value is never a failure.
 */
module ModeTables {
  import opened Wrappers
  import opened Native
  import C = Capabilities

  /** The pair of native values a legacy flash mode becomes. */
  datatype FlashSettings = FlashSettings(aeMode: Option<int>, flashMode: Option<int>)

  /** The legacy flash modes that a template built from their own native values gives back. */
  predicate FlashRecoverable(f: C.FlashMode)
  {
    match f
    case Auto => true
    case Off => true
    case On => true
    case RedEye => true
    case _ => false
  }

  /** A template holding exactly the native flash values, as the request would set them. */
  function FlashTemplate(fs: FlashSettings): (t: Template)
    ensures ControlAeMode in t <==> fs.aeMode.Some?
    ensures FlashMode in t <==> fs.flashMode.Some?
    ensures WellTyped(t)
  {
    var ae: Template := if fs.aeMode.Some? then map[ControlAeMode := IntV(fs.aeMode.value)] else map[];
    if fs.flashMode.Some? then ae[FlashMode := IntV(fs.flashMode.value)] else ae
  }

  /**
   * `flashModeFromRequest` unboxes the template's FLASH_MODE when the AE mode is
   * ON_ALWAYS_FLASH; Java throws if it is absent, so the template must hold it then.
   */
  predicate FlashReadable(template: Template)
  {
    Get(template, ControlAeMode) == Some(IntV(ControlAeModeOnAlwaysFlash)) ==> FlashMode in template
  }

  /** The legacy flash mode a template implies, read from its AE mode and flash-unit mode. */
  function FlashModeFromRequest(template: Template): (f: Option<C.FlashMode>)
    requires FlashReadable(template)
    ensures ControlAeMode !in template ==> f.None?
    ensures f != Some(C.FlashMode.NoFlash)
    ensures f == Some(C.FlashMode.Torch) <==>
              Get(template, ControlAeMode) == Some(IntV(ControlAeModeOnAlwaysFlash)) &&
              Get(template, FlashMode) == Some(IntV(FlashModeTorch))
    ensures f.Some? <==>
              Get(template, ControlAeMode) in
                {Some(IntV(ControlAeModeOn)), Some(IntV(ControlAeModeOnAutoFlash)),
                 Some(IntV(ControlAeModeOnAlwaysFlash)), Some(IntV(ControlAeModeOnAutoFlashRedeye))}
    ensures Get(template, ControlAeMode) == Some(IntV(ControlAeModeOn)) ==> f == Some(C.FlashMode.Off)
    ensures Get(template, ControlAeMode) == Some(IntV(ControlAeModeOnAutoFlash)) ==> f == Some(C.FlashMode.Auto)
    ensures Get(template, ControlAeMode) == Some(IntV(ControlAeModeOnAutoFlashRedeye)) ==> f == Some(C.FlashMode.RedEye)
    ensures Get(template, ControlAeMode) == Some(IntV(ControlAeModeOnAlwaysFlash)) ==>
              (f == Some(C.FlashMode.On) <==> Get(template, FlashMode) != Some(IntV(FlashModeTorch)))
  {
    match Get(template, ControlAeMode)
    case Some(IntV(ae)) =>
      if ae == ControlAeModeOn then Some(C.FlashMode.Off)
      else if ae == ControlAeModeOnAutoFlash then Some(C.FlashMode.Auto)
      else if ae == ControlAeModeOnAlwaysFlash then
        if template[FlashMode] == IntV(FlashModeTorch) then Some(C.FlashMode.Torch) else Some(C.FlashMode.On)
      else if ae == ControlAeModeOnAutoFlashRedeye then Some(C.FlashMode.RedEye)
      else None
    case _ => None
  }

  /** The flash reading depends on the AE mode and flash-unit mode entries only. */
  lemma FlashModeFromRequestReadsFlashKeys(t1: Template, t2: Template)
    requires FlashReadable(t1)
    requires Get(t1, ControlAeMode) == Get(t2, ControlAeMode) && Get(t1, FlashMode) == Get(t2, FlashMode)
    ensures FlashReadable(t2)
    ensures FlashModeFromRequest(t1) == FlashModeFromRequest(t2)
  {
  }

  /** The AE mode and flash-unit mode a legacy flash mode is written as. */
  function FlashToRequest(f: Option<C.FlashMode>): (r: FlashSettings)
    ensures (r.aeMode.Some? || r.flashMode.Some?) <==> f.Some? && f.value != C.FlashMode.NoFlash
    ensures r.aeMode.None? && r.flashMode.Some? <==> f == Some(C.FlashMode.Torch)
    ensures f.Some? && FlashRecoverable(f.value) ==>
              FlashReadable(FlashTemplate(r)) && FlashModeFromRequest(FlashTemplate(r)) == f
    ensures f == Some(C.FlashMode.Torch) ==>
              FlashReadable(FlashTemplate(r)) && FlashModeFromRequest(FlashTemplate(r)).None?
    ensures r.aeMode == Some(ControlAeModeOn) <==> f == Some(C.FlashMode.Off)
    ensures r.aeMode == Some(ControlAeModeOnAutoFlash) <==> f == Some(C.FlashMode.Auto)
    ensures r.aeMode == Some(ControlAeModeOnAlwaysFlash) <==> f == Some(C.FlashMode.On)
    ensures r.aeMode == Some(ControlAeModeOnAutoFlashRedeye) <==> f == Some(C.FlashMode.RedEye)
    ensures r.flashMode == Some(FlashModeOff) <==> f == Some(C.FlashMode.Off)
    ensures r.flashMode == Some(FlashModeSingle) <==> f == Some(C.FlashMode.On)
    ensures r.flashMode == Some(FlashModeTorch) <==> f == Some(C.FlashMode.Torch)
    ensures r.flashMode.Some? ==> f in {Some(C.FlashMode.Off), Some(C.FlashMode.On), Some(C.FlashMode.Torch)}
  {
    match f
    case None => FlashSettings(None, None)
    case Some(mode) =>
      match mode
      case Auto => FlashSettings(Some(ControlAeModeOnAutoFlash), None)
      case Off => FlashSettings(Some(ControlAeModeOn), Some(FlashModeOff))
      case On => FlashSettings(Some(ControlAeModeOnAlwaysFlash), Some(FlashModeSingle))
      case Torch => FlashSettings(None, Some(FlashModeTorch))
      case RedEye => FlashSettings(Some(ControlAeModeOnAutoFlashRedeye), None)
      case NoFlash => FlashSettings(None, None)
  }

  /** The legacy focus mode a native AF mode stands for; `None` for a mode without one. */
  function FocusModeFromInt(n: int): (f: Option<C.FocusMode>)
    ensures f != Some(C.FocusMode.Infinity)
    ensures f.None? <==> !(ControlAfModeOff <= n <= ControlAfModeEdof)
  {
    if n == ControlAfModeAuto then Some(C.FocusMode.Auto)
    else if n == ControlAfModeContinuousPicture then Some(C.FocusMode.ContinuousPicture)
    else if n == ControlAfModeContinuousVideo then Some(C.FocusMode.ContinuousVideo)
    else if n == ControlAfModeEdof then Some(C.FocusMode.ExtendedDof)
    else if n == ControlAfModeOff then Some(C.FocusMode.Fixed)
    else if n == ControlAfModeMacro then Some(C.FocusMode.Macro)
    else None
  }

  /** The native AF mode written for a legacy focus mode. */
  function FocusToAfMode(f: Option<C.FocusMode>): (r: Option<int>)
    ensures r.None? <==> f.None? || f == Some(C.FocusMode.Infinity)
    ensures r.Some? ==> FocusModeFromInt(r.value) == f
  {
    match f
    case None => None
    case Some(mode) =>
      match mode
      case Auto => Some(ControlAfModeAuto)
      case ContinuousPicture => Some(ControlAfModeContinuousPicture)
      case ContinuousVideo => Some(ControlAfModeContinuousVideo)
      case ExtendedDof => Some(ControlAfModeEdof)
      case Fixed => Some(ControlAfModeOff)
      case Macro => Some(ControlAfModeMacro)
      case Infinity => None
  }

  /** The legacy scene mode a native scene mode stands for; `None` for a mode without one. */
  function SceneModeFromInt(n: int): (s: Option<C.SceneMode>)
    ensures s != Some(C.SceneMode.Hdr) && s != Some(C.SceneMode.NightPortrait)
    ensures s != Some(C.SceneMode.NoSceneMode)
    ensures s.None? <==>
              !(ControlSceneModeDisabled <= n <= ControlSceneModeBarcode) ||
              n == ControlSceneModeFacePriority || n == ControlSceneModeNightPortrait
  {
    if n == ControlSceneModeDisabled then Some(C.SceneMode.Auto)
    else if n == ControlSceneModeAction then Some(C.SceneMode.Action)
    else if n == ControlSceneModeBarcode then Some(C.SceneMode.Barcode)
    else if n == ControlSceneModeBeach then Some(C.SceneMode.Beach)
    else if n == ControlSceneModeCandlelight then Some(C.SceneMode.Candlelight)
    else if n == ControlSceneModeFireworks then Some(C.SceneMode.Fireworks)
    else if n == ControlSceneModeLandscape then Some(C.SceneMode.Landscape)
    else if n == ControlSceneModeNight then Some(C.SceneMode.Night)
    else if n == ControlSceneModeParty then Some(C.SceneMode.Party)
    else if n == ControlSceneModePortrait then Some(C.SceneMode.Portrait)
    else if n == ControlSceneModeSnow then Some(C.SceneMode.Snow)
    else if n == ControlSceneModeSports then Some(C.SceneMode.Sports)
    else if n == ControlSceneModeSteadyphoto then Some(C.SceneMode.Steadyphoto)
    else if n == ControlSceneModeSunset then Some(C.SceneMode.Sunset)
    else if n == ControlSceneModeTheatre then Some(C.SceneMode.Theatre)
    else None
  }

  /** The native scene mode written for a legacy scene mode. */
  function SceneToSceneMode(s: Option<C.SceneMode>): (r: Option<int>)
    ensures r.None? <==>
              s.None? || s == Some(C.SceneMode.NoSceneMode) ||
              s == Some(C.SceneMode.Hdr) || s == Some(C.SceneMode.NightPortrait)
    ensures r == Some(ControlSceneModeDisabled) <==> s == Some(C.SceneMode.Auto)
    ensures r.Some? ==> SceneModeFromInt(r.value) == s
  {
    match s
    case None => None
    case Some(mode) =>
      match mode
      case Auto => Some(ControlSceneModeDisabled)
      case Action => Some(ControlSceneModeAction)
      case Barcode => Some(ControlSceneModeBarcode)
      case Beach => Some(ControlSceneModeBeach)
      case Candlelight => Some(ControlSceneModeCandlelight)
      case Fireworks => Some(ControlSceneModeFireworks)
      case Landscape => Some(ControlSceneModeLandscape)
      case Night => Some(ControlSceneModeNight)
      case Party => Some(ControlSceneModeParty)
      case Portrait => Some(ControlSceneModePortrait)
      case Snow => Some(ControlSceneModeSnow)
      case Sports => Some(ControlSceneModeSports)
      case Steadyphoto => Some(ControlSceneModeSteadyphoto)
      case Sunset => Some(ControlSceneModeSunset)
      case Theatre => Some(ControlSceneModeTheatre)
      case Hdr => None
      case NightPortrait => None
      case NoSceneMode => None
  }

  /** The legacy white balance a native AWB mode stands for; `None` for a mode without one. */
  function WhiteBalanceFromInt(n: int): (w: Option<C.WhiteBalance>)
    ensures w.None? <==> !(ControlAwbModeAuto <= n <= ControlAwbModeShade)
  {
    if n == ControlAwbModeAuto then Some(C.WhiteBalance.Auto)
    else if n == ControlAwbModeCloudyDaylight then Some(C.WhiteBalance.CloudyDaylight)
    else if n == ControlAwbModeDaylight then Some(C.WhiteBalance.Daylight)
    else if n == ControlAwbModeFluorescent then Some(C.WhiteBalance.Fluorescent)
    else if n == ControlAwbModeIncandescent then Some(C.WhiteBalance.Incandescent)
    else if n == ControlAwbModeShade then Some(C.WhiteBalance.Shade)
    else if n == ControlAwbModeTwilight then Some(C.WhiteBalance.Twilight)
    else if n == ControlAwbModeWarmFluorescent then Some(C.WhiteBalance.WarmFluorescent)
    else None
  }

  /** The native AWB mode written for a legacy white balance. */
  function WhiteBalanceToAwbMode(w: Option<C.WhiteBalance>): (r: Option<int>)
    ensures r.None? <==> w.None?
    ensures r.Some? ==> WhiteBalanceFromInt(r.value) == w
  {
    match w
    case None => None
    case Some(mode) =>
      match mode
      case Auto => Some(ControlAwbModeAuto)
      case CloudyDaylight => Some(ControlAwbModeCloudyDaylight)
      case Daylight => Some(ControlAwbModeDaylight)
      case Fluorescent => Some(ControlAwbModeFluorescent)
      case Incandescent => Some(ControlAwbModeIncandescent)
      case Shade => Some(ControlAwbModeShade)
      case Twilight => Some(ControlAwbModeTwilight)
      case WarmFluorescent => Some(ControlAwbModeWarmFluorescent)
  }

  /** Two legacy focus modes that produce the same AF mode are the same mode. */
  lemma FocusTableInjective(a: Option<C.FocusMode>, b: Option<C.FocusMode>)
    requires FocusToAfMode(a).Some? && FocusToAfMode(a) == FocusToAfMode(b)
    ensures a == b
  {
    assert FocusModeFromInt(FocusToAfMode(a).value) == a;
    assert FocusModeFromInt(FocusToAfMode(b).value) == b;
  }

  /** Two legacy scene modes that produce the same scene mode are the same mode. */
  lemma SceneTableInjective(a: Option<C.SceneMode>, b: Option<C.SceneMode>)
    requires SceneToSceneMode(a).Some? && SceneToSceneMode(a) == SceneToSceneMode(b)
    ensures a == b
  {
    assert SceneModeFromInt(SceneToSceneMode(a).value) == a;
    assert SceneModeFromInt(SceneToSceneMode(b).value) == b;
  }

  /** Two legacy white balances that produce the same AWB mode are the same. */
  lemma WhiteBalanceTableInjective(a: Option<C.WhiteBalance>, b: Option<C.WhiteBalance>)
    requires WhiteBalanceToAwbMode(a).Some? && WhiteBalanceToAwbMode(a) == WhiteBalanceToAwbMode(b)
    ensures a == b
  {
    assert WhiteBalanceFromInt(WhiteBalanceToAwbMode(a).value) == a;
    assert WhiteBalanceFromInt(WhiteBalanceToAwbMode(b).value) == b;
  }

  /** Every native focus mode with a legacy reading is written back as itself. */
  lemma FocusReverseIsInverse(n: int)
    requires FocusModeFromInt(n).Some?
    ensures FocusToAfMode(FocusModeFromInt(n)) == Some(n)
  {
  }

  /** Every native scene mode with a legacy reading is written back as itself. */
  lemma SceneReverseIsInverse(n: int)
    requires SceneModeFromInt(n).Some?
    ensures SceneToSceneMode(SceneModeFromInt(n)) == Some(n)
  {
  }

  /** Every native AWB mode with a legacy reading is written back as itself. */
  lemma WhiteBalanceReverseIsInverse(n: int)
    requires WhiteBalanceFromInt(n).Some?
    ensures WhiteBalanceToAwbMode(WhiteBalanceFromInt(n)) == Some(n)
  {
  }
}
