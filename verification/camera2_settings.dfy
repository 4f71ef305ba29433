/**
 * The camera2 settings translator (`AndroidCamera2Settings`): it seeds the
 * template's defaults, derives the initial legacy settings from the template,
 * and turns the current legacy settings into a sparse request-settings set in
 * which every option equal to its template default is forced back to default.
 */
module Camera2Settings {
  import opened Wrappers
  import opened Geometry
  import opened Native
  import opened CameraSettings
  import opened ModeTables
  import opened Regions

  /**
   * The translator's state: the template (which seeding may extend), the
   * sensor's active array, the request-settings set it last produced, and the
   * legacy settings it inherits.
   */
  datatype Translator = Translator(template: Template, activeArray: Rect, request: Request, settings: Settings)

  /** The answer of a default query and the template after it. */
  datatype Query = Query(value: Value, template: Template)

  /** The keys whose defaults the constructor makes up when the template has none. */
  const SeededKeys: set<Key> :=
    {JpegQuality, ControlAeExposureCompensation, ControlVideoStabilizationMode, ControlAeLock, ControlAwbLock}

  /** The keys compared by value with their template default. */
  const ValueKeys: set<Key> := SeededKeys

  /** The keys written through `updateRequestSettingOrForceToDefault`. */
  const SuppressedKeys: set<Key> :=
    {ControlAeRegions, ControlAfRegions, ControlAeTargetFpsRange, JpegQuality, ControlAeExposureCompensation,
     ControlVideoStabilizationMode, ControlAeLock, ControlAwbLock, JpegThumbnailSize}

  /** The keys written unconditionally, outside default suppression. */
  const UnconditionalKeys: set<Key> :=
    {ControlAeMode, FlashMode, ControlAfMode, ControlSceneMode, ControlAwbMode, LensOpticalStabilizationMode}

  /** Every key the request-settings set receives. */
  const AllKeys: set<Key> :=
    {ControlAeRegions, ControlAfRegions, ControlAeTargetFpsRange, JpegQuality, ControlAeExposureCompensation,
     ControlAeMode, FlashMode, ControlAfMode, ControlSceneMode, ControlAwbMode,
     ControlVideoStabilizationMode, LensOpticalStabilizationMode, ControlAeLock, ControlAwbLock, JpegThumbnailSize}

  /** A suppressed key is compared by value, or is one of the regions, the frame-rate range and the thumbnail size. */
  lemma SuppressedKeyCases(key: Key)
    requires key in SuppressedKeys
    ensures key in ValueKeys || key == ControlAeRegions || key == ControlAfRegions ||
            key == ControlAeTargetFpsRange || key == JpegThumbnailSize
  {
  }

  /** Every seeded key has a default in the template. */
  predicate Seeded(template: Template)
  {
    SeededKeys <= template.Keys
  }

  /**
   * `queryTemplateDefaultOrMakeOneUp`: the template's value for `key`; when it
   * has none, `defaultDefault` is stored as the key's default and returned.
   */
  function QueryTemplateDefaultOrMakeOneUp(template: Template, key: Key, defaultDefault: Value): (q: Query)
    ensures key in template ==> q.value == template[key] && q.template == template
    ensures key !in template ==> q.value == defaultDefault
    ensures key in q.template && q.template[key] == q.value
    ensures q.template.Keys == template.Keys + {key}
    ensures forall k :: k in template ==> q.template[k] == template[k]
    ensures WellTyped(template) && HasKeyType(key, defaultDefault) ==> WellTyped(q.template)
  {
    if key in template then Query(template[key], template)
    else Query(defaultDefault, template[key := defaultDefault])
  }

  /** The legacy settings the constructor derives from `template`, starting from the inherited `base`. */
  function SettingsFromTemplate(template: Template, base: Settings): (s: Settings)
    requires WellTyped(template)
    requires FlashReadable(template)
    requires Seeded(template)
    ensures template[JpegQuality] == IntV(s.jpegCompressQuality)
    ensures template[ControlAeExposureCompensation] == IntV(s.exposureCompensationIndex)
    ensures template[ControlAeLock] == BoolV(s.autoExposureLocked)
    ensures template[ControlAwbLock] == BoolV(s.autoWhiteBalanceLocked)
    ensures s.videoStabilizationEnabled <==>
              template[ControlVideoStabilizationMode] == IntV(ControlVideoStabilizationModeOn)
  {
    assert HasKeyType(JpegQuality, template[JpegQuality]);
    assert HasKeyType(ControlAeExposureCompensation, template[ControlAeExposureCompensation]);
    assert HasKeyType(ControlAeLock, template[ControlAeLock]);
    assert HasKeyType(ControlAwbLock, template[ControlAwbLock]);
    var fps := Get(template, ControlAeTargetFpsRange);
    var af := Get(template, ControlAfMode);
    var scene := Get(template, ControlSceneMode);
    var awb := Get(template, ControlAwbMode);
    var thumbnail := Get(template, JpegThumbnailSize);
    base.(
      previewFpsRangeMin := if fps.Some? then fps.value.lower else base.previewFpsRangeMin,
      previewFpsRangeMax := if fps.Some? then fps.value.upper else base.previewFpsRangeMax,
      jpegCompressQuality := template[JpegQuality].n,
      exposureCompensationIndex := template[ControlAeExposureCompensation].n,
      currentFlashMode := FlashModeFromRequest(template),
      currentFocusMode := if af.Some? then FocusModeFromInt(af.value.n) else base.currentFocusMode,
      currentSceneMode := if scene.Some? then SceneModeFromInt(scene.value.n) else base.currentSceneMode,
      whiteBalance := if awb.Some? then WhiteBalanceFromInt(awb.value.n) else base.whiteBalance,
      videoStabilizationEnabled := template[ControlVideoStabilizationMode] == IntV(ControlVideoStabilizationModeOn),
      autoExposureLocked := template[ControlAeLock].b,
      autoWhiteBalanceLocked := template[ControlAwbLock].b,
      exifThumbnailSize :=
        if thumbnail.Some? then Size(thumbnail.value.width, thumbnail.value.height) else base.exifThumbnailSize)
  }

  /**
   * The other fields the constructor reads from the template: each is the
   * template's value when there is one and keeps the inherited value otherwise.
   */
  lemma SettingsFromTemplateReadsOptionalDefaults(template: Template, base: Settings)
    requires WellTyped(template) && FlashReadable(template) && Seeded(template)
    ensures var s := SettingsFromTemplate(template, base);
      && (ControlAeTargetFpsRange in template ==>
            template[ControlAeTargetFpsRange] == RangeV(s.previewFpsRangeMin, s.previewFpsRangeMax))
      && (ControlAeTargetFpsRange !in template ==>
            s.previewFpsRangeMin == base.previewFpsRangeMin && s.previewFpsRangeMax == base.previewFpsRangeMax)
      && (JpegThumbnailSize in template ==>
            template[JpegThumbnailSize] == SizeV(s.exifThumbnailSize.width, s.exifThumbnailSize.height))
      && (JpegThumbnailSize !in template ==> s.exifThumbnailSize == base.exifThumbnailSize)
      && s.meteringAreas == base.meteringAreas && s.focusAreas == base.focusAreas
  {
    assert ControlAeTargetFpsRange in template ==>
      HasKeyType(ControlAeTargetFpsRange, template[ControlAeTargetFpsRange]);
    assert JpegThumbnailSize in template ==> HasKeyType(JpegThumbnailSize, template[JpegThumbnailSize]);
  }

  /**
   * The legacy modes the constructor reads: flash from the AE and flash-unit
   * modes, and focus, scene and white balance through their reverse tables when
   * the template has a value (the inherited value stays otherwise).
   */
  lemma SettingsFromTemplateReadsModes(template: Template, base: Settings)
    requires WellTyped(template) && FlashReadable(template) && Seeded(template)
    ensures var s := SettingsFromTemplate(template, base);
      && s.currentFlashMode == FlashModeFromRequest(template)
      && (ControlAfMode in template ==> s.currentFocusMode == FocusModeFromInt(template[ControlAfMode].n))
      && (ControlAfMode !in template ==> s.currentFocusMode == base.currentFocusMode)
      && (ControlSceneMode in template ==> s.currentSceneMode == SceneModeFromInt(template[ControlSceneMode].n))
      && (ControlSceneMode !in template ==> s.currentSceneMode == base.currentSceneMode)
      && (ControlAwbMode in template ==> s.whiteBalance == WhiteBalanceFromInt(template[ControlAwbMode].n))
      && (ControlAwbMode !in template ==> s.whiteBalance == base.whiteBalance)
  {
  }

  /**
   * Querying a key a second time finds the default the first query stored or
   * returned, whatever fallback it offers, and changes nothing.
   */
  lemma QueryAgainChangesNothing(template: Template, key: Key, first: Value, second: Value)
    ensures var q1 := QueryTemplateDefaultOrMakeOneUp(template, key, first);
      var q2 := QueryTemplateDefaultOrMakeOneUp(q1.template, key, second);
      q2.value == q1.value && q2.template == q1.template
  {
  }

  /** A default query the constructor makes: the key and the value made up when the template has none. */
  datatype DefaultQuery = DefaultQuery(key: Key, defaultDefault: Value)

  /** The constructor's five default queries, in the order the constructor issues them. */
  const ConstructorQueries: seq<DefaultQuery> := [
    DefaultQuery(JpegQuality, IntV(0)),
    DefaultQuery(ControlAeExposureCompensation, IntV(0)),
    DefaultQuery(ControlVideoStabilizationMode, IntV(ControlVideoStabilizationModeOff)),
    DefaultQuery(ControlAeLock, BoolV(false)),
    DefaultQuery(ControlAwbLock, BoolV(false))
  ]

  /** The keys a list of queries asks about. */
  function QueriedKeys(queries: seq<DefaultQuery>): set<Key>
  {
    if |queries| == 0 then {} else {queries[0].key} + QueriedKeys(queries[1..])
  }

  /** The value the first query about `key` makes up. */
  function FirstDefault(queries: seq<DefaultQuery>, key: Key): Value
    requires key in QueriedKeys(queries)
  {
    if queries[0].key == key then queries[0].defaultDefault else FirstDefault(queries[1..], key)
  }

  /**
   * The template after running the queries one after another: every queried
   * key has a default, existing defaults are untouched, and a key the template
   * lacked holds the value its first query made up.
   */
  function SeedDefaults(template: Template, queries: seq<DefaultQuery>): (seeded: Template)
    decreases |queries|
    ensures seeded.Keys == template.Keys + QueriedKeys(queries)
    ensures forall k :: k in template ==> seeded[k] == template[k]
    ensures forall k :: k in seeded && k !in template ==> seeded[k] == FirstDefault(queries, k)
  {
    if |queries| == 0 then template
    else
      var q := QueryTemplateDefaultOrMakeOneUp(template, queries[0].key, queries[0].defaultDefault);
      SeedDefaults(q.template, queries[1..])
  }

  /** Seeding with well-typed made-up values keeps the template well typed. */
  lemma {:induction false} SeedDefaultsWellTyped(template: Template, queries: seq<DefaultQuery>)
    requires WellTyped(template)
    requires forall q :: q in queries ==> HasKeyType(q.key, q.defaultDefault)
    ensures WellTyped(SeedDefaults(template, queries))
    decreases |queries|
  {
    if |queries| > 0 {
      var q := QueryTemplateDefaultOrMakeOneUp(template, queries[0].key, queries[0].defaultDefault);
      assert forall r :: r in queries[1..] ==> r in queries;
      SeedDefaultsWellTyped(q.template, queries[1..]);
    }
  }

  /** The constructor asks about exactly the seeded keys. */
  lemma ConstructorQueriedKeys()
    ensures QueriedKeys(ConstructorQueries) == SeededKeys
  {
    var qs := ConstructorQueries;
    assert QueriedKeys(qs[4..]) == {ControlAwbLock};
    assert QueriedKeys(qs[3..]) == {ControlAeLock, ControlAwbLock};
    assert QueriedKeys(qs[2..]) == {ControlVideoStabilizationMode, ControlAeLock, ControlAwbLock};
    assert QueriedKeys(qs[1..]) ==
      {ControlAeExposureCompensation, ControlVideoStabilizationMode, ControlAeLock, ControlAwbLock};
  }

  /** The constructor does not ask about the AE mode or the flash-unit mode. */
  lemma ConstructorLeavesFlashKeys()
    ensures ControlAeMode !in QueriedKeys(ConstructorQueries) && FlashMode !in QueriedKeys(ConstructorQueries)
  {
    ConstructorQueriedKeys();
  }

  /** A key none of the queries asks about keeps its template entry, or its absence. */
  lemma SeedDefaultsKeepsUnqueried(template: Template, queries: seq<DefaultQuery>, key: Key)
    requires key !in QueriedKeys(queries)
    ensures Get(SeedDefaults(template, queries), key) == Get(template, key)
  {
  }

  /** The constructor's queries give exactly the seeded keys a default and touch no other key. */
  lemma ConstructorSeedsKeys(template: Template)
    ensures var seeded := SeedDefaults(template, ConstructorQueries);
      && seeded.Keys == template.Keys + SeededKeys
      && forall k :: k !in SeededKeys ==> Get(seeded, k) == Get(template, k)
  {
    ConstructorQueriedKeys();
    forall k | k !in SeededKeys
      ensures Get(SeedDefaults(template, ConstructorQueries), k) == Get(template, k)
    {
      SeedDefaultsKeepsUnqueried(template, ConstructorQueries, k);
    }
  }

  /** Queries that leave the flash keys alone leave the flash reading of the template unchanged. */
  lemma SeedDefaultsKeepsFlash(template: Template, queries: seq<DefaultQuery>)
    requires FlashReadable(template)
    requires ControlAeMode !in QueriedKeys(queries) && FlashMode !in QueriedKeys(queries)
    ensures FlashReadable(SeedDefaults(template, queries))
    ensures FlashModeFromRequest(SeedDefaults(template, queries)) == FlashModeFromRequest(template)
  {
    SeedDefaultsKeepsUnqueried(template, queries, ControlAeMode);
    SeedDefaultsKeepsUnqueried(template, queries, FlashMode);
    FlashModeFromRequestReadsFlashKeys(template, SeedDefaults(template, queries));
  }

  /** The values the constructor makes up are well typed, so seeding keeps the template well typed. */
  lemma ConstructorSeedsWellTyped(template: Template)
    requires WellTyped(template)
    ensures WellTyped(SeedDefaults(template, ConstructorQueries))
  {
    assert forall q :: q in ConstructorQueries ==> HasKeyType(q.key, q.defaultDefault);
    SeedDefaultsWellTyped(template, ConstructorQueries);
  }

  /** A seeded key the template lacks defaults to 0, 0, OFF, false and false respectively. */
  lemma ConstructorMadeUpDefaults(template: Template)
    ensures var seeded := SeedDefaults(template, ConstructorQueries);
      && (JpegQuality !in template ==> Get(seeded, JpegQuality) == Some(IntV(0)))
      && (ControlAeExposureCompensation !in template ==> Get(seeded, ControlAeExposureCompensation) == Some(IntV(0)))
      && (ControlVideoStabilizationMode !in template ==>
            Get(seeded, ControlVideoStabilizationMode) == Some(IntV(ControlVideoStabilizationModeOff)))
      && (ControlAeLock !in template ==> Get(seeded, ControlAeLock) == Some(BoolV(false)))
      && (ControlAwbLock !in template ==> Get(seeded, ControlAwbLock) == Some(BoolV(false)))
  {
    var qs := ConstructorQueries;
    ConstructorSeedsKeys(template);
    assert FirstDefault(qs[4..], ControlAwbLock) == BoolV(false);
    assert FirstDefault(qs[3..], ControlAwbLock) == BoolV(false);
    assert FirstDefault(qs[3..], ControlAeLock) == BoolV(false);
    assert FirstDefault(qs[2..], ControlAwbLock) == BoolV(false);
    assert FirstDefault(qs[2..], ControlAeLock) == BoolV(false);
    assert FirstDefault(qs[1..], ControlAwbLock) == BoolV(false);
    assert FirstDefault(qs[1..], ControlAeLock) == BoolV(false);
  }

  /**
   * The template after the constructor's default queries: every seeded key has
   * a default, the device's defaults are untouched, and the flash reading is
   * the device template's.
   */
  function ConstructorTemplate(template: Template): (seeded: Template)
    requires WellTyped(template)
    requires FlashReadable(template)
    ensures seeded.Keys == template.Keys + SeededKeys
    ensures forall k :: k in template ==> seeded[k] == template[k]
    ensures WellTyped(seeded) && FlashReadable(seeded)
    ensures FlashModeFromRequest(seeded) == FlashModeFromRequest(template)
  {
    ConstructorSeedsKeys(template);
    ConstructorSeedsWellTyped(template);
    ConstructorLeavesFlashKeys();
    SeedDefaultsKeepsFlash(template, ConstructorQueries);
    SeedDefaults(template, ConstructorQueries)
  }

  /**
   * The constructor, given the template the device produced: seeds the missing
   * defaults and reads the initial legacy settings from the seeded template.
   * The result can always produce request settings, because the
   * video-stabilisation default is among the seeded ones.
   */
  function Construct(template: Template, activeArray: Rect, base: Settings): (t: Translator)
    requires WellTyped(template)
    requires FlashReadable(template)
    ensures t.activeArray == activeArray && t.request == map[]
    ensures t.template == ConstructorTemplate(template)
    ensures t.settings == SettingsFromTemplate(t.template, base)
    ensures StabilizationReadable(t)
  {
    var seeded := ConstructorTemplate(template);
    Translator(seeded, activeArray, map[], SettingsFromTemplate(seeded, base))
  }

  /**
   * The video-stabilisation rule unboxes the template's value when software
   * stabilisation is off; Java throws if there is none.
   */
  predicate StabilizationReadable(t: Translator)
  {
    ControlVideoStabilizationMode in t.template || t.settings.videoStabilizationEnabled
  }

  /** The value the legacy setting of a value-compared key stands for. */
  function LegacyValue(s: Settings, key: Key): Value
    requires key in ValueKeys
  {
    match key
    case JpegQuality => IntV(s.jpegCompressQuality)
    case ControlAeExposureCompensation => IntV(s.exposureCompensationIndex)
    case ControlVideoStabilizationMode =>
      IntV(if s.videoStabilizationEnabled then ControlVideoStabilizationModeOn else ControlVideoStabilizationModeOff)
    case ControlAeLock => BoolV(s.autoExposureLocked)
    case ControlAwbLock => BoolV(s.autoWhiteBalanceLocked)
  }

  /**
   * The settings read from a seeded template reproduce its value-compared
   * defaults, the stabilisation default included when it is OFF or ON.
   */
  lemma SettingsFromTemplateReproducesDefaults(template: Template, base: Settings, key: Key)
    requires WellTyped(template) && FlashReadable(template) && Seeded(template)
    requires key in ValueKeys
    requires key == ControlVideoStabilizationMode ==>
               template[key] == IntV(ControlVideoStabilizationModeOff) ||
               template[key] == IntV(ControlVideoStabilizationModeOn)
    ensures template[key] == LegacyValue(SettingsFromTemplate(template, base), key)
  {
  }

  /**
   * The request value `getRequestSettings` computes for `key` before default
   * suppression.  It always has the key's declared type; the value-compared
   * keys carry their legacy value, the region keys are empty exactly when
   * their area list is, and the frame-rate range and thumbnail size always
   * have a value.
   */
  function PossibleChoice(t: Translator, key: Key): (choice: Option<Value>)
    ensures choice.Some? ==> HasKeyType(key, choice.value)
    ensures key in ValueKeys ==> choice == Some(LegacyValue(t.settings, key))
    ensures key == ControlAeRegions ==> (choice.None? <==> |t.settings.meteringAreas| == 0)
    ensures key == ControlAfRegions ==> (choice.None? <==> |t.settings.focusAreas| == 0)
    ensures key == ControlAeTargetFpsRange || key == JpegThumbnailSize ==> choice.Some?
  {
    var s := t.settings;
    match key
    case ControlAeRegions => RegionsValue(MeteringRegions(t.activeArray, s.meteringAreas))
    case ControlAfRegions => RegionsValue(MeteringRegions(t.activeArray, s.focusAreas))
    case ControlAeTargetFpsRange => Some(RangeV(s.previewFpsRangeMin, s.previewFpsRangeMax))
    case JpegQuality | ControlAeExposureCompensation | ControlVideoStabilizationMode | ControlAeLock | ControlAwbLock =>
      Some(LegacyValue(s, key))
    case ControlAeMode => IntValue(FlashToRequest(s.currentFlashMode).aeMode)
    case FlashMode => IntValue(FlashToRequest(s.currentFlashMode).flashMode)
    case ControlAfMode => IntValue(FocusToAfMode(s.currentFocusMode))
    case ControlSceneMode => IntValue(SceneToSceneMode(s.currentSceneMode))
    case ControlAwbMode => IntValue(WhiteBalanceToAwbMode(s.whiteBalance))
    case LensOpticalStabilizationMode =>
      if s.videoStabilizationEnabled then Some(IntV(LensOpticalStabilizationModeOff)) else None
    case JpegThumbnailSize => Some(SizeV(s.exifThumbnailSize.width, s.exifThumbnailSize.height))
  }

  /** Remapped regions as an optional request value. */
  function RegionsValue(regions: Option<seq<MeteringRectangle>>): (r: Option<Value>)
    ensures r.Some? <==> regions.Some?
    ensures regions.Some? ==> r.value == RegionsV(regions.value)
  {
    match regions
    case None => None
    case Some(rs) => Some(RegionsV(rs))
  }

  /**
   * `matchesTemplateDefault`: whether the current setting of `key` counts as
   * its template default.  A key without a rule counts as matching, so it is
   * never forced.
   */
  function MatchesTemplateDefault(t: Translator, key: Key): (matches: bool)
    requires key == ControlVideoStabilizationMode ==> StabilizationReadable(t)
    ensures key == ControlAeRegions || key == ControlAfRegions ==> (matches <==> PossibleChoice(t, key).None?)
    ensures key !in SuppressedKeys ==> matches
  {
    var s := t.settings;
    match key
    case ControlAeRegions => |s.meteringAreas| == 0
    case ControlAfRegions => |s.focusAreas| == 0
    case ControlAeTargetFpsRange =>
      (s.previewFpsRangeMin == 0 && s.previewFpsRangeMax == 0) ||
      (match Get(t.template, ControlAeTargetFpsRange)
       case Some(RangeV(lower, upper)) => s.previewFpsRangeMin == lower && s.previewFpsRangeMax == upper
       case _ => false)
    case JpegQuality => Some(IntV(s.jpegCompressQuality)) == Get(t.template, JpegQuality)
    case ControlAeExposureCompensation =>
      Some(IntV(s.exposureCompensationIndex)) == Get(t.template, ControlAeExposureCompensation)
    case ControlVideoStabilizationMode =>
      var vs := Get(t.template, ControlVideoStabilizationMode);
      // Java's grouping: (vs != null && (enabled && vs == ON)) || (!enabled && vs == OFF)
      (vs.Some? && (s.videoStabilizationEnabled && vs.value == IntV(ControlVideoStabilizationModeOn))) ||
      (!s.videoStabilizationEnabled && vs.value == IntV(ControlVideoStabilizationModeOff))
    case ControlAeLock => Some(BoolV(s.autoExposureLocked)) == Get(t.template, ControlAeLock)
    case ControlAwbLock => Some(BoolV(s.autoWhiteBalanceLocked)) == Get(t.template, ControlAwbLock)
    case JpegThumbnailSize =>
      (s.exifThumbnailSize.width == 0 && s.exifThumbnailSize.height == 0) ||
      (match Get(t.template, JpegThumbnailSize)
       case Some(SizeV(width, height)) => s.exifThumbnailSize.width == width && s.exifThumbnailSize.height == height
       case _ => false)
    case _ => true
  }

  /** `updateRequestSettingOrForceToDefault`: the entry stored under `key`, `None` when it matches its default. */
  function UpdateRequestSettingOrForceToDefault(t: Translator, key: Key, choice: Option<Value>)
    : (entry: Option<Value>)
    requires key == ControlVideoStabilizationMode ==> StabilizationReadable(t)
    ensures entry.Some? <==> !MatchesTemplateDefault(t, key) && choice.Some?
    ensures entry.Some? ==> entry == choice
  {
    if MatchesTemplateDefault(t, key) then None else choice
  }

  /**
   * `getRequestSettings`: every key the translator handles is written again,
   * each with the entry `RequestEntry` gives it; nothing else changes.
   */
  function GetRequestSettings(t: Translator): (t': Translator)
    requires StabilizationReadable(t)
    ensures t'.template == t.template && t'.activeArray == t.activeArray && t'.settings == t.settings
    ensures t'.request.Keys == t.request.Keys + AllKeys
    ensures forall k :: k in AllKeys ==> t'.request[k] == RequestEntry(t, k)
  {
    // Each key is set exactly once, so the order of `getRequestSettings`'s calls does not matter.
    t.(request := t.request + RequestMap(t))
  }

  /** The entries `getRequestSettings` writes, one per key it handles. */
  function RequestMap(t: Translator): (m: Request)
    requires StabilizationReadable(t)
  {
    map k | k in AllKeys :: RequestEntry(t, k)
  }

  /**
   * The entries written depend on the template, the active array and the
   * legacy settings, not on the previous request.
   */
  lemma RequestMapIgnoresRequest(t1: Translator, t2: Translator)
    requires StabilizationReadable(t1)
    requires t1.template == t2.template && t1.activeArray == t2.activeArray && t1.settings == t2.settings
    ensures StabilizationReadable(t2)
    ensures RequestMap(t1) == RequestMap(t2)
  {
    assert t1.(request := t2.request) == t2;
  }

  /**
   * The entry `getRequestSettings` stores under `key`: the flash, focus, scene
   * and white-balance keys carry their table's output unconditionally, optical
   * stabilisation is forced off under software stabilisation, and every other
   * key goes through `updateRequestSettingOrForceToDefault`.
   */
  function RequestEntry(t: Translator, key: Key): (entry: Option<Value>)
    requires StabilizationReadable(t)
    ensures key !in SuppressedKeys ==> entry == PossibleChoice(t, key)
    ensures key in SuppressedKeys ==> entry == UpdateRequestSettingOrForceToDefault(t, key, PossibleChoice(t, key))
  {
    match key
    case ControlAeMode | FlashMode | ControlAfMode | ControlSceneMode | ControlAwbMode | LensOpticalStabilizationMode =>
      PossibleChoice(t, key)
    case _ => UpdateRequestSettingOrForceToDefault(t, key, PossibleChoice(t, key))
  }

  /** `getRequestSettings` writes every key: the entry under `key` is the one `RequestEntry` gives it. */
  lemma RequestEntryAt(t: Translator, key: Key)
    requires StabilizationReadable(t)
    ensures key in GetRequestSettings(t).request
    ensures GetRequestSettings(t).request[key] == RequestEntry(t, key)
  {
    assert key in AllKeys;
  }
}
