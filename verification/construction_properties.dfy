/**
 * What a freshly constructed translator asks of the camera: nothing it has
 * not changed, and for a torch template the torch it found.
 */
module ConstructionProperties {
  import opened Wrappers
  import opened Geometry
  import opened Native
  import opened CameraSettings
  import C = Capabilities
  import opened ModeTables
  import opened Camera2Settings
  import opened RequestProperties

  /**
   * The legacy state a translator starts from before it reads the template:
   * no areas, an unset (0, 0) frame-rate range when the template has none, and
   * a 0x0 thumbnail when the template has none.
   */
  predicate UntouchedBase(template: Template, base: Settings)
  {
    && |base.meteringAreas| == 0 && |base.focusAreas| == 0
    && (ControlAeTargetFpsRange !in template ==> base.previewFpsRangeMin == 0 && base.previewFpsRangeMax == 0)
    && (JpegThumbnailSize !in template ==> base.exifThumbnailSize == Size(0, 0))
  }

  /** The device's video-stabilisation default, if any, is one of the two modes the framework defines. */
  predicate KnownStabilizationDefault(template: Template)
  {
    ControlVideoStabilizationMode in template ==>
      template[ControlVideoStabilizationMode] in
        {IntV(ControlVideoStabilizationModeOff), IntV(ControlVideoStabilizationModeOn)}
  }

  /** The seeded video-stabilisation default is OFF or ON whenever the device's was. */
  lemma SeededStabilizationKnown(template: Template)
    requires WellTyped(template) && FlashReadable(template)
    requires KnownStabilizationDefault(template)
    ensures ConstructorTemplate(template)[ControlVideoStabilizationMode] in
              {IntV(ControlVideoStabilizationModeOff), IntV(ControlVideoStabilizationModeOn)}
  {
    ConstructorMadeUpDefaults(template);
  }

  /**
   * When the device's stabilisation default, if any, is OFF or ON, every
   * value-compared setting equals its seeded default right after
   * construction, so none is forced.
   */
  lemma FreshValueEntryForcesNothing(template: Template, activeArray: Rect, base: Settings, key: Key)
    requires WellTyped(template) && FlashReadable(template)
    requires KnownStabilizationDefault(template)
    requires key in ValueKeys
    ensures RequestEntry(Construct(template, activeArray, base), key).None?
  {
    var t := Construct(template, activeArray, base);
    ValueKeyEntry(t, key);
    if key == ControlVideoStabilizationMode {
      SeededStabilizationKnown(template);
    }
    SettingsFromTemplateReproducesDefaults(t.template, base, key);
  }

  /**
   * Right after construction, from an untouched base, the regions, the
   * frame-rate range and the thumbnail size all match their defaults.
   */
  lemma FreshOptionalEntriesForceNothing(template: Template, activeArray: Rect, base: Settings)
    requires WellTyped(template) && FlashReadable(template)
    requires UntouchedBase(template, base)
    ensures var t := Construct(template, activeArray, base);
      && RequestEntry(t, ControlAeRegions).None? && RequestEntry(t, ControlAfRegions).None?
      && RequestEntry(t, ControlAeTargetFpsRange).None? && RequestEntry(t, JpegThumbnailSize).None?
  {
    var t := Construct(template, activeArray, base);
    SettingsFromTemplateReadsOptionalDefaults(t.template, base);
    RegionsEntry(t);
    FpsRangeEntry(t);
    ThumbnailEntry(t);
  }

  /**
   * When the device's stabilisation default, if any, is OFF or ON, no
   * suppressed setting is forced right after construction from an untouched
   * base.
   */
  lemma FreshEntryForcesNothing(template: Template, activeArray: Rect, base: Settings, key: Key)
    requires WellTyped(template) && FlashReadable(template)
    requires KnownStabilizationDefault(template)
    requires UntouchedBase(template, base)
    requires key in SuppressedKeys
    ensures RequestEntry(Construct(template, activeArray, base), key).None?
  {
    if key in ValueKeys {
      FreshValueEntryForcesNothing(template, activeArray, base, key);
    } else {
      SuppressedKeyCases(key);
      FreshOptionalEntriesForceNothing(template, activeArray, base);
    }
  }

  /**
   * When the device's stabilisation default, if any, is OFF or ON, a
   * translator built from an untouched base asks for nothing the device does
   * not already default to: every suppressed entry of its first request
   * settings is forced to default.
   */
  lemma FreshTranslatorForcesNothing(template: Template, activeArray: Rect, base: Settings)
    requires WellTyped(template) && FlashReadable(template)
    requires KnownStabilizationDefault(template)
    requires UntouchedBase(template, base)
    ensures var r := GetRequestSettings(Construct(template, activeArray, base)).request;
      forall k :: k in SuppressedKeys ==> k in r && r[k].None?
  {
    var t := Construct(template, activeArray, base);
    forall k | k in SuppressedKeys
      ensures k in GetRequestSettings(t).request && GetRequestSettings(t).request[k].None?
    {
      RequestEntryAt(t, k);
      FreshEntryForcesNothing(template, activeArray, base, k);
    }
  }

  /**
   * A device default outside OFF and ON (here 2) reads as stabilisation off,
   * yet does not match OFF, so a fresh translator forces OFF.
   */
  lemma UnknownStabilizationDefaultIsForcedOff(template: Template, activeArray: Rect, base: Settings)
    requires WellTyped(template) && FlashReadable(template)
    requires Get(template, ControlVideoStabilizationMode) == Some(IntV(2))
    ensures var t := Construct(template, activeArray, base);
      && !t.settings.videoStabilizationEnabled
      && RequestEntry(t, ControlVideoStabilizationMode) == Some(IntV(ControlVideoStabilizationModeOff))
  {
    var t := Construct(template, activeArray, base);
    ValueKeyEntry(t, ControlVideoStabilizationMode);
  }

  /**
   * A template whose AE mode is ON_ALWAYS_FLASH and whose flash-unit mode is
   * TORCH reads as torch; the request then leaves the AE mode to the template
   * and writes the flash-unit mode TORCH, since flash entries bypass
   * suppression.
   */
  lemma TorchTemplateRoundTrip(template: Template, activeArray: Rect, base: Settings)
    requires WellTyped(template)
    requires Get(template, ControlAeMode) == Some(IntV(ControlAeModeOnAlwaysFlash))
    requires Get(template, FlashMode) == Some(IntV(FlashModeTorch))
    ensures FlashReadable(template)
    ensures var t := Construct(template, activeArray, base);
      && t.settings.currentFlashMode == Some(C.FlashMode.Torch)
      && RequestEntry(t, ControlAeMode).None?
      && RequestEntry(t, FlashMode) == Some(IntV(FlashModeTorch))
  {
    var t := Construct(template, activeArray, base);
    SettingsFromTemplateReadsModes(t.template, base);
    FlashEntries(t);
  }
}
