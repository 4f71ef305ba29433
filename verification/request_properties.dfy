/**
 * Properties of the request-settings set `getRequestSettings` builds: which
 * entries are forced back to their template default, which carry a value,
 * what the legacy modes are written as, and what a second call changes.
 */
module RequestProperties {
  import opened Wrappers
  import opened Geometry
  import opened Native
  import opened CameraSettings
  import C = Capabilities
  import opened ModeTables
  import opened Regions
  import opened Camera2Settings

  /**
   * Suppression of the value-compared keys: the entry is forced to default
   * exactly when the legacy value equals the template default, and carries the
   * legacy value otherwise.  For video stabilisation this is what the
   * grouping of `matchesTemplateDefault`'s comparison amounts to once the
   * template value is readable.
   */
  lemma ValueKeyEntry(t: Translator, key: Key)
    requires StabilizationReadable(t)
    requires key in ValueKeys
    ensures var entry := RequestEntry(t, key);
      entry == if Get(t.template, key) == Some(LegacyValue(t.settings, key)) then None
               else Some(LegacyValue(t.settings, key))
  {
    assert PossibleChoice(t, key) == Some(LegacyValue(t.settings, key));
  }

  /** A value-compared entry that is present never repeats the template default. */
  lemma ForcedValueDiffersFromDefault(t: Translator, key: Key)
    requires StabilizationReadable(t)
    requires key in ValueKeys
    requires RequestEntry(t, key).Some?
    ensures RequestEntry(t, key) != Get(t.template, key)
  {
    ValueKeyEntry(t, key);
  }

  /**
   * The preview frame-rate range is forced to default when it is unset (0, 0)
   * or equals the template's range, and is written as a range otherwise.
   */
  lemma FpsRangeEntry(t: Translator)
    requires StabilizationReadable(t)
    ensures var s := t.settings;
      var range := RangeV(s.previewFpsRangeMin, s.previewFpsRangeMax);
      RequestEntry(t, ControlAeTargetFpsRange) ==
        if (s.previewFpsRangeMin == 0 && s.previewFpsRangeMax == 0) ||
           Get(t.template, ControlAeTargetFpsRange) == Some(range)
        then None else Some(range)
  {
  }

  /**
   * The thumbnail size is forced to default when it is 0x0 or equals the
   * template's size, and is written as a size otherwise.
   */
  lemma ThumbnailEntry(t: Translator)
    requires StabilizationReadable(t)
    ensures var size := t.settings.exifThumbnailSize;
      RequestEntry(t, JpegThumbnailSize) ==
        if size == Size(0, 0) || Get(t.template, JpegThumbnailSize) == Some(SizeV(size.width, size.height))
        then None else Some(SizeV(size.width, size.height))
  {
  }

  /**
   * The metering regions are forced to default exactly when the area list is
   * empty; otherwise they hold one remapped rectangle per area, in order.
   */
  lemma RegionsEntry(t: Translator)
    requires StabilizationReadable(t)
    ensures
      && (RequestEntry(t, ControlAeRegions).None? <==> |t.settings.meteringAreas| == 0)
      && (RequestEntry(t, ControlAfRegions).None? <==> |t.settings.focusAreas| == 0)
      && (RequestEntry(t, ControlAeRegions).Some? ==>
            RequestEntry(t, ControlAeRegions).value == RegionsV(RemapAll(t.activeArray, t.settings.meteringAreas)))
      && (RequestEntry(t, ControlAfRegions).Some? ==>
            RequestEntry(t, ControlAfRegions).value == RegionsV(RemapAll(t.activeArray, t.settings.focusAreas)))
  {
  }

  /**
   * Every suppressed key is forced to default exactly when its setting matches
   * the template default, and otherwise carries the value computed from the
   * legacy setting.
   */
  lemma SuppressedEntryExact(t: Translator, key: Key)
    requires StabilizationReadable(t)
    requires key in SuppressedKeys
    ensures var entry := RequestEntry(t, key);
      && (entry.None? <==> MatchesTemplateDefault(t, key))
      && (entry.Some? ==> entry == PossibleChoice(t, key))
  {
    if key == ControlAeRegions || key == ControlAfRegions {
      assert MatchesTemplateDefault(t, key) <==> PossibleChoice(t, key).None?;
    }
  }

  /**
   * The focus entry is the focus table's output: absent exactly for no mode and
   * infinity, and otherwise an AF mode that reads back as the legacy mode.
   */
  lemma FocusEntry(t: Translator)
    requires StabilizationReadable(t)
    ensures var e := RequestEntry(t, ControlAfMode); var f := t.settings.currentFocusMode;
      && (e.None? <==> f.None? || f == Some(C.FocusMode.Infinity))
      && (e.Some? ==> e.value.IntV? && FocusModeFromInt(e.value.n) == f)
  {
  }

  /**
   * The scene entry is the scene table's output: absent exactly for no mode and
   * the modes without a native value, and otherwise a scene mode that reads back
   * as the legacy mode.
   */
  lemma SceneEntry(t: Translator)
    requires StabilizationReadable(t)
    ensures var e := RequestEntry(t, ControlSceneMode); var m := t.settings.currentSceneMode;
      && (e.None? <==>
            m.None? || m.value in {C.SceneMode.NoSceneMode, C.SceneMode.Hdr, C.SceneMode.NightPortrait})
      && (e.Some? ==> e.value.IntV? && SceneModeFromInt(e.value.n) == m)
  {
  }

  /**
   * The white-balance entry is the white-balance table's output: absent exactly
   * for no mode, and otherwise an AWB mode that reads back as the legacy mode.
   */
  lemma WhiteBalanceEntry(t: Translator)
    requires StabilizationReadable(t)
    ensures var e := RequestEntry(t, ControlAwbMode); var w := t.settings.whiteBalance;
      && (e.None? <==> w.None?)
      && (e.Some? ==> e.value.IntV? && WhiteBalanceFromInt(e.value.n) == w)
  {
  }

  /** The integer an optional integer entry holds, if any. */
  function EntryInt(e: Option<Value>): Option<int>
  {
    if e.Some? && e.value.IntV? then Some(e.value.n) else None
  }

  /**
   * The flash entries are the flash table's output: nothing for no mode, the
   * flash-unit mode alone for torch, and, for every mode the constructor can
   * read back, entries that a template would read back as that mode.  Column
   * by column: the AE mode is ON for OFF, ON_AUTO_FLASH for AUTO,
   * ON_ALWAYS_FLASH for ON and ON_AUTO_FLASH_REDEYE for RED_EYE; the flash unit
   * is OFF for OFF, SINGLE for ON, TORCH for TORCH and left to the template
   * for every other mode.
   */
  lemma FlashEntries(t: Translator)
    requires StabilizationReadable(t)
    ensures var ae := RequestEntry(t, ControlAeMode); var flash := RequestEntry(t, FlashMode);
      var f := t.settings.currentFlashMode;
      && (ae.None? && flash.None? <==> f.None? || f == Some(C.FlashMode.NoFlash))
      && (ae.None? && flash.Some? <==> f == Some(C.FlashMode.Torch))
      && (f.Some? && FlashRecoverable(f.value) ==>
            var written := FlashTemplate(FlashSettings(EntryInt(ae), EntryInt(flash)));
            FlashReadable(written) && FlashModeFromRequest(written) == f)
      && (ae == Some(IntV(ControlAeModeOn)) <==> f == Some(C.FlashMode.Off))
      && (ae == Some(IntV(ControlAeModeOnAutoFlash)) <==> f == Some(C.FlashMode.Auto))
      && (ae == Some(IntV(ControlAeModeOnAlwaysFlash)) <==> f == Some(C.FlashMode.On))
      && (ae == Some(IntV(ControlAeModeOnAutoFlashRedeye)) <==> f == Some(C.FlashMode.RedEye))
      && (flash == Some(IntV(FlashModeOff)) <==> f == Some(C.FlashMode.Off))
      && (flash == Some(IntV(FlashModeSingle)) <==> f == Some(C.FlashMode.On))
      && (flash == Some(IntV(FlashModeTorch)) <==> f == Some(C.FlashMode.Torch))
      && (flash.Some? ==> f in {Some(C.FlashMode.Off), Some(C.FlashMode.On), Some(C.FlashMode.Torch)})
  {
    var fs := FlashToRequest(t.settings.currentFlashMode);
    assert EntryInt(RequestEntry(t, ControlAeMode)) == fs.aeMode;
    assert EntryInt(RequestEntry(t, FlashMode)) == fs.flashMode;
  }

  /**
   * The flash entries bypass suppression: they depend on the legacy flash mode
   * alone, whatever the template holds.
   */
  lemma FlashEntriesIgnoreTemplate(t1: Translator, t2: Translator)
    requires StabilizationReadable(t1) && StabilizationReadable(t2)
    requires t1.settings.currentFlashMode == t2.settings.currentFlashMode
    ensures RequestEntry(t1, ControlAeMode) == RequestEntry(t2, ControlAeMode)
    ensures RequestEntry(t1, FlashMode) == RequestEntry(t2, FlashMode)
  {
  }

  /**
   * The focus, scene, white-balance and optical-stabilisation entries bypass
   * suppression: they depend on the legacy settings alone, whatever the
   * template holds.
   */
  lemma TableEntriesIgnoreTemplate(t1: Translator, t2: Translator)
    requires StabilizationReadable(t1) && StabilizationReadable(t2)
    requires t1.settings == t2.settings
    ensures RequestEntry(t1, ControlAfMode) == RequestEntry(t2, ControlAfMode)
    ensures RequestEntry(t1, ControlSceneMode) == RequestEntry(t2, ControlSceneMode)
    ensures RequestEntry(t1, ControlAwbMode) == RequestEntry(t2, ControlAwbMode)
    ensures RequestEntry(t1, LensOpticalStabilizationMode) == RequestEntry(t2, LensOpticalStabilizationMode)
  {
  }

  /** Optical stabilisation is forced off under software stabilisation and left to the template otherwise. */
  lemma OpticalStabilizationEntry(t: Translator)
    requires StabilizationReadable(t)
    ensures RequestEntry(t, LensOpticalStabilizationMode) ==
              if t.settings.videoStabilizationEnabled then Some(IntV(LensOpticalStabilizationModeOff)) else None
  {
  }

  /** Calling `getRequestSettings` twice with no change in between gives the same request-settings set. */
  lemma GetRequestSettingsIdempotent(t: Translator)
    requires StabilizationReadable(t)
    ensures StabilizationReadable(GetRequestSettings(t))
    ensures GetRequestSettings(GetRequestSettings(t)) == GetRequestSettings(t)
  {
    var once := GetRequestSettings(t);
    RequestMapIgnoresRequest(t, once);
    OverwriteAgain(t.request, RequestMap(t));
  }

  /** Writing the same entries a second time changes nothing. */
  lemma OverwriteAgain(request: Request, entries: Request)
    ensures (request + entries) + entries == request + entries
  {
  }
}
