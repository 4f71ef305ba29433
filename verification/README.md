# Camera2 settings translator, modelled in Dafny

The project models `AndroidCamera2Settings`. This class lets code written
against the legacy camera API drive a camera2 device. It holds three things:

- the device's **template**: the default value of each capture-request key;
- the **legacy settings**: flash, focus, scene and white-balance modes,
  metering and focus areas, preview frame-rate range, JPEG quality, exposure
  compensation, video stabilisation, AE/AWB locks and thumbnail size;
- a sparse **request-settings set**. Each key handled is either given a value,
  or forced back to the template default (a Java `null`).

Modules, in dependency order:

- `Wrappers`: `Option`, which stands for Java `null`.
- `Geometry`: `Rect` and `Size`.
- `Capabilities`: the legacy enumerations.
- `CameraSettings`: the legacy settings record and `Area`.
- `Native`: the 15 request keys and their values. It also holds the
  framework's integer constants and the two maps: the template is a
  `map<Key, Value>`; the request is a `map<Key, Option<Value>>`, where
  `None` means "forced to the template default".
- `ModeTables`: the four case tables from legacy modes to native integers,
  the reverse readings, and `flashModeFromRequest`.
- `Regions`: `toIntConstrained` and the remapping of legacy areas onto
  active-array pixels.
- `Camera2Settings`: the translator itself, covering
  - default seeding (`queryTemplateDefaultOrMakeOneUp`);
  - the seeding part of the constructor;
  - `matchesTemplateDefault` and `updateRequestSettingOrForceToDefault`;
  - `getRequestSettings`.
- `RequestProperties`: properties of the request-settings set. These cover
  per-key suppression rules, table entries, optical stabilisation and
  idempotence.
- `ConstructionProperties`: what a freshly built translator requests.

Every operation is a pure function. The legacy setters are modelled as plain
field writes, so a caller changes a setting with `t.(settings := s.(field := v))`.

Some points where the model follows the code rather than a reader's
expectation:

- **Clamp bounds.** The left and right edges are
  `activeArray.left + width * fraction` clamped to `[0, width-1]`, not to
  `[left, left+width-1]`. Likewise the top and bottom edges are
  `activeArray.top + height * fraction` clamped to `[0, height-1]`, not to
  `[top, top+height-1]`.
  `Regions.OffsetArrayCollapsesHorizontally` shows the effect on an array whose
  left edge is at or beyond its width: every area collapses onto column
  `width-1`. On an array anchored at (0, 0),
  `Regions.FullAreaCoversZeroAnchoredArray` shows that the full legacy square
  covers the whole array.
- **Table keys bypass suppression.** Flash, focus, scene and white balance are
  written straight from their tables. Optical stabilisation is also written
  outside suppression.
- **Torch.** A template whose AE mode is ON_ALWAYS_FLASH and whose flash-unit
  mode is TORCH reads as legacy TORCH. Because flash entries bypass
  suppression, the request then sets the flash-unit mode to TORCH and leaves
  the AE mode to the template. It does not leave both to the template
  (`ConstructionProperties.TorchTemplateRoundTrip`).
- **Stabilisation comparison.** The video-stabilisation comparison keeps the
  Java grouping `(vs != null && (enabled && vs == ON)) || (!enabled && vs == OFF)`.
  The Java code unboxes `vs` when stabilisation is off, so the template must
  then hold a value (`StabilizationReadable`). Under that condition the
  grouping means "the template value equals the legacy value"
  (`RequestProperties.ValueKeyEntry`).
- **Unboxing requirements.** Wherever Java would unbox a missing value, the
  model requires that value to be present instead:
  - `flashModeFromRequest` unboxes FLASH_MODE under ON_ALWAYS_FLASH, hence
    `FlashReadable`;
  - `matchesTemplateDefault` unboxes the video-stabilisation default, hence
    `StabilizationReadable`;
  - the thumbnail size is a non-null field.

  A constructed translator always meets `StabilizationReadable`, because
  seeding gives the key a default.

## Model

| member | source | states |
|---|---|---|
| Camera2Settings.QueryTemplateDefaultOrMakeOneUp | camera2/portability/src/com/android/ex/camera2/portability/AndroidCamera2Settings.java:128-138 | A present default is returned and the template is unchanged. An absent one is stored as the fallback and returned. The key set grows by exactly that key, every other default keeps its value, and well-typedness is kept. |
| Camera2Settings.QueryAgainChangesNothing | camera2/portability/src/com/android/ex/camera2/portability/AndroidCamera2Settings.java:128-138 | A second query for the same key returns the first answer and leaves the template as it was, whatever fallback it offers. |
| Camera2Settings.SeedDefaults | camera2/portability/src/com/android/ex/camera2/portability/AndroidCamera2Settings.java:80-106 | Running queries in order gives every queried key a default. Existing defaults are untouched, and a key the template lacked holds the fallback of the first query about it. |
| Camera2Settings.SeedDefaultsWellTyped | camera2/portability/src/com/android/ex/camera2/portability/AndroidCamera2Settings.java:80-106 | Queries whose fallbacks have their key's declared type keep the template well typed. |
| Camera2Settings.ConstructorSeedsWellTyped | camera2/portability/src/com/android/ex/camera2/portability/AndroidCamera2Settings.java:80-106 | The fallbacks the constructor offers have their keys' types, so seeding keeps a well-typed template well typed. |
| Camera2Settings.SeedDefaultsKeepsUnqueried | camera2/portability/src/com/android/ex/camera2/portability/AndroidCamera2Settings.java:128-138 | A key no query asks about keeps its entry, or its absence. |
| Camera2Settings.ConstructorQueriedKeys | camera2/portability/src/com/android/ex/camera2/portability/AndroidCamera2Settings.java:80-106 | The constructor queries exactly JPEG quality, exposure compensation, video stabilisation, the AE lock and the AWB lock. |
| Camera2Settings.ConstructorLeavesFlashKeys | camera2/portability/src/com/android/ex/camera2/portability/AndroidCamera2Settings.java:80-88 | None of the constructor's default queries names the AE mode or the flash-unit mode, so the flash reading at line 88 sees the device's entries. |
| Camera2Settings.ConstructorSeedsKeys | camera2/portability/src/com/android/ex/camera2/portability/AndroidCamera2Settings.java:80-106 | Constructor seeding adds exactly those five keys and leaves every other key's entry as the device gave it. |
| Camera2Settings.ConstructorMadeUpDefaults | camera2/portability/src/com/android/ex/camera2/portability/AndroidCamera2Settings.java:80-106 | The made-up defaults are 0, 0, OFF, false and false respectively. |
| Camera2Settings.SeedDefaultsKeepsFlash | camera2/portability/src/com/android/ex/camera2/portability/AndroidCamera2Settings.java:80-88 | Queries that skip the AE and flash-unit keys leave the flash reading unchanged. So reading the flash mode after the earlier queries is the same as reading it from the device template. |
| Camera2Settings.ConstructorTemplate | camera2/portability/src/com/android/ex/camera2/portability/AndroidCamera2Settings.java:67-106 | The seeded template holds the device keys plus the five seeded keys. The device's defaults are untouched, the template stays well typed and flash-readable, and its flash reading is the device template's. |
| Camera2Settings.SettingsFromTemplate | camera2/portability/src/com/android/ex/camera2/portability/AndroidCamera2Settings.java:73-113 | JPEG quality, exposure compensation and the two locks equal their template defaults. Stabilisation is enabled exactly when the template default is ON. |
| Camera2Settings.SettingsFromTemplateReproducesDefaults | camera2/portability/src/com/android/ex/camera2/portability/AndroidCamera2Settings.java:80-106 | On a seeded template the fields read back give exactly the template's JPEG quality, exposure compensation, AE lock and AWB lock defaults, and its stabilisation default when that is OFF or ON. |
| Camera2Settings.SettingsFromTemplateReadsOptionalDefaults | camera2/portability/src/com/android/ex/camera2/portability/AndroidCamera2Settings.java:73-113 | The frame-rate range and thumbnail size are the template's when it has them and are otherwise inherited. The areas are inherited. |
| Camera2Settings.SettingsFromTemplateReadsModes | camera2/portability/src/com/android/ex/camera2/portability/AndroidCamera2Settings.java:88-100 | Flash is read from the AE and flash-unit modes. Focus, scene and white balance are read through the reverse tables when the template has a value; otherwise the inherited value stays. |
| Camera2Settings.Construct | camera2/portability/src/com/android/ex/camera2/portability/AndroidCamera2Settings.java:67-114 | The translator starts with an empty request-settings set, the seeded template and settings read from it. It can always produce request settings. |
| Camera2Settings.PossibleChoice | camera2/portability/src/com/android/ex/camera2/portability/AndroidCamera2Settings.java:207-237 | The value computed for each key has the key's declared type. The five value-compared keys carry their legacy value. A region value is missing exactly when its area list is empty. The frame-rate range and thumbnail size always have a value. |
| Camera2Settings.MatchesTemplateDefault | camera2/portability/src/com/android/ex/camera2/portability/AndroidCamera2Settings.java:162-200 | A region key matches exactly when it has no remapped value (an empty area list). A key without a rule always matches, so it is never forced. |
| Camera2Settings.UpdateRequestSettingOrForceToDefault | camera2/portability/src/com/android/ex/camera2/portability/AndroidCamera2Settings.java:202-204 | The stored entry is present exactly when the setting does not match its default and a value was computed. A present entry is that value. |
| Camera2Settings.SuppressedKeyCases | camera2/portability/src/com/android/ex/camera2/portability/AndroidCamera2Settings.java:162-200 | A suppressed key is value-compared, a region key, the frame-rate range or the thumbnail size. |
| Camera2Settings.GetRequestSettings | camera2/portability/src/com/android/ex/camera2/portability/AndroidCamera2Settings.java:206-240 | Template, active array and legacy settings are unchanged. Every handled key gets an entry, the one `RequestEntry` gives it, and nothing else is touched. |
| Camera2Settings.RequestEntry | camera2/portability/src/com/android/ex/camera2/portability/AndroidCamera2Settings.java:207-237 | A key that `matchesTemplateDefault` has a rule for goes through `updateRequestSettingOrForceToDefault`. Every other key (the flash, focus, scene and white-balance modes, and optical stabilisation) is written with its computed value unconditionally. |
| Camera2Settings.RequestEntryAt | camera2/portability/src/com/android/ex/camera2/portability/AndroidCamera2Settings.java:206-240 | After `getRequestSettings` each key is present with its computed entry. |
| Camera2Settings.RequestMapIgnoresRequest | camera2/portability/src/com/android/ex/camera2/portability/AndroidCamera2Settings.java:206-240 | The entries written depend on the template, the active array and the legacy settings, not on the previous request-settings set. |
| RequestProperties.ValueKeyEntry | camera2/portability/src/com/android/ex/camera2/portability/AndroidCamera2Settings.java:172-188 | For JPEG quality, exposure compensation, video stabilisation and the two locks: the entry is forced to default exactly when the legacy value equals the template default, and otherwise carries the legacy value. |
| RequestProperties.ForcedValueDiffersFromDefault | camera2/portability/src/com/android/ex/camera2/portability/AndroidCamera2Settings.java:172-188 | A present value-compared entry never repeats the template default. |
| RequestProperties.FpsRangeEntry | camera2/portability/src/com/android/ex/camera2/portability/AndroidCamera2Settings.java:167-171 | The frame-rate range is forced to default when it is (0, 0) or equals the template range, and otherwise is written as a range. |
| RequestProperties.ThumbnailEntry | camera2/portability/src/com/android/ex/camera2/portability/AndroidCamera2Settings.java:189-194 | The thumbnail size is forced to default when it is 0x0 or equals the template size, and otherwise is written as a size. |
| RequestProperties.RegionsEntry | camera2/portability/src/com/android/ex/camera2/portability/AndroidCamera2Settings.java:162-166 | Each region entry is forced to default exactly when its area list is empty. Otherwise it holds the rectangles remapped from that list. |
| RequestProperties.SuppressedEntryExact | camera2/portability/src/com/android/ex/camera2/portability/AndroidCamera2Settings.java:202-204 | For every suppressed key the entry is forced to default exactly when `matchesTemplateDefault` holds, and otherwise is the computed value. |
| RequestProperties.FocusEntry | camera2/portability/src/com/android/ex/camera2/portability/AndroidCamera2Settings.java:315-351 | The AF entry is absent exactly for no mode and INFINITY. Otherwise it reads back as the legacy focus mode. |
| RequestProperties.SceneEntry | camera2/portability/src/com/android/ex/camera2/portability/AndroidCamera2Settings.java:353-426 | The scene entry is absent exactly for no mode and the modes without a native value (HDR, NIGHT_PORTRAIT, unlisted). Otherwise it reads back as the legacy scene mode. |
| RequestProperties.WhiteBalanceEntry | camera2/portability/src/com/android/ex/camera2/portability/AndroidCamera2Settings.java:428-471 | The AWB entry is absent exactly for no white balance. Otherwise it reads back as the legacy white balance. |
| RequestProperties.FlashEntries | camera2/portability/src/com/android/ex/camera2/portability/AndroidCamera2Settings.java:278-313 | Neither flash entry is set for no mode or an unsupported one, and the flash-unit mode alone is set exactly for TORCH. The AE entry is ON, ON_AUTO_FLASH, ON_ALWAYS_FLASH or ON_AUTO_FLASH_REDEYE exactly for OFF, AUTO, ON or RED_EYE. The flash-unit entry is OFF exactly for OFF, SINGLE exactly for ON and TORCH exactly for TORCH, and AUTO and RED_EYE leave it to the template. For AUTO, OFF, ON and RED_EYE the two entries read back as the legacy mode. |
| RequestProperties.FlashEntriesIgnoreTemplate | camera2/portability/src/com/android/ex/camera2/portability/AndroidCamera2Settings.java:220 | The flash entries depend on the legacy flash mode alone, whatever the template holds. |
| RequestProperties.TableEntriesIgnoreTemplate | camera2/portability/src/com/android/ex/camera2/portability/AndroidCamera2Settings.java:220-230 | The focus, scene, white-balance and optical-stabilisation entries depend on the legacy settings alone, whatever the template holds. |
| RequestProperties.OpticalStabilizationEntry | camera2/portability/src/com/android/ex/camera2/portability/AndroidCamera2Settings.java:227-230 | Optical stabilisation is forced OFF under software stabilisation and left to the template otherwise. |
| RequestProperties.GetRequestSettingsIdempotent | camera2/portability/src/com/android/ex/camera2/portability/AndroidCamera2Settings.java:206-240 | Calling `getRequestSettings` twice with no change in between gives the same translator and request-settings set. |
| ConstructionProperties.SeededStabilizationKnown | camera2/portability/src/com/android/ex/camera2/portability/AndroidCamera2Settings.java:102-104 | If the device's stabilisation default is OFF or ON, so is the seeded one. |
| ConstructionProperties.FreshValueEntryForcesNothing | camera2/portability/src/com/android/ex/camera2/portability/AndroidCamera2Settings.java:172-188 | When the device's stabilisation default, if any, is OFF or ON, no value-compared key is forced right after construction. (A default of 2 is forced to OFF; see `UnknownStabilizationDefaultIsForcedOff`.) |
| ConstructionProperties.FreshOptionalEntriesForceNothing | camera2/portability/src/com/android/ex/camera2/portability/AndroidCamera2Settings.java:162-194 | Right after construction from an untouched base, the regions, frame-rate range and thumbnail size are not forced. |
| ConstructionProperties.FreshEntryForcesNothing | camera2/portability/src/com/android/ex/camera2/portability/AndroidCamera2Settings.java:162-200 | When the device's stabilisation default, if any, is OFF or ON and the base is untouched, no suppressed key is forced right after construction. |
| ConstructionProperties.FreshTranslatorForcesNothing | camera2/portability/src/com/android/ex/camera2/portability/AndroidCamera2Settings.java:206-240 | When the device's stabilisation default, if any, is OFF or ON, the first request-settings set of a translator built from an untouched base holds every suppressed key, each forced to default. |
| ConstructionProperties.UnknownStabilizationDefaultIsForcedOff | camera2/portability/src/com/android/ex/camera2/portability/AndroidCamera2Settings.java:178-184 | A device stabilisation default of 2 reads as stabilisation off but does not match OFF, so a fresh translator forces OFF. |
| ConstructionProperties.TorchTemplateRoundTrip | camera2/portability/src/com/android/ex/camera2/portability/AndroidCamera2Settings.java:140-160 | A template with ON_ALWAYS_FLASH and TORCH reads as TORCH. The request then leaves the AE mode to the template and writes the flash-unit mode TORCH. |
| ModeTables.FlashModeFromRequest | camera2/portability/src/com/android/ex/camera2/portability/AndroidCamera2Settings.java:140-160 | A flash mode is read exactly when the AE mode is ON, ON_AUTO_FLASH, ON_ALWAYS_FLASH or ON_AUTO_FLASH_REDEYE; any other AE mode, such as OFF, or none reads as null. ON reads as OFF, ON_AUTO_FLASH as AUTO and ON_AUTO_FLASH_REDEYE as RED_EYE. ON_ALWAYS_FLASH reads as TORCH exactly when the flash-unit mode is TORCH, and as ON otherwise. The result is never an unsupported mode. |
| ModeTables.FlashModeFromRequestReadsFlashKeys | camera2/portability/src/com/android/ex/camera2/portability/AndroidCamera2Settings.java:140-160 | The flash reading depends only on the AE and flash-unit entries. |
| ModeTables.FlashToRequest | camera2/portability/src/com/android/ex/camera2/portability/AndroidCamera2Settings.java:278-313 | Some native value is produced exactly for a supported mode. AE column: ON exactly for OFF, ON_AUTO_FLASH exactly for AUTO, ON_ALWAYS_FLASH exactly for ON, ON_AUTO_FLASH_REDEYE exactly for RED_EYE, and none for TORCH. Flash-unit column: OFF exactly for OFF, SINGLE exactly for ON, TORCH exactly for TORCH, and none for every other mode. AUTO, OFF, ON and RED_EYE round-trip through `flashModeFromRequest`; TORCH reads back as no mode. |
| ModeTables.FocusToAfMode | camera2/portability/src/com/android/ex/camera2/portability/AndroidCamera2Settings.java:315-351 | No AF mode exactly for no mode and INFINITY. Every AF mode produced reads back as its focus mode. |
| ModeTables.FocusModeFromInt | camera2/portability/src/com/android/ex/camera2/portability/AndroidCamera2Settings.java:89-92 | The reverse reading never yields INFINITY and is defined exactly on the AF modes OFF to EDOF. |
| ModeTables.SceneToSceneMode | camera2/portability/src/com/android/ex/camera2/portability/AndroidCamera2Settings.java:353-426 | No scene mode exactly for no mode, HDR, NIGHT_PORTRAIT and unlisted modes. DISABLED exactly for AUTO. Every scene mode produced reads back as its legacy mode. |
| ModeTables.SceneModeFromInt | camera2/portability/src/com/android/ex/camera2/portability/AndroidCamera2Settings.java:93-96 | The reverse reading never yields HDR, NIGHT_PORTRAIT or an unlisted mode. It is undefined exactly for FACE_PRIORITY, NIGHT_PORTRAIT and out-of-range values. |
| ModeTables.WhiteBalanceToAwbMode | camera2/portability/src/com/android/ex/camera2/portability/AndroidCamera2Settings.java:428-471 | No AWB mode exactly for no white balance. Every AWB mode produced reads back as its white balance. |
| ModeTables.WhiteBalanceFromInt | camera2/portability/src/com/android/ex/camera2/portability/AndroidCamera2Settings.java:97-100 | The reverse reading is defined exactly on AWB modes AUTO to SHADE. |
| ModeTables.FocusTableInjective | camera2/portability/src/com/android/ex/camera2/portability/AndroidCamera2Settings.java:315-351 | Distinct focus modes with an AF mode get distinct AF modes. |
| ModeTables.SceneTableInjective | camera2/portability/src/com/android/ex/camera2/portability/AndroidCamera2Settings.java:353-426 | Distinct scene modes with a native mode get distinct native modes. |
| ModeTables.WhiteBalanceTableInjective | camera2/portability/src/com/android/ex/camera2/portability/AndroidCamera2Settings.java:428-471 | Distinct white balances get distinct AWB modes. |
| ModeTables.FocusReverseIsInverse | camera2/portability/src/com/android/ex/camera2/portability/AndroidCamera2Settings.java:89-92 | An AF mode with a legacy reading is written back as itself. |
| ModeTables.SceneReverseIsInverse | camera2/portability/src/com/android/ex/camera2/portability/AndroidCamera2Settings.java:93-96 | A native scene mode with a legacy reading is written back as itself. |
| ModeTables.WhiteBalanceReverseIsInverse | camera2/portability/src/com/android/ex/camera2/portability/AndroidCamera2Settings.java:97-100 | An AWB mode with a legacy reading is written back as itself. |
| Regions.TruncateToInt | camera2/portability/src/com/android/ex/camera2/portability/AndroidCamera2Settings.java:275 | The `(int)` cast truncates toward zero: it rounds down from above zero and up from below. |
| Regions.ToIntConstrained | camera2/portability/src/com/android/ex/camera2/portability/AndroidCamera2Settings.java:272-276 | With min <= max the result lies in [min, max]. Inputs at or beyond a bound give that bound; when min is not negative, an input inside the range gives its floor. With max < min the result is max. |
| Regions.ToIntConstrainedMonotone | camera2/portability/src/com/android/ex/camera2/portability/AndroidCamera2Settings.java:272-276 | Clamping and truncating never reverse the order of two inputs. |
| Regions.Normalize | camera2/portability/src/com/android/ex/camera2/portability/AndroidCamera2Settings.java:253-256 | A legacy coordinate in [-1000, 1000] becomes a fraction in [0, 1]. The fraction is 0 exactly at -1000, one half exactly at 0 and 1 exactly at 1000. |
| Regions.EdgeToPixel | camera2/portability/src/com/android/ex/camera2/portability/AndroidCamera2Settings.java:257-264 | The pixel edge equals an integer formulation: (extent * (coordinate + 1000) + 2000 * origin) / 2000, rounded down, then clamped to [0, extent-1]. When the extent is below 1 the result is extent-1. |
| Regions.EdgeToPixelAnchored | camera2/portability/src/com/android/ex/camera2/portability/AndroidCamera2Settings.java:253-264 | With origin 0, a coordinate in [-1000, 1000] lands on extent * (coordinate + 1000) / 2000, rounded down, and 1000 lands on the last pixel, extent-1. |
| Regions.EdgeToPixelMonotone | camera2/portability/src/com/android/ex/camera2/portability/AndroidCamera2Settings.java:253-264 | Remapping a legacy edge to a pixel is monotone in the legacy coordinate. |
| Regions.RemapArea | camera2/portability/src/com/android/ex/camera2/portability/AndroidCamera2Settings.java:249-266 | The weight is kept. The left and right edges are the integer formulation of `EdgeToPixel` over the width, shifted by the array's left edge. The top and bottom edges are the same over the height, shifted by its top edge. On a non-empty array the left and right edges lie in [0, width-1] and the top and bottom edges in [0, height-1]. |
| Regions.RemapAreaKeepsOrientation | camera2/portability/src/com/android/ex/camera2/portability/AndroidCamera2Settings.java:253-266 | An area with ordered edges becomes a rectangle of non-negative width and height. |
| Regions.RemapAll | camera2/portability/src/com/android/ex/camera2/portability/AndroidCamera2Settings.java:246-267 | One rectangle per area, in order, each the remapping of its area. |
| Regions.MeteringRegions | camera2/portability/src/com/android/ex/camera2/portability/AndroidCamera2Settings.java:242-270 | No areas gives null, not an empty array. Otherwise the array has the same length, the same order and the same weights. |
| Regions.FullAreaCoversZeroAnchoredArray | camera2/portability/src/com/android/ex/camera2/portability/AndroidCamera2Settings.java:253-266 | On an array anchored at (0, 0) the full legacy square maps to (0, 0, width-1, height-1) with its weight. |
| Regions.CentrePointOnZeroAnchoredArray | camera2/portability/src/com/android/ex/camera2/portability/AndroidCamera2Settings.java:253-266 | On an array anchored at (0, 0) the legacy centre point maps to the pixel (width/2, height/2) with zero extent. |
| Regions.OffsetArrayCollapsesHorizontally | camera2/portability/src/com/android/ex/camera2/portability/AndroidCamera2Settings.java:257-258 | Because the clamp ignores the array's left edge, an array whose left edge is at or beyond its width collapses every area onto column width-1. |

## Left out

- Creating the template through `CameraDevice.createCaptureRequest` (and its
  `CameraAccessException`) is a framework call. The template is a parameter
  of `Construct`.
- The copy constructor and `copy()` share the mutable template between
  instances. With immutable values, sharing has no observable effect.
- `Log.w` calls are logging and are dropped.
- `setPreviewSize` and `setPhotoSize` in the constructor, and
  `mCurrentZoomRatio`: the superclass `CameraSettings` is not part of this
  model. The inherited legacy state is the parameter `base`.
- Region arithmetic uses exact rationals (`real`), not IEEE doubles. Inputs
  beyond the `int` range of Java's `(int)` cast are not modelled.
- Java `int` overflow (for example in `rectangle.left + 1000` or
  `right - left`) is not modelled; integers are unbounded.
- JPEG quality is a Java `byte`. It is held as an unbounded integer, and a
  template whose value is outside the byte range is not excluded.
- The argument checks of `Range` (lower <= upper) and of
  `MeteringRectangle` (non-negative values) throw inside the framework. They
  are not modelled.
- `focusModeFromInt`, `sceneModeFromInt` and `whiteBalanceFromInt` belong
  to `AndroidCamera2Capabilities`, which is not part of this model. The
  reverse tables are defined as the inverses of the forward tables, with no
  value for native modes that have no legacy counterpart.
- `CameraCapabilities` is not part of this model. Its enumerations are
  modelled by the constants the case tables name, plus INFINITY, HDR and
  NIGHT_PORTRAIT, plus `NoFlash` and `NoSceneMode` standing for constants
  that reach a table's `default` branch.
- The exceptions Java throws on unboxing a null are not modelled. They are excluded by requires
  clauses instead: `FlashReadable`, `StabilizationReadable`, and a non-null
  thumbnail size.
