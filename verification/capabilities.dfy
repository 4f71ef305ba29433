/**
 * The legacy enumerations the translator reads (`CameraCapabilities.FlashMode`,
 * `FocusMode`, `SceneMode`, `WhiteBalance`).  `NoFlash` and `NoSceneMode` stand
 * for the constants that reach the `default` branch of the translation switches.
 */
module Capabilities {

  datatype FlashMode = NoFlash | Auto | Off | On | Torch | RedEye

  datatype FocusMode = Auto | ContinuousPicture | ContinuousVideo | ExtendedDof | Fixed | Infinity | Macro

  datatype SceneMode =
    | NoSceneMode | Auto | Action | Barcode | Beach | Candlelight | Fireworks | Hdr | Landscape
    | Night | NightPortrait | Party | Portrait | Snow | Sports | Steadyphoto | Sunset | Theatre

  datatype WhiteBalance =
    | Auto | CloudyDaylight | Daylight | Fluorescent | Incandescent | Shade | Twilight | WarmFluorescent
}
