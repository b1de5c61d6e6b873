/**
 * Climate presets.  Before presets existed on the wire a device could only
 * say whether it supports an "away" mode and whether that mode is active.
 */
module ClimateCompat {
  // The source's preset enumeration has a variant named `None`, so `Types` is not opened
  // here and its `Option` is written qualified.
  import Types
  import opened ApiVersion

  datatype ClimatePreset = None | Home | Away | Boost | Comfort | Eco | Sleep | Activity

  /** The preset-related fields of a climate device description. */
  datatype ClimateInfo = ClimateInfo(legacySupportsAway: bool, supportedPresets: seq<ClimatePreset>)

  /** The preset-related fields of a climate state report. */
  datatype ClimateState = ClimateState(legacyAway: bool, preset: Types.Option<ClimatePreset>)

  function SupportedPresetsCompat(info: ClimateInfo, apiVersion: APIVersion): (presets: seq<ClimatePreset>)
    ensures Before(apiVersion, ClimatePresetThreshold) ==>
      presets == (if info.legacySupportsAway then [Home, Away] else [])
    ensures !Before(apiVersion, ClimatePresetThreshold) ==> presets == info.supportedPresets
  {
    if Before(apiVersion, APIVersion(1, 5)) then
      if info.legacySupportsAway then [Home, Away] else []
    else
      info.supportedPresets
  }

  function PresetCompat(state: ClimateState, apiVersion: APIVersion): (preset: Types.Option<ClimatePreset>)
    ensures Before(apiVersion, ClimatePresetThreshold) ==>
      preset == Types.Some(if state.legacyAway then Away else Home)
    ensures !Before(apiVersion, ClimatePresetThreshold) ==> preset == state.preset
  {
    if Before(apiVersion, APIVersion(1, 5)) then
      if state.legacyAway then Types.Some(Away) else Types.Some(Home)
    else
      state.preset
  }

  /** Below the threshold the modern fields are ignored; at or above it the legacy ones are. */
  lemma PresetsDependOnOneSource(a: ClimateInfo, b: ClimateInfo, apiVersion: APIVersion)
    ensures Before(apiVersion, ClimatePresetThreshold) && a.legacySupportsAway == b.legacySupportsAway ==>
      SupportedPresetsCompat(a, apiVersion) == SupportedPresetsCompat(b, apiVersion)
    ensures !Before(apiVersion, ClimatePresetThreshold) && a.supportedPresets == b.supportedPresets ==>
      SupportedPresetsCompat(a, apiVersion) == SupportedPresetsCompat(b, apiVersion)
  {
  }

  /** An old device always has an active preset, and it is one of the presets it supports
      whenever it supports "away" at all. */
  lemma LegacyPresetIsSupported(info: ClimateInfo, state: ClimateState, apiVersion: APIVersion)
    requires Before(apiVersion, ClimatePresetThreshold)
    ensures PresetCompat(state, apiVersion).Some?
    ensures info.legacySupportsAway ==>
      PresetCompat(state, apiVersion).value in SupportedPresetsCompat(info, apiVersion)
  {
  }
}
