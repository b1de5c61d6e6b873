/**
 * Supported colour modes of a light.  Modern devices list their colour modes;
 * old devices sent four booleans, which a fixed table turns into one
 * colour-capability bit set.
 */
module LightCompat {
  import opened Types
  import opened Flags
  import opened ApiVersion

  datatype ColorMode =
    | Unknown | OnOffMode | BrightnessMode | WhiteMode | ColorTemperatureMode | ColdWarmWhiteMode
    | RGBMode | RGBWhiteMode | RGBColorTemperatureMode | RGBColdWarmWhiteMode

  /** The byte a colour mode is sent as (its enum discriminant).  The discriminants are
      colour-capability sets: only Unknown is empty, every mode beyond OnOff includes
      Brightness, and no bit beyond the six capabilities is used. */
  function ColorModeToU8(mode: ColorMode): (b: FlagSet)
    ensures mode == Unknown <==> b == 0
    ensures mode !in {Unknown, OnOffMode} ==> b & Brightness.Mask() != 0
    ensures b & 0xC0 == 0
  {
    match mode
    case Unknown => 0
    case OnOffMode => 1
    case BrightnessMode => 2
    case WhiteMode => 7
    case ColorTemperatureMode => 11
    case ColdWarmWhiteMode => 19
    case RGBMode => 35
    case RGBWhiteMode => 39
    case RGBColorTemperatureMode => 47
    case RGBColdWarmWhiteMode => 51
  }

  /** Distinct colour modes are sent as distinct bytes. */
  lemma ColorModeToU8Injective(a: ColorMode, b: ColorMode)
    ensures ColorModeToU8(a) == ColorModeToU8(b) <==> a == b
  {
  }

  /** The light description fields that bear on colour modes. */
  datatype LightInfo = LightInfo(
    supportedColorModes: seq<ColorMode>,
    legacySupportsBrightness: bool,
    legacySupportsRgb: bool,
    legacySupportsWhiteValue: bool,
    legacySupportsColorTemperature: bool)

  /** The legacy boolean combinations the table lists: brightness accompanies every other
      capability, and a white channel only comes with RGB. */
  predicate ListedLegacyCombination(brightness: bool, rgb: bool, white: bool, colorTemperature: bool) {
    && (brightness || (!rgb && !white && !colorTemperature))
    && (white ==> rgb)
  }

  /** The capability set made of OnOff and one bit per legacy boolean that is true. */
  function CapabilitiesOf(brightness: bool, rgb: bool, white: bool, colorTemperature: bool): FlagSet {
    OnOff.Mask()
    | (if brightness then Brightness.Mask() else 0)
    | (if rgb then RGB.Mask() else 0)
    | (if white then White.Mask() else 0)
    | (if colorTemperature then ColorTemperature.Mask() else 0)
  }

  /** The fixed table from the four legacy booleans to one capability set; every unlisted
      combination falls back to OnOff. */
  function LegacyColorCapabilities(brightness: bool, rgb: bool, white: bool, colorTemperature: bool): (caps: FlagSet)
    ensures caps & OnOff.Mask() != 0
    ensures caps == if ListedLegacyCombination(brightness, rgb, white, colorTemperature)
                    then CapabilitiesOf(brightness, rgb, white, colorTemperature)
                    else OnOff.Mask()
  {
    match (brightness, rgb, white, colorTemperature)
    case (false, false, false, false) => OnOff.Mask()
    case (true, false, false, false) => OnOff.Mask() | Brightness.Mask()
    case (true, false, false, true) => OnOff.Mask() | Brightness.Mask() | ColorTemperature.Mask()
    case (true, true, false, false) => OnOff.Mask() | Brightness.Mask() | RGB.Mask()
    case (true, true, true, false) => OnOff.Mask() | Brightness.Mask() | RGB.Mask() | White.Mask()
    case (true, true, false, true) => OnOff.Mask() | Brightness.Mask() | RGB.Mask() | ColorTemperature.Mask()
    case (true, true, true, true) =>
      OnOff.Mask() | Brightness.Mask() | RGB.Mask() | White.Mask() | ColorTemperature.Mask()
    case _ => OnOff.Mask()
  }

  /** The table's values as numbers, keyed by (brightness, rgb, white, colour temperature). */
  lemma LegacyColorCapabilitiesTable()
    ensures LegacyColorCapabilities(false, false, false, false) == 1
    ensures LegacyColorCapabilities(true, false, false, false) == 3
    ensures LegacyColorCapabilities(true, false, false, true) == 11
    ensures LegacyColorCapabilities(true, true, false, false) == 35
    ensures LegacyColorCapabilities(true, true, true, false) == 39
    ensures LegacyColorCapabilities(true, true, false, true) == 43
    ensures LegacyColorCapabilities(true, true, true, true) == 47
    ensures LegacyColorCapabilities(false, false, false, true) == 1
    ensures LegacyColorCapabilities(false, false, true, false) == 1
    ensures LegacyColorCapabilities(false, false, true, true) == 1
    ensures LegacyColorCapabilities(false, true, false, false) == 1
    ensures LegacyColorCapabilities(false, true, false, true) == 1
    ensures LegacyColorCapabilities(false, true, true, false) == 1
    ensures LegacyColorCapabilities(false, true, true, true) == 1
    ensures LegacyColorCapabilities(true, false, true, false) == 1
    ensures LegacyColorCapabilities(true, false, true, true) == 1
  {
  }

  function SupportedColorModesCompat(info: LightInfo, apiVersion: APIVersion): (modes: seq<FlagSet>)
    ensures Before(apiVersion, LightColorModeThreshold) ==>
      && |modes| == 1
      && modes[0] & OnOff.Mask() != 0
      && modes[0] == LegacyColorCapabilities(info.legacySupportsBrightness, info.legacySupportsRgb,
                                             info.legacySupportsWhiteValue, info.legacySupportsColorTemperature)
    ensures !Before(apiVersion, LightColorModeThreshold) ==>
      && |modes| == |info.supportedColorModes|
      && forall i :: 0 <= i < |modes| ==> modes[i] == ColorModeToU8(info.supportedColorModes[i])
  {
    if Before(apiVersion, APIVersion(1, 6)) then
      [LegacyColorCapabilities(info.legacySupportsBrightness, info.legacySupportsRgb,
                               info.legacySupportsWhiteValue, info.legacySupportsColorTemperature)]
    else
      seq(|info.supportedColorModes|, i requires 0 <= i < |info.supportedColorModes| =>
        ColorModeToU8(info.supportedColorModes[i]))
  }

  /** Below the threshold only the legacy booleans matter; at or above it only the mode list. */
  lemma ColorModesDependOnOneSource(a: LightInfo, b: LightInfo, apiVersion: APIVersion)
    ensures Before(apiVersion, LightColorModeThreshold)
      && a.legacySupportsBrightness == b.legacySupportsBrightness
      && a.legacySupportsRgb == b.legacySupportsRgb
      && a.legacySupportsWhiteValue == b.legacySupportsWhiteValue
      && a.legacySupportsColorTemperature == b.legacySupportsColorTemperature
      ==> SupportedColorModesCompat(a, apiVersion) == SupportedColorModesCompat(b, apiVersion)
    ensures !Before(apiVersion, LightColorModeThreshold) && a.supportedColorModes == b.supportedColorModes
      ==> SupportedColorModesCompat(a, apiVersion) == SupportedColorModesCompat(b, apiVersion)
  {
  }

  /** At or above the threshold the byte list can be read back as the original mode list. */
  lemma ModernColorModesDetermineList(a: LightInfo, b: LightInfo, apiVersion: APIVersion)
    requires !Before(apiVersion, LightColorModeThreshold)
    requires SupportedColorModesCompat(a, apiVersion) == SupportedColorModesCompat(b, apiVersion)
    ensures a.supportedColorModes == b.supportedColorModes
  {
    var ra, rb := SupportedColorModesCompat(a, apiVersion), SupportedColorModesCompat(b, apiVersion);
    forall i | 0 <= i < |a.supportedColorModes|
      ensures a.supportedColorModes[i] == b.supportedColorModes[i]
    {
      assert ra[i] == rb[i];
      ColorModeToU8Injective(a.supportedColorModes[i], b.supportedColorModes[i]);
    }
  }
}
