/**
 * Feature flags of a device.  Before a cutover version the device only sent a
 * legacy version counter; a counter of N means every feature introduced up to
 * N, so the flags accumulate.
 */
module DeviceInfoCompat {
  import opened Types
  import opened Flags
  import opened ApiVersion

  /** The version-dependent fields of the device description. */
  datatype DeviceInfo = DeviceInfo(
    legacyVoiceAssistantVersion: uint8,
    voiceAssistantFeatureFlags: FlagSet,
    legacyBluetoothProxyVersion: uint8,
    bluetoothProxyFeatureFlags: FlagSet)

  /** Bluetooth-proxy features implied by a legacy proxy version counter. */
  function LegacyBluetoothProxyFeatures(version: uint8): (flags: FlagSet)
    ensures forall i :: 0 <= i < 8 ==> (HasBit(flags, i) <==> i < 5 && i < version)
  {
    if version == 0 then 0x00
    else if version == 1 then 0x01
    else if version == 2 then 0x03
    else if version == 3 then 0x07
    else if version == 4 then 0x0F
    else 0x1F
  }

  /** Voice-assistant features implied by a legacy voice-assistant version counter. */
  function LegacyVoiceAssistantFeatures(version: uint8): (flags: FlagSet)
    ensures forall i :: 0 <= i < 8 ==> (HasBit(flags, i) <==> i < 2 && i < version)
  {
    if version == 0 then 0x00
    else if version == 1 then 0x01
    else 0x03
  }

  method BluetoothProxyFeatureFlagsCompat(info: DeviceInfo, apiVersion: APIVersion) returns (flags: FlagSet)
    ensures Before(apiVersion, BluetoothProxyThreshold) ==>
      flags == LegacyBluetoothProxyFeatures(info.legacyBluetoothProxyVersion)
    ensures !Before(apiVersion, BluetoothProxyThreshold) ==> flags == info.bluetoothProxyFeatureFlags
  {
    if Before(apiVersion, APIVersion(1, 9)) {
      flags := 0;
      if info.legacyBluetoothProxyVersion >= 1 {
        flags := Union(flags, PassiveScan.Mask());
      }
      if info.legacyBluetoothProxyVersion >= 2 {
        flags := Union(flags, ActiveConnections.Mask());
      }
      if info.legacyBluetoothProxyVersion >= 3 {
        flags := Union(flags, RemoteCaching.Mask());
      }
      if info.legacyBluetoothProxyVersion >= 4 {
        flags := Union(flags, Pairing.Mask());
      }
      if info.legacyBluetoothProxyVersion >= 5 {
        flags := Union(flags, CacheClearing.Mask());
      }
      return;
    }
    flags := info.bluetoothProxyFeatureFlags;
  }

  method VoiceAssistantFeatureFlagsCompat(info: DeviceInfo, apiVersion: APIVersion) returns (flags: FlagSet)
    ensures Before(apiVersion, VoiceAssistantThreshold) ==>
      flags == LegacyVoiceAssistantFeatures(info.legacyVoiceAssistantVersion)
    ensures !Before(apiVersion, VoiceAssistantThreshold) ==> flags == info.voiceAssistantFeatureFlags
  {
    if Before(apiVersion, APIVersion(1, 10)) {
      flags := 0;
      if info.legacyVoiceAssistantVersion >= 1 {
        flags := Union(flags, VoiceAssistant.Mask());
      }
      if info.legacyVoiceAssistantVersion >= 2 {
        flags := Union(flags, Speaker.Mask());
      }
      return;
    }
    flags := info.voiceAssistantFeatureFlags;
  }

  const AllLegacyBluetoothProxyFeatures: FlagSet :=
    PassiveScan.Mask() | ActiveConnections.Mask() | RemoteCaching.Mask() | Pairing.Mask() | CacheClearing.Mask()

  /** A higher legacy proxy version never loses a feature. */
  lemma LegacyBluetoothProxyMonotone(lo: uint8, hi: uint8)
    requires lo <= hi
    ensures Subset(LegacyBluetoothProxyFeatures(lo), LegacyBluetoothProxyFeatures(hi))
  {
    var a, b := LegacyBluetoothProxyFeatures(lo), LegacyBluetoothProxyFeatures(hi);
    forall i | 0 <= i < 8 ensures HasBit(a, i) ==> HasBit(b, i) {
    }
    SubsetIsBitInclusion(a, b);
  }

  /** Each step of the legacy proxy version from 0 to 5 adds exactly one feature. */
  lemma LegacyBluetoothProxyStep(version: uint8)
    requires version < 5
    ensures Subset(LegacyBluetoothProxyFeatures(version), LegacyBluetoothProxyFeatures(version + 1))
    ensures LegacyBluetoothProxyFeatures(version + 1) == Union(LegacyBluetoothProxyFeatures(version), Bit(version))
    ensures !HasBit(LegacyBluetoothProxyFeatures(version), version)
  {
  }

  /** Version 0 means no feature, 5 and above every legacy feature, and raw advertisements
      are never inferred from a legacy counter. */
  lemma LegacyBluetoothProxyBounds(version: uint8)
    ensures version == 0 ==> LegacyBluetoothProxyFeatures(version) == Empty
    ensures version >= 5 ==> LegacyBluetoothProxyFeatures(version) == AllLegacyBluetoothProxyFeatures
    ensures LegacyBluetoothProxyFeatures(version) & RawAdvertisements.Mask() == 0
  {
  }

  /** The voice-assistant legacy counter gives nothing, the assistant, or assistant and speaker. */
  lemma LegacyVoiceAssistantValues(version: uint8)
    ensures version == 0 ==> LegacyVoiceAssistantFeatures(version) == Empty
    ensures version == 1 ==> LegacyVoiceAssistantFeatures(version) == VoiceAssistant.Mask()
    ensures version >= 2 ==> LegacyVoiceAssistantFeatures(version) == VoiceAssistant.Mask() | Speaker.Mask()
  {
  }

  /** A higher legacy voice-assistant version never loses a feature. */
  lemma LegacyVoiceAssistantMonotone(lo: uint8, hi: uint8)
    requires lo <= hi
    ensures Subset(LegacyVoiceAssistantFeatures(lo), LegacyVoiceAssistantFeatures(hi))
  {
    var a, b := LegacyVoiceAssistantFeatures(lo), LegacyVoiceAssistantFeatures(hi);
    forall i | 0 <= i < 8 ensures HasBit(a, i) ==> HasBit(b, i) {
    }
    SubsetIsBitInclusion(a, b);
  }
}
