/**
 * Capability flag sets: named bits packed into one byte.  Each domain has its
 * own enumeration whose `Mask` is the bit the source assigns to the variant.
 */
module Flags {

  type FlagSet = bv8

  const Empty: FlagSet := 0

  /** The flag set holding bit `i` alone, that is `1 << i`. */
  function Bit(i: nat): FlagSet
    requires i < 8
  {
    if i == 0 then 0x01
    else if i == 1 then 0x02
    else if i == 2 then 0x04
    else if i == 3 then 0x08
    else if i == 4 then 0x10
    else if i == 5 then 0x20
    else if i == 6 then 0x40
    else 0x80
  }

  predicate HasBit(f: FlagSet, i: nat)
    requires i < 8
  {
    f & Bit(i) != 0
  }

  /** Combining two flag sets keeps every bit of either and adds none. */
  function Union(a: FlagSet, b: FlagSet): (u: FlagSet)
    ensures forall i :: 0 <= i < 8 ==> (HasBit(u, i) <==> HasBit(a, i) || HasBit(b, i))
  {
    a | b
  }

  /** Every bit of `sub` is a bit of `sup`. */
  predicate Subset(sub: FlagSet, sup: FlagSet) {
    sub & sup == sub
  }

  /** Subset of flag sets is bitwise inclusion. */
  lemma SubsetIsBitInclusion(sub: FlagSet, sup: FlagSet)
    ensures Subset(sub, sup) <==> forall i :: 0 <= i < 8 ==> (HasBit(sub, i) ==> HasBit(sup, i))
  {
    if Subset(sub, sup) {
      forall i | 0 <= i < 8 && HasBit(sub, i) ensures HasBit(sup, i) {
        SubsetKeepsBit(sub, sup, Bit(i));
      }
    } else if forall i :: 0 <= i < 8 ==> (HasBit(sub, i) ==> HasBit(sup, i)) {
      BitsIncluded(sub, sup);
    }
  }

  lemma SubsetKeepsBit(sub: FlagSet, sup: FlagSet, mask: FlagSet)
    requires Subset(sub, sup) && sub & mask != 0
    ensures sup & mask != 0
  {
  }

  /** Bit-by-bit inclusion, spelled out on the eight masks. */
  lemma BitsIncluded(sub: FlagSet, sup: FlagSet)
    requires forall i :: 0 <= i < 8 ==> (HasBit(sub, i) ==> HasBit(sup, i))
    ensures Subset(sub, sup)
  {
    var b0, b1, b2, b3 := HasBit(sub, 0) ==> HasBit(sup, 0), HasBit(sub, 1) ==> HasBit(sup, 1),
                          HasBit(sub, 2) ==> HasBit(sup, 2), HasBit(sub, 3) ==> HasBit(sup, 3);
    var b4, b5, b6, b7 := HasBit(sub, 4) ==> HasBit(sup, 4), HasBit(sub, 5) ==> HasBit(sup, 5),
                          HasBit(sub, 6) ==> HasBit(sup, 6), HasBit(sub, 7) ==> HasBit(sup, 7);
    assert b0 && b1 && b2 && b3 && b4 && b5 && b6 && b7;
    MasksIncluded(sub, sup);
  }

  lemma MasksIncluded(sub: FlagSet, sup: FlagSet)
    requires HasBit(sub, 0) ==> HasBit(sup, 0)
    requires HasBit(sub, 1) ==> HasBit(sup, 1)
    requires HasBit(sub, 2) ==> HasBit(sup, 2)
    requires HasBit(sub, 3) ==> HasBit(sup, 3)
    requires HasBit(sub, 4) ==> HasBit(sup, 4)
    requires HasBit(sub, 5) ==> HasBit(sup, 5)
    requires HasBit(sub, 6) ==> HasBit(sup, 6)
    requires HasBit(sub, 7) ==> HasBit(sup, 7)
    ensures Subset(sub, sup)
  {
  }

  /** Exactly one bit is set. */
  predicate IsSingleBit(f: FlagSet) {
    f != 0 && f & (f - 1) == 0
  }

  datatype BluetoothProxyFeature =
    | PassiveScan | ActiveConnections | RemoteCaching | Pairing | CacheClearing | RawAdvertisements
  {
    function Mask(): (m: FlagSet)
      ensures IsSingleBit(m)
    {
      match this
      case PassiveScan => Bit(0)
      case ActiveConnections => Bit(1)
      case RemoteCaching => Bit(2)
      case Pairing => Bit(3)
      case CacheClearing => Bit(4)
      case RawAdvertisements => Bit(5)
    }
  }

  datatype VoiceAssistantFeature = VoiceAssistant | Speaker | APIAudio | Timers | Announce {
    function Mask(): (m: FlagSet)
      ensures IsSingleBit(m)
    {
      match this
      case VoiceAssistant => Bit(0)
      case Speaker => Bit(1)
      case APIAudio => Bit(2)
      case Timers => Bit(3)
      case Announce => Bit(4)
    }
  }

  datatype LightColorCapability = OnOff | Brightness | White | ColorTemperature | ColdWarmWhite | RGB {
    function Mask(): (m: FlagSet)
      ensures IsSingleBit(m)
    {
      match this
      case OnOff => Bit(0)
      case Brightness => Bit(1)
      case White => Bit(2)
      case ColorTemperature => Bit(3)
      case ColdWarmWhite => Bit(4)
      case RGB => Bit(5)
    }
  }

  /** Distinct proxy features occupy disjoint bits. */
  lemma BluetoothProxyFeatureMasksDisjoint(a: BluetoothProxyFeature, b: BluetoothProxyFeature)
    ensures a == b <==> a.Mask() == b.Mask()
    ensures a != b ==> a.Mask() & b.Mask() == 0
  {
  }

  /** Distinct voice-assistant features occupy disjoint bits. */
  lemma VoiceAssistantFeatureMasksDisjoint(a: VoiceAssistantFeature, b: VoiceAssistantFeature)
    ensures a == b <==> a.Mask() == b.Mask()
    ensures a != b ==> a.Mask() & b.Mask() == 0
  {
  }

  /** Distinct colour capabilities occupy disjoint bits. */
  lemma LightColorCapabilityMasksDisjoint(a: LightColorCapability, b: LightColorCapability)
    ensures a == b <==> a.Mask() == b.Mask()
    ensures a != b ==> a.Mask() & b.Mask() == 0
  {
  }
}
