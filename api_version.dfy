/**
 * The negotiated protocol version and the derived ordering on it.  A derived
 * `Ord` on a struct compares the fields in declaration order, so `major`
 * decides unless the two majors are equal.
 */
module ApiVersion {
  import opened Types

  datatype APIVersion = APIVersion(major: uint8, minor: uint8)

  datatype Ordering = Less | Equal | Greater

  function CompareU8(a: uint8, b: uint8): Ordering {
    if a < b then Less else if a == b then Equal else Greater
  }

  /** The derived `cmp`: compare `major`, and only on a tie compare `minor`. */
  function Compare(a: APIVersion, b: APIVersion): (o: Ordering)
    ensures o == Equal <==> a == b
    ensures o == Less <==> a.major < b.major || (a.major == b.major && a.minor < b.minor)
    ensures o == Greater <==> a.major > b.major || (a.major == b.major && a.minor > b.minor)
  {
    match CompareU8(a.major, b.major)
    case Equal => CompareU8(a.minor, b.minor)
    case other => other
  }

  /** Numeric rank of a version: an independent reference for the order. */
  function Rank(v: APIVersion): nat {
    v.major * 0x100 + v.minor
  }

  /** The `<` operator of the derived order. */
  predicate Before(a: APIVersion, b: APIVersion)
    ensures Before(a, b) <==> Rank(a) < Rank(b)
  {
    Compare(a, b) == Less
  }

  /** Thresholds below which each capability is read from its legacy fields. */
  const CoverStateThreshold := APIVersion(1, 1)
  const ClimatePresetThreshold := APIVersion(1, 5)
  const LightColorModeThreshold := APIVersion(1, 6)
  const BluetoothProxyThreshold := APIVersion(1, 9)
  const VoiceAssistantThreshold := APIVersion(1, 10)

  /** `Compare` is antisymmetric: swapping the arguments swaps Less and Greater. */
  lemma CompareFlips(a: APIVersion, b: APIVersion)
    ensures Compare(a, b) == Less <==> Compare(b, a) == Greater
    ensures Compare(a, b) == Equal <==> Compare(b, a) == Equal
  {
  }

  /** `Before` is a strict total order. */
  lemma BeforeIsStrictTotalOrder(a: APIVersion, b: APIVersion, c: APIVersion)
    ensures !Before(a, a)
    ensures Before(a, b) ==> !Before(b, a)
    ensures Before(a, b) && Before(b, c) ==> Before(a, c)
    ensures a == b || Before(a, b) || Before(b, a)
  {
  }

  /** A version is below a threshold exactly when its rank is, so a newer major always wins. */
  lemma BelowThreshold(v: APIVersion, t: APIVersion)
    ensures Before(v, t) <==> v.major < t.major || (v.major == t.major && v.minor < t.minor)
    ensures v.major > t.major ==> !Before(v, t)
  {
  }
}
