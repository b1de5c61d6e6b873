/**
 * Whether a cover is closed.  Old devices may report a two-valued legacy
 * state; when they do, it decides.  Otherwise a cover is closed exactly at
 * position zero.
 */
module CoverCompat {
  import opened Types
  import opened ApiVersion

  datatype LegacyCoverState = Open | Closed

  datatype CoverOperation = Idle | Opening | Closing

  /** The state fields a cover reports (the position and tilt are fractions, compared exactly). */
  datatype CoverState = CoverState(
    legacyState: Option<LegacyCoverState>,
    position: real,
    tilt: real,
    currentOperation: Option<CoverOperation>)

  predicate UsesLegacyState(state: CoverState, apiVersion: APIVersion) {
    Before(apiVersion, CoverStateThreshold) && state.legacyState.Some?
  }

  function IsClosed(state: CoverState, apiVersion: APIVersion): (closed: bool)
    ensures UsesLegacyState(state, apiVersion) ==> (closed <==> state.legacyState == Some(Closed))
    ensures !UsesLegacyState(state, apiVersion) ==> (closed <==> state.position == 0.0)
  {
    if Before(apiVersion, APIVersion(1, 1)) && state.legacyState.Some? then
      state.legacyState.value == Closed
    else
      state.position == 0.0
  }

  /** When the legacy state applies, the position, tilt and operation do not matter. */
  lemma LegacyStateDecides(s: CoverState, t: CoverState, apiVersion: APIVersion)
    requires Before(apiVersion, CoverStateThreshold)
    requires s.legacyState.Some? && s.legacyState == t.legacyState
    ensures IsClosed(s, apiVersion) == IsClosed(t, apiVersion)
  {
  }

  /** Otherwise only the position matters, whatever legacy value is present. */
  lemma PositionDecides(s: CoverState, t: CoverState, apiVersion: APIVersion)
    requires !Before(apiVersion, CoverStateThreshold) || (s.legacyState.None? && t.legacyState.None?)
    requires s.position == t.position
    ensures IsClosed(s, apiVersion) == IsClosed(t, apiVersion)
  {
  }

  lemma IsClosedExamples()
    ensures IsClosed(CoverState(Some(Closed), 0.5, 0.0, None), APIVersion(1, 0))
    ensures !IsClosed(CoverState(Some(Open), 0.0, 0.0, None), APIVersion(1, 0))
    ensures IsClosed(CoverState(None, 0.0, 0.0, None), APIVersion(1, 0))
    ensures IsClosed(CoverState(Some(Open), 0.0, 0.0, None), APIVersion(1, 1))
    ensures !IsClosed(CoverState(Some(Closed), 0.3, 0.0, None), APIVersion(1, 1))
  {
  }
}
