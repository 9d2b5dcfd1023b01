/** The route wrapper that guards the application page: it starts out
    loading, probes the backend once, and then shows the page or redirects
    to sign-in. */
module PrivateRoute {
  import opened Outcomes
  import AxiosInstance

  /** The component's two pieces of state. */
  datatype RouteState = RouteState(isAuthenticated: bool, loading: bool)

  /** The state on mount. */
  const Mounted := RouteState(false, true)

  /** What the component renders. */
  datatype View = Placeholder | Protected | Redirect(to: string)

  /** The probe settled: `try` sets authenticated on success, `catch` clears
      it on failure, `finally` stops loading either way. */
  function Settle(probeOk: bool): (r: RouteState)
    ensures !r.loading
    ensures r.isAuthenticated <==> probeOk
  {
    RouteState(probeOk, false)
  }

  /** `await AxiosInstance.get(...)` returns normally exactly when the request
      resolved. */
  predicate ProbeOk(outcome: Result<int, AxiosInstance.AxiosError>) {
    outcome.Success?
  }

  /** The render decision: the placeholder while loading, then the page iff
      authenticated, else a redirect to sign-in. */
  function Render(st: RouteState): (v: View)
    ensures v == Placeholder <==> st.loading
    ensures !st.loading ==> (v == Protected <==> st.isAuthenticated)
    ensures v.Redirect? ==> v.to == AxiosInstance.SignInPath
  {
    if st.loading then Placeholder
    else if st.isAuthenticated then Protected
    else Redirect(AxiosInstance.SignInPath)
  }

  /** The states of one mount. The effect has no dependencies, so it runs once
      and issues one probe: `probe` is its outcome once it has settled, and
      `None` while it is pending. The `try` or `catch` update and the
      `finally` update are taken to be committed together, as React batches
      state updates made after an `await`. */
  function Lifecycle(probe: Option<bool>): (h: seq<RouteState>)
    ensures |h| == (if probe.Some? then 2 else 1)
    ensures h[0] == Mounted
    ensures forall i | 0 < i < |h| :: !h[i].loading && (h[i].isAuthenticated <==> probe.value)
  {
    [Mounted] + (if probe.Some? then [Settle(probe.value)] else [])
  }

  /** A mount starts loading and unauthenticated, has at most one later
      state, which is no longer loading, and ends on the page iff the probe
      succeeded. At most one later state holds because the effect runs once
      and its two updates are committed in one render. */
  lemma LifecycleLeavesLoadingOnce(probe: Option<bool>)
    ensures var h := Lifecycle(probe);
      && h[0] == Mounted && Render(h[0]) == Placeholder
      && (forall i | 0 < i < |h| :: !h[i].loading)
      && |h| <= 2
      && (probe.None? ==> Render(h[|h| - 1]) == Placeholder)
      && (probe.Some? ==> (Render(h[|h| - 1]) == Protected <==> probe.value))
      && (probe.Some? && !probe.value ==> Render(h[|h| - 1]) == Redirect(AxiosInstance.SignInPath))
  {
  }
}
