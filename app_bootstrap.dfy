/**
 * The bootstrap state the application shell waits on
 * (apps/web/components/bootstrap/app-bootstrap-context.tsx,
 * `AppBootstrapProvider`): loading until the team store has hydrated, the team
 * list has arrived and, when there are teams, one of them is active.
 */
module AppBootstrap {
  import opened Wrappers
  import opened JsValue
  import opened Teams
  import opened UseTeams

  datatype BootstrapState = BootstrapState(isReady: bool, isLoading: bool, error: Value)

  /**
   * The memoised state, from the store's `hasHydrated` and `activeTeamId`
   * and the teams query's `data`, `isError` and `error`.
   */
  function Bootstrap(hasHydrated: bool, data: Option<seq<Team>>, active: Option<string>,
                     isError: bool, queryError: Value): BootstrapState
  {
    var teamsResolved := data.Some?;
    var teams := data.GetOr([]);
    var needsActiveTeam := |teams| > 0;
    var isLoading := !hasHydrated || !teamsResolved || (needsActiveTeam && !IsSet(active));
    BootstrapState(!isLoading && !isError, isLoading, if isError then queryError else Null)
  }

  /** Ready and loading never hold together; ready means hydrated, resolved, error-free and, with teams, an active team. */
  lemma ReadyExcludesLoading(hasHydrated: bool, data: Option<seq<Team>>, active: Option<string>, isError: bool, queryError: Value)
    ensures var s := Bootstrap(hasHydrated, data, active, isError, queryError);
      && !(s.isReady && s.isLoading)
      && (s.isReady <==> hasHydrated && data.Some? && !isError && (data.value != [] ==> IsSet(active)))
  {
  }

  /** The error is the query's exactly when the query failed, and `null` otherwise. */
  lemma ErrorOnlyOnFailure(hasHydrated: bool, data: Option<seq<Team>>, active: Option<string>, isError: bool, queryError: Value)
    ensures var s := Bootstrap(hasHydrated, data, active, isError, queryError);
      (isError ==> s.error == queryError) && (!isError ==> s.error == Null)
  {
  }

  /** A resolved, empty team list after hydration is not loading, even with no active team. */
  lemma EmptyListNotLoading(active: Option<string>, isError: bool, queryError: Value)
    ensures !Bootstrap(true, Some([]), active, isError, queryError).isLoading
  {
  }

  /**
   * Once hydrated and resolved, the teams hook's write ends the loading: with
   * non-empty team ids, loading holds before the effect only when the effect
   * writes, and never after it.
   */
  lemma EffectEndsLoading(data: seq<Team>, active: Option<string>, isError: bool, queryError: Value)
    requires forall i | 0 <= i < |data| :: data[i].id != ""
    ensures Bootstrap(true, Some(data), active, isError, queryError).isLoading ==> EffectWrite(true, Some(data), active).Some?
    ensures var write := EffectWrite(true, Some(data), active);
      write.Some? ==> !Bootstrap(true, Some(data), write, isError, queryError).isLoading
  {
    var write := EffectWrite(true, Some(data), active);
    if write.Some? {
      FallbackChoice(data);
      var i :| 0 <= i < |data| && Ids(data)[i] == write.value;
    }
  }
}
