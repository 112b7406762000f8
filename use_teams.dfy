/**
 * The teams hook's effect (apps/web/hooks/use-teams.ts, `useTeams`): once the
 * store has hydrated and the team list has arrived, make sure the active team
 * is one of the listed teams, falling back to the first personal team, or to
 * the first team. Fetching the list is not modelled: it is the parameter
 * `data` (`query.data`), absent while unresolved.
 */
module UseTeams {
  import opened Wrappers
  import opened Teams
  import opened TeamStore

  /** `if (activeTeamId)`: an id is set when it is non-null and non-empty. */
  predicate IsSet(active: Option<string>) {
    active.Some? && active.value != ""
  }

  /** `personalTeam?.id ?? query.data[0]?.id ?? null`, for a non-empty list. */
  function FallbackTeamId(teams: seq<Team>): string
    requires teams != []
  {
    var personal := FindPersonal(teams);
    if personal.Some? then personal.value.id else teams[0].id
  }

  /** The id the effect writes with `setActiveTeamId`, or `None` when it writes nothing. */
  function EffectWrite(hasHydrated: bool, data: Option<seq<Team>>, active: Option<string>): Option<string> {
    if !hasHydrated || data.None? || data.value == [] then None
    else
      var teams := data.value;
      if IsSet(active) && active.value !in Ids(teams) then Some(FallbackTeamId(teams))
      else if !IsSet(active) then Some(FallbackTeamId(teams))
      else None
  }

  /** One run of the effect against the team store, at time `now`. */
  method RunEffect(store: TeamStore, hasHydrated: bool, data: Option<seq<Team>>, now: int)
    modifies store
    ensures var write := EffectWrite(hasHydrated, data, old(store.activeTeamId));
      if write.Some? then store.State() == AfterSetActive(old(store.State()), Some(write.value), None, now)
      else store.State() == old(store.State())
  {
    if !hasHydrated {
      return;
    }
    if data.None? || data.value == [] {
      return;
    }
    var teams := data.value;
    var personal := FindPersonal(teams);
    var active := store.activeTeamId;
    if IsSet(active) && active.value !in Ids(teams) {
      store.SetActiveTeamId(Some(if personal.Some? then personal.value.id else teams[0].id), None, now);
      return;
    }
    if !IsSet(active) {
      store.SetActiveTeamId(Some(if personal.Some? then personal.value.id else teams[0].id), None, now);
    }
  }

  /** The fallback is the first personal team if there is one, else the first team; either way a listed id. */
  lemma FallbackChoice(teams: seq<Team>)
    requires teams != []
    ensures FallbackTeamId(teams) in Ids(teams)
    ensures (exists i | 0 <= i < |teams| :: teams[i].teamType == Personal) ==>
      exists i | 0 <= i < |teams| :: teams[i].id == FallbackTeamId(teams) && teams[i].teamType == Personal
        && forall j | 0 <= j < i :: teams[j].teamType != Personal
    ensures (forall i | 0 <= i < |teams| :: teams[i].teamType != Personal) ==> FallbackTeamId(teams) == teams[0].id
  {
    var personal := FindPersonal(teams);
    if personal.Some? {
      var i :| 0 <= i < |teams| && teams[i] == personal.value;
      assert Ids(teams)[i] == FallbackTeamId(teams);
    } else {
      assert Ids(teams)[0] == teams[0].id;
    }
  }

  /** Nothing is written before hydration, or while the list is missing or empty. */
  lemma NoWriteWithoutTeams(hasHydrated: bool, data: Option<seq<Team>>, active: Option<string>)
    requires !hasHydrated || data.None? || data.value == []
    ensures EffectWrite(hasHydrated, data, active).None?
  {
  }

  /** Otherwise the effect writes exactly when the active id is unset or not listed, and a listed active id is kept. */
  lemma WritesIffNotListed(data: seq<Team>, active: Option<string>)
    requires data != []
    ensures EffectWrite(true, Some(data), active).None? <==> IsSet(active) && active.value in Ids(data)
    ensures EffectWrite(true, Some(data), active).Some? ==> EffectWrite(true, Some(data), active).value == FallbackTeamId(data)
  {
  }

  /** Every id the effect writes belongs to the fetched list. */
  lemma WrittenIdIsListed(hasHydrated: bool, data: Option<seq<Team>>, active: Option<string>)
    ensures var write := EffectWrite(hasHydrated, data, active);
      write.Some? ==> data.Some? && write.value in Ids(data.value)
  {
    if EffectWrite(hasHydrated, data, active).Some? {
      FallbackChoice(data.value);
    }
  }

  /**
   * With non-empty team ids, the effect settles: after its write, running it
   * again writes nothing.
   */
  lemma EffectSettles(data: seq<Team>, active: Option<string>)
    requires forall i | 0 <= i < |data| :: data[i].id != ""
    ensures var write := EffectWrite(true, Some(data), active);
      write.Some? ==> EffectWrite(true, Some(data), write).None?
  {
    var write := EffectWrite(true, Some(data), active);
    if write.Some? {
      FallbackChoice(data);
      var i :| 0 <= i < |data| && Ids(data)[i] == write.value;
    }
  }
}
