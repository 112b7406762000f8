/**
 * The active-team store (apps/web/lib/stores/team-store.ts): which team is
 * active, and who changed it last and when. Persisting the store to
 * `localStorage` is not modelled; `Date.now()` is the parameter `now`.
 */
module TeamStore {
  import opened Wrappers

  /** Who made a change: the user, or the application choosing a default. */
  datatype ChangeSource = User | Auto

  datatype TeamState = TeamState(activeTeamId: Option<string>, lastChangedSource: Option<ChangeSource>, lastChangedAt: Option<int>)

  /** Nothing chosen yet. */
  const InitialTeamState: TeamState := TeamState(None, None, None)

  /**
   * The state after `setActiveTeamId(teamId, opts)` at time `now`, where
   * `source` is `opts?.source` (absent when `opts` or its `source` is).
   */
  function AfterSetActive(s: TeamState, teamId: Option<string>, source: Option<ChangeSource>, now: int): TeamState {
    TeamState(teamId, Some(source.GetOr(Auto)), Some(now))
  }

  class TeamStore {
    var activeTeamId: Option<string>
    var lastChangedSource: Option<ChangeSource>
    var lastChangedAt: Option<int>

    function State(): TeamState
      reads this
    {
      TeamState(activeTeamId, lastChangedSource, lastChangedAt)
    }

    constructor ()
      ensures State() == InitialTeamState
    {
      activeTeamId, lastChangedSource, lastChangedAt := None, None, None;
    }

    /** `setActiveTeamId(teamId, opts)`: overwrites all three fields. */
    method SetActiveTeamId(teamId: Option<string>, source: Option<ChangeSource>, now: int)
      modifies this
      ensures State() == AfterSetActive(old(State()), teamId, source, now)
    {
      activeTeamId := teamId;
      lastChangedSource := if source.Some? then source else Some(Auto);
      lastChangedAt := Some(now);
    }
  }

  /**
   * The id is stored as given, `null` included; the source defaults to
   * "auto"; the time is the clock's; and the previous state leaves no trace.
   */
  lemma SetActiveStores(s: TeamState, t: TeamState, teamId: Option<string>, source: Option<ChangeSource>, now: int)
    ensures var r := AfterSetActive(s, teamId, source, now);
      && r.activeTeamId == teamId
      && (source.None? ==> r.lastChangedSource == Some(Auto))
      && (source.Some? ==> r.lastChangedSource == source)
      && r.lastChangedAt == Some(now)
      && r == AfterSetActive(t, teamId, source, now)
  {
  }

  /** Of two changes in a row, the later one decides the whole state. */
  lemma LastChangeWins(s: TeamState, a: Option<string>, sa: Option<ChangeSource>, ta: int,
                       b: Option<string>, sb: Option<ChangeSource>, tb: int)
    ensures AfterSetActive(AfterSetActive(s, a, sa, ta), b, sb, tb) == AfterSetActive(s, b, sb, tb)
  {
  }
}
