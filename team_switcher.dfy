/**
 * The sidebar's team switcher (apps/web/components/sidebar/team-switcher.tsx):
 * which team it shows, its visibility badge, and what selecting or creating a
 * team does. Rendering is reduced to which of its outcomes the component
 * reaches.
 */
module TeamSwitcher {
  import opened Wrappers
  import opened JsString
  import opened Teams
  import opened TeamStore

  // ---------------------------------------------------------------------------
  // Routes

  /** The path prefix of the project pages. */
  const ProjectsPrefix: string := "/projects/"

  /** Where switching team from inside a project leads. */
  const ProjectsPath: string := "/projects"

  /**
   * `/^\/projects\/[^/]+(\/|$)/.test(pathname)`: the greedy `[^/]+` always
   * ends at a '/' or at the end, so the test is that a character other than
   * '/' follows the prefix.
   */
  predicate IsProjectScopedRoute(pathname: string) {
    |pathname| > |ProjectsPrefix| && pathname[..|ProjectsPrefix|] == ProjectsPrefix && pathname[|ProjectsPrefix|] != '/'
  }

  /** What the regular expression describes: the prefix, a non-empty '/'-free segment, then '/' or the end. */
  predicate MatchesProjectRoute(pathname: string, segment: string, rest: string) {
    && pathname == ProjectsPrefix + segment + rest
    && segment != [] && '/' !in segment
    && (rest == [] || rest[0] == '/')
  }

  /** The test holds exactly when the path splits as the regular expression describes. */
  lemma ProjectScopedIffMatch(pathname: string)
    ensures IsProjectScopedRoute(pathname) <==> exists segment, rest :: MatchesProjectRoute(pathname, segment, rest)
  {
    if IsProjectScopedRoute(pathname) {
      var segment, rest := SplitAfterPrefix(pathname, ProjectsPrefix);
      assert MatchesProjectRoute(pathname, segment, rest);
    }
    if exists segment, rest :: MatchesProjectRoute(pathname, segment, rest) {
      var segment, rest :| MatchesProjectRoute(pathname, segment, rest);
      PrefixOfMatch(ProjectsPrefix, segment, rest);
    }
  }

  /** After a prefix, the longest run of characters other than '/' ends at a '/' or at the end. */
  lemma SplitAfterPrefix(path: string, p: string) returns (segment: string, rest: string)
    requires |path| > |p| && path[..|p|] == p && path[|p|] != '/'
    ensures path == p + segment + rest && segment != [] && '/' !in segment && (rest == [] || rest[0] == '/')
  {
    var tail := path[|p|..];
    var k := IndexOf(tail, '/');
    segment := if k == -1 then tail else tail[..k];
    rest := tail[|segment|..];
    assert tail == segment + rest;
    assert path == path[..|p|] + tail;
  }

  lemma PrefixOfMatch(p: string, segment: string, rest: string)
    requires segment != []
    ensures var path := p + segment + rest; |path| > |p| && path[..|p|] == p && path[|p|] == segment[0]
  {
    var path := p + segment + rest;
    assert path[..|p|] == p;
  }

  /** The projects list itself is not project-scoped; a project page and its sub-pages are. */
  lemma ProjectScopedExamples(segment: string, rest: string)
    requires segment != [] && '/' !in segment && (rest == [] || rest[0] == '/')
    ensures !IsProjectScopedRoute(ProjectsPath) && !IsProjectScopedRoute(ProjectsPrefix)
    ensures IsProjectScopedRoute(ProjectsPrefix + segment + rest)
  {
    ProjectScopedIffMatch(ProjectsPrefix + segment + rest);
    assert MatchesProjectRoute(ProjectsPrefix + segment + rest, segment, rest);
  }

  // ---------------------------------------------------------------------------
  // Badges

  datatype BadgeVariant = Neutral | Success

  const PublicLabel: string := "Público"
  const PrivateLabel: string := "Privado"

  /** `badgeVariantForTeam(team)`. */
  function BadgeVariantForTeam(team: Team): BadgeVariant {
    if team.teamType == Personal then Neutral
    else if team.visibility == Some(Public) then Success
    else Neutral
  }

  /** `badgeLabelForTeam(team)`. */
  function BadgeLabelForTeam(team: Team): string {
    if team.teamType == Personal then PrivateLabel
    else if team.visibility == Some(Public) then PublicLabel
    else PrivateLabel
  }

  /** Only a public team that is not personal gets the success badge, and the label says "Público" exactly then. */
  lemma BadgeAgrees(team: Team)
    ensures BadgeVariantForTeam(team) == Success <==> team.teamType == Normal && team.visibility == Some(Public)
    ensures BadgeLabelForTeam(team) == PublicLabel <==> BadgeVariantForTeam(team) == Success
    ensures BadgeLabelForTeam(team) == PrivateLabel <==> BadgeVariantForTeam(team) == Neutral
  {
  }

  // ---------------------------------------------------------------------------
  // The team shown

  /** `teams.find((t) => t.id === activeTeamId) ?? teams[0]`; `None` is `undefined`. */
  function ActiveTeam(teams: seq<Team>, activeTeamId: Option<string>): (r: Option<Team>)
    ensures r.Some? <==> teams != []
  {
    var found := FindById(teams, activeTeamId);
    if found.Some? then found
    else if teams != [] then Some(teams[0])
    else None
  }

  /** The active team is shown when listed, the first team otherwise. */
  lemma ActiveTeamChoice(teams: seq<Team>, activeTeamId: Option<string>)
    ensures activeTeamId.Some? && activeTeamId.value in Ids(teams) ==>
      ActiveTeam(teams, activeTeamId).Some? && ActiveTeam(teams, activeTeamId).value.id == activeTeamId.value
    ensures (activeTeamId.None? || activeTeamId.value !in Ids(teams)) && teams != [] ==>
      ActiveTeam(teams, activeTeamId) == Some(teams[0])
  {
  }

  // ---------------------------------------------------------------------------
  // Selecting and creating teams

  /**
   * `handleTeamSelect(teamId)`: nothing for the team already active;
   * otherwise the user's choice is stored, and a project page navigates to
   * the projects list (`router.push`, returned here).
   */
  method HandleTeamSelect(store: TeamStore, teamId: string, pathname: string, now: int) returns (navigate: Option<string>)
    modifies store
    ensures old(store.activeTeamId) == Some(teamId) ==> store.State() == old(store.State()) && navigate.None?
    ensures old(store.activeTeamId) != Some(teamId) ==>
      store.State() == AfterSetActive(old(store.State()), Some(teamId), Some(User), now)
      && navigate == NavigationAfterSwitch(pathname)
  {
    if store.activeTeamId == Some(teamId) {
      return None;
    }
    store.SetActiveTeamId(Some(teamId), Some(User), now);
    navigate := NavigationAfterSwitch(pathname);
  }

  /** `handleTeamCreated(teamId)`: the new team always becomes the user's choice. */
  method HandleTeamCreated(store: TeamStore, teamId: string, pathname: string, now: int) returns (navigate: Option<string>)
    modifies store
    ensures store.State() == AfterSetActive(old(store.State()), Some(teamId), Some(User), now)
    ensures navigate == NavigationAfterSwitch(pathname)
  {
    store.SetActiveTeamId(Some(teamId), Some(User), now);
    navigate := NavigationAfterSwitch(pathname);
  }

  /** After a switch, project pages go back to the projects list; other pages stay. */
  function NavigationAfterSwitch(pathname: string): Option<string> {
    if IsProjectScopedRoute(pathname) then Some(ProjectsPath) else None
  }

  // ---------------------------------------------------------------------------
  // Rendering outcomes

  /** What the component renders: a crash, the loading skeleton, nothing, or the menu for a team. */
  datatype Outcome = Crash(reason: string) | Skeleton | Nothing | Menu(team: Team, subtitle: string)

  /** Reading `team.type` of `undefined` throws. */
  function BadgeLabelOf(team: Option<Team>): Result<string, string> {
    if team.None? then Err("TypeError: cannot read properties of undefined (reading 'type')")
    else Ok(BadgeLabelForTeam(team.value))
  }

  /** The component as written: the subtitle is computed before the guards that handle a missing team. */
  function RenderAsWritten(teams: seq<Team>, activeTeamId: Option<string>, isLoading: bool): Outcome {
    var activeTeam := ActiveTeam(teams, activeTeamId);
    var subtitle := BadgeLabelOf(activeTeam);
    if subtitle.Err? then Crash(subtitle.error)
    else if activeTeam.None? && isLoading then Skeleton
    else if activeTeam.None? then Nothing
    else Menu(activeTeam.value, subtitle.value)
  }

  /** The component with the subtitle computed after the guards, as the guards intend. */
  function Render(teams: seq<Team>, activeTeamId: Option<string>, isLoading: bool): Outcome {
    var activeTeam := ActiveTeam(teams, activeTeamId);
    if activeTeam.None? && isLoading then Skeleton
    else if activeTeam.None? then Nothing
    else Menu(activeTeam.value, BadgeLabelForTeam(activeTeam.value))
  }

  /** As written, an empty team list crashes the component, loading or not: the skeleton and empty branches are dead. */
  lemma EmptyTeamsCrashAsWritten(activeTeamId: Option<string>, isLoading: bool)
    ensures RenderAsWritten([], activeTeamId, isLoading).Crash?
    ensures forall teams: seq<Team> :: RenderAsWritten(teams, activeTeamId, isLoading) != Skeleton
  {
  }

  /** With the guards first, the component never crashes, and otherwise behaves as written. */
  lemma RenderNeverCrashes(teams: seq<Team>, activeTeamId: Option<string>, isLoading: bool)
    ensures !Render(teams, activeTeamId, isLoading).Crash?
    ensures teams == [] ==> Render(teams, activeTeamId, isLoading) == (if isLoading then Skeleton else Nothing)
    ensures teams != [] ==> Render(teams, activeTeamId, isLoading) == RenderAsWritten(teams, activeTeamId, isLoading)
    ensures Render(teams, activeTeamId, isLoading).Menu? ==>
      Render(teams, activeTeamId, isLoading).subtitle == BadgeLabelForTeam(Render(teams, activeTeamId, isLoading).team)
  {
  }
}
