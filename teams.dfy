/**
 * Teams as the client receives them (apps/web/lib/dtos.ts, `TeamDTO`, and
 * the narrower `Team` of apps/web/components/sidebar/team-switcher.tsx), with
 * the `find` lookups the sidebar and the teams hook make over the list.
 */
module Teams {
  import opened Wrappers

  datatype TeamType = Personal | Normal
  datatype Visibility = Private | Public

  /** `visibility` is optional in the sidebar's view of a team. */
  datatype Team = Team(id: string, name: string, teamType: TeamType, visibility: Option<Visibility>)

  /** `teams.map((team) => team.id)`. */
  function Ids(teams: seq<Team>): (ids: seq<string>)
    ensures |ids| == |teams| && forall i | 0 <= i < |teams| :: ids[i] == teams[i].id
  {
    seq(|teams|, i requires 0 <= i < |teams| => teams[i].id)
  }

  /** `teams.find((team) => team.type === "personal")`: the first personal team. */
  function FindPersonal(teams: seq<Team>): (r: Option<Team>)
    ensures r.None? <==> forall i | 0 <= i < |teams| :: teams[i].teamType != Personal
    ensures r.Some? ==> r.value.teamType == Personal
    ensures r.Some? ==> exists i | 0 <= i < |teams| :: (teams[i] == r.value && forall j | 0 <= j < i :: teams[j].teamType != Personal)
  {
    if teams == [] then None
    else if teams[0].teamType == Personal then Some(teams[0])
    else
      var r := FindPersonal(teams[1..]);
      if r.Some? then
        ghost var i :| 0 <= i < |teams[1..]| && teams[1..][i] == r.value && forall j | 0 <= j < i :: teams[1..][j].teamType != Personal;
        assert teams[i + 1] == r.value;
        r
      else r
  }

  /** `teams.find((t) => t.id === id)`: the first team with that id; `null` matches none. */
  function FindById(teams: seq<Team>, id: Option<string>): (r: Option<Team>)
    ensures r.None? <==> id.None? || id.value !in Ids(teams)
    ensures r.Some? ==> r.value in teams && Some(r.value.id) == id
  {
    if teams == [] || id.None? then None
    else if teams[0].id == id.value then Some(teams[0])
    else
      assert Ids(teams) == [teams[0].id] + Ids(teams[1..]);
      FindById(teams[1..], id)
  }
}
