/** The teams slice: the selected team. */
module TeamsSlice {
  import opened Wrappers

  datatype State = State(selectedTeamId: Option<int>)

  const Initial := State(None)

  datatype Action = SetSelectedTeam(team: Option<int>)

  function Reduce(s: State, a: Action): State
  {
    s.(selectedTeamId := a.team)
  }

  /** `setSelectedTeam(x)` selects x whatever was selected; `null` clears the selection; repeating changes nothing. */
  lemma SelectTeam(s: State, x: Option<int>)
    ensures Reduce(s, SetSelectedTeam(x)).selectedTeamId == x
    ensures Reduce(s, SetSelectedTeam(None)) == Initial
    ensures Reduce(Reduce(s, SetSelectedTeam(x)), SetSelectedTeam(x)) == Reduce(s, SetSelectedTeam(x))
  {
  }

  class Store {
    var selectedTeamId: Option<int>

    constructor ()
      ensures selectedTeamId == Initial.selectedTeamId
    {
      selectedTeamId := None;
    }

    method SetSelectedTeam(team: Option<int>)
      modifies this
      ensures State(selectedTeamId) == Reduce(old(State(selectedTeamId)), Action.SetSelectedTeam(team))
    {
      selectedTeamId := team;
    }
  }
}
