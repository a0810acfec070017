/** The registry object the tool server holds: one problem-space map that
    `Reset` replaces and the other operations append to in place.  Each
    operation is proved to leave the map that the matching function of
    `ProblemSpace` describes, so the lemmas proved there (well-formedness,
    deduplication, append-only growth) carry over to the object. */
module Registry {
  import opened Text
  import opened ProblemSpace

  /** The linear search for a heuristic with this description. */
  method FindHeuristic(hs: seq<Heuristic>, description: string) returns (found: Option<nat>)
    ensures found == FirstIndex(HeuristicDescriptions(hs), description)
  {
    ghost var ds := HeuristicDescriptions(hs);
    var i := 0;
    while i < |hs|
      invariant 0 <= i <= |hs|
      invariant forall k :: 0 <= k < i ==> ds[k] != description
    {
      if hs[i].description == description {
        assert ds[i] == description;
        return Some(i);
      }
      i := i + 1;
    }
    assert description !in ds;
    found := None;
  }

  /** The linear search for a state with this description. */
  method FindState(ss: seq<State>, description: string) returns (found: Option<nat>)
    ensures found == FirstIndex(StateDescriptions(ss), description)
  {
    ghost var ds := StateDescriptions(ss);
    var i := 0;
    while i < |ss|
      invariant 0 <= i <= |ss|
      invariant forall k :: 0 <= k < i ==> ds[k] != description
    {
      if ss[i].description == description {
        assert ds[i] == description;
        return Some(i);
      }
      i := i + 1;
    }
    assert description !in ds;
    found := None;
  }

  class ProblemSpaceRegistry {
    var m: ProblemSpaceMap

    ghost predicate Valid()
      reads this
    {
      WellFormed(m)
    }

    /** A new registry has the seed state and no goal yet. */
    constructor()
      ensures Valid() && m == InitialMap(Unknown)
    {
      m := ProblemSpaceMap(Unknown, [SeedState], [], []);
    }

    /** Starts over with a new goal; allowed at any time. */
    method Reset(goal: string)
      modifies this
      ensures Valid() && m == InitialMap(goal)
    {
      m := ProblemSpaceMap(goal, [SeedState], [], []);
    }

    method AddHeuristic(description: string, complexity: int) returns (r: Result<HeuristicReply>)
      requires Valid()
      modifies this
      ensures Valid()
      ensures (r, m) == ProblemSpace.AddHeuristic(old(m), description, complexity)
    {
      AddHeuristicMeaning(m, description, complexity);
      if m.goalDescription == Unknown {
        return Err(GoalUnknown);
      }
      var found := FindHeuristic(m.heuristics, description);
      if found.Some? {
        return Ok(HeuristicAlreadyExists(m.heuristics[found.value].id));
      }
      var id := |m.heuristics|;
      m := m.(heuristics := m.heuristics + [Heuristic(id, description, complexity)]);
      r := Ok(HeuristicAdded(id));
    }

    method AddTransition(fromStateId: int, heuristicId: int, description: string,
                         distance: DistanceQuery -> DistanceReply) returns (r: Result<StateReply>)
      requires Valid()
      modifies this
      ensures Valid()
      ensures (r, m) == ProblemSpace.AddTransition(old(m), fromStateId, heuristicId, description, distance)
    {
      AddTransitionKeepsWellFormed(m, fromStateId, heuristicId, description, distance);
      if m.goalDescription == Unknown {
        return Err(GoalUnknown);
      }
      if !(0 <= fromStateId < |m.states|) {
        return Err(OriginStateNotFound(fromStateId));
      }
      if !(0 <= heuristicId < |m.heuristics|) {
        return Err(HeuristicNotFound(heuristicId));
      }
      var found := FindState(m.states, description);
      if found.Some? {
        var existing := m.states[found.value];
        return Ok(StateAlreadyExists(existing.id, existing.distanceToGoal));
      }
      var stateId := |m.states|;
      var origin := m.states[fromStateId];
      var reply := distance(DistanceQuery(m.goalDescription, origin.description, origin.distanceToGoal,
                                          m.heuristics[heuristicId].description, description));
      if reply.Unparseable? {
        return Err(DistanceUnparseable);
      }
      m := m.(states := m.states + [State(stateId, description, reply.distance)]);
      m := m.(transitionHistory := m.transitionHistory + [Transition(fromStateId, stateId, heuristicId)]);
      r := Ok(StateAdded(stateId, reply.distance));
    }

    method GetMap() returns (r: Result<ProblemSpaceMap>)
      requires Valid()
      ensures r == ProblemSpace.GetMap(m)
      ensures r.Ok? ==> WellFormed(r.value)
    {
      if m.goalDescription == Unknown {
        return Err(GoalUnknown);
      }
      r := Ok(m);
    }
  }
}
