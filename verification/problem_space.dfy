/** The problem-space map kept for one goal: a seed state, the heuristics the
    solver has declared, every further state it has reached, and the log of
    transitions that reached them.  The map is append-only between resets,
    states and heuristics are found again by their exact description, and the
    distance of a new state comes from the oracle `distance` (a language model
    asked to compare it with the goal). */
module ProblemSpace {
  import opened Text

  /** The goal of a registry that has not been given one. */
  const Unknown: string := "unknown"

  datatype State = State(id: int, description: string, distanceToGoal: real)
  datatype Heuristic = Heuristic(id: int, description: string, complexity: int)
  datatype Transition = Transition(fromStateId: int, toStateId: int, heuristicId: int)

  datatype ProblemSpaceMap = ProblemSpaceMap(
    goalDescription: string,
    states: seq<State>,
    heuristics: seq<Heuristic>,
    transitionHistory: seq<Transition>)

  /** Every map starts from this state. */
  const SeedState: State := State(0, "nothing", 100.0)

  datatype HeuristicReply = HeuristicAdded(id: int) | HeuristicAlreadyExists(existingId: int)

  datatype StateReply =
    | StateAdded(id: int, distanceToGoal: real)
    | StateAlreadyExists(existingId: int, distanceToGoal: real)

  /** The errors the registry raises: no goal yet, an id the guards reject,
      an id that Python's list indexing rejects, or an oracle reply that is
      not a number. */
  datatype RegistryError =
    | GoalUnknown
    | OriginStateNotFound(stateId: int)
    | HeuristicNotFound(heuristicId: int)
    | IndexOutOfRange
    | DistanceUnparseable

  datatype Result<T> = Ok(value: T) | Err(error: RegistryError)

  /** What the distance oracle is shown. */
  datatype DistanceQuery = DistanceQuery(
    goal: string,
    previousState: string,
    previousDistance: real,
    heuristicDescription: string,
    newState: string)

  /** What it answers: a number, or a reply that does not parse as one. */
  datatype DistanceReply = Estimate(distance: real) | Unparseable

  function StateDescriptions(ss: seq<State>): seq<string>
  {
    seq(|ss|, i requires 0 <= i < |ss| => ss[i].description)
  }

  function HeuristicDescriptions(hs: seq<Heuristic>): seq<string>
  {
    seq(|hs|, i requires 0 <= i < |hs| => hs[i].description)
  }

  /** The shape every reachable map has: ids are list positions, descriptions
      are unique, the seed comes first, and transition `k` reached state
      `k + 1` from an earlier state with a declared heuristic. */
  predicate WellFormed(m: ProblemSpaceMap)
  {
    && |m.states| >= 1
    && m.states[0] == SeedState
    && (forall i :: 0 <= i < |m.states| ==> m.states[i].id == i)
    && (forall i :: 0 <= i < |m.heuristics| ==> m.heuristics[i].id == i)
    && (forall i, j :: 0 <= i < j < |m.states| ==> m.states[i].description != m.states[j].description)
    && (forall i, j :: 0 <= i < j < |m.heuristics| ==> m.heuristics[i].description != m.heuristics[j].description)
    && |m.transitionHistory| == |m.states| - 1
    && (forall k :: 0 <= k < |m.transitionHistory| ==>
          && m.transitionHistory[k].toStateId == k + 1
          && 0 <= m.transitionHistory[k].fromStateId <= k
          && 0 <= m.transitionHistory[k].heuristicId < |m.heuristics|)
  }

  /** The map after `reset(goal)`: the seed state and nothing else. */
  function InitialMap(goal: string): (m: ProblemSpaceMap)
    ensures WellFormed(m)
    ensures m.goalDescription == goal && |m.states| == 1 && m.heuristics == [] && m.transitionHistory == []
  {
    ProblemSpaceMap(goal, [SeedState], [], [])
  }

  /** `get_map`: the map, once a goal is known. */
  function GetMap(m: ProblemSpaceMap): (r: Result<ProblemSpaceMap>)
    ensures r.Err? <==> m.goalDescription == Unknown
    ensures r.Err? ==> r.error == GoalUnknown
    ensures r.Ok? ==> r.value == m
  {
    if m.goalDescription == Unknown then Err(GoalUnknown) else Ok(m)
  }

  // ---------------------------------------------------------------------
  // Declaring a heuristic

  /** `add_heuristic`: the id of the heuristic with this description, or a
      new heuristic with the next id. */
  function AddHeuristic(m: ProblemSpaceMap, description: string, complexity: int)
    : (Result<HeuristicReply>, ProblemSpaceMap)
  {
    if m.goalDescription == Unknown then (Err(GoalUnknown), m)
    else match FirstIndex(HeuristicDescriptions(m.heuristics), description)
      case Some(k) => (Ok(HeuristicAlreadyExists(m.heuristics[k].id)), m)
      case None =>
        var id := |m.heuristics|;
        (Ok(HeuristicAdded(id)), m.(heuristics := m.heuristics + [Heuristic(id, description, complexity)]))
  }

  /** Declaring a heuristic keeps the map well formed.  It fails exactly when
      no goal is known; it reports the existing id exactly when the
      description is already declared, and then changes nothing; otherwise
      it appends one heuristic whose id is the old count and touches nothing
      else. */
  lemma AddHeuristicMeaning(m: ProblemSpaceMap, description: string, complexity: int)
    requires WellFormed(m)
    ensures var (r, m') := AddHeuristic(m, description, complexity);
      && WellFormed(m')
      && (r.Err? <==> m.goalDescription == Unknown)
      && (r.Err? ==> r.error == GoalUnknown && m' == m)
      && (r.Ok? ==> (r.value.HeuristicAlreadyExists? <==> description in HeuristicDescriptions(m.heuristics)))
      && (r.Ok? && r.value.HeuristicAlreadyExists? ==>
            && m' == m
            && 0 <= r.value.existingId < |m.heuristics|
            && m.heuristics[r.value.existingId].description == description)
      && (r.Ok? && r.value.HeuristicAdded? ==>
            && r.value.id == |m.heuristics|
            && m'.heuristics == m.heuristics + [Heuristic(r.value.id, description, complexity)]
            && m'.goalDescription == m.goalDescription
            && m'.states == m.states
            && m'.transitionHistory == m.transitionHistory)
  {
    var (r, m') := AddHeuristic(m, description, complexity);
    if r.Ok? && r.value.HeuristicAdded? {
      assert description !in HeuristicDescriptions(m.heuristics);
      forall i | 0 <= i < |m.heuristics|
        ensures m.heuristics[i].description != description
      {
        assert HeuristicDescriptions(m.heuristics)[i] == m.heuristics[i].description;
      }
    }
  }

  // ---------------------------------------------------------------------
  // Recording a transition

  function Query(m: ProblemSpaceMap, origin: State, heuristic: Heuristic, description: string): DistanceQuery
  {
    DistanceQuery(m.goalDescription, origin.description, origin.distanceToGoal, heuristic.description, description)
  }

  /** A new state with the distance the oracle gives for `q`, and one
      transition recording the step to it. */
  function AppendState(m: ProblemSpaceMap, fromStateId: int, heuristicId: int, q: DistanceQuery,
                       description: string, distance: DistanceQuery -> DistanceReply)
    : (Result<StateReply>, ProblemSpaceMap)
  {
    match distance(q)
    case Unparseable => (Err(DistanceUnparseable), m)
    case Estimate(d) =>
      var id := |m.states|;
      (Ok(StateAdded(id, d)),
       m.(states := m.states + [State(id, description, d)],
          transitionHistory := m.transitionHistory + [Transition(fromStateId, id, heuristicId)]))
  }

  /** `add_transition` with the id guards the invariant needs: an id is
      accepted exactly when it is a position in its list.  A description
      already reached gives back that state; a new one is appended. */
  function AddTransition(m: ProblemSpaceMap, fromStateId: int, heuristicId: int, description: string,
                         distance: DistanceQuery -> DistanceReply): (Result<StateReply>, ProblemSpaceMap)
  {
    if m.goalDescription == Unknown then (Err(GoalUnknown), m)
    else if !(0 <= fromStateId < |m.states|) then (Err(OriginStateNotFound(fromStateId)), m)
    else if !(0 <= heuristicId < |m.heuristics|) then (Err(HeuristicNotFound(heuristicId)), m)
    else match FirstIndex(StateDescriptions(m.states), description)
      case Some(k) => (Ok(StateAlreadyExists(m.states[k].id, m.states[k].distanceToGoal)), m)
      case None =>
        var q := Query(m, m.states[fromStateId], m.heuristics[heuristicId], description);
        AppendState(m, fromStateId, heuristicId, q, description, distance)
  }

  /** The checks run in order (goal, origin, heuristic), and every failure
      leaves the map as it was. */
  lemma AddTransitionErrors(m: ProblemSpaceMap, fromStateId: int, heuristicId: int, description: string,
                            distance: DistanceQuery -> DistanceReply)
    ensures var (r, m') := AddTransition(m, fromStateId, heuristicId, description, distance);
      && (r.Err? ==> m' == m)
      && (r == Err(GoalUnknown) <==> m.goalDescription == Unknown)
      && (r == Err(OriginStateNotFound(fromStateId)) <==>
            m.goalDescription != Unknown && !(0 <= fromStateId < |m.states|))
      && (r == Err(HeuristicNotFound(heuristicId)) <==>
            m.goalDescription != Unknown && 0 <= fromStateId < |m.states| && !(0 <= heuristicId < |m.heuristics|))
      && (r == Err(DistanceUnparseable) ==> description !in StateDescriptions(m.states))
  {
  }

  /** A description already reached gives back that state's id and distance,
      changes nothing, and does not depend on the oracle. */
  lemma AddTransitionExisting(m: ProblemSpaceMap, fromStateId: int, heuristicId: int, description: string,
                              distance: DistanceQuery -> DistanceReply, other: DistanceQuery -> DistanceReply)
    requires WellFormed(m)
    requires m.goalDescription != Unknown && 0 <= fromStateId < |m.states| && 0 <= heuristicId < |m.heuristics|
    requires description in StateDescriptions(m.states)
    ensures var (r, m') := AddTransition(m, fromStateId, heuristicId, description, distance);
      && m' == m
      && r.Ok? && r.value.StateAlreadyExists?
      && 0 <= r.value.existingId < |m.states|
      && m.states[r.value.existingId].description == description
      && r.value.distanceToGoal == m.states[r.value.existingId].distanceToGoal
      && AddTransition(m, fromStateId, heuristicId, description, other) == (r, m')
  {
  }

  /** A new description asks the oracle once, about the origin, the heuristic
      and the new state; a number becomes a new state with the next id and
      one transition from the origin to it, and nothing else changes. */
  lemma AddTransitionNew(m: ProblemSpaceMap, fromStateId: int, heuristicId: int, description: string,
                         distance: DistanceQuery -> DistanceReply)
    requires WellFormed(m)
    requires m.goalDescription != Unknown && 0 <= fromStateId < |m.states| && 0 <= heuristicId < |m.heuristics|
    requires description !in StateDescriptions(m.states)
    ensures var q := DistanceQuery(m.goalDescription, m.states[fromStateId].description,
                                   m.states[fromStateId].distanceToGoal,
                                   m.heuristics[heuristicId].description, description);
      var (r, m') := AddTransition(m, fromStateId, heuristicId, description, distance);
      && (distance(q).Unparseable? ==> r == Err(DistanceUnparseable) && m' == m)
      && (distance(q).Estimate? ==>
            var id := |m.states|;
            && r == Ok(StateAdded(id, distance(q).distance))
            && m'.states == m.states + [State(id, description, distance(q).distance)]
            && m'.transitionHistory == m.transitionHistory + [Transition(fromStateId, id, heuristicId)]
            && m'.heuristics == m.heuristics
            && m'.goalDescription == m.goalDescription)
  {
  }

  /** Recording a transition keeps the map well formed, whatever the oracle says. */
  lemma AddTransitionKeepsWellFormed(m: ProblemSpaceMap, fromStateId: int, heuristicId: int, description: string,
                                     distance: DistanceQuery -> DistanceReply)
    requires WellFormed(m)
    ensures WellFormed(AddTransition(m, fromStateId, heuristicId, description, distance).1)
  {
    var (r, m') := AddTransition(m, fromStateId, heuristicId, description, distance);
    if r.Ok? && r.value.StateAdded? {
      assert description !in StateDescriptions(m.states);
      forall i | 0 <= i < |m.states|
        ensures m.states[i].description != description
      {
        assert StateDescriptions(m.states)[i] == m.states[i].description;
      }
      var k := |m.transitionHistory|;
      assert m'.transitionHistory[k] == Transition(fromStateId, k + 1, heuristicId);
    }
  }

  /** Transition `to - 1` reached state `to` from state `from`. */
  predicate Step(m: ProblemSpaceMap, from: int, to: int)
  {
    1 <= to <= |m.transitionHistory|
    && m.transitionHistory[to - 1].fromStateId == from
    && m.transitionHistory[to - 1].toStateId == to
  }

  /** Every state is reached from the seed by a chain of recorded
      transitions: the map is a tree rooted at the seed. */
  lemma {:induction false} PathFromSeed(m: ProblemSpaceMap, i: int) returns (path: seq<int>)
    requires WellFormed(m)
    requires 0 <= i < |m.states|
    ensures |path| >= 1 && path[0] == 0 && path[|path| - 1] == i
    ensures forall k :: 0 <= k < |path| - 1 ==> Step(m, path[k], path[k + 1])
    decreases i
  {
    if i == 0 {
      path := [0];
    } else {
      var t := m.transitionHistory[i - 1];
      var prefix := PathFromSeed(m, t.fromStateId);
      path := prefix + [i];
      forall k | 0 <= k < |path| - 1
        ensures Step(m, path[k], path[k + 1])
      {
        if k < |prefix| - 1 {
          assert path[k] == prefix[k] && path[k + 1] == prefix[k + 1];
        } else {
          assert path[k] == t.fromStateId && path[k + 1] == i;
        }
      }
    }
  }

  /** Until a goal other than "unknown" is set, every operation but a reset
      fails with the same error, leaves the map alone and asks no oracle. */
  lemma UnknownGoalRejectsAll(m: ProblemSpaceMap, description: string, complexity: int,
                              fromStateId: int, heuristicId: int, distance: DistanceQuery -> DistanceReply)
    requires m.goalDescription == Unknown
    ensures AddHeuristic(m, description, complexity) == (Err(GoalUnknown), m)
    ensures AddTransition(m, fromStateId, heuristicId, description, distance) == (Err(GoalUnknown), m)
    ensures GetMap(m) == Err(GoalUnknown)
  {
  }

  /** A first episode: after a reset, one heuristic gets id 0, one step
      from the seed gets state id 1 with the oracle's distance, and the map
      then holds two states, one heuristic and one transition 0 -> 1. */
  lemma FirstSteps(goal: string, distance: DistanceQuery -> DistanceReply, d: real)
    requires goal != Unknown
    requires distance(DistanceQuery(goal, "nothing", 100.0, "combine with +", "4+4+6+8")) == Estimate(d)
    ensures var (r1, m1) := AddHeuristic(InitialMap(goal), "combine with +", 1);
      var (r2, m2) := AddTransition(m1, 0, 0, "4+4+6+8", distance);
      && r1 == Ok(HeuristicAdded(0))
      && r2 == Ok(StateAdded(1, d))
      && WellFormed(m2)
      && m2.states == [SeedState, State(1, "4+4+6+8", d)]
      && m2.heuristics == [Heuristic(0, "combine with +", 1)]
      && m2.transitionHistory == [Transition(0, 1, 0)]
      && GetMap(m2) == Ok(m2)
  {
    var m0 := InitialMap(goal);
    assert HeuristicDescriptions(m0.heuristics) == [];
    AddHeuristicMeaning(m0, "combine with +", 1);
    var m1 := AddHeuristic(m0, "combine with +", 1).1;
    assert StateDescriptions(m1.states) == ["nothing"];
    AddTransitionNew(m1, 0, 0, "4+4+6+8", distance);
    AddTransitionKeepsWellFormed(m1, 0, 0, "4+4+6+8", distance);
  }

  // ---------------------------------------------------------------------
  // The guards as written

  /** Python's `xs[i]`: a negative index counts from the end. */
  function PyIndex<T>(xs: seq<T>, i: int): (r: Option<T>)
    requires i < |xs|
    ensures r.Some? <==> -|xs| <= i
    ensures r.Some? ==> r.value == xs[i % |xs|]
  {
    if i >= 0 then Some(xs[i]) else if -|xs| <= i then Some(xs[|xs| + i]) else None
  }

  /** `add_transition` as its guards are written: only the upper bound of
      each id is checked, a negative id then picks an element from the end
      of its list, and the transition records the id as given. */
  function AddTransitionAsWritten(m: ProblemSpaceMap, fromStateId: int, heuristicId: int, description: string,
                                  distance: DistanceQuery -> DistanceReply): (Result<StateReply>, ProblemSpaceMap)
  {
    if m.goalDescription == Unknown then (Err(GoalUnknown), m)
    else if fromStateId >= |m.states| then (Err(OriginStateNotFound(fromStateId)), m)
    else if heuristicId >= |m.heuristics| then (Err(HeuristicNotFound(heuristicId)), m)
    else match FirstIndex(StateDescriptions(m.states), description)
      case Some(k) => (Ok(StateAlreadyExists(m.states[k].id, m.states[k].distanceToGoal)), m)
      case None =>
        var origin := PyIndex(m.states, fromStateId);
        var heuristic := PyIndex(m.heuristics, heuristicId);
        if origin.Some? && heuristic.Some? then
          AppendState(m, fromStateId, heuristicId, Query(m, origin.value, heuristic.value, description), description, distance)
        else (Err(IndexOutOfRange), m)
  }

  /** On ids that are not negative the guards as written and the corrected
      guards agree. */
  lemma AsWrittenAgreesOnNaturalIds(m: ProblemSpaceMap, fromStateId: int, heuristicId: int, description: string,
                                    distance: DistanceQuery -> DistanceReply)
    requires 0 <= fromStateId && 0 <= heuristicId
    ensures AddTransitionAsWritten(m, fromStateId, heuristicId, description, distance) ==
            AddTransition(m, fromStateId, heuristicId, description, distance)
  {
  }

  /** With one heuristic declared, origin id -1 passes the guard as written:
      the step is recorded from the newest state and the log names state -1,
      which breaks the shape of the map; the corrected guard rejects it. */
  lemma NegativeOriginAccepted(goal: string, distance: DistanceQuery -> DistanceReply)
    requires goal != Unknown
    requires distance(DistanceQuery(goal, "nothing", 100.0, "try", "a state")) == Estimate(50.0)
    ensures var m := AddHeuristic(InitialMap(goal), "try", 1).1;
      var (r, m') := AddTransitionAsWritten(m, -1, 0, "a state", distance);
      && WellFormed(m)
      && r == Ok(StateAdded(1, 50.0))
      && m'.transitionHistory == [Transition(-1, 1, 0)]
      && !WellFormed(m')
      && AddTransition(m, -1, 0, "a state", distance) == (Err(OriginStateNotFound(-1)), m)
  {
    var m0 := InitialMap(goal);
    assert HeuristicDescriptions(m0.heuristics) == [];
    var m := AddHeuristic(m0, "try", 1).1;
    assert m.heuristics == [Heuristic(0, "try", 1)];
    assert m.states == [SeedState];
    assert StateDescriptions(m.states) == ["nothing"];
    assert FirstIndex(["nothing"], "a state") == None;
    assert PyIndex(m.states, -1) == Some(SeedState);
    assert PyIndex(m.heuristics, 0) == Some(Heuristic(0, "try", 1));
    assert Query(m, SeedState, Heuristic(0, "try", 1), "a state") == DistanceQuery(goal, "nothing", 100.0, "try", "a state");
    var (r, m') := AddTransitionAsWritten(m, -1, 0, "a state", distance);
    assert m'.transitionHistory[0].fromStateId == -1;
  }
}
