/** The team-management page's Redux reducer: three lists of organisations
    (judge teams, VSOs, other organisations) and the three actions that
    replace or extend them. An organisation is left abstract (`O`). */
module TeamManagement {
  import opened Wrappers

  datatype State<O> = State(judgeTeams: seq<O>, vsos: seq<O>, otherOrgs: seq<O>)

  /** The actions the reducer distinguishes; any other `type`, and the
      default empty action, is `Unrecognised`. */
  datatype Action<O> =
    | OnReceiveTeamList(judgeTeamsPayload: seq<O>, vsosPayload: seq<O>, otherOrgsPayload: seq<O>)
    | OnReceiveNewJudgeTeam(org: O)
    | OnReceiveNewVso(org: O)
    | Unrecognised(actionType: string)

  /** `initialState` */
  function InitialState<O>(): (s: State<O>)
    ensures s.judgeTeams == [] && s.vsos == [] && s.otherOrgs == []
  {
    State([], [], [])
  }

  /** `teamManagementReducer`; an undefined state is `None`. */
  function Reduce<O>(state: Option<State<O>>, action: Action<O>): (r: State<O>)
    ensures var s := if state.Some? then state.value else InitialState();
      match action
      case OnReceiveTeamList(j, v, o) =>
        r.judgeTeams == j && r.vsos == v && r.otherOrgs == o
      case OnReceiveNewJudgeTeam(org) =>
        |r.judgeTeams| == |s.judgeTeams| + 1 && r.judgeTeams[..|s.judgeTeams|] == s.judgeTeams
        && r.judgeTeams[|s.judgeTeams|] == org && r.vsos == s.vsos && r.otherOrgs == s.otherOrgs
      case OnReceiveNewVso(org) =>
        |r.vsos| == |s.vsos| + 1 && r.vsos[..|s.vsos|] == s.vsos
        && r.vsos[|s.vsos|] == org && r.judgeTeams == s.judgeTeams && r.otherOrgs == s.otherOrgs
      case Unrecognised(_) => r == s
  {
    var s := if state.Some? then state.value else InitialState();
    match action
    case OnReceiveTeamList(j, v, o) => s.(judgeTeams := j, vsos := v, otherOrgs := o)
    case OnReceiveNewJudgeTeam(org) => s.(judgeTeams := s.judgeTeams + [org])
    case OnReceiveNewVso(org) => s.(vsos := s.vsos + [org])
    case Unrecognised(_) => s
  }

  /** The state after dispatching `actions` in order, from `state`. */
  function ReduceAll<O>(state: Option<State<O>>, actions: seq<Action<O>>): State<O>
    decreases |actions|
  {
    if actions == [] then (if state.Some? then state.value else InitialState())
    else ReduceAll(Some(Reduce(state, actions[0])), actions[1..])
  }

  function NewJudgeTeams<O>(orgs: seq<O>): (r: seq<Action<O>>)
    decreases |orgs|
    ensures |r| == |orgs|
    ensures forall i :: 0 <= i < |orgs| ==> r[i] == OnReceiveNewJudgeTeam(orgs[i])
  {
    if orgs == [] then [] else [OnReceiveNewJudgeTeam(orgs[0])] + NewJudgeTeams(orgs[1..])
  }

  /** Dispatching a new judge team first appends it, then goes on. */
  lemma ReduceAllNewJudgeTeam<O>(s: State<O>, org: O, rest: seq<Action<O>>)
    ensures ReduceAll(Some(s), [OnReceiveNewJudgeTeam(org)] + rest)
      == ReduceAll(Some(s.(judgeTeams := s.judgeTeams + [org])), rest)
  {
    assert ([OnReceiveNewJudgeTeam(org)] + rest)[1..] == rest;
  }

  lemma AppendHeadThenTail<O>(a: seq<O>, b: seq<O>)
    requires b != []
    ensures (a + [b[0]]) + b[1..] == a + b
  {
    assert b == [b[0]] + b[1..];
  }

  /** Receiving new judge teams one by one appends them, in order, to the
      judge teams already held, and touches neither other list. */
  lemma {:induction false} NewJudgeTeamsAppendInOrder<O>(s: State<O>, orgs: seq<O>)
    ensures var r := ReduceAll(Some(s), NewJudgeTeams(orgs));
      r.judgeTeams == s.judgeTeams + orgs && r.vsos == s.vsos && r.otherOrgs == s.otherOrgs
    decreases |orgs|
  {
    if orgs != [] {
      var next := s.(judgeTeams := s.judgeTeams + [orgs[0]]);
      ReduceAllNewJudgeTeam(s, orgs[0], NewJudgeTeams(orgs[1..]));
      NewJudgeTeamsAppendInOrder(next, orgs[1..]);
      AppendHeadThenTail(s.judgeTeams, orgs);
    }
  }

  /** A team list replaces whatever was held: after it, the state no longer
      depends on anything received before. */
  lemma {:induction false} TeamListForgetsHistory<O>(state: Option<State<O>>, history: seq<Action<O>>, j: seq<O>, v: seq<O>, o: seq<O>)
    ensures ReduceAll(state, history + [OnReceiveTeamList(j, v, o)]) == State(j, v, o)
    decreases |history|
  {
    if history == [] {
      assert history + [OnReceiveTeamList(j, v, o)] == [OnReceiveTeamList(j, v, o)];
    } else {
      assert (history + [OnReceiveTeamList(j, v, o)])[1..] == history[1..] + [OnReceiveTeamList(j, v, o)];
      TeamListForgetsHistory(Some(Reduce(state, history[0])), history[1..], j, v, o);
    }
  }

  function UnrecognisedActions<O>(types: seq<string>): (r: seq<Action<O>>)
    ensures |r| == |types|
    ensures forall i :: 0 <= i < |types| ==> r[i] == Unrecognised(types[i])
  {
    seq(|types|, i requires 0 <= i < |types| => Action<O>.Unrecognised(types[i]))
  }

  /** Unrecognised actions are ignored, however many are dispatched. */
  lemma {:induction false} UnrecognisedActionsIgnored<O>(s: State<O>, types: seq<string>)
    ensures ReduceAll(Some(s), UnrecognisedActions<O>(types)) == s
    decreases |types|
  {
    if types != [] {
      var actions := UnrecognisedActions<O>(types);
      assert actions[1..] == UnrecognisedActions<O>(types[1..]);
      UnrecognisedActionsIgnored(s, types[1..]);
    }
  }
}
