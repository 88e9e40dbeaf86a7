/**
 * The three race-car agents of the newer revision: the generic Monte Carlo,
 * Q-learning and SARSA agents with every state offered the four race-track
 * actions, built with the defaults of their declarations.
 */
module RacecarAgents {
  import opened DataStructures
  import opened Sampler
  import opened Learning
  import MonteCarloAgent
  import LegacyQLearningAgent
  import SarsaAgent

  /** The `actionsForState` override shared by the three agents: `setOf(*RACETRACK_ACTIONS)`, in array order. */
  function RacecarActionsForState(state: RaceTrackState): seq<RaceTrackAction>
  {
    RACETRACK_ACTIONS
  }

  /** Every state is offered each of the four actions, exactly once. */
  lemma RacecarActionsComplete(state: RaceTrackState)
    ensures |RacecarActionsForState(state)| == 4 && Distinct(RacecarActionsForState(state))
    ensures forall a: RaceTrackAction :: a in RacecarActionsForState(state)
  {
    RaceTrackActionsComplete();
  }

  /** `RacecarMonteCarloAgent(gamma = 1.0, epsilon = 0.5)`; alpha keeps the base agent's 0.125. */
  method NewRacecarMonteCarloAgent(gamma: real := 1.0, epsilon: real := 0.5)
    returns (agent: MonteCarloAgent.MonteCarloAgent<RaceTrackState, RaceTrackAction>)
    ensures fresh(agent) && agent.Valid()
    ensures agent.actionsForState == RacecarActionsForState
    ensures agent.gamma == gamma && agent.epsilon == epsilon && agent.alpha == 0.125
    ensures agent.q == map[] && agent.pi == map[] && agent.returnLists == map[]
  {
    agent := new MonteCarloAgent.MonteCarloAgent(RacecarActionsForState, gamma, epsilon);
  }

  /** `RacecarQLearningAgent(gamma = 1.0, epsilon = 0.5, alpha = 0.1)`. */
  method NewRacecarQLearningAgent(gamma: real := 1.0, epsilon: real := 0.5, alpha: real := 0.1)
    returns (agent: LegacyQLearningAgent.QLearningAgent<RaceTrackState, RaceTrackAction>)
    ensures fresh(agent) && agent.Valid()
    ensures agent.actionsForState == RacecarActionsForState
    ensures agent.gamma == gamma && agent.epsilon == epsilon && agent.alpha == alpha
    ensures agent.q == map[] && agent.pi == map[]
  {
    agent := new LegacyQLearningAgent.QLearningAgent(RacecarActionsForState, gamma, epsilon, alpha);
  }

  /** `RacecarSarsaAgent(gamma = 1.0, epsilon = 0.5, alpha = 0.1)`. */
  method NewRacecarSarsaAgent(gamma: real := 1.0, epsilon: real := 0.5, alpha: real := 0.1)
    returns (agent: SarsaAgent.SarsaAgent<RaceTrackState, RaceTrackAction>)
    ensures fresh(agent) && agent.Valid()
    ensures agent.actionsForState == RacecarActionsForState
    ensures agent.gamma == gamma && agent.epsilon == epsilon && agent.alpha == alpha
    ensures agent.q == map[] && agent.pi == map[]
  {
    agent := new SarsaAgent.SarsaAgent(RacecarActionsForState, gamma, epsilon, alpha);
  }

  /** A race-car agent's first policy for a state: the four actions in array order, a quarter each. */
  lemma RacecarUniformPolicy(state: RaceTrackState)
    ensures Items(Uniform(RacecarActionsForState(state)).events) == RACETRACK_ACTIONS
    ensures forall e :: e in Uniform(RacecarActionsForState(state)).events ==> e.weight == 0.25
    ensures Uniform(RacecarActionsForState(state)).cumulativeWeight == 1.0
  {
    UniformShape(RACETRACK_ACTIONS);
    var es := Uniform(RACETRACK_ACTIONS).events;
    forall e | e in es
      ensures e.weight == 0.25
    {
      var i :| 0 <= i < |es| && es[i] == e;
    }
  }

  /**
   * Once a race-car agent's Monte Carlo pass is over, every state it
   * rewrote holds weights adding up to 1.
   */
  lemma RacecarPassPoliciesSumToOne(pi0: map<RaceTrackState, Dist<RaceTrackAction>>,
                                    pi: map<RaceTrackState, Dist<RaceTrackAction>>,
                                    q: map<StateAction<RaceTrackState, RaceTrackAction>, real>,
                                    done: set<RaceTrackState>, eps: real)
    requires PassPolicies(pi0, pi, q, done, RacecarActionsForState, eps)
    ensures forall s :: s in done ==> s in pi && pi[s].cumulativeWeight == 1.0
  {
    forall s | s in done
      ensures s in pi && pi[s].cumulativeWeight == 1.0
    {
      RacecarActionsComplete(s);
      var k :| k in q && k.state == s && IsMaxAt(q, s, k.action)
               && GreedyShaped(pi[s], k.action, RacecarActionsForState(s), eps);
      GreedyTotalIsOne(k.action, RacecarActionsForState(s), eps);
    }
  }

  /** After a race-car agent's TD step the touched state's weights add up to 1. */
  lemma RacecarTdPolicySumsToOne(pi: map<RaceTrackState, Dist<RaceTrackAction>>,
                                 q: map<StateAction<RaceTrackState, RaceTrackAction>, real>,
                                 s: RaceTrackState, eps: real)
    requires PoliciesOver(pi, RacecarActionsForState)
    ensures TdPolicies(pi, q, s, RacecarActionsForState(s), eps)[s].cumulativeWeight == 1.0
  {
    RacecarActionsComplete(s);
    TdPoliciesSpec(pi, q, s, RacecarActionsForState(s), eps);
  }
}
