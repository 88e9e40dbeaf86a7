/**
 * Value types shared by both revisions: state-action keys, environment samples,
 * trajectory visits and the race-track state and action set.
 */
module DataStructures {

  /** Key of the value table: a state together with an action. */
  datatype StateAction<S, A> = StateAction(state: S, action: A)

  /** `StateAction.equals`: both the states and the actions agree. */
  function StateActionEquals<S(==), A(==)>(a: StateAction<S, A>, b: StateAction<S, A>): (r: bool)
    ensures r <==> a == b
  {
    a.state == b.state && a.action == b.action
  }

  /** What the environment returns for a state-action pair. */
  datatype NextStateSample<S> = NextStateSample(state: S, reward: real)

  /** One recorded episode step. */
  datatype Visit<S, A> = Visit(state: S, action: A, reward: real, isFirstVisit: bool)

  /** The `Visit` constructor: the first-visit flag starts cleared. */
  function NewVisit<S, A>(state: S, action: A, reward: real): (v: Visit<S, A>)
    ensures v.state == state && v.action == action && v.reward == reward
    ensures !v.isFirstVisit
  {
    Visit(state, action, reward, false)
  }

  /**
   * `Visit.equals`: two visits are equal as soon as their states are, whatever
   * their actions, rewards and first-visit flags.
   */
  function VisitEquals<S(==), A(==)>(a: Visit<S, A>, b: Visit<S, A>): (r: bool)
    ensures r <==> a.(action := b.action, reward := b.reward, isFirstVisit := b.isFirstVisit) == b
  {
    a.state == b.state
  }

  /** A position on the race-track board. */
  datatype RaceTrackState = RaceTrackState(x: int, y: int)

  /** `RaceTrackState.clone`: a copy equal to the original. */
  function Clone(s: RaceTrackState): (c: RaceTrackState)
    ensures c == s
  {
    RaceTrackState(s.x, s.y)
  }

  /** `RaceTrackState.fromVisit`: the cloned state of a visit. */
  function FromVisit(v: Visit<RaceTrackState, RaceTrackAction>): (s: RaceTrackState)
    ensures s == v.state
  {
    Clone(v.state)
  }

  /** The four race-track moves, with the name and the drawing character of each. */
  datatype RaceTrackAction = Up | Left | Right | Down
  {
    function Name(): string
    {
      match this
      case Up => "UP"
      case Left => "LEFT"
      case Right => "RIGHT"
      case Down => "DOWN"
    }

    function Char(): char
    {
      match this
      case Up => '↑'
      case Left => '<'
      case Right => '>'
      case Down => '↓'
    }
  }

  /** `RACETRACK_ACTIONS`, in the order of the source array. */
  const RACETRACK_ACTIONS: seq<RaceTrackAction> := [Up, Left, Right, Down]

  /** No duplicates in a sequence. */
  predicate Distinct<T(==)>(s: seq<T>)
  {
    forall i, j :: 0 <= i < j < |s| ==> s[i] != s[j]
  }

  /** The race-track action list names every action exactly once. */
  lemma RaceTrackActionsComplete()
    ensures |RACETRACK_ACTIONS| == 4 && Distinct(RACETRACK_ACTIONS)
    ensures forall a: RaceTrackAction :: a in RACETRACK_ACTIONS
  {
    forall a: RaceTrackAction
      ensures a in RACETRACK_ACTIONS
    {
      match a
      case Up => assert RACETRACK_ACTIONS[0] == a;
      case Left => assert RACETRACK_ACTIONS[1] == a;
      case Right => assert RACETRACK_ACTIONS[2] == a;
      case Down => assert RACETRACK_ACTIONS[3] == a;
    }
  }

  /** Distinct actions draw as distinct characters, so a drawing identifies the action. */
  lemma ActionCharsDistinct(a: RaceTrackAction, b: RaceTrackAction)
    ensures a.Char() == b.Char() ==> a == b
  {
  }
}
