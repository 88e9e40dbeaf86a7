# Reinforcement-learning toys on a race track, modelled in Dafny

This project models the core of a small Kotlin reinforcement-learning toolkit.
An agent drives a car on a hard-coded 22 × 12 race track, from the starting
cell `1` to the ending cell `2`, avoiding the walls `@`. It learns with one of
three methods:

- on-policy first-visit Monte Carlo control for epsilon-soft policies;
- Q-learning;
- SARSA.

The repository holds two revisions of the same design. The older one is under
`src/`; its Dafny modules are prefixed `Legacy`. The newer one is under
`src/main/kotlin/algorithms/`. Both revisions share the value types, the
trajectory, the weighted sampler and the board rules. Each of these shared
parts is modelled once.

Modules, one per source file, plus shared layers:

- `DataStructures`: state-action pairs, visits, next-state samples, race-track
  states and the four actions.
- `Sampler`: the `ProbabilityDistribution` weighted sampler. It is a class
  updated in place, specified by functions on its value (`Dist`).
- `Trajectory`: the growing visit list with its first-visit set, and the
  first-visit invariant it keeps.
- `Grid`: the board rules the two `RaceTrack` revisions share. These are the
  track, the search for the `1` and `2` cells, the move and reward rules, and
  the trajectory drawing.
- `RaceTrack`, `LegacyRaceTrack`: the environment classes.
- `Learning`: the rules the agents share:
  - lazily created uniform policies;
  - the epsilon-greedy rewrite;
  - the Q-learning and SARSA values;
  - the two greedy-action rules;
  - the Monte Carlo pass over a reversed trajectory.
- `MonteCarloAgent`, `LegacyMonteCarloAgent`, `LegacyQLearningAgent`,
  `SarsaAgent`, `LegacyRaceCar`, `RacecarAgents`: the agents, as classes whose
  tables are fields.
- `Episode`: the environment as the runners see it, and the step budget. It
  also gives reference definitions of an episode (`Rollout`, `SarsaRollout`),
  against which every runner loop is proved.
- `LegacyMonteCarloRunner`, `LegacyRunner`, `LegacyQLearningRunner`,
  `LegacySarsaRunner`, `QLearningRunner`, `SarsaRunner`: the runners.

How the model stands in for things the source does at run time:

- Randomness is always an argument:
  - a draw `u` for `Math.random()`;
  - a choice for `startingStates.random()`;
  - a draw for `restartForNextEpisode`.
- A runner's agent is represented by what the runner sees of it. Its action
  choice is a function `(state, k) -> action`. Here `k` counts every draw the
  agent has made since the runner was built, and the runner keeps that count
  in its field `draws`. So each episode continues the draw stream where the
  previous episode stopped, and no draw index is used twice.
  `NextEpisodeDrawsAfresh` shows that consecutive episodes from the same start
  can then play different actions. The improvement calls the agent receives are
  kept in order in a log, `agentCalls`. The agents' own improvement is proved
  separately, in the agent modules.
- Doubles are modelled as `real`.

Several source behaviours are modelled exactly as written:

- In the newer Monte Carlo agent, a negative `alpha` is replaced, for good,
  by `1 / |returns|`. The Q-value is then the mean of the returns nudged by
  alpha towards the latest return (`AlphaRuleExample`). The comment at
  `src/main/kotlin/algorithms/MonteCarloAgent.kt:5-9` describes `alpha = -1`
  as strict averaging instead; the model follows the code.
- The newer Q-learning runner's `step` sets `currentState` to the next state
  before it calls `improvePolicy`. So the agent is improved with the state it
  reached, not the state it left. `AdvancedCallsDiffer` shows that the two
  runner modes differ exactly on the steps that move.
- The newer SARSA runner's `runOneEpisode` records the next action a' in the
  trajectory, while it improves the agent with the action a that was taken.
  `NextActionVisitsShifted` shows that each recorded action is the one taken
  one step later.
- `setEvents` on an empty input appends nothing.
- The Q-learning maximum ranges over the actions of the state being updated,
  as the source computes it.

## Model

| member | source | states |
|---|---|---|
| DataStructures.StateActionEquals | src/DataStructures.kt:41-44 | two pairs are equal exactly when the states and the actions are equal |
| DataStructures.NewVisit | src/DataStructures.kt:58-60 | a new visit keeps state, action and reward, and starts with the first-visit flag cleared |
| DataStructures.VisitEquals | src/DataStructures.kt:62-65 | visits compare by state only: equal exactly when the states are equal, whatever the action, reward and flag |
| DataStructures.Clone | src/DataStructures.kt:150-152 | a cloned state has the same coordinates |
| DataStructures.FromVisit | src/DataStructures.kt:145-147 | `fromVisit` yields the visit's state |
| DataStructures.RaceTrackActionsComplete | src/DataStructures.kt:162-170 | `RACETRACK_ACTIONS` lists each of the four actions exactly once |
| DataStructures.ActionCharsDistinct | src/DataStructures.kt:164-167 | distinct actions are drawn with distinct characters |
| Sampler.ProbabilityDistribution.constructor | src/DataStructures.kt:84-86 | a new distribution has no events and cumulative weight 0 |
| Sampler.ProbabilityDistribution.SetEvents | src/DataStructures.kt:88-94 | appends event i = (item i, weight 1/n, density i/n) for each item; the cumulative weight is unchanged |
| Sampler.ProbabilityDistribution.Normalize | src/DataStructures.kt:100-109 | the new value is `Normalized` of the old one: prefix-sum densities, stably sorted, total weight stored |
| Sampler.ProbabilityDistribution.Sample | src/DataStructures.kt:127-137 | returns the item of the first event whose density reaches u × cumulative weight, or the first event's item when none does |
| Sampler.ScanFrom | src/DataStructures.kt:130-134 | the scan stops at the first index whose density reaches r; every event before it is below r |
| Sampler.SampleIndex | src/DataStructures.kt:127-137 | the index picked is the first density ≥ r when one exists, and 0 otherwise |
| Sampler.SampleOf | src/DataStructures.kt:127-137 | a sampled item is always one of the distribution's items |
| Sampler.SampleIsItem | src/DataStructures.kt:130-136 | the sampled index names an item of the list |
| Sampler.SingleEventSample | src/DataStructures.kt:130-136 | a one-event distribution returns its only item for every draw |
| Sampler.SampleInterval | src/DataStructures.kt:130-134 | on sorted densities, event i is sampled exactly for draws in (density of i-1, density of i] |
| Sampler.PrefixSumsMonotone | src/DataStructures.kt:101-105 | with non-negative weights the fold's running sums never decrease |
| Sampler.PrefixSumsShape | src/DataStructures.kt:101-105 | the fold keeps items and weights, the last density is the total, and with non-negative weights the densities are sorted |
| Sampler.InsertByDensityProps | src/DataStructures.kt:108 | inserting into a density-sorted list keeps it sorted and adds exactly that event |
| Sampler.SortByDensityProps | src/DataStructures.kt:108 | `sortBy` yields a density-sorted permutation of the events (items and weights included) |
| Sampler.SortByDensitySortedIsIdentity | src/DataStructures.kt:108 | the stable sort leaves an already sorted list unchanged |
| Sampler.NormalizedPermutes | src/DataStructures.kt:100-109 | `normalize` permutes the (item, weight) pairs, sorts by density and stores the sum of the weights |
| Sampler.NormalizedNonNegative | src/DataStructures.kt:100-109 | with non-negative weights `normalize` keeps the event order, and the last density equals the cumulative weight |
| Sampler.SeededPrefixSum | src/DataStructures.kt:88-94 | the first k of the n seeded weights add up to k/n |
| Sampler.UniformShape | src/DataStructures.kt:88-109 | `setEvents` then `normalize` on n > 0 items: event i is (item i, 1/n, (i+1)/n) and the total is 1 |
| Sampler.UniformTotal | src/DataStructures.kt:88-109 | a fresh uniform distribution's weights add up to 1 |
| Sampler.UniformItems | src/DataStructures.kt:88-109 | a fresh distribution ranges over exactly the given items, also when there are none |
| Seqs.ReverseAt | src/Trajectory.kt:37-39 | the reversal has the same length, and element i is element n-1-i of the original |
| Seqs.ReverseReverse | src/Trajectory.kt:37-39 | reversing twice gives back the original list |
| Trajectory.FirstVisitUnique | src/Trajectory.kt:18-26 | under the first-visit rule the flagged states are exactly the visited ones, each flagged once, on its earliest visit |
| Trajectory.EarliestVisit | src/Trajectory.kt:22-25 | every visited state has an earliest visit |
| Trajectory.StampAt | src/Trajectory.kt:18-26 | visit i of a stamped list is flagged exactly when its state is neither seen before nor met at an earlier index |
| Trajectory.StampCons | src/Trajectory.kt:18-26 | stamping a list is stamping its head against the seen set, then the rest against the seen set plus the head's state |
| Trajectory.StampFromEmpty | src/Trajectory.kt:13-26 | stamping from an empty seen set yields a list that obeys the first-visit rule, over the same states |
| Trajectory.Trajectory.constructor | src/Trajectory.kt:6-11 | a new trajectory is empty, with no states seen |
| Trajectory.Trajectory.Clear | src/Trajectory.kt:13-16 | clears the visit list and the first-visit set |
| Trajectory.Trajectory.Add | src/Trajectory.kt:18-26 | appends (state, action, reward), flagged exactly when the state was not seen, adds the state to the seen set, and keeps the first-visit invariant |
| Trajectory.Trajectory.Size | src/Trajectory.kt:28-31 | the number of visits |
| Trajectory.Trajectory.Last | src/Trajectory.kt:33-35 | the last visit of a non-empty trajectory |
| Trajectory.Trajectory.Reversed | src/Trajectory.kt:37-39 | the visits in reverse order, index for index |
| Grid.ScanRow | src/main/kotlin/algorithms/RaceTrack.kt:106-116 | a row is copied unchanged, and its `1` and `2` cells are appended left to right |
| Grid.ReadLines | src/main/kotlin/algorithms/RaceTrack.kt:91-119 | the lines are appended as rows; size becomes (first line's length, line count); the `1` and `2` cells are appended in row-major order |
| Grid.RowCellsSpec | src/main/kotlin/algorithms/RaceTrack.kt:106-116 | a cell is found in a row exactly when it holds the character, and found cells are in increasing x |
| Grid.CellsWithSpec | src/main/kotlin/algorithms/RaceTrack.kt:97-119 | a cell is recorded exactly when the board holds the character there, and records are in row-major order |
| Grid.SortedHeadsDiffer | src/main/kotlin/algorithms/RaceTrack.kt:97-119 | a row-major list records each cell once at its head |
| Grid.OnlyCell | src/main/kotlin/algorithms/RaceTrack.kt:97-119 | a character found at exactly one cell is recorded exactly once |
| Grid.TrackStartCell | src/main/kotlin/algorithms/RaceTrack.kt:76-89 | the hard-coded track has exactly one starting cell, (2, 10) |
| Grid.TrackEndCell | src/main/kotlin/algorithms/RaceTrack.kt:76-89 | the hard-coded track has exactly one ending cell, (19, 1) |
| Grid.TrackCells | src/main/kotlin/algorithms/RaceTrack.kt:76-119 | loading the track records the starting list [(2, 10)] and the ending list [(19, 1)] |
| Grid.TrackRectangular | src/main/kotlin/algorithms/RaceTrack.kt:76-102 | the track is 12 rows of 22 cells, matching the size `load` computes |
| Grid.NextStateAs | src/main/kotlin/algorithms/RaceTrack.kt:150-158 | the next state is the current or the looked-up cell, and the reward is that of the looked-up cell |
| Grid.Transition | src/main/kotlin/algorithms/RaceTrack.kt:142-203 | the move stays put or reaches the action's destination, with reward -1.5, 1.0 or -1.0 |
| Grid.TransitionRules | src/main/kotlin/algorithms/RaceTrack.kt:143-158 | a wall blocks with -1.5; the ending cell is entered with 1.0; any other cell is entered with -1.0 |
| Grid.TargetOneStep | src/main/kotlin/algorithms/RaceTrack.kt:161-201 | UP, DOWN, LEFT and RIGHT change one coordinate by exactly one |
| Grid.EdgeClamp | src/main/kotlin/algorithms/RaceTrack.kt:166-197 | at the board's edge the state stays and the reward is the current cell's |
| Grid.TransitionStaysInBoard | src/main/kotlin/algorithms/RaceTrack.kt:142-203 | on a rectangular board every move from a cell is defined and lands on a cell |
| Grid.TrackNextAgrees | src/main/kotlin/algorithms/RaceTrack.kt:134-203 | on a cell of the loaded track the total move and terminal test are the track's own, and moves stay on the board |
| Grid.Framed | src/main/kotlin/algorithms/RaceTrack.kt:241-243 | each drawing row is the board row followed by a newline |
| Grid.Paint | src/main/kotlin/algorithms/RaceTrack.kt:245-247 | painting keeps the grid's shape |
| Grid.PaintCell | src/main/kotlin/algorithms/RaceTrack.kt:245-247 | a visited cell shows its last visit's action character, and an unvisited cell is untouched |
| Grid.RenderAt | src/main/kotlin/algorithms/RaceTrack.kt:208-219 | in the drawn board, cell (x, y) sits at y(w+1)+x and each row ends in a newline |
| Grid.DrawnAt | src/main/kotlin/algorithms/RaceTrack.kt:238-257 | in the trajectory drawing, each visited position shows its last visit's action and every other position shows the board |
| Grid.DrawEmpty | src/main/kotlin/algorithms/RaceTrack.kt:238-257 | the drawing of an empty trajectory is the plain board drawing |
| Grid.PaintVisits | src/main/kotlin/algorithms/RaceTrack.kt:245-247 | the painting loop computes `Paint` |
| Grid.JoinRows | src/main/kotlin/algorithms/RaceTrack.kt:249-255 | the joining loop concatenates the rows |
| RaceTrack.RaceTrack.constructor | src/main/kotlin/algorithms/RaceTrack.kt:68-70 | construction loads the track once: starting states [(2, 10)] and ending states [(19, 1)] |
| RaceTrack.RaceTrack.Load | src/main/kotlin/algorithms/RaceTrack.kt:75-122 | appends the track's rows and its `1` and `2` cells, and sets size to (22, 12) |
| RaceTrack.RaceTrack.LoadLines | src/main/kotlin/algorithms/RaceTrack.kt:91-119 | `load`'s body for any lines: rows, size and start and end cells as `ReadLines` states |
| RaceTrack.RaceTrack.BoardPositionAt | src/main/kotlin/algorithms/RaceTrack.kt:127-129 | the character at board[y][x]; on the loaded track `2` (or `1`) exactly at the recorded ending (or starting) states |
| RaceTrack.RaceTrack.IsTerminatingState | src/main/kotlin/algorithms/RaceTrack.kt:134-136 | terminal exactly on an ending cell; on the loaded track exactly at (19, 1) |
| RaceTrack.RaceTrack.SampleNextStateFromStateAction | src/main/kotlin/algorithms/RaceTrack.kt:142-203 | the move of `Transition`; on the loaded track a move from a cell lands on a cell |
| RaceTrack.RaceTrack.ToString | src/main/kotlin/algorithms/RaceTrack.kt:208-219 | every board row followed by a newline |
| RaceTrack.RaceTrack.GetRandomStartingState | src/main/kotlin/algorithms/RaceTrack.kt:224-226 | one of the starting states; on the loaded track always (2, 10) |
| RaceTrack.RaceTrack.RestartForNextEpisode | src/main/kotlin/algorithms/RaceTrack.kt:231-233 | ignores the previous state and returns a starting state, (2, 10) on the loaded track |
| RaceTrack.RaceTrack.GetDrawTrajectoryString | src/main/kotlin/algorithms/RaceTrack.kt:238-258 | the framed board with each visited cell overwritten by its action character, in visit order, joined |
| LegacyRaceTrack.RaceTrack.constructor | src/RaceTrack.kt:36-38 | construction loads the track once: starting states [(2, 10)] and ending states [(19, 1)] |
| LegacyRaceTrack.RaceTrack.Load | src/RaceTrack.kt:43-90 | appends the track's rows and its `1` and `2` cells, and sets size to (22, 12) |
| LegacyRaceTrack.RaceTrack.LoadLines | src/RaceTrack.kt:59-87 | `load`'s body for any lines: rows, size and start and end cells as `ReadLines` states |
| LegacyRaceTrack.RaceTrack.BoardPositionAt | src/RaceTrack.kt:95-97 | the character at board[y][x]; on the loaded track `2` (or `1`) exactly at the recorded ending (or starting) states |
| LegacyRaceTrack.RaceTrack.IsTerminatingState | src/RaceTrack.kt:102-104 | terminal exactly on an ending cell; on the loaded track exactly at (19, 1) |
| LegacyRaceTrack.RaceTrack.SampleNextStateFromStateAction | src/RaceTrack.kt:110-171 | the move of `Transition`; on the loaded track a move from a cell lands on a cell |
| LegacyRaceTrack.RaceTrack.ToString | src/RaceTrack.kt:176-187 | every board row followed by a newline |
| LegacyRaceTrack.RaceTrack.GetRandomStartingState | src/RaceTrack.kt:192-194 | one of the starting states; on the loaded track always (2, 10) |
| LegacyRaceTrack.RaceTrack.DrawTrajectoryString | src/RaceTrack.kt:199-223 | the framed board with each visited cell overwritten by its action character, in visit order, joined |
| Learning.WithPolicy | src/main/kotlin/algorithms/MonteCarloAgent.kt:27-34 | after `getOrPut` the state has a policy, the stored states grow by it, and an existing policy is kept |
| Learning.WithPolicyIdempotent | src/main/kotlin/algorithms/MonteCarloAgent.kt:27-34 | a second creation changes nothing; a first one stores the uniform policy; other states keep theirs |
| Learning.WithPolicyOver | src/main/kotlin/algorithms/MonteCarloAgent.kt:27-34 | lazy creation keeps every stored policy over its state's actions |
| Learning.NewUniformPolicy | src/main/kotlin/algorithms/MonteCarloAgent.kt:29-32 | a new distribution after `setEvents(actions)` and `normalize()` is the uniform policy over the actions |
| Learning.GreedyPolicyWeights | src/main/kotlin/algorithms/MonteCarloAgent.kt:83-90 | after the rewrite, the greedy action weighs 1-ε+ε/n and every other action ε/n |
| Learning.GreedyPolicyTotal | src/main/kotlin/algorithms/MonteCarloAgent.kt:83-90 | the rewritten policy's cumulative weight is the epsilon-greedy total |
| Learning.GreedyPolicyShaped | src/main/kotlin/algorithms/MonteCarloAgent.kt:83-90 | rewriting a policy over the actions gives an epsilon-greedy policy over the same actions, densities sorted |
| Learning.GreedyTotalIsOne | src/main/kotlin/algorithms/MonteCarloAgent.kt:83-90 | with distinct actions that include the greedy one, the weights add up to 1 |
| Learning.GreedyTotalMissing | src/main/kotlin/algorithms/MonteCarloAgent.kt:83-90 | a greedy action outside the actions leaves a total weight of ε |
| Learning.GreedyPolicyKeepsOrder | src/main/kotlin/algorithms/MonteCarloAgent.kt:83-90 | for ε in [0, 1], `normalize` after the rewrite keeps the event order |
| Learning.ReweightEvents | src/main/kotlin/algorithms/MonteCarloAgent.kt:83-89 | the weight loop rewrites every event, in place and in order, as `Reweighted` |
| Learning.MaxNextQ | src/QLearningAgent.kt:43-45 | the largest next-state value over the actions, with missing entries read as 0 |
| Learning.DefaultInsertKeepsReads | src/QLearningAgent.kt:41-45 | `getOrPut(sa, 0.0)` changes no 0-default read, so it does not change the maximum |
| Learning.QLearningValue | src/QLearningAgent.kt:41-49 | for α in [0, 1] the new value lies between the old value and the target reward + γ·maxQ |
| Learning.SarsaValue | src/main/kotlin/algorithms/SarsaAgent.kt:44-46 | for α in [0, 1] the new value lies between the old value and the target reward + γ·Q(s', a') |
| Learning.QLearningUpdate | src/QLearningAgent.kt:40-49 | the table changes only at (s, a), to `QLearningValue` |
| Learning.SarsaUpdate | src/main/kotlin/algorithms/SarsaAgent.kt:42-46 | the table changes only at (s, a), to `SarsaValue` |
| Learning.TdStepBetween | src/QLearningAgent.kt:47-49 | for α in [0, 1], a TD step moves the value between the old value and the target |
| Learning.QLearningExample | src/QLearningAgent.kt:41-49 | example: old 0, reward 2, γ 0.9, α 0.5 and maxQ 4 give 2.8 |
| Learning.FirstMaxIndex | src/QLearningAgent.kt:53-57 | `maxBy` returns the first index of a maximal rank |
| Learning.TdGreedyAction | src/QLearningAgent.kt:53-57 | a policy action that no other ranks above; if any action has an entry, the chosen one has an entry too |
| Learning.TdGreedyBest | src/QLearningAgent.kt:53-57 | over a policy of the state's actions, the greedy action is one of them and ranks at least as high as any |
| Learning.TdPoliciesSpec | src/QLearningAgent.kt:51-66 | only state s changes; its policy becomes epsilon-greedy on a best-ranked action; with distinct actions the weights add up to 1 |
| Learning.TdPoliciesOver | src/QLearningAgent.kt:51-66 | the TD rewrite keeps every policy over its state's actions |
| Learning.TdPolicyUpdate | src/QLearningAgent.kt:51-66 | the policy part of a TD step computes `TdPolicies` |
| Learning.QLearningImprove | src/QLearningAgent.kt:36-67 | Q-learning update at (s, a), then the policy rewrite of s; policies stay over their actions |
| Learning.SarsaImprove | src/main/kotlin/algorithms/SarsaAgent.kt:37-65 | SARSA update at (s, a), then the policy rewrite of s; policies stay over their actions |
| Learning.AccReturnIsDiscounted | src/main/kotlin/algorithms/MonteCarloAgent.kt:56-57 | the fold over the reversed trajectory yields at visit t exactly r_t + γ·r_{t+1} + γ²·r_{t+2} + … |
| Learning.McStep | src/main/kotlin/algorithms/MonteCarloAgent.kt:65-75 | one first visit appends its return to the pair's list and changes no other entry |
| Learning.McFoldFrame | src/main/kotlin/algorithms/MonteCarloAgent.kt:56-75 | a pass adds exactly the flagged pairs to both tables and leaves every other entry alone |
| Learning.StrictAverageKeepsMean | src/MonteCarloAgent.kt:64-66 | under strict averaging every Q-value stays the mean of its recorded returns |
| Learning.FirstReturnSetsQ | src/main/kotlin/algorithms/MonteCarloAgent.kt:65-75 | a pair's first return sets its Q-value to that return under either rule |
| Learning.NudgeBetween | src/main/kotlin/algorithms/MonteCarloAgent.kt:71-75 | for α ≤ 1 the nudged value lies between the mean and the new return, and the stored alpha ends in [0, 1] |
| Learning.AlphaRuleExample | src/main/kotlin/algorithms/MonteCarloAgent.kt:71-75 | with α = -1 and returns 1 then 3, α becomes 1 and Q ends at 3, not at the mean 2 |
| Learning.McFoldRecords | src/main/kotlin/algorithms/MonteCarloAgent.kt:56-65 | with at most one flag per state, a pass appends to each flagged pair's list exactly its accumulated return |
| Learning.PassRecordsReturns | src/main/kotlin/algorithms/MonteCarloAgent.kt:54-65 | on a first-visit trajectory, a pass records for each flagged visit at i one new return: the discounted return from i on |
| Learning.MaxKeyExists | src/main/kotlin/algorithms/MonteCarloAgent.kt:78-79 | once a state has an entry, it has an entry of largest value |
| Learning.MaxEntryOf | src/main/kotlin/algorithms/MonteCarloAgent.kt:78-79 | the filter-and-`maxBy` returns an entry of the state with the largest value |
| Learning.EpsGreedyFrame | src/main/kotlin/algorithms/MonteCarloAgent.kt:78-90 | a Q-update at another state keeps a state's policy epsilon-greedy on a maximizer |
| Learning.McUpdate | src/main/kotlin/algorithms/MonteCarloAgent.kt:65-75 | the table update of one first visit computes `McStep` |
| Learning.McPolicyUpdate | src/main/kotlin/algorithms/MonteCarloAgent.kt:78-90 | only state s's policy is created or rewritten; it becomes epsilon-greedy on a maximizer of Q at s |
| Learning.PassPoliciesStep | src/main/kotlin/algorithms/MonteCarloAgent.kt:56-90 | one more first visit keeps the pass invariant, with its state added to the rewritten ones |
| Learning.EmptyPass | src/main/kotlin/algorithms/MonteCarloAgent.kt:56 | a pass over an empty trajectory changes no table and no policy |
| Learning.MonteCarloPass | src/main/kotlin/algorithms/MonteCarloAgent.kt:54-94 | the tables become `McFold` of the old ones, and each flagged state's policy ends epsilon-greedy on a maximizer of Q |
| MonteCarloAgent.MonteCarloAgent.constructor | src/main/kotlin/algorithms/MonteCarloAgent.kt:11-21 | empty tables, with defaults γ 1, ε 0.5, α 0.125 |
| MonteCarloAgent.MonteCarloAgent.GetOrCreatePolicyForState | src/main/kotlin/algorithms/MonteCarloAgent.kt:27-34 | the stored policy, created uniform when missing; nothing else changes |
| MonteCarloAgent.MonteCarloAgent.SampleActionFromState | src/main/kotlin/algorithms/MonteCarloAgent.kt:44-46 | an action of the state, sampled from its (possibly new) policy |
| MonteCarloAgent.MonteCarloAgent.ImprovePolicy | src/main/kotlin/algorithms/MonteCarloAgent.kt:54-94 | the alpha-rule pass over the reversed trajectory; each flagged state ends epsilon-greedy |
| LegacyMonteCarloAgent.MonteCarloAgent.constructor | src/MonteCarloAgent.kt:4-20 | empty tables, with defaults γ 1 and ε 0.5 |
| LegacyMonteCarloAgent.MonteCarloAgent.GetOrCreatePolicyForState | src/MonteCarloAgent.kt:26-33 | the stored policy, created uniform when missing; nothing else changes |
| LegacyMonteCarloAgent.MonteCarloAgent.SampleActionFromState | src/MonteCarloAgent.kt:43-45 | an action of the state, sampled from its (possibly new) policy |
| LegacyMonteCarloAgent.MonteCarloAgent.ImprovePolicy | src/MonteCarloAgent.kt:53-85 | the strict-average pass over the reversed trajectory; each flagged state ends epsilon-greedy |
| LegacyQLearningAgent.QLearningAgent.constructor | src/QLearningAgent.kt:4-9 | empty tables, with defaults γ 1, ε 0.5, α 0.1 |
| LegacyQLearningAgent.QLearningAgent.GetOrCreatePolicyForState | src/QLearningAgent.kt:15-22 | the stored policy, created uniform when missing; nothing else changes |
| LegacyQLearningAgent.QLearningAgent.SampleActionFromState | src/QLearningAgent.kt:32-34 | an action of the state, sampled from its (possibly new) policy |
| LegacyQLearningAgent.QLearningAgent.ImprovePolicy | src/QLearningAgent.kt:36-67 | Q changes only at (s, a), to the Q-learning value; the policy of s becomes epsilon-greedy on the greedy action |
| SarsaAgent.SarsaAgent.constructor | src/main/kotlin/algorithms/SarsaAgent.kt:4-10 | empty tables, with defaults γ 1, ε 0.5, α 0.1 |
| SarsaAgent.SarsaAgent.GetOrCreatePolicyForState | src/main/kotlin/algorithms/SarsaAgent.kt:16-23 | the stored policy, created uniform when missing; nothing else changes |
| SarsaAgent.SarsaAgent.SampleActionFromState | src/main/kotlin/algorithms/SarsaAgent.kt:33-35 | an action of the state, sampled from its (possibly new) policy |
| SarsaAgent.SarsaAgent.ImprovePolicy | src/main/kotlin/algorithms/SarsaAgent.kt:37-65 | Q changes only at (s, a), to the SARSA value; the policy of s becomes epsilon-greedy on the greedy action |
| LegacyRaceCar.RaceCar.constructor | src/RaceCar.kt:4-18 | empty tables, four actions per state, with defaults γ 1, ε 0.5, α 0.1 |
| LegacyRaceCar.RaceCar.GetOrCreatePolicyForState | src/RaceCar.kt:24-31 | the stored policy, created uniform over the four actions when missing |
| LegacyRaceCar.RaceCar.SampleActionFromState | src/RaceCar.kt:40-43 | a race-track action sampled from the state's (possibly new) policy |
| LegacyRaceCar.RaceCar.ImprovePolicyWithMonteCarlo | src/RaceCar.kt:51-85 | the strict-average pass over the reversed trajectory; each flagged state ends epsilon-greedy |
| LegacyRaceCar.RaceCar.ImprovePolicyWithQLearning | src/RaceCar.kt:87-115 | Q-learning update at (s, a), then the policy rewrite of s; the recorded returns are untouched |
| LegacyRaceCar.RaceCar.ImprovePolicyWithSarsa | src/RaceCar.kt:117-146 | SARSA update at (s, a), then the policy rewrite of s; the recorded returns are untouched |
| LegacyRaceCar.ActionsForStateComplete | src/RaceCar.kt:33-35 | every state is offered each of the four actions exactly once |
| LegacyRaceCar.RaceCarPoliciesSumToOne | src/RaceCar.kt:72-114 | every rewritten race-car policy, after a Monte Carlo pass or a TD step, has total weight 1 |
| RacecarAgents.RacecarActionsComplete | src/main/kotlin/algorithms/RacecarAgents.kt:5-7 | every state is offered each of the four actions exactly once |
| RacecarAgents.NewRacecarMonteCarloAgent | src/main/kotlin/algorithms/RacecarAgents.kt:1-8 | a fresh Monte Carlo agent over the four actions, with α keeping the base agent's 0.125 |
| RacecarAgents.NewRacecarQLearningAgent | src/main/kotlin/algorithms/RacecarAgents.kt:10-18 | a fresh Q-learning agent over the four actions, with the given γ, ε and α |
| RacecarAgents.NewRacecarSarsaAgent | src/main/kotlin/algorithms/RacecarAgents.kt:20-28 | a fresh SARSA agent over the four actions, with the given γ, ε and α |
| RacecarAgents.RacecarUniformPolicy | src/main/kotlin/algorithms/MonteCarloAgent.kt:27-34 | a new race-car policy lists the four actions in array order, each with weight 1/4, total 1 |
| RacecarAgents.RacecarPassPoliciesSumToOne | src/main/kotlin/algorithms/MonteCarloAgent.kt:83-90 | after a Monte Carlo pass every rewritten race-car policy has total weight 1 |
| RacecarAgents.RacecarTdPolicySumsToOne | src/main/kotlin/algorithms/SarsaAgent.kt:50-64 | after a TD step the rewritten race-car policy has total weight 1 |
| Episode.Iterations | src/MonteCarloRunner.kt:53-58 | `while (… && maxTime > 1) { maxTime -= 1 … }` runs at most maxTime-1 times, and never when maxTime ≤ 1 |
| Episode.RolloutUnfold | src/MonteCarloRunner.kt:57-72 | one loop iteration is the first step, then the episode from where it lands |
| Episode.RolloutAt | src/MonteCarloRunner.kt:57-72 | step i starts where step i-1 ended, off a non-terminal state, with the agent's i-th draw and the environment's answer |
| Episode.RolloutStops | src/MonteCarloRunner.kt:57-58 | at most n steps, and fewer only when a terminal state is reached |
| Episode.TrackRolloutOnBoard | src/Runner.kt:69-87 | an episode on the track that starts on a cell stays on cells |
| Episode.TerminalStartIsEmpty | src/MonteCarloRunner.kt:57 | a terminal start plays no step |
| Episode.RecordsAt | src/QLearningRunner.kt:61-67 | every recorded visit and call is its step's, index for index |
| Episode.StampedVisitsAt | src/MonteCarloRunner.kt:63-70 | the i-th recorded visit is flagged exactly when its state is new since the reset and not met earlier in the episode |
| Episode.AdvancedCallsDiffer | src/main/kotlin/algorithms/QLearningRunner.kt:63-69 | the step mode's call differs from the loop's exactly on the steps that change state |
| Episode.SarsaRolloutAt | src/SarsaRunner.kt:63-78 | step i acts on the pair step i-1 left, off a non-terminal state, and draws the next action for the state reached |
| Episode.SarsaRolloutStops | src/SarsaRunner.kt:66-67 | at most n SARSA steps, and fewer only when a terminal state is reached |
| Episode.SarsaRecordsAt | src/SarsaRunner.kt:69-75 | every SARSA visit and call is its step's, index for index |
| Episode.NextEpisodeDrawsAfresh | src/Runner.kt:97-110 | an episode that continues the draw stream of the one before it can play different actions from the same start |
| Episode.NextActionVisitsShifted | src/main/kotlin/algorithms/SarsaRunner.kt:100-107 | the action the loop records at step i is the action taken at step i+1 |
| LegacyMonteCarloRunner.MonteCarloRunner.constructor | src/MonteCarloRunner.kt:4-21 | budget 10000, with no states seen, an empty trajectory and no draws made |
| LegacyMonteCarloRunner.MonteCarloRunner.Reset | src/MonteCarloRunner.kt:26-29 | clears the trajectory and the first-visit set |
| LegacyMonteCarloRunner.MonteCarloRunner.RunOneEpisode | src/MonteCarloRunner.kt:52-76 | the episode's draws start at the runner's draw count, which grows by its length; the trajectory grows by the episode's visits, flagged on states new since the reset, then one Monte Carlo call with it |
| LegacyMonteCarloRunner.PlayEpisode | src/MonteCarloRunner.kt:53-73 | the loop records the reference episode's visits, stamped against the seen set |
| LegacyRunner.Runner.constructor | src/Runner.kt:4-21 | budget 10000, with no states seen, an empty trajectory and no draws made |
| LegacyRunner.Runner.Reset | src/Runner.kt:26-29 | clears the trajectory and the first-visit set |
| LegacyRunner.Runner.RunOneEpisode | src/Runner.kt:66-90 | an episode from a starting cell, drawing on from the runner's draw count; visits flagged on new states, then one Monte Carlo call with the trajectory |
| LegacyRunner.TrackEnvironmentIsRaceTrack | src/Runner.kt:69-75 | on the loaded track the runner's environment restarts, tests and moves exactly as the race track does |
| LegacyRunner.EpisodeOnTrack | src/Runner.kt:69-87 | every step of an episode on the loaded track starts and ends on a cell |
| LegacyQLearningRunner.QLearningRunner.constructor | src/QLearningRunner.kt:4-15 | budget 10000, with an empty trajectory and no draws made |
| LegacyQLearningRunner.QLearningRunner.Reset | src/QLearningRunner.kt:20-22 | clears the trajectory |
| LegacyQLearningRunner.QLearningRunner.RunOneEpisode | src/QLearningRunner.kt:53-71 | an episode drawing on from the runner's draw count; its unflagged visits are appended, with one Q-learning call per step on the state it left |
| LegacyQLearningRunner.PlayQLearningEpisode | src/QLearningRunner.kt:54-70 | the loop records the reference episode's visits and calls |
| LegacySarsaRunner.SarsaRunner.constructor | src/SarsaRunner.kt:4-15 | budget 10000, with an empty trajectory and no draws made |
| LegacySarsaRunner.SarsaRunner.Reset | src/SarsaRunner.kt:20-22 | clears the trajectory |
| LegacySarsaRunner.SarsaRunner.RunOneEpisode | src/SarsaRunner.kt:60-81 | an episode from a starting cell whose first action is the next draw; one unflagged visit and one (s, a, sample, a') call per step; the draw count grows by the steps plus one |
| LegacySarsaRunner.PlaySarsaEpisode | src/SarsaRunner.kt:61-79 | the loop records the reference SARSA episode's visits and calls |
| QLearningRunner.QLearningRunner.constructor | src/main/kotlin/algorithms/QLearningRunner.kt:4-21 | budget 10000, standing on a restart state, with an empty trajectory and no draws made |
| QLearningRunner.QLearningRunner.Start | src/main/kotlin/algorithms/QLearningRunner.kt:52-55 | clears the trajectory and restarts from the current state |
| QLearningRunner.QLearningRunner.Step | src/main/kotlin/algorithms/QLearningRunner.kt:63-69 | the agent's next draw picks the action; one visit joins the trajectory; the runner moves on, and the agent is improved with the state reached |
| QLearningRunner.QLearningRunner.CanStillStep | src/main/kotlin/algorithms/QLearningRunner.kt:74-76 | true exactly when the current state is not terminal |
| QLearningRunner.QLearningRunner.End | src/main/kotlin/algorithms/QLearningRunner.kt:81 | changes nothing |
| QLearningRunner.QLearningRunner.RunOneEpisode | src/main/kotlin/algorithms/QLearningRunner.kt:87-105 | the trajectory is cleared, then holds the episode's first-visit-stamped visits, drawn on from the runner's draw count; one call per step; the step-mode state is untouched |
| QLearningRunner.RecordQLearningEpisode | src/main/kotlin/algorithms/QLearningRunner.kt:89-104 | the loop adds the reference episode's visits to the trajectory and logs its calls |
| SarsaRunner.SarsaRunner.GetStartingStateAction | src/main/kotlin/algorithms/SarsaRunner.kt:43-47 | a restart state and the action the agent draws for it |
| SarsaRunner.SarsaRunner.constructor | src/main/kotlin/algorithms/SarsaRunner.kt:4-18 | budget 10000, standing on a starting pair whose action is the agent's first draw, with an empty trajectory |
| SarsaRunner.SarsaRunner.Start | src/main/kotlin/algorithms/SarsaRunner.kt:52-55 | clears the trajectory and stands on a fresh starting pair, its action the agent's next draw |
| SarsaRunner.SarsaRunner.Step | src/main/kotlin/algorithms/SarsaRunner.kt:63-72 | a' is the agent's next draw; the pair's visit joins the trajectory, the agent gets (s, a, sample, a'), and the runner stands on (s', a') |
| SarsaRunner.SarsaRunner.CanStillStep | src/main/kotlin/algorithms/SarsaRunner.kt:77-79 | true exactly when the current pair's state is not terminal |
| SarsaRunner.SarsaRunner.End | src/main/kotlin/algorithms/SarsaRunner.kt:84 | changes nothing |
| SarsaRunner.SarsaRunner.CurrentPosition | src/main/kotlin/algorithms/SarsaRunner.kt:113-115 | the pair the step mode stands on |
| SarsaRunner.SarsaRunner.RunOneEpisode | src/main/kotlin/algorithms/SarsaRunner.kt:90-111 | the trajectory is cleared, then holds one stamped visit per step carrying a'; one (s, a, sample, a') call per step; the draws continue the runner's count |
| SarsaRunner.RecordSarsaEpisode | src/main/kotlin/algorithms/SarsaRunner.kt:92-109 | the loop adds the reference SARSA episode's next-action visits to the trajectory and logs its calls |

## Left out

- I/O and the user interface are not part of this model: `print`, `printStats`, `toString` of visits and states, the Swing board components, and both `main` functions. The older `load` ends by printing the track; that print is left out.
- `hashCode` overrides are left out. Maps are keyed by value equality, which is what those hashes serve.
- Doubles are modelled as exact `real` numbers. Rounding, `NaN` and infinities are not modelled.
- Randomness (`Math.random()`, `random()`) is passed in as arguments, and nothing is said about the draws' distribution.
- HashMap and HashSet iteration order is not modelled. The Monte Carlo `maxBy` over `q.entries` is modelled as some entry of largest value (`MaxEntryOf`), not as a particular one.
- `Set<A>` from `actionsForState` is modelled as a sequence in array order. `setEvents(vararg)` called with a set is read as `setEvents` over its elements.
- Policies are stored as values (`Dist`) in the agents' maps. The source hands the same `ProbabilityDistribution` object to the map and to its caller; that aliasing is not modelled.
- `Clone`: cloning and `fromVisit` are the identity on values, because object identity of states is not modelled.
- The runners do not run their agents. Each improvement call is recorded with its arguments in `agentCalls`, and the agents' improvement is proved on its own.
- `Runner.kt` calls `raceCar.improvePolicy(trajectory)`, and the older Monte Carlo runner calls `improvePolicyWithMonteCarlo`. Both are recorded as a `MonteCarloCall`, whatever the agent type declares.
- The newer Q-learning agent (`QLearningAgent.kt` under `src/main/kotlin/algorithms/`) is not part of this model. `RacecarQLearningAgent` is built on the older Q-learning agent instead, which has the same constructor defaults and `improvePolicy`.
- The older revision's `State` and `Action` classes are not part of this model. The older race track uses `RaceTrackState` and the four `RaceTrackAction`s.
- `Grid.TrackNext`: wherever a move would read a cell off the board, it returns the state unchanged with reward 0. Runners only reach cells, by `TrackRolloutOnBoard`.
- `Sampler.ProbabilityDistribution.Sample`: requires a non-empty event list. On an empty list the source's `probabilities[0]` throws.
- `Trajectory.Trajectory.Last`: requires a non-empty trajectory. The source's `list.last()` throws on an empty one.
- `RaceTrack.RaceTrack.GetRandomStartingState` and `LegacyRaceTrack.RaceTrack.GetRandomStartingState`: require a starting state. The source's `random()` throws on an empty list.
- `RaceTrack.RaceTrack.BoardPositionAt`: requires (x, y) on the board. The source throws an index error otherwise.
- `RaceTrack.RaceTrack.IsTerminatingState`: requires its state on the board. The source throws an index error otherwise.
- `RaceTrack.RaceTrack.SampleNextStateFromStateAction`: requires the move's destination on the board. The source throws an index error otherwise.
- `RaceTrack.RaceTrack.RestartForNextEpisode`: requires a starting state. The source's `random()` throws on an empty list.
- `RaceTrack.RaceTrack.GetDrawTrajectoryString`: requires every visit on the board. The source throws an index error when it paints an off-board visit.
- `LegacyRaceTrack.RaceTrack.BoardPositionAt`: requires (x, y) on the board. The source throws an index error otherwise.
- `LegacyRaceTrack.RaceTrack.IsTerminatingState`: requires its state on the board. The source throws an index error otherwise.
- `LegacyRaceTrack.RaceTrack.SampleNextStateFromStateAction`: requires the move's destination on the board. The source throws an index error otherwise.
- `LegacyRaceTrack.RaceTrack.DrawTrajectoryString`: requires every visit on the board. The source throws an index error when it paints an off-board visit.
- No runner calls any of these members outside their requires. On the loaded track every episode stays on cells (`TrackRolloutOnBoard`, `LegacyRunner.EpisodeOnTrack`).
- RunOneEpisode (every runner): the action drawn is `sampleActionFromState(state, k)` for the runner's running draw index `k`. The model does not link that draw to the policy the agent holds at that moment, which `improvePolicy` changes between episodes, because the runners log their calls instead of invoking an agent.
- `QLearningRunner.QLearningRunner`: the trajectory field is a `const` reference that `Start` and `RunOneEpisode` clear. The source declares it `var` and never reassigns it.
- Agents model `actionsForState` as a fixed function of the state. A state with no actions is excluded where the source would throw on `max()!!`, `maxBy()!!` or `sample()`.
