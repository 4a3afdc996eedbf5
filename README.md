# Hindsight relabeling and PPO preprocessing, in Dafny

This project models two sequential components of the Pearl reinforcement
learning library and proves properties of them.

**The hindsight experience replay buffer** (`hindsight_replay.dfy`). This is the "final" strategy of Andrychowicz et al., "Hindsight Experience Replay", 2017.
- Every `push` forwards the transition unchanged to the underlying first-in-first-out buffer and appends it to the pending episode.
- When the transition terminates the episode, `push` derives an additional goal from the final next state. It writes that goal into the goal slot of every pending state and next state, and recomputes each reward with the reward function. It also recomputes each done flag with the done function, if one was given.
- It pushes these relabeled copies through the base buffer's push, in their original order, and clears the pending episode.
- The buffer is a class:
  - `store` is the log of everything pushed into the base buffer;
  - `trajectory` is the pending episode.
- `Push` is proved equal to the pure step `PushSpec`. The episode-level properties are lemmas about `Run`, a sequence of `PushSpec` steps.

**Proximal Policy Optimization** (`ppo.dfy`). This covers the preprocessing pass and the clipped surrogate of the actor loss.
- The pass walks the on-policy memory from the most recent transition back to the oldest, and writes three annotations into every transition:
  - the generalized advantage estimate (equation 11 of Schulman et al., "Proximal Policy Optimization Algorithms", 2017, with terms past a terminating step masked out);
  - the truncated lambda-return;
  - the current policy's probability of the stored action.
- The memory is an array that the method updates in place.
- The method is proved equal to the pure specification `Preprocessed`. Separate lemmas then relate that specification to two independent definitions, a weighted sum of temporal-difference errors and a recursive lambda-return.
- The actor loss and the critic loss appear as functions over a stacked batch: the clipped surrogate and the critic's regression target.

The critic and the actor are fixed total functions in this model:
- `critic(s)` is the value of state `s`;
- `policy(s, a)` is the probability of action `a` in `s`.

Each already includes the history-summarization and action-representation steps. The reward function and the optional done function of the hindsight buffer are function-typed constants of the buffer.

The code takes the additional goal from the *leading* entries of the final next state (`next_state[:-goal_dim]`, line 91) and writes it into the *trailing* `goal_dim` entries of each state (lines 103-104). A common description of this buffer instead says the goal is the trailing entries of the final next state. The model follows the code. With states of length `2 * goal_dim` (observation, then goal), the code's choice is the achieved observation, which the "final" strategy calls for. `FinalTransitionAchievesGoal` states this.

The clipped surrogate takes `min(r * A, clip(r) * A)`. So for a negative advantage, the more negative of the two terms is kept, not the less negative one. `SurrogateExamples` shows both signs, and `SurrogateTerm` states the general rule.

## Model

| member | source | states |
|---|---|---|
| HindsightReplay.AdditionalGoal | pearl/replay_buffers/sequential_decision_making/hindsight_experience_replay_buffer.py:91 | the additional goal is the final next state without its last `goalDim` entries: its length is the state's length less `goalDim`, and each of its entries is the entry of the final next state at the same position |
| HindsightReplay.Relabel | pearl/replay_buffers/sequential_decision_making/hindsight_experience_replay_buffer.py:103-114 | the relabeled copy keeps the leading part of both states, carries the goal in both goal slots, is rewarded by the reward function of the rewritten state, takes the done function's verdict on the rewritten state when there is one and the stored flag otherwise, and copies the action, the action sets and the cost |
| HindsightReplay.ReplaceGoal | pearl/replay_buffers/sequential_decision_making/hindsight_experience_replay_buffer.py:103-104 | the rewritten state has the original length, keeps all but the last `goalDim` entries, and its last `goalDim` entries are the goal |
| HindsightReplay.ReplaceGoalIdempotent | pearl/replay_buffers/sequential_decision_making/hindsight_experience_replay_buffer.py:103-104 | writing the goal into a state that already carries it changes nothing, so states shared between consecutive transitions are relabeled consistently |
| HindsightReplay.RelabelAll | pearl/replay_buffers/sequential_decision_making/hindsight_experience_replay_buffer.py:92-115 | one relabeled copy per pending transition, in the episode's forward order, the i-th derived from the i-th pending transition |
| HindsightReplay.RelabelAllMeetsSpec | pearl/replay_buffers/sequential_decision_making/hindsight_experience_replay_buffer.py:103-114 | every copy keeps the leading part of both states and carries the goal in both goal slots. Its reward is the reward function of the rewritten state and the action. Its done flag is the original flag without a done function, else the done function's verdict. Action, action sets and cost are copied |
| HindsightReplay.PushSpec | pearl/replay_buffers/sequential_decision_making/hindsight_experience_replay_buffer.py:66-116 | the store first receives the pushed transition unchanged. Without done: exactly one store entry and one pending entry are appended. With done: the store grows by the pending episode's length plus two and nothing is left pending. Pending states stay long enough to hold a goal |
| HindsightReplay.RunWithoutDone | pearl/replay_buffers/sequential_decision_making/hindsight_experience_replay_buffer.py:66-89 | pushes that do not terminate append to the store verbatim and to the pending episode, and touch nothing else |
| HindsightReplay.EpisodeRelabel | pearl/replay_buffers/sequential_decision_making/hindsight_experience_replay_buffer.py:66-116 | an episode closed by a terminating push stores its transitions verbatim, then the relabeled copies of every pending transition (including those pending before it), all with the goal achieved by the terminating transition, and leaves nothing pending |
| HindsightReplay.EpisodeDoublesStore | pearl/replay_buffers/sequential_decision_making/hindsight_experience_replay_buffer.py:66-116 | from an empty pending episode, an episode of k pushes ending in done adds exactly 2k store entries |
| HindsightReplay.FinalTransitionAchievesGoal | pearl/replay_buffers/sequential_decision_making/hindsight_experience_replay_buffer.py:91-104 | the relabeled copy of the terminating transition carries, as its goal, the observation part of its own next state |
| HindsightReplay.HindsightExperienceReplayBuffer.constructor | pearl/replay_buffers/sequential_decision_making/hindsight_experience_replay_buffer.py:35-50 | the buffer keeps capacity, goal dimension, reward and done functions, and starts with an empty store and an empty pending episode |
| HindsightReplay.HindsightExperienceReplayBuffer.BasePush | pearl/replay_buffers/sequential_decision_making/hindsight_experience_replay_buffer.py:66-77 | the base buffer's push appends the transition to the store and changes nothing else |
| HindsightReplay.HindsightExperienceReplayBuffer.PushRelabeled | pearl/replay_buffers/sequential_decision_making/hindsight_experience_replay_buffer.py:92-115 | the relabeling loop appends exactly the relabeled copies of the episode, in order, through the base push, leaving the pending episode alone |
| HindsightReplay.HindsightExperienceReplayBuffer.Push | pearl/replay_buffers/sequential_decision_making/hindsight_experience_replay_buffer.py:52-116 | the new store and pending episode are those of `PushSpec` applied to the old ones, and the buffer stays valid |
| Ppo.ProximalPolicyOptimization.constructor | pearl/policy_learners/sequential_decision_making/ppo.py:48-93 | the learner keeps the discount factor, clip range, trace decay and entropy scaling it is given; an omitted one takes the source's default (0.99, 0, 0.95 and 0.01, lines 59-64) |
| Ppo.ProximalPolicyOptimization.EvaluateReversed | pearl/policy_learners/sequential_decision_making/ppo.py:159-181 | the i-th evaluated value and probability, counted from the most recent transition, belong to the state and action of the transition i places from the end |
| Ppo.ProximalPolicyOptimization.AnnotateBackward | pearl/policy_learners/sequential_decision_making/ppo.py:190-210 | the backward loop, started from accumulator 0 and the bootstrap value, leaves every transition annotated as the specification says |
| Ppo.ProximalPolicyOptimization.PreprocessReplayBuffer | pearl/policy_learners/sequential_decision_making/ppo.py:151-210 | fails, changing nothing, unless the buffer is an on-policy buffer with a non-empty memory; otherwise the memory becomes the old memory annotated with advantage, lambda-return and current-policy probability, bootstrapping from the value of the last next state |
| Ppo.AnnotatedAt | pearl/policy_learners/sequential_decision_making/ppo.py:205-209 | an annotated transition keeps its experience, gets an advantage, a lambda-return equal to that advantage plus its own value, and the policy's probability of its action |
| Ppo.Preprocessed | pearl/policy_learners/sequential_decision_making/ppo.py:185-210 | the preprocessed memory has one transition per stored one, each keeping its experience, with an advantage, a lambda-return equal to that advantage plus the critic's value of its state, and the policy's probability of its own state and action |
| Ppo.AnnotateStep | pearl/policy_learners/sequential_decision_making/ppo.py:192-209 | one loop step computes the advantage of its transition from the next value and the accumulated advantage, and writes the annotations the specification gives it |
| Ppo.GaeIsTraceSum | pearl/policy_learners/sequential_decision_making/ppo.py:191-203 | the recurrence equals the sum of the later temporal-difference errors, each weighted by the product of the later trace factors gamma * lambda * (1 - done) |
| Ppo.TraceWeightWithinEpisode | pearl/policy_learners/sequential_decision_making/ppo.py:197-203 | inside an episode the weight of the error k steps ahead is (gamma * lambda)^k |
| Ppo.TraceWeightAcrossDone | pearl/policy_learners/sequential_decision_making/ppo.py:194-203 | an error beyond a terminating step has weight 0: nothing is carried across an episode boundary |
| Ppo.GaeAtDone | pearl/policy_learners/sequential_decision_making/ppo.py:192-203 | a terminating transition's advantage is its reward less its own value |
| Ppo.GaePlusValueIsLambdaReturn | pearl/policy_learners/sequential_decision_making/ppo.py:205-207 | the stored lambda-return, advantage plus value, equals the truncated lambda-return defined by its own recursion |
| Ppo.GaeReadsOnlyExperience | pearl/policy_learners/sequential_decision_making/ppo.py:191-203 | with the values fixed, the advantage depends only on the experience of the transitions (state, action, reward, next state, done), not on any annotation |
| Ppo.ReannotateWithSameValues | pearl/policy_learners/sequential_decision_making/ppo.py:191-210 | annotating keeps every transition's experience, and annotating again with the same values gives the same memory |
| Ppo.AnnotateIdempotent | pearl/policy_learners/sequential_decision_making/ppo.py:159-210 | the pass keeps state, action, reward, next state and done of every transition, and re-running it with the same critic and policy overwrites the annotations with the same values |
| Ppo.ReannotateOverwrites | pearl/policy_learners/sequential_decision_making/ppo.py:205-209 | annotating an annotated memory again overwrites every annotation: the result is the original memory annotated with the new values only |
| Ppo.PreprocessOverwrites | pearl/policy_learners/sequential_decision_making/ppo.py:185-210 | preprocessing an already preprocessed memory, with any critic and policy, gives the original memory preprocessed with that critic and policy: earlier annotations leave no trace |
| Ppo.ThreeStepEpisode | pearl/policy_learners/sequential_decision_making/ppo.py:191-203 | with lambda = 1, a three-step terminating episode with constant reward r gets first advantage r + gamma r + gamma^2 r less the first value |
| Ppo.ClippedRatio | pearl/policy_learners/sequential_decision_making/ppo.py:114-116 | for a non-negative clip range the clipped ratio lies in [1 - epsilon, 1 + epsilon], equals the ratio inside it and the nearer bound outside |
| Ppo.DefaultClipIsOne | pearl/policy_learners/sequential_decision_making/ppo.py:62 | with the default clip range 0 the clipped ratio is always 1 |
| Ppo.SurrogateTerm | pearl/policy_learners/sequential_decision_making/ppo.py:117 | the surrogate term never exceeds the unclipped term; it caps the ratio at 1 + epsilon for a non-negative advantage and floors it at 1 - epsilon for a negative one |
| Ppo.SurrogateExamples | pearl/policy_learners/sequential_decision_making/ppo.py:117 | ratio 2, clip range 0.2: advantage 1 gives 1.2, advantage -1 gives -2 |
| Ppo.SurrogateSum | pearl/policy_learners/sequential_decision_making/ppo.py:117 | the summed clipped surrogate is a lower bound of the summed unclipped objective |
| Ppo.Ratios | pearl/policy_learners/sequential_decision_making/ppo.py:113 | each ratio times the stored probability gives the current probability |
| Ppo.ActorLoss | pearl/policy_learners/sequential_decision_making/ppo.py:101-117 | defined exactly for an on-policy batch with stored probabilities and advantages, failing with the missing-probabilities error when they are absent; the loss is at least the negated unclipped objective |
| Ppo.CriticTarget | pearl/policy_learners/sequential_decision_making/ppo.py:125-132 | defined exactly for an on-policy batch with lambda-returns, and is then those lambda-returns |
| Ppo.PreprocessedBatchIsComplete | pearl/policy_learners/sequential_decision_making/ppo.py:205-209 | a batch sampled from a preprocessed memory has advantages, the current policy's probabilities of its own state-action pairs, and a critic target equal to the truncated lambda-returns of the sampled transitions |

## Left out

- Neural networks and the history-summarization and action-representation modules are not modelled: the critic and the policy are fixed total functions of state (and action), and batched evaluation is evaluation per element.
- Ppo.ActorLoss: the entropy bonus is left out, because it needs logarithms of probabilities; the function covers the clipped surrogate only.
- Ppo.CriticTarget: `single_critic_state_value_loss` is defined in a file that is not part of this model, so only the regression target and the `lam_return` precondition are modelled.
- Ppo.ActorLoss: ratios require every stored probability to be non-zero, since real numbers have no infinity; a zero probability would give an infinite or undefined tensor entry in the source.
- `learn`, batch sampling and optimizer steps belong to the actor-critic base class, which is not part of this model; `SampleBatch` stands for stacking the transitions at given positions.
- The check `isinstance(transition, OnPolicyTransition)` inside the loop (ppo.py line 204) is not modelled: every stored transition of the model has the annotation fields.
- The first-in-first-out base buffer's capacity, eviction and sampling are not part of this model; its push is an append to the `store` log and `capacity` is only recorded.
- Relabeling uses value semantics. The source writes goal slices into the state tensors in place. If the base buffer kept references to those tensors, the writes would also change already-stored originals. The base buffer's source is not part of this model, so that aliasing is not captured.
- HindsightReplay.HindsightExperienceReplayBuffer.Push: requires a positive goal dimension, every state and next state at least one goal long, and a terminating next state exactly two goals long. These inputs are excluded, not modelled as errors, and the source behaves on them as follows:
  - A non-terminating push whose state is shorter than the goal does not fail, because lines 66-89 never slice. The failure comes at the next terminating push, at line 103 or 104, after the original transition and possibly some relabeled copies have been stored. Line 116 is then skipped, so the short entry stays pending and every later terminating push fails again.
  - A terminating next state of length `goal_dim + 1`, with `goal_dim` at least 2, gives a one-element additional goal. The tensor assignment broadcasts it over the goal slot, so the source accepts that input while the model excludes it. Other lengths make the assignment fail.
- HindsightReplay.HindsightExperienceReplayBuffer.Push: the reward function and the done function are total functions in the model. In the source, an exception raised by either propagates from inside the loop and leaves the relabeled copies pushed so far in the base buffer.
- The `curr_unavailable_actions_mask` and `curr_available_actions` batch columns of the source are not modelled; action sets in the hindsight buffer are copied as opaque values.
- Ppo.ProximalPolicyOptimization.PreprocessReplayBuffer: lines 162-165 collect the available actions and the unavailable-action masks but never use them. Lines 174-178 query the policy without a mask, while the actor loss at lines 102-107 passes one. In the model, `policy` takes no mask, and the actor loss's current probabilities are a free parameter, so the model does not capture that the two calls may see different probabilities.
- Floating-point rounding, devices and dtypes: numbers are `real`.
- `pearl/contextual_bandits/dummy_contextual_bandit_policy_learner.py` holds no logic (a constant action, a no-op learner and a method that raises) and is not modelled.
