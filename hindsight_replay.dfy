/**
 * Hindsight Experience Replay with the "final" strategy: every transition is
 * stored as given, and when an episode terminates each transition of that
 * episode is stored once more with its goal replaced by the goal achieved at
 * the end of the episode, its reward and (optionally) its done flag
 * recomputed for that goal.
 *
 * A goal-conditioned state is a vector whose last `goalDim` entries hold the
 * goal. Relabeling copies and rewrites state vectors (value semantics).
 */
module HindsightReplay {
  import opened Basics

  type State = seq<real>
  type Action = seq<real>

  /** The set of actions offered at a step, kept as an opaque value. */
  datatype ActionSpace = ActionSpace(actions: seq<Action>)

  /** One experience record as it is handed to the underlying store. */
  datatype Transition = Transition(
    state: State,
    action: Action,
    reward: real,
    nextState: State,
    currAvailableActions: ActionSpace,
    nextAvailableActions: ActionSpace,
    actionSpace: ActionSpace,
    done: bool,
    cost: Option<real>)

  /** What the buffer remembers of a transition until its episode ends:
      everything except the reward, which is recomputed on relabeling. */
  datatype TrajectoryEntry = TrajectoryEntry(
    state: State,
    action: Action,
    nextState: State,
    currAvailableActions: ActionSpace,
    nextAvailableActions: ActionSpace,
    actionSpace: ActionSpace,
    done: bool,
    cost: Option<real>)

  /** The relabeling parameters the buffer is constructed with. */
  datatype HerConfig = HerConfig(
    goalDim: nat,
    rewardFn: (State, Action) -> real,
    doneFn: Option<(State, Action) -> bool>)

  /** The state the relabeler owns: the underlying store, seen as the log of
      everything pushed into it, and the pending episode. */
  datatype HerState = HerState(store: seq<Transition>, trajectory: seq<TrajectoryEntry>)

  function EntryOf(t: Transition): TrajectoryEntry
  {
    TrajectoryEntry(t.state, t.action, t.nextState, t.currAvailableActions,
                    t.nextAvailableActions, t.actionSpace, t.done, t.cost)
  }

  /** Every buffered state and next state is long enough to hold a goal. */
  ghost predicate Buffered(goalDim: nat, trajectory: seq<TrajectoryEntry>)
  {
    forall i :: 0 <= i < |trajectory| ==>
      goalDim <= |trajectory[i].state| && goalDim <= |trajectory[i].nextState|
  }

  /** The shapes `push` needs: both vectors hold a goal, and on termination
      the leading part of the next state is exactly one goal long, so that it
      fits the goal slot it is written into. */
  ghost predicate Pushable(goalDim: nat, t: Transition)
  {
    goalDim <= |t.state| && goalDim <= |t.nextState| &&
    (t.done ==> |t.nextState| == 2 * goalDim)
  }

  /** The goal achieved at the end of an episode: all of the final next state
      but its last `goalDim` entries. */
  function AdditionalGoal(goalDim: nat, finalNextState: State): (g: State)
    requires goalDim <= |finalNextState|
    ensures |g| + goalDim == |finalNextState|
    ensures forall i :: 0 <= i < |g| ==> g[i] == finalNextState[i]
  {
    finalNextState[..|finalNextState| - goalDim]
  }

  /** A copy of `s` whose last `goalDim` entries are replaced by `goal`. */
  function ReplaceGoal(goalDim: nat, s: State, goal: State): (r: State)
    requires goalDim <= |s| && |goal| == goalDim
    ensures |r| == |s|
    ensures r[..|s| - goalDim] == s[..|s| - goalDim]
    ensures r[|s| - goalDim..] == goal
  {
    s[..|s| - goalDim] + goal
  }

  /** The synthetic transition derived from one buffered transition. */
  function Relabel(c: HerConfig, e: TrajectoryEntry, goal: State): (t: Transition)
    requires c.goalDim <= |e.state| && c.goalDim <= |e.nextState| && |goal| == c.goalDim
    ensures RelabeledFrom(c, e, goal, t)
  {
    var s := ReplaceGoal(c.goalDim, e.state, goal);
    var ns := ReplaceGoal(c.goalDim, e.nextState, goal);
    Transition(s, e.action, c.rewardFn(s, e.action), ns,
               e.currAvailableActions, e.nextAvailableActions, e.actionSpace,
               if c.doneFn.None? then e.done else c.doneFn.value(s, e.action),
               e.cost)
  }

  /** `t` is the relabeled copy of `e` for `goal`: it keeps the intrinsic
      (leading) part of both states, carries `goal` in both goal slots, is
      rewarded and terminated as the supplied functions say for the rewritten
      state (or keeps its done flag when there is no done function), and
      copies the action, the action sets and the cost. */
  ghost predicate RelabeledFrom(c: HerConfig, e: TrajectoryEntry, goal: State, t: Transition)
    requires c.goalDim <= |e.state| && c.goalDim <= |e.nextState|
  {
    var g := c.goalDim;
    |t.state| == |e.state| && |t.nextState| == |e.nextState| &&
    t.state[..|e.state| - g] == e.state[..|e.state| - g] && t.state[|e.state| - g..] == goal &&
    t.nextState[..|e.nextState| - g] == e.nextState[..|e.nextState| - g] &&
    t.nextState[|e.nextState| - g..] == goal &&
    t.reward == c.rewardFn(t.state, e.action) &&
    t.done == (if c.doneFn.None? then e.done else c.doneFn.value(t.state, e.action)) &&
    t.action == e.action && t.cost == e.cost && t.actionSpace == e.actionSpace &&
    t.currAvailableActions == e.currAvailableActions &&
    t.nextAvailableActions == e.nextAvailableActions
  }

  /** The relabeled copies of a whole episode, in its forward order. */
  function RelabelAll(c: HerConfig, trajectory: seq<TrajectoryEntry>, goal: State): (ts: seq<Transition>)
    requires Buffered(c.goalDim, trajectory) && |goal| == c.goalDim
    ensures |ts| == |trajectory|
    ensures forall i :: 0 <= i < |trajectory| ==> ts[i] == Relabel(c, trajectory[i], goal)
    decreases |trajectory|
  {
    if trajectory == [] then []
    else
      var n := |trajectory| - 1;
      RelabelAll(c, trajectory[..n], goal) + [Relabel(c, trajectory[n], goal)]
  }

  /** Relabeling one more transition of an episode extends the relabeled
      prefix, and a store holding that prefix after `prior`, by that
      transition's copy. */
  lemma RelabelAllExtend(c: HerConfig, episode: seq<TrajectoryEntry>, i: nat, goal: State,
                         prior: seq<Transition>, store: seq<Transition>, t: Transition)
    requires Buffered(c.goalDim, episode) && i < |episode| && |goal| == c.goalDim
    requires store == prior + RelabelAll(c, episode[..i], goal) && t == Relabel(c, episode[i], goal)
    ensures Buffered(c.goalDim, episode[..i + 1])
    ensures store + [t] == prior + RelabelAll(c, episode[..i + 1], goal)
  {
    assert episode[..i + 1][..i] == episode[..i];
  }

  /** Every relabeled copy of an episode is derived from the transition at
      the same position as `RelabeledFrom` describes. */
  lemma RelabelAllMeetsSpec(c: HerConfig, trajectory: seq<TrajectoryEntry>, goal: State)
    requires Buffered(c.goalDim, trajectory) && |goal| == c.goalDim
    ensures var ts := RelabelAll(c, trajectory, goal);
      forall i :: 0 <= i < |trajectory| ==> RelabeledFrom(c, trajectory[i], goal, ts[i])
  {
    var ts := RelabelAll(c, trajectory, goal);
    forall i | 0 <= i < |trajectory|
      ensures RelabeledFrom(c, trajectory[i], goal, ts[i])
    {
      var e := trajectory[i];
      var s := ReplaceGoal(c.goalDim, e.state, goal);
      var ns := ReplaceGoal(c.goalDim, e.nextState, goal);
      assert ts[i].state == s && ts[i].nextState == ns;
    }
  }

  /** One call of `push`: store the transition verbatim, buffer it, and on
      termination store the relabeled episode and forget it. */
  function PushSpec(c: HerConfig, st: HerState, t: Transition): (st': HerState)
    requires 0 < c.goalDim && Buffered(c.goalDim, st.trajectory) && Pushable(c.goalDim, t)
    ensures Buffered(c.goalDim, st'.trajectory)
    ensures |st.store| < |st'.store| && st'.store[..|st.store| + 1] == st.store + [t]
    ensures !t.done ==> st'.store == st.store + [t] && st'.trajectory == st.trajectory + [EntryOf(t)]
    ensures t.done ==> |st'.store| == |st.store| + |st.trajectory| + 2 && st'.trajectory == []
  {
    var trajectory := st.trajectory + [EntryOf(t)];
    if t.done then
      var relabeled := RelabelAll(c, trajectory, AdditionalGoal(c.goalDim, t.nextState));
      assert (st.store + [t] + relabeled)[..|st.store| + 1] == st.store + [t];
      HerState(st.store + [t] + relabeled, [])
    else
      HerState(st.store + [t], trajectory)
  }

  /** A sequence of `push` calls. */
  function Run(c: HerConfig, st: HerState, ts: seq<Transition>): HerState
    requires 0 < c.goalDim && Buffered(c.goalDim, st.trajectory)
    requires forall i :: 0 <= i < |ts| ==> Pushable(c.goalDim, ts[i])
    decreases |ts|
  {
    if ts == [] then st else Run(c, PushSpec(c, st, ts[0]), ts[1..])
  }

  function Entries(ts: seq<Transition>): (es: seq<TrajectoryEntry>)
    ensures |es| == |ts| && forall i :: 0 <= i < |ts| ==> es[i] == EntryOf(ts[i])
  {
    if ts == [] then [] else [EntryOf(ts[0])] + Entries(ts[1..])
  }

  /** Pushes that do not terminate only append to the store and to the
      pending episode. */
  lemma {:induction false} RunWithoutDone(c: HerConfig, st: HerState, ts: seq<Transition>)
    requires 0 < c.goalDim && Buffered(c.goalDim, st.trajectory)
    requires forall i :: 0 <= i < |ts| ==> Pushable(c.goalDim, ts[i]) && !ts[i].done
    ensures Run(c, st, ts) == HerState(st.store + ts, st.trajectory + Entries(ts))
    decreases |ts|
  {
    if ts != [] {
      var st1 := PushSpec(c, st, ts[0]);
      assert st1 == HerState(st.store + [ts[0]], st.trajectory + [EntryOf(ts[0])]);
      RunWithoutDone(c, st1, ts[1..]);
      AppendHead(st.store, ts);
      AppendHead(st.trajectory, Entries(ts));
    }
  }

  lemma BufferedEntries(goalDim: nat, trajectory: seq<TrajectoryEntry>, ts: seq<Transition>)
    requires Buffered(goalDim, trajectory)
    requires forall i :: 0 <= i < |ts| ==> Pushable(goalDim, ts[i])
    ensures Buffered(goalDim, trajectory + Entries(ts))
  {
    var es := trajectory + Entries(ts);
    forall i | 0 <= i < |es|
      ensures goalDim <= |es[i].state| && goalDim <= |es[i].nextState|
    {
      if i >= |trajectory| {
        assert es[i] == EntryOf(ts[i - |trajectory|]);
      }
    }
  }

  lemma AppendHead<T>(a: seq<T>, s: seq<T>)
    requires 0 < |s|
    ensures a + [s[0]] + s[1..] == a + s
  {
    assert s == [s[0]] + s[1..];
  }

  lemma AppendAssoc<T>(a: seq<T>, b: seq<T>, c: seq<T>)
    ensures a + b + c == a + (b + c)
  {
  }

  /** An episode of non-terminating pushes closed by a terminating one stores
      the pushed transitions verbatim, then the relabeled copies of every
      pending transition (including those buffered before these pushes), all
      with the goal achieved by the terminating transition; the pending
      episode is then empty. */
  lemma {:induction false} EpisodeRelabel(c: HerConfig, st: HerState, ts: seq<Transition>)
    requires 0 < c.goalDim && Buffered(c.goalDim, st.trajectory)
    requires forall i :: 0 <= i < |ts| ==> Pushable(c.goalDim, ts[i])
    requires 0 < |ts| && ts[|ts| - 1].done
    requires forall i :: 0 <= i < |ts| - 1 ==> !ts[i].done
    ensures Buffered(c.goalDim, st.trajectory + Entries(ts))
    ensures Run(c, st, ts) == HerState(
      st.store + ts +
      RelabelAll(c, st.trajectory + Entries(ts), AdditionalGoal(c.goalDim, ts[|ts| - 1].nextState)),
      [])
    decreases |ts|
  {
    BufferedEntries(c.goalDim, st.trajectory, ts);
    if |ts| == 1 {
      assert Entries(ts) == [EntryOf(ts[0])];
    } else {
      EpisodeRelabelStep(c, st, ts);
    }
  }

  /** The inductive step of `EpisodeRelabel`: a first push that does not
      terminate moves one transition to the store and to the pending episode. */
  lemma {:induction false} EpisodeRelabelStep(c: HerConfig, st: HerState, ts: seq<Transition>)
    requires 0 < c.goalDim && Buffered(c.goalDim, st.trajectory)
    requires forall i :: 0 <= i < |ts| ==> Pushable(c.goalDim, ts[i])
    requires 1 < |ts| && ts[|ts| - 1].done
    requires forall i :: 0 <= i < |ts| - 1 ==> !ts[i].done
    requires Buffered(c.goalDim, st.trajectory + Entries(ts))
    ensures Run(c, st, ts) == HerState(
      st.store + ts +
      RelabelAll(c, st.trajectory + Entries(ts), AdditionalGoal(c.goalDim, ts[|ts| - 1].nextState)),
      [])
    decreases |ts|, 0
  {
    var t, rest := ts[0], ts[1..];
    var st1 := PushSpec(c, st, t);
    assert st1 == HerState(st.store + [t], st.trajectory + [EntryOf(t)]);
    assert rest[|rest| - 1] == ts[|ts| - 1];
    EpisodeRelabel(c, st1, rest);
    AppendHead(st.store, ts);
    AppendHead(st.trajectory, Entries(ts));
    AppendAssoc(st.trajectory, [EntryOf(t)], Entries(rest));
  }

  /** Starting from an empty pending episode, an episode of k pushes adds
      exactly 2k entries to the store and leaves nothing pending. */
  lemma EpisodeDoublesStore(c: HerConfig, st: HerState, ts: seq<Transition>)
    requires 0 < c.goalDim && st.trajectory == []
    requires forall i :: 0 <= i < |ts| ==> Pushable(c.goalDim, ts[i])
    requires 0 < |ts| && ts[|ts| - 1].done
    requires forall i :: 0 <= i < |ts| - 1 ==> !ts[i].done
    ensures |Run(c, st, ts).store| == |st.store| + 2 * |ts|
    ensures Run(c, st, ts).trajectory == []
  {
    EpisodeRelabel(c, st, ts);
    assert st.trajectory + Entries(ts) == Entries(ts);
  }

  /** Writing the same goal twice is writing it once, so states that the
      episode shares between transitions are relabeled consistently. */
  lemma ReplaceGoalIdempotent(goalDim: nat, s: State, goal: State)
    requires goalDim <= |s| && |goal| == goalDim
    ensures ReplaceGoal(goalDim, ReplaceGoal(goalDim, s, goal), goal) == ReplaceGoal(goalDim, s, goal)
  {
    var r := ReplaceGoal(goalDim, s, goal);
    assert r[..|r| - goalDim] == s[..|s| - goalDim];
  }

  /** The relabeled copy of the terminating transition reaches its own goal:
      the intrinsic part of its next state equals the goal it now carries. */
  lemma FinalTransitionAchievesGoal(c: HerConfig, t: Transition)
    requires 0 < c.goalDim && Pushable(c.goalDim, t) && t.done
    ensures var r := Relabel(c, EntryOf(t), AdditionalGoal(c.goalDim, t.nextState));
      r.nextState[..c.goalDim] == r.nextState[c.goalDim..] == t.nextState[..c.goalDim]
  {
  }

  /**
   * The relabeling replay buffer. `store` is the log of everything pushed
   * into the underlying first-in-first-out buffer; `trajectory` is the
   * pending episode.
   */
  class HindsightExperienceReplayBuffer {
    const capacity: nat
    const goalDim: nat
    const rewardFn: (State, Action) -> real
    const doneFn: Option<(State, Action) -> bool>
    var store: seq<Transition>
    var trajectory: seq<TrajectoryEntry>

    ghost predicate Valid()
      reads this
    {
      0 < goalDim && Buffered(goalDim, trajectory)
    }

    function Config(): HerConfig
    {
      HerConfig(goalDim, rewardFn, doneFn)
    }

    constructor (capacity: nat, goalDim: nat, rewardFn: (State, Action) -> real,
                 doneFn: Option<(State, Action) -> bool>)
      requires 0 < goalDim
      ensures Valid()
      ensures this.capacity == capacity && this.goalDim == goalDim
      ensures this.rewardFn == rewardFn && this.doneFn == doneFn
      ensures store == [] && trajectory == []
    {
      this.capacity := capacity;
      this.goalDim := goalDim;
      this.rewardFn := rewardFn;
      this.doneFn := doneFn;
      store := [];
      trajectory := [];
    }

    /** The push of the underlying buffer: appends to the store only. */
    method BasePush(t: Transition)
      modifies this`store
      ensures store == old(store) + [t]
    {
      store := store + [t];
    }

    /** Stores the relabeled copy of every transition of `episode`, in the
        episode's order, through the underlying push. */
    method PushRelabeled(episode: seq<TrajectoryEntry>, additionalGoal: State)
      requires Buffered(goalDim, episode) && |additionalGoal| == goalDim
      modifies this`store
      ensures store == old(store) + RelabelAll(Config(), episode, additionalGoal)
    {
      var i := 0;
      while i < |episode|
        invariant 0 <= i <= |episode|
        invariant store == old(store) + RelabelAll(Config(), episode[..i], additionalGoal)
      {
        var e := episode[i];
        var s := ReplaceGoal(goalDim, e.state, additionalGoal);
        var ns := ReplaceGoal(goalDim, e.nextState, additionalGoal);
        var t := Transition(s, e.action, rewardFn(s, e.action), ns,
                            e.currAvailableActions, e.nextAvailableActions, e.actionSpace,
                            if doneFn.None? then e.done else doneFn.value(s, e.action),
                            e.cost);
        assert t == Relabel(Config(), e, additionalGoal);
        ghost var before := store;
        BasePush(t);
        RelabelAllExtend(Config(), episode, i, additionalGoal, old(store), before, t);
        i := i + 1;
      }
      assert episode[..i] == episode;
    }

    /** Pushes one transition: stores it, buffers it, and when it ends the
        episode stores the episode relabeled with the goal it achieved and
        forgets the episode. */
    method Push(state: State, action: Action, reward: real, nextState: State,
                currAvailableActions: ActionSpace, nextAvailableActions: ActionSpace,
                actionSpace: ActionSpace, done: bool, cost: Option<real>)
      requires Valid()
      requires Pushable(goalDim, Transition(state, action, reward, nextState, currAvailableActions,
                                            nextAvailableActions, actionSpace, done, cost))
      modifies this
      ensures Valid()
      ensures HerState(store, trajectory) ==
        PushSpec(Config(), HerState(old(store), old(trajectory)),
                 Transition(state, action, reward, nextState, currAvailableActions,
                            nextAvailableActions, actionSpace, done, cost))
    {
      var t := Transition(state, action, reward, nextState, currAvailableActions,
                          nextAvailableActions, actionSpace, done, cost);
      BasePush(t);
      trajectory := trajectory + [EntryOf(t)];
      if done {
        var additionalGoal := nextState[..|nextState| - goalDim];
        PushRelabeled(trajectory, additionalGoal);
        trajectory := [];
      }
    }
  }
}
