/**
 * Proximal Policy Optimization: the preprocessing pass that annotates an
 * on-policy trajectory with generalized advantage estimates (equation 11 of
 * Schulman et al., "Proximal Policy Optimization Algorithms", 2017),
 * truncated lambda-returns and current-policy action probabilities, and the
 * clipped surrogate of the actor loss.
 *
 * The critic and the actor are taken as fixed total functions: `critic(s)`
 * is the state value of `s` and `policy(s, a)` the probability that the
 * current policy takes `a` in `s`, both already composed with the history
 * summarization and action representation steps. The specification of the
 * pass is stated over what they say about the memory: the value of every
 * stored state, the bootstrap value, and the probability of every stored
 * action.
 */
module Ppo {
  import opened Basics

  type State = seq<real>
  type Action = seq<real>

  const DEFAULT_DISCOUNT_FACTOR: real := 0.99
  const DEFAULT_EPSILON: real := 0.0
  const DEFAULT_TRACE_DECAY_PARAM: real := 0.95
  const DEFAULT_ENTROPY_BONUS_SCALING: real := 0.01

  /** An on-policy transition with the three annotations the preprocessing
      pass writes; `None` until the pass has run. */
  datatype Transition = Transition(
    state: State,
    action: Action,
    reward: real,
    nextState: State,
    done: bool,
    gae: Option<real>,
    lamReturn: Option<real>,
    actionProbs: Option<real>)

  /** The parts of a transition the preprocessing pass reads. */
  predicate SameExperience(a: Transition, b: Transition)
  {
    a.state == b.state && a.action == b.action && a.reward == b.reward &&
    a.nextState == b.nextState && a.done == b.done
  }

  /** The `~done` factor, as a number. */
  function NotDone(done: bool): real
  {
    if done then 0.0 else 1.0
  }

  // ---------------------------------------------------------------------
  // Specification of the preprocessing pass, over the memory in time order.
  // ---------------------------------------------------------------------

  /** The critic's value of every stored state. */
  function Values(m: seq<Transition>, critic: State -> real): (v: seq<real>)
    ensures |v| == |m| && forall j :: 0 <= j < |m| ==> v[j] == critic(m[j].state)
  {
    seq(|m|, j requires 0 <= j < |m| => critic(m[j].state))
  }

  /** The current policy's probability of every stored action in its state. */
  function Probs(m: seq<Transition>, policy: (State, Action) -> real): (p: seq<real>)
    ensures |p| == |m| && forall j :: 0 <= j < |m| ==> p[j] == policy(m[j].state, m[j].action)
  {
    seq(|m|, j requires 0 <= j < |m| => policy(m[j].state, m[j].action))
  }

  /** `s` in the opposite order. */
  function Reversed(s: seq<real>): (r: seq<real>)
    ensures |r| == |s| && forall k :: 0 <= k < |s| ==> r[k] == s[|s| - 1 - k]
  {
    seq(|s|, k requires 0 <= k < |s| => s[|s| - 1 - k])
  }

  /** The value transition `j` bootstraps from: the value of the next state
      of the most recent transition, or the value of the state of the
      transition that follows it. */
  function NextValue(m: seq<Transition>, j: nat, v: seq<real>, bootstrap: real): real
    requires j < |m| == |v|
  {
    if j == |m| - 1 then bootstrap else v[j + 1]
  }

  /** The temporal-difference error of one step: the reward plus the
      discounted next value, unless the step terminates, less the value. */
  function TdStep(reward: real, done: bool, value: real, nextValue: real, gamma: real): real
  {
    reward + gamma * nextValue * NotDone(done) - value
  }

  /** The advantage of one step from its temporal-difference error and the
      advantage of the step after it, which a terminating step drops. */
  function GaeStep(tdError: real, done: bool, gaeNext: real, gamma: real, lambda: real): real
  {
    tdError + gamma * lambda * NotDone(done) * gaeNext
  }

  function TdError(m: seq<Transition>, j: nat, gamma: real, v: seq<real>, bootstrap: real): real
    requires j < |m| == |v|
  {
    TdStep(m[j].reward, m[j].done, v[j], NextValue(m, j, v, bootstrap), gamma)
  }

  /** The generalized advantage estimate of transition `j`, as the backward
      recurrence computes it from an accumulator that starts at 0. */
  function Gae(m: seq<Transition>, j: nat, gamma: real, lambda: real, v: seq<real>, bootstrap: real): real
    requires j < |m| == |v|
    decreases |m| - j
  {
    GaeStep(TdError(m, j, gamma, v, bootstrap), m[j].done,
            if j == |m| - 1 then 0.0 else Gae(m, j + 1, gamma, lambda, v, bootstrap), gamma, lambda)
  }

  /** Transition `j` with the annotations the pass gives it. */
  function AnnotatedAt(m: seq<Transition>, j: nat, gamma: real, lambda: real,
                       v: seq<real>, bootstrap: real, p: seq<real>): (t: Transition)
    requires j < |m| == |v| == |p|
    ensures SameExperience(t, m[j]) && t.gae.Some?
    ensures t.lamReturn == Some(t.gae.value + v[j]) && t.actionProbs == Some(p[j])
  {
    var g := Gae(m, j, gamma, lambda, v, bootstrap);
    m[j].(gae := Some(g), lamReturn := Some(g + v[j]), actionProbs := Some(p[j]))
  }

  function Annotate(m: seq<Transition>, gamma: real, lambda: real,
                    v: seq<real>, bootstrap: real, p: seq<real>): (r: seq<Transition>)
    requires |m| == |v| == |p|
    ensures |r| == |m|
    ensures forall j :: 0 <= j < |m| ==> r[j] == AnnotatedAt(m, j, gamma, lambda, v, bootstrap, p)
  {
    seq(|m|, j requires 0 <= j < |m| => AnnotatedAt(m, j, gamma, lambda, v, bootstrap, p))
  }

  /** Every annotated transition keeps its experience, has an advantage, a
      lambda-return equal to advantage plus its value, and its probability. */
  lemma AnnotateFields(m: seq<Transition>, gamma: real, lambda: real,
                       v: seq<real>, bootstrap: real, p: seq<real>)
    requires |m| == |v| == |p|
    ensures var r := Annotate(m, gamma, lambda, v, bootstrap, p);
      forall j :: 0 <= j < |m| ==>
        SameExperience(r[j], m[j]) && r[j].gae.Some? &&
        r[j].lamReturn == Some(r[j].gae.value + v[j]) && r[j].actionProbs == Some(p[j])
  {
    var r := Annotate(m, gamma, lambda, v, bootstrap, p);
    forall j | 0 <= j < |m|
      ensures SameExperience(r[j], m[j]) && r[j].gae.Some? &&
              r[j].lamReturn == Some(r[j].gae.value + v[j]) && r[j].actionProbs == Some(p[j])
    {
      assert r[j] == AnnotatedAt(m, j, gamma, lambda, v, bootstrap, p);
    }
  }

  /** The memory after the pass, with the critic and the policy evaluated
      on it. */
  function Preprocessed(m: seq<Transition>, gamma: real, lambda: real,
                        critic: State -> real, policy: (State, Action) -> real): (r: seq<Transition>)
    requires 0 < |m|
    ensures |r| == |m|
    ensures forall j :: 0 <= j < |m| ==>
      SameExperience(r[j], m[j]) && r[j].gae.Some? &&
      r[j].lamReturn == Some(r[j].gae.value + critic(m[j].state)) &&
      r[j].actionProbs == Some(policy(m[j].state, m[j].action))
  {
    var v, bootstrap, p := Values(m, critic), critic(m[|m| - 1].nextState), Probs(m, policy);
    AnnotateFields(m, gamma, lambda, v, bootstrap, p);
    Annotate(m, gamma, lambda, v, bootstrap, p)
  }

  // ---------------------------------------------------------------------
  // Independent definitions and the properties of the pass.
  // ---------------------------------------------------------------------

  /** The temporal-difference error of every transition. */
  function TdErrors(m: seq<Transition>, gamma: real, v: seq<real>, bootstrap: real): (d: seq<real>)
    requires |m| == |v|
    ensures |d| == |m| && forall j :: 0 <= j < |m| ==> d[j] == TdError(m, j, gamma, v, bootstrap)
  {
    seq(|m|, j requires 0 <= j < |m| => TdError(m, j, gamma, v, bootstrap))
  }

  /** The trace factor gamma * lambda * (1 - done) of every transition. */
  function TraceFactors(m: seq<Transition>, gamma: real, lambda: real): (f: seq<real>)
    ensures |f| == |m| && forall j :: 0 <= j < |m| ==> f[j] == gamma * lambda * NotDone(m[j].done)
  {
    seq(|m|, j requires 0 <= j < |m| => gamma * lambda * NotDone(m[j].done))
  }

  /** The product of the trace factors from step `j` up to, not including,
      step `k`: the weight of the error at step `k` in the advantage of `j`. */
  function TraceWeight(f: seq<real>, j: nat, k: nat): real
    requires j <= k <= |f|
    decreases k
  {
    if k == j then 1.0 else TraceWeight(f, j, k - 1) * f[k - 1]
  }

  /** The weighted sum of the errors `d` from step `j` up to, not including,
      step `k`. */
  function TraceSum(d: seq<real>, f: seq<real>, j: nat, k: nat): real
    requires |d| == |f| && j <= k <= |f|
    decreases k
  {
    if k == j then 0.0 else TraceSum(d, f, j, k - 1) + TraceWeight(f, j, k - 1) * d[k - 1]
  }

  function Pow(x: real, n: nat): real
  {
    if n == 0 then 1.0 else x * Pow(x, n - 1)
  }

  /** Within an episode the weight of the error `k - j` steps ahead is
      (gamma * lambda)^(k - j). */
  lemma {:induction false} TraceWeightWithinEpisode(m: seq<Transition>, j: nat, k: nat, gamma: real, lambda: real)
    requires j <= k <= |m|
    requires forall i :: j <= i < k ==> !m[i].done
    ensures TraceWeight(TraceFactors(m, gamma, lambda), j, k) == Pow(gamma * lambda, k - j)
    decreases k
  {
    if k > j {
      TraceWeightWithinEpisode(m, j, k - 1, gamma, lambda);
      var f := TraceFactors(m, gamma, lambda);
      assert f[k - 1] == gamma * lambda;
      assert Pow(gamma * lambda, k - j) == gamma * lambda * Pow(gamma * lambda, k - 1 - j);
    }
  }

  /** Nothing is carried across an episode boundary: once a terminating step
      lies between `j` and `k`, the error at `k` has weight 0 for `j`. */
  lemma {:induction false} TraceWeightAcrossDone(m: seq<Transition>, j: nat, i: nat, k: nat, gamma: real, lambda: real)
    requires j <= i < k <= |m| && m[i].done
    ensures TraceWeight(TraceFactors(m, gamma, lambda), j, k) == 0.0
    decreases k
  {
    var f := TraceFactors(m, gamma, lambda);
    if k - 1 > i {
      TraceWeightAcrossDone(m, j, i, k - 1, gamma, lambda);
    } else {
      assert f[k - 1] == 0.0;
    }
  }

  lemma {:induction false} TraceWeightFirstStep(f: seq<real>, j: nat, k: nat)
    requires j < k <= |f|
    ensures TraceWeight(f, j, k) == f[j] * TraceWeight(f, j + 1, k)
    decreases k
  {
    if k > j + 1 {
      TraceWeightFirstStep(f, j, k - 1);
      assert TraceWeight(f, j, k) == (f[j] * TraceWeight(f, j + 1, k - 1)) * f[k - 1];
    }
  }

  lemma {:induction false} TraceSumFirstStep(d: seq<real>, f: seq<real>, j: nat, k: nat)
    requires |d| == |f| && j < k <= |f|
    ensures TraceSum(d, f, j, k) == d[j] + f[j] * TraceSum(d, f, j + 1, k)
    decreases k
  {
    if k > j + 1 {
      TraceSumFirstStep(d, f, j, k - 1);
      TraceWeightFirstStep(f, j, k - 1);
      Regroup(TraceSum(d, f, j, k), TraceSum(d, f, j, k - 1), TraceWeight(f, j, k - 1),
              d[j], f[j], TraceSum(d, f, j + 1, k - 1), TraceWeight(f, j + 1, k - 1),
              d[k - 1], TraceSum(d, f, j + 1, k));
    }
  }

  lemma Regroup(total: real, s0: real, w0: real, e: real, c: real, s1: real, w1: real, d: real, total1: real)
    requires total == s0 + w0 * d && s0 == e + c * s1 && w0 == c * w1 && total1 == s1 + w1 * d
    ensures total == e + c * total1
  {
    assert w0 * d == c * (w1 * d);
  }

  /** Unfolds the recurrence once, with its error and trace factor named. */
  lemma GaeFirstStep(m: seq<Transition>, j: nat, gamma: real, lambda: real, v: seq<real>, bootstrap: real,
                     e: real, c: real, rest: real)
    requires j < |m| == |v|
    requires e == TdError(m, j, gamma, v, bootstrap) && c == gamma * lambda * NotDone(m[j].done)
    requires rest == if j == |m| - 1 then 0.0 else Gae(m, j + 1, gamma, lambda, v, bootstrap)
    ensures Gae(m, j, gamma, lambda, v, bootstrap) == e + c * rest
  {
  }

  /** Step `i` of `g` follows from the next step by the trace recurrence. */
  predicate RecurrenceAt(d: seq<real>, f: seq<real>, g: seq<real>, i: nat)
    requires |d| == |f| == |g| && i < |g|
  {
    g[i] == d[i] + f[i] * (if i == |g| - 1 then 0.0 else g[i + 1])
  }

  /** A sequence that satisfies the one-step recurrence from step `j` on is
      the trace sum of the errors `d` with the factors `f`. */
  lemma {:induction false} RecurrenceIsTraceSum(d: seq<real>, f: seq<real>, g: seq<real>, j: nat)
    requires |d| == |f| == |g| && j < |g|
    requires forall i :: j <= i < |g| ==> RecurrenceAt(d, f, g, i)
    ensures g[j] == TraceSum(d, f, j, |g|)
    decreases |g| - j
  {
    TraceSumFirstStep(d, f, j, |g|);
    assert RecurrenceAt(d, f, g, j);
    if j < |g| - 1 {
      RecurrenceIsTraceSum(d, f, g, j + 1);
    }
  }

  /** The backward recurrence computes the generalized advantage estimate of
      equation 11 of the PPO paper, with every term past a terminating step
      masked out: the sum over the rest of the memory of the temporal-
      difference errors, each weighted by its trace weight. */
  lemma GaeIsTraceSum(m: seq<Transition>, j: nat, gamma: real, lambda: real,
                      v: seq<real>, bootstrap: real)
    requires j < |m| == |v|
    ensures Gae(m, j, gamma, lambda, v, bootstrap) ==
            TraceSum(TdErrors(m, gamma, v, bootstrap), TraceFactors(m, gamma, lambda), j, |m|)
  {
    var d, f := TdErrors(m, gamma, v, bootstrap), TraceFactors(m, gamma, lambda);
    var g := seq(|m|, i requires 0 <= i < |m| => Gae(m, i, gamma, lambda, v, bootstrap));
    forall i | j <= i < |m|
      ensures RecurrenceAt(d, f, g, i)
    {
      GaeFirstStep(m, i, gamma, lambda, v, bootstrap, d[i], f[i],
                   if i == |m| - 1 then 0.0 else g[i + 1]);
    }
    RecurrenceIsTraceSum(d, f, g, j);
  }

  /** A terminating transition neither bootstraps nor carries the trace of
      later transitions: its advantage is its reward less its own value. */
  lemma GaeAtDone(m: seq<Transition>, j: nat, gamma: real, lambda: real, v: seq<real>, bootstrap: real)
    requires j < |m| == |v| && m[j].done
    ensures Gae(m, j, gamma, lambda, v, bootstrap) == m[j].reward - v[j]
  {
  }

  /** The truncated lambda-return, by its own recursion: the reward plus the
      discounted mix of the next value and the next lambda-return, with the
      most recent transition bootstrapping, and nothing added after a
      terminating step. */
  function LambdaReturn(m: seq<Transition>, j: nat, gamma: real, lambda: real, v: seq<real>, bootstrap: real): real
    requires j < |m| == |v|
    decreases |m| - j
  {
    m[j].reward + gamma * NotDone(m[j].done) *
      (if j == |m| - 1 then bootstrap
       else (1.0 - lambda) * v[j + 1] + lambda * LambdaReturn(m, j + 1, gamma, lambda, v, bootstrap))
  }

  /** The `lamReturn` the pass stores, advantage plus value, is the truncated
      lambda-return. */
  lemma {:induction false} GaePlusValueIsLambdaReturn(m: seq<Transition>, j: nat, gamma: real, lambda: real,
                                                      v: seq<real>, bootstrap: real)
    requires j < |m| == |v|
    ensures Gae(m, j, gamma, lambda, v, bootstrap) + v[j] == LambdaReturn(m, j, gamma, lambda, v, bootstrap)
    decreases |m| - j
  {
    if j < |m| - 1 {
      GaePlusValueIsLambdaReturn(m, j + 1, gamma, lambda, v, bootstrap);
      var c := gamma * NotDone(m[j].done);
      var g1 := Gae(m, j + 1, gamma, lambda, v, bootstrap);
      GaeFirstStep(m, j, gamma, lambda, v, bootstrap, TdError(m, j, gamma, v, bootstrap),
                   gamma * lambda * NotDone(m[j].done), g1);
      MixRegroup(m[j].reward, c, v[j], v[j + 1], lambda, g1);
    }
  }

  lemma MixRegroup(r: real, c: real, v0: real, v1: real, lambda: real, g1: real)
    ensures r + c * v1 - v0 + c * lambda * g1 + v0 == r + c * ((1.0 - lambda) * v1 + lambda * (g1 + v1))
  {
    assert c * lambda * g1 == c * (lambda * g1);
    assert (1.0 - lambda) * v1 + lambda * (g1 + v1) == v1 + lambda * g1;
  }

  /** With the values fixed, the advantage depends only on the experience
      the pass reads, not on any annotation. */
  lemma {:induction false} GaeReadsOnlyExperience(m: seq<Transition>, m': seq<Transition>, j: nat,
                                                  gamma: real, lambda: real, v: seq<real>, bootstrap: real)
    requires |m| == |m'| == |v| && j < |m|
    requires forall i :: 0 <= i < |m| ==> SameExperience(m[i], m'[i])
    ensures Gae(m, j, gamma, lambda, v, bootstrap) == Gae(m', j, gamma, lambda, v, bootstrap)
    decreases |m| - j
  {
    if j < |m| - 1 {
      GaeReadsOnlyExperience(m, m', j + 1, gamma, lambda, v, bootstrap);
    }
    assert SameExperience(m[j], m'[j]);
  }

  /** With the values, the bootstrap value and the probabilities fixed,
      annotating keeps the experience of every transition, and annotating
      the result again gives the result back. */
  lemma ReannotateWithSameValues(m: seq<Transition>, gamma: real, lambda: real,
                                 v: seq<real>, bootstrap: real, p: seq<real>)
    requires |m| == |v| == |p|
    ensures var a := Annotate(m, gamma, lambda, v, bootstrap, p);
      (forall j :: 0 <= j < |m| ==> SameExperience(a[j], m[j])) &&
      Annotate(a, gamma, lambda, v, bootstrap, p) == a
  {
    var a := Annotate(m, gamma, lambda, v, bootstrap, p);
    assert forall j :: 0 <= j < |m| ==> SameExperience(a[j], m[j]);
    var again := Annotate(a, gamma, lambda, v, bootstrap, p);
    forall j | 0 <= j < |m|
      ensures again[j] == a[j]
    {
      GaeReadsOnlyExperience(a, m, j, gamma, lambda, v, bootstrap);
    }
  }

  /** The pass keeps the experience of every transition, and running it again
      with the same critic and policy overwrites the annotations with the
      same values instead of accumulating. */
  lemma AnnotateIdempotent(m: seq<Transition>, gamma: real, lambda: real,
                           critic: State -> real, policy: (State, Action) -> real)
    requires 0 < |m|
    ensures var a := Preprocessed(m, gamma, lambda, critic, policy);
      (forall j :: 0 <= j < |m| ==> SameExperience(a[j], m[j])) &&
      Preprocessed(a, gamma, lambda, critic, policy) == a
  {
    var v, bootstrap, p := Values(m, critic), critic(m[|m| - 1].nextState), Probs(m, policy);
    var a := Annotate(m, gamma, lambda, v, bootstrap, p);
    ReannotateWithSameValues(m, gamma, lambda, v, bootstrap, p);
    assert Values(a, critic) == v;
    assert Probs(a, policy) == p;
    assert a[|a| - 1].nextState == m[|m| - 1].nextState;
  }

  /** With fixed experience, annotating an annotated memory with any values,
      bootstrap value and probabilities gives what annotating the original
      gives: every earlier annotation is overwritten. */
  lemma ReannotateOverwrites(m: seq<Transition>, gamma: real, lambda: real,
                             v: seq<real>, bootstrap: real, p: seq<real>,
                             v2: seq<real>, bootstrap2: real, p2: seq<real>)
    requires |m| == |v| == |p| == |v2| == |p2|
    ensures Annotate(Annotate(m, gamma, lambda, v, bootstrap, p), gamma, lambda, v2, bootstrap2, p2) ==
            Annotate(m, gamma, lambda, v2, bootstrap2, p2)
  {
    var a := Annotate(m, gamma, lambda, v, bootstrap, p);
    ReannotateWithSameValues(m, gamma, lambda, v, bootstrap, p);
    var lhs, rhs := Annotate(a, gamma, lambda, v2, bootstrap2, p2), Annotate(m, gamma, lambda, v2, bootstrap2, p2);
    forall j | 0 <= j < |m|
      ensures lhs[j] == rhs[j]
    {
      GaeReadsOnlyExperience(a, m, j, gamma, lambda, v2, bootstrap2);
    }
  }

  /** Re-running the pass after the critic or the policy changed gives
      exactly the annotations a single run with the new networks gives. */
  lemma PreprocessOverwrites(m: seq<Transition>, gamma: real, lambda: real,
                             critic: State -> real, policy: (State, Action) -> real,
                             critic2: State -> real, policy2: (State, Action) -> real)
    requires 0 < |m|
    ensures Preprocessed(Preprocessed(m, gamma, lambda, critic, policy), gamma, lambda, critic2, policy2) ==
            Preprocessed(m, gamma, lambda, critic2, policy2)
  {
    var v, bootstrap, p := Values(m, critic), critic(m[|m| - 1].nextState), Probs(m, policy);
    var a := Annotate(m, gamma, lambda, v, bootstrap, p);
    ReannotateWithSameValues(m, gamma, lambda, v, bootstrap, p);
    assert Values(a, critic2) == Values(m, critic2);
    assert Probs(a, policy2) == Probs(m, policy2);
    assert a[|a| - 1].nextState == m[|m| - 1].nextState;
    ReannotateOverwrites(m, gamma, lambda, v, bootstrap, p,
                         Values(m, critic2), critic2(m[|m| - 1].nextState), Probs(m, policy2));
  }

  /** A three-step episode that terminates at its last step, with a constant
      reward and lambda = 1: the first advantage is the discounted return of
      the episode less the first value. */
  lemma ThreeStepEpisode(m: seq<Transition>, r: real, gamma: real, v: seq<real>, bootstrap: real)
    requires |m| == |v| == 3 && !m[0].done && !m[1].done && m[2].done
    requires m[0].reward == r && m[1].reward == r && m[2].reward == r
    ensures Gae(m, 0, gamma, 1.0, v, bootstrap) == r + gamma * r + gamma * gamma * r - v[0]
  {
    var g2 := Gae(m, 2, gamma, 1.0, v, bootstrap);
    var g1 := Gae(m, 1, gamma, 1.0, v, bootstrap);
    assert g2 == r - v[2];
    assert g1 == r + gamma * v[2] - v[1] + gamma * g2;
    assert g1 == r + gamma * r - v[1];
    calc {
      Gae(m, 0, gamma, 1.0, v, bootstrap);
      r + gamma * v[1] - v[0] + gamma * g1;
      r + gamma * v[1] - v[0] + gamma * (r + gamma * r - v[1]);
      { assert gamma * (r + gamma * r - v[1]) == gamma * r + gamma * gamma * r - gamma * v[1]; }
      r + gamma * r + gamma * gamma * r - v[0];
    }
  }

  /** One step of the backward pass: from transition `j`, its value, its
      probability, the bootstrap value and the advantage accumulated over
      the later transitions, the step computes the advantage of `j` and the
      annotations the pass gives it. */
  lemma AnnotateStep(m: seq<Transition>, j: nat, gamma: real, lambda: real, v: seq<real>, bootstrap: real,
                     p: seq<real>, transition: Transition, value: real, prob: real, nextValue: real, gaeNext: real)
    requires j < |m| == |v| == |p| && transition == m[j] && value == v[j] && prob == p[j]
    requires nextValue == NextValue(m, j, v, bootstrap)
    requires gaeNext == if j == |m| - 1 then 0.0 else Gae(m, j + 1, gamma, lambda, v, bootstrap)
    ensures var g := GaeStep(TdStep(transition.reward, transition.done, value, nextValue, gamma),
                             transition.done, gaeNext, gamma, lambda);
      g == Gae(m, j, gamma, lambda, v, bootstrap) &&
      transition.(gae := Some(g), lamReturn := Some(g + value), actionProbs := Some(prob)) ==
      AnnotatedAt(m, j, gamma, lambda, v, bootstrap, p)
  {
  }

  /** How far the backward pass over `m` has got after `i` steps: the last
      `i` transitions carry their annotations from `target`, the others are
      still as they were. */
  ghost predicate BackwardProgress(mem: seq<Transition>, m: seq<Transition>, target: seq<Transition>, i: nat)
  {
    |mem| == |m| == |target| && i <= |m| &&
    (forall k :: 0 <= k < |m| - i ==> mem[k] == m[k]) &&
    (forall k :: |m| - i <= k < |m| ==> mem[k] == target[k])
  }

  /** Annotating the next transition from the back advances the pass by one. */
  lemma BackwardAdvance(mem: seq<Transition>, m: seq<Transition>, target: seq<Transition>, i: nat)
    requires BackwardProgress(mem, m, target, i) && i < |m|
    ensures BackwardProgress(mem[|m| - 1 - i := target[|m| - 1 - i]], m, target, i + 1)
  {
  }

  // ---------------------------------------------------------------------
  // The buffer and the pass itself.
  // ---------------------------------------------------------------------

  /** Which kind of replay buffer an object is; only the on-policy buffer
      holds whole trajectories in order. */
  datatype BufferKind = OnPolicyReplayBuffer | FifoOffPolicyReplayBuffer | OtherReplayBuffer

  datatype PreprocessError = NotOnPolicyBuffer | EmptyMemory

  class ReplayBuffer {
    const kind: BufferKind
    const memory: array<Transition>

    constructor (kind: BufferKind, transitions: seq<Transition>)
      ensures this.kind == kind && memory[..] == transitions && fresh(memory)
    {
      this.kind := kind;
      memory := new Transition[|transitions|](i requires 0 <= i < |transitions| => transitions[i]);
    }
  }

  class ProximalPolicyOptimization {
    const discountFactor: real
    const epsilon: real
    const traceDecayParam: real
    const entropyBonusScaling: real

    constructor (discountFactor: real := DEFAULT_DISCOUNT_FACTOR, epsilon: real := DEFAULT_EPSILON,
                 traceDecayParam: real := DEFAULT_TRACE_DECAY_PARAM,
                 entropyBonusScaling: real := DEFAULT_ENTROPY_BONUS_SCALING)
      ensures this.discountFactor == discountFactor && this.epsilon == epsilon
      ensures this.traceDecayParam == traceDecayParam && this.entropyBonusScaling == entropyBonusScaling
    {
      this.discountFactor := discountFactor;
      this.epsilon := epsilon;
      this.traceDecayParam := traceDecayParam;
      this.entropyBonusScaling := entropyBonusScaling;
    }

    /** The critic's values and the current policy's action probabilities
        of the stored transitions, most recent first, each computed in one
        batched evaluation. */
    method EvaluateReversed(memory: seq<Transition>, critic: State -> real,
                            policy: (State, Action) -> real)
      returns (stateValues: seq<real>, actionProbs: seq<real>)
      ensures |stateValues| == |memory| && |actionProbs| == |memory|
      ensures forall k :: 0 <= k < |memory| ==>
        stateValues[|memory| - 1 - k] == critic(memory[k].state) &&
        actionProbs[|memory| - 1 - k] == policy(memory[k].state, memory[k].action)
    {
      var n := |memory|;
      var stateList: seq<State> := [];
      var actionList: seq<Action> := [];
      var i := 0;
      while i < n
        invariant 0 <= i <= n
        invariant |stateList| == i && |actionList| == i
        invariant forall k :: n - i <= k < n ==>
          stateList[n - 1 - k] == memory[k].state && actionList[n - 1 - k] == memory[k].action
      {
        stateList := stateList + [memory[n - 1 - i].state];
        actionList := actionList + [memory[n - 1 - i].action];
        i := i + 1;
      }
      stateValues := seq(n, k requires 0 <= k < n => critic(stateList[k]));
      actionProbs := seq(n, k requires 0 <= k < n => policy(stateList[k], actionList[k]));
    }

    /** The backward loop over a non-empty memory, given the values and the
        action probabilities of the transitions most recent first and the
        value of the final next state: every transition gets the annotations
        of the pass. */
    method AnnotateBackward(memory: array<Transition>, stateValues: seq<real>, actionProbs: seq<real>,
                            bootstrap: real)
      requires 0 < memory.Length == |stateValues| == |actionProbs|
      modifies memory
      ensures memory[..] == Annotate(old(memory[..]), discountFactor, traceDecayParam,
                                     Reversed(stateValues), bootstrap, Reversed(actionProbs))
    {
      var n := memory.Length;
      ghost var m := memory[..];
      ghost var v, p := Reversed(stateValues), Reversed(actionProbs);
      ghost var target := Annotate(m, discountFactor, traceDecayParam, v, bootstrap, p);
      var nextValue := bootstrap;
      var gae := 0.0;
      var i := 0;
      while i < n
        invariant 0 <= i <= n
        invariant BackwardProgress(memory[..], m, target, i)
        invariant i < n ==> nextValue == NextValue(m, n - 1 - i, v, bootstrap)
        invariant i < n ==> gae == if i == 0 then 0.0 else Gae(m, n - i, discountFactor, traceDecayParam, v, bootstrap)
      {
        var j := n - 1 - i;
        ghost var before := memory[..];
        var transition := memory[j];
        assert transition == m[j] && stateValues[i] == v[j] && actionProbs[i] == p[j];
        AnnotateStep(m, j, discountFactor, traceDecayParam, v, bootstrap, p,
                     transition, stateValues[i], actionProbs[i], nextValue, gae);
        var tdError := TdStep(transition.reward, transition.done, stateValues[i], nextValue, discountFactor);
        gae := GaeStep(tdError, transition.done, gae, discountFactor, traceDecayParam);
        memory[j] := transition.(gae := Some(gae), lamReturn := Some(gae + stateValues[i]),
                                 actionProbs := Some(actionProbs[i]));
        assert memory[j] == target[j];
        assert memory[..] == before[j := target[j]];
        BackwardAdvance(before, m, target, i);
        assert gae == Gae(m, j, discountFactor, traceDecayParam, v, bootstrap);
        nextValue := stateValues[i];
        assert 0 < j ==> nextValue == NextValue(m, j - 1, v, bootstrap);
        i := i + 1;
        assert j == n - i;
      }
      assert memory[..] == target;
    }

    /** Annotates every transition of an on-policy buffer with its advantage,
        its lambda-return and the current policy's probability of its action;
        fails, changing nothing, on any other buffer or on an empty one. */
    method PreprocessReplayBuffer(replayBuffer: ReplayBuffer, critic: State -> real,
                                  policy: (State, Action) -> real)
      returns (outcome: Outcome<PreprocessError>)
      modifies replayBuffer.memory
      ensures outcome ==
        if replayBuffer.kind != OnPolicyReplayBuffer then Fail(NotOnPolicyBuffer)
        else if replayBuffer.memory.Length == 0 then Fail(EmptyMemory)
        else Pass
      ensures outcome.Fail? ==> replayBuffer.memory[..] == old(replayBuffer.memory[..])
      ensures outcome.Pass? ==>
        replayBuffer.memory[..] ==
        Preprocessed(old(replayBuffer.memory[..]), discountFactor, traceDecayParam, critic, policy)
    {
      if replayBuffer.kind != OnPolicyReplayBuffer {
        return Fail(NotOnPolicyBuffer);
      }
      var memory := replayBuffer.memory;
      var n := memory.Length;
      if n == 0 {
        return Fail(EmptyMemory);
      }
      ghost var m := memory[..];
      var stateValues, actionProbs := EvaluateReversed(memory[..], critic, policy);
      var nextValue := critic(memory[n - 1].nextState);
      assert Reversed(stateValues) == Values(m, critic);
      assert Reversed(actionProbs) == Probs(m, policy);
      AnnotateBackward(memory, stateValues, actionProbs, nextValue);
      return Pass;
    }
  }

  // ---------------------------------------------------------------------
  // Losses over a batch of transitions.
  // ---------------------------------------------------------------------

  /** A batch of stacked transitions. Only a batch drawn from an on-policy
      buffer has the annotation columns, each of which may be absent. */
  datatype TransitionBatch =
    | PlainBatch(reward: seq<real>)
    | OnPolicyBatch(gae: Option<seq<real>>, lamReturn: Option<seq<real>>, actionProbs: Option<seq<real>>)

  datatype LossError = NotOnPolicyBatch | MissingActionProbs | MissingGae | MissingLamReturn

  /** `torch.clamp`: the lower bound first, then the upper bound. */
  function Clamp(x: real, lo: real, hi: real): real
  {
    Min(Max(x, lo), hi)
  }

  /** The probability ratio clipped to [1 - epsilon, 1 + epsilon]. */
  function ClippedRatio(ratio: real, epsilon: real): (c: real)
    ensures 0.0 <= epsilon ==> 1.0 - epsilon <= c <= 1.0 + epsilon
    ensures 0.0 <= epsilon && 1.0 - epsilon <= ratio <= 1.0 + epsilon ==> c == ratio
    ensures 0.0 <= epsilon && ratio < 1.0 - epsilon ==> c == 1.0 - epsilon
    ensures 0.0 <= epsilon && 1.0 + epsilon < ratio ==> c == 1.0 + epsilon
  {
    Clamp(ratio, 1.0 - epsilon, 1.0 + epsilon)
  }

  /** With the default clip range of 0 the clipped ratio is always 1. */
  lemma DefaultClipIsOne(ratio: real)
    ensures ClippedRatio(ratio, DEFAULT_EPSILON) == 1.0
  {
  }

  /** One element of the clipped surrogate objective. It never exceeds the
      unclipped term; for a non-negative advantage it caps the ratio at
      1 + epsilon, for a negative one it floors the ratio at 1 - epsilon. */
  function SurrogateTerm(ratio: real, advantage: real, epsilon: real): (s: real)
    ensures s <= ratio * advantage
    ensures 0.0 <= epsilon && 0.0 <= advantage ==> s == Min(ratio, 1.0 + epsilon) * advantage
    ensures 0.0 <= epsilon && advantage < 0.0 ==> s == Max(ratio, 1.0 - epsilon) * advantage
  {
    var c := ClippedRatio(ratio, epsilon);
    ScaleOrder(ratio, c, advantage);
    Min(ratio * advantage, c * advantage)
  }

  /** Multiplying by a non-negative number keeps the order of two numbers,
      multiplying by a negative one reverses it. */
  lemma ScaleOrder(x: real, y: real, a: real)
    ensures 0.0 <= a ==> Min(x * a, y * a) == Min(x, y) * a
    ensures a < 0.0 ==> Min(x * a, y * a) == Max(x, y) * a
  {
    if 0.0 <= a {
      if x <= y { ScaleNonNegative(x, y, a); } else { ScaleNonNegative(y, x, a); }
    } else {
      if x <= y { ScaleNegative(x, y, a); } else { ScaleNegative(y, x, a); }
    }
  }

  lemma ScaleNonNegative(lo: real, hi: real, a: real)
    requires lo <= hi && 0.0 <= a
    ensures Min(lo * a, hi * a) == lo * a == Min(lo, hi) * a
    ensures Min(hi * a, lo * a) == lo * a == Min(hi, lo) * a
  {
    ScaleUp(lo, hi, a);
    Ordered(lo * a, hi * a);
    Ordered(lo, hi);
    SameProduct(Min(lo, hi), lo, a);
    SameProduct(Min(hi, lo), lo, a);
  }

  lemma ScaleNegative(lo: real, hi: real, a: real)
    requires lo <= hi && a < 0.0
    ensures Min(lo * a, hi * a) == hi * a == Max(lo, hi) * a
    ensures Min(hi * a, lo * a) == hi * a == Max(hi, lo) * a
  {
    ScaleDown(lo, hi, a);
    Ordered(hi * a, lo * a);
    Ordered(lo, hi);
    SameProduct(Max(lo, hi), hi, a);
    SameProduct(Max(hi, lo), hi, a);
  }

  lemma Ordered(lo: real, hi: real)
    requires lo <= hi
    ensures Min(lo, hi) == lo && Min(hi, lo) == lo && Max(lo, hi) == hi && Max(hi, lo) == hi
  {
  }

  lemma SameProduct(x: real, y: real, a: real)
    requires x == y
    ensures x * a == y * a
  {
  }

  lemma ScaleUp(x: real, y: real, a: real)
    requires x <= y && 0.0 <= a
    ensures x * a <= y * a
  {
  }

  lemma ScaleDown(x: real, y: real, a: real)
    requires x <= y && a < 0.0
    ensures y * a <= x * a
  {
  }

  /** The conservative choice of `min`: a ratio of 2, clip range 0.2 and
      advantage 1 give 1.2; with advantage -1 they give -2, the unclipped
      and more negative term. */
  lemma SurrogateExamples()
    ensures SurrogateTerm(2.0, 1.0, 0.2) == 1.2
    ensures SurrogateTerm(2.0, -1.0, 0.2) == -2.0
  {
  }

  /** Sum of ratio times advantage: the unclipped objective. */
  function Unclipped(ratios: seq<real>, advantages: seq<real>): real
    requires |ratios| == |advantages|
  {
    if ratios == [] then 0.0 else ratios[0] * advantages[0] + Unclipped(ratios[1..], advantages[1..])
  }

  /** The summed clipped surrogate; it is a lower bound of the unclipped
      objective. */
  function SurrogateSum(ratios: seq<real>, advantages: seq<real>, epsilon: real): (s: real)
    requires |ratios| == |advantages|
    ensures s <= Unclipped(ratios, advantages)
  {
    if ratios == [] then 0.0
    else SurrogateTerm(ratios[0], advantages[0], epsilon) + SurrogateSum(ratios[1..], advantages[1..], epsilon)
  }

  /** Element-wise new probability over stored old probability. */
  function Ratios(newProbs: seq<real>, oldProbs: seq<real>): (r: seq<real>)
    requires |newProbs| == |oldProbs| && forall k :: 0 <= k < |oldProbs| ==> oldProbs[k] != 0.0
    ensures |r| == |newProbs|
    ensures forall k :: 0 <= k < |r| ==> r[k] * oldProbs[k] == newProbs[k]
  {
    seq(|newProbs|, k requires 0 <= k < |newProbs| => newProbs[k] / oldProbs[k])
  }

  /** The batch and the current policy's probabilities agree in length, and
      no stored probability is 0. */
  predicate WellShaped(batch: TransitionBatch, newProbs: seq<real>)
  {
    batch.OnPolicyBatch? ==>
      (batch.actionProbs.Some? ==>
         |batch.actionProbs.value| == |newProbs| &&
         forall k :: 0 <= k < |newProbs| ==> batch.actionProbs.value[k] != 0.0) &&
      (batch.gae.Some? ==> |batch.gae.value| == |newProbs|)
  }

  /** The clipped-surrogate part of the actor loss, from the current
      policy's probabilities `newProbs` of the batch's actions. It fails on a
      batch without stored probabilities or advantages, and is never smaller
      than the negated unclipped objective. */
  function ActorLoss(batch: TransitionBatch, newProbs: seq<real>, epsilon: real): (r: Result<real, LossError>)
    requires WellShaped(batch, newProbs)
    ensures r.Success? <==> batch.OnPolicyBatch? && batch.actionProbs.Some? && batch.gae.Some?
    ensures batch.OnPolicyBatch? && batch.actionProbs.None? ==> r == Failure(MissingActionProbs)
    ensures r.Success? ==>
      r.value >= -Unclipped(Ratios(newProbs, batch.actionProbs.value), batch.gae.value)
  {
    if !batch.OnPolicyBatch? then Failure(NotOnPolicyBatch)
    else if batch.actionProbs.None? then Failure(MissingActionProbs)
    else if batch.gae.None? then Failure(MissingGae)
    else Success(-SurrogateSum(Ratios(newProbs, batch.actionProbs.value), batch.gae.value, epsilon))
  }

  /** The regression target of the critic loss: the stored lambda-returns,
      required present. */
  function CriticTarget(batch: TransitionBatch): (r: Result<seq<real>, LossError>)
    ensures r.Success? <==> batch.OnPolicyBatch? && batch.lamReturn.Some?
    ensures r.Success? ==> r.value == batch.lamReturn.value
  {
    if !batch.OnPolicyBatch? then Failure(NotOnPolicyBatch)
    else if batch.lamReturn.None? then Failure(MissingLamReturn)
    else Success(batch.lamReturn.value)
  }

  /** A column of a stacked batch: present when every transition has it. */
  function Column(ts: seq<Transition>, field: Transition -> Option<real>): Option<seq<real>>
  {
    if forall k :: 0 <= k < |ts| ==> field(ts[k]).Some?
    then Some(seq(|ts|, k requires 0 <= k < |ts| => field(ts[k]).value))
    else None
  }

  /** The transitions at positions `idx` of the memory, stacked. */
  function SampleBatch(memory: seq<Transition>, idx: seq<nat>): TransitionBatch
    requires forall k :: 0 <= k < |idx| ==> idx[k] < |memory|
  {
    var ts := seq(|idx|, k requires 0 <= k < |idx| => memory[idx[k]]);
    OnPolicyBatch(Column(ts, (t: Transition) => t.gae), Column(ts, (t: Transition) => t.lamReturn),
                  Column(ts, (t: Transition) => t.actionProbs))
  }

  /** Any batch drawn from a preprocessed memory carries every annotation
      the losses require: the critic regresses on the truncated
      lambda-returns of the sampled transitions, the actor loss is defined,
      and its ratio denominators are the current policy's probabilities. */
  lemma PreprocessedBatchIsComplete(m: seq<Transition>, idx: seq<nat>, gamma: real, lambda: real,
                                    critic: State -> real, policy: (State, Action) -> real)
    requires 0 < |m| && forall k :: 0 <= k < |idx| ==> idx[k] < |m|
    ensures var batch := SampleBatch(Preprocessed(m, gamma, lambda, critic, policy), idx);
      batch.gae.Some? && batch.actionProbs.Some? &&
      batch.actionProbs.value == seq(|idx|, k requires 0 <= k < |idx| => policy(m[idx[k]].state, m[idx[k]].action)) &&
      CriticTarget(batch) ==
        Success(seq(|idx|, k requires 0 <= k < |idx| =>
                      LambdaReturn(m, idx[k], gamma, lambda, Values(m, critic), critic(m[|m| - 1].nextState))))
  {
    var v, bootstrap, p := Values(m, critic), critic(m[|m| - 1].nextState), Probs(m, policy);
    var a := Annotate(m, gamma, lambda, v, bootstrap, p);
    var ts := seq(|idx|, k requires 0 <= k < |idx| => a[idx[k]]);
    var lam := seq(|idx|, k requires 0 <= k < |idx| => LambdaReturn(m, idx[k], gamma, lambda, v, bootstrap));
    var probs := seq(|idx|, k requires 0 <= k < |idx| => policy(m[idx[k]].state, m[idx[k]].action));
    forall k | 0 <= k < |idx|
      ensures ts[k].lamReturn == Some(lam[k]) && ts[k].actionProbs == Some(probs[k]) && ts[k].gae.Some?
    {
      GaePlusValueIsLambdaReturn(m, idx[k], gamma, lambda, v, bootstrap);
    }
    var lamColumn := Column(ts, (t: Transition) => t.lamReturn);
    assert lamColumn.Some? && lamColumn.value == lam;
    var probColumn := Column(ts, (t: Transition) => t.actionProbs);
    assert probColumn.Some? && probColumn.value == probs;
  }
}
