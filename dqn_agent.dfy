// The deep Q-learning agent without its neural network: the bounded replay
// memory, masked greedy action selection, exploration, the temporal-
// difference targets written into the predicted rows, and the epsilon decay.
// The network is a pair of opaque functions (predict and fit) over a weight
// vector; random draws are parameters or nondeterministic choices.

module DqnAgent {
  import opened Sequences

  /** `deque(maxlen=50000)`. */
  const MemoryCapacity: nat := 50000

  type Weights = seq<real>

  /** One remembered experience `(state, action, reward, next_state, done)`. */
  datatype Transition<S> = Transition(state: S, action: nat, reward: real, nextState: S, done: bool)

  /** A Q-value after masking: an illegal action scores minus infinity. */
  datatype Score = NegInf | Val(q: real)

  predicate AtMost(a: Score, b: Score)
  {
    a.NegInf? || (b.Val? && a.q <= b.q)
  }

  /** `np.where(valid_moves_mask, act_values, -np.inf)`. */
  function Masked(q: seq<real>, mask: seq<bool>): (r: seq<Score>)
    requires |q| == |mask|
    ensures |r| == |q|
    ensures forall i :: 0 <= i < |r| ==> (r[i].Val? <==> mask[i])
    ensures forall i :: 0 <= i < |r| && mask[i] ==> r[i] == Val(q[i])
  {
    seq(|q|, i requires 0 <= i < |q| => if mask[i] then Val(q[i]) else NegInf)
  }

  /** `np.argmax`: the first index holding a maximal score. */
  function ArgMax(s: seq<Score>): (r: nat)
    requires |s| > 0
    ensures r < |s|
    ensures forall j :: 0 <= j < |s| ==> AtMost(s[j], s[r])
    ensures forall j :: 0 <= j < r ==> !AtMost(s[r], s[j])
    decreases |s|
  {
    if |s| == 1 then 0
    else
      var k := ArgMax(s[..|s| - 1]);
      if !AtMost(s[|s| - 1], s[k]) then |s| - 1 else k
  }

  predicate AnyTrue(mask: seq<bool>)
  {
    exists i :: 0 <= i < |mask| && mask[i]
  }

  /**
   * The exploitation branch of `act`: the masked arg-max. Whenever some
   * action is legal it picks a legal one whose Q-value is at least that of
   * every legal action, and every legal action before it is strictly worse.
   */
  function Greedy(q: seq<real>, mask: seq<bool>): (r: nat)
    requires |q| == |mask| > 0
    ensures r < |mask|
    ensures AnyTrue(mask) ==> mask[r]
    ensures mask[r] ==> forall j :: 0 <= j < |mask| && mask[j] ==> q[j] <= q[r]
    ensures forall j :: 0 <= j < r && mask[j] ==> q[j] < q[r]
    ensures !AnyTrue(mask) ==> r == 0
  {
    var s := Masked(q, mask);
    var r := ArgMax(s);
    assert AnyTrue(mask) ==> mask[r] by {
      if AnyTrue(mask) {
        var i :| 0 <= i < |mask| && mask[i];
        assert AtMost(s[i], s[r]);
      }
    }
    assert !AnyTrue(mask) ==> r == 0 by {
      if !AnyTrue(mask) && r > 0 {
        assert AtMost(s[r], s[0]);
      }
    }
    r
  }

  /** `np.amax` of a non-empty row. */
  function MaxOf(row: seq<real>): (m: real)
    requires |row| > 0
    ensures m in row
    ensures forall j :: 0 <= j < |row| ==> row[j] <= m
  {
    if |row| == 1 then row[0]
    else
      var rest := MaxOf(row[1..]);
      assert forall j :: 1 <= j < |row| ==> row[j] == row[1..][j - 1];
      if row[0] >= rest then row[0] else rest
  }

  /** The value written at the taken action: the reward, plus the discounted best next value unless the episode ended. */
  function TdValue<S>(t: Transition<S>, nextRow: seq<real>, gamma: real): real
    requires !t.done ==> |nextRow| > 0
  {
    if t.done then t.reward else t.reward + gamma * MaxOf(nextRow)
  }

  /**
   * The loop of `replay` over the minibatch: row i of the predicted values
   * gets its taken action's entry replaced by the TD value, and every other
   * entry keeps the online prediction.
   */
  method TdTargets<S>(batch: seq<Transition<S>>, predicted: seq<seq<real>>, nextQ: seq<seq<real>>, gamma: real)
    returns (targets: seq<seq<real>>)
    requires |predicted| == |batch| && |nextQ| == |batch|
    requires forall i :: 0 <= i < |batch| ==> batch[i].action < |predicted[i]|
    requires forall i :: 0 <= i < |batch| && !batch[i].done ==> |nextQ[i]| > 0
    ensures |targets| == |batch|
    ensures forall i :: 0 <= i < |batch| ==> |targets[i]| == |predicted[i]|
    ensures forall i, j :: 0 <= i < |batch| && 0 <= j < |predicted[i]| ==>
      targets[i][j] == (if j == batch[i].action then TdValue(batch[i], nextQ[i], gamma) else predicted[i][j])
  {
    targets := predicted;
    for i := 0 to |batch|
      invariant |targets| == |batch|
      invariant forall k :: 0 <= k < |batch| ==> |targets[k]| == |predicted[k]|
      invariant forall k, j :: 0 <= k < i && 0 <= j < |predicted[k]| ==>
        targets[k][j] == (if j == batch[k].action then TdValue(batch[k], nextQ[k], gamma) else predicted[k][j])
      invariant forall k :: i <= k < |batch| ==> targets[k] == predicted[k]
    {
      var value := if batch[i].done then batch[i].reward else batch[i].reward + gamma * MaxOf(nextQ[i]);
      targets := targets[i := targets[i][batch[i].action := value]];
    }
  }

  /** The epsilon update at the end of `replay`: multiply by the decay only while above the minimum, with no clamp. */
  function DecayedEpsilon(epsilon: real, epsilonMin: real, decay: real): (r: real)
    ensures epsilon <= epsilonMin ==> r == epsilon
    ensures epsilon > epsilonMin ==> r == epsilon * decay
    ensures 0.0 < decay <= 1.0 && 0.0 <= epsilon ==> 0.0 <= r <= epsilon
    ensures 0.0 < decay && epsilon > epsilonMin ==> r > epsilonMin * decay
  {
    if epsilon > epsilonMin then Scaling(epsilonMin, epsilon, decay); epsilon * decay else epsilon
  }

  /** Multiplying by a positive factor keeps strict order; a factor in (0, 1] shrinks a non-negative number. */
  lemma Scaling(a: real, b: real, c: real)
    requires a < b
    ensures 0.0 < c ==> a * c < b * c
    ensures 0.0 < c <= 1.0 && 0.0 <= b ==> 0.0 <= b * c <= b
  {
    if 0.0 < c {
      assert b * c - a * c == (b - a) * c;
      if c <= 1.0 && 0.0 <= b {
        assert b - b * c == b * (1.0 - c);
      }
    }
  }

  /** Epsilon after `k` successful replays. */
  function EpsilonAfter(epsilon: real, epsilonMin: real, decay: real, k: nat): real
  {
    if k == 0 then epsilon else DecayedEpsilon(EpsilonAfter(epsilon, epsilonMin, decay, k - 1), epsilonMin, decay)
  }

  /**
   * However many replays run, epsilon never rises and never falls below
   * `epsilon_min * epsilon_decay`: it can end one decay step under the
   * minimum, but no further.
   */
  lemma {:induction false} EpsilonFloor(epsilon: real, epsilonMin: real, decay: real, k: nat)
    requires 0.0 < decay <= 1.0 && 0.0 <= epsilonMin * decay <= epsilon
    ensures epsilonMin * decay <= EpsilonAfter(epsilon, epsilonMin, decay, k) <= epsilon
  {
    if k > 0 {
      EpsilonFloor(epsilon, epsilonMin, decay, k - 1);
    }
  }

  /** With the default hyper-parameters, one decay takes epsilon from above the minimum to below it. */
  lemma EpsilonUndershootsMinimum()
    ensures 0.01005 > 0.01 && DecayedEpsilon(0.01005, 0.01, 0.995) < 0.01
  {
  }

  /** `random.sample(memory, n)`: `n` entries of the memory at pairwise distinct positions. */
  ghost predicate IsSample<T>(batch: seq<T>, memory: seq<T>)
  {
    exists picks: seq<nat> :: SamplePicks(picks, |memory|, |batch|) && forall k :: 0 <= k < |batch| ==> batch[k] == memory[picks[k]]
  }

  /** `n` pairwise distinct positions below `size`, the random choice behind a sample. */
  predicate SamplePicks(picks: seq<nat>, size: nat, n: nat)
  {
    && |picks| == n
    && (forall k :: 0 <= k < n ==> picks[k] < size)
    && (forall k, l :: 0 <= k < l < n ==> picks[k] != picks[l])
  }

  function Select<T>(memory: seq<T>, picks: seq<nat>): (r: seq<T>)
    requires forall k :: 0 <= k < |picks| ==> picks[k] < |memory|
    ensures |r| == |picks| && forall k :: 0 <= k < |picks| ==> r[k] == memory[picks[k]]
  {
    seq(|picks|, k requires 0 <= k < |picks| => memory[picks[k]])
  }

  class DQNAgent<S(!new)> {
    const actionSize: nat
    const gamma: real
    const epsilonMin: real
    const epsilonDecay: real
    const learningRate: real
    /** The network's forward pass: Q-values of a state under given weights. */
    const predict: (Weights, S) -> seq<real>
    /** One epoch of `model.fit` on states and target rows, producing new weights. */
    const fit: (Weights, seq<S>, seq<seq<real>>) -> Weights

    var memory: seq<Transition<S>>
    var epsilon: real
    var online: Weights
    var target: Weights
    /** Every transition ever remembered, oldest first. */
    ghost var remembered: seq<Transition<S>>

    ghost predicate Valid()
      reads this
    {
      && actionSize > 0
      && (forall w, s :: |predict(w, s)| == actionSize)
      && memory == Window(remembered, MemoryCapacity)
      && (forall i :: 0 <= i < |memory| ==> memory[i].action < actionSize)
    }

    /** `__init__`: an empty memory, and the target network synchronised with the freshly built online one. */
    constructor (actionSize: nat, predict: (Weights, S) -> seq<real>, fit: (Weights, seq<S>, seq<seq<real>>) -> Weights,
                 initial: Weights, learningRate: real, gamma: real, epsilon: real, epsilonDecay: real, epsilonMin: real)
      requires actionSize > 0 && forall w, s :: |predict(w, s)| == actionSize
      ensures Valid()
      ensures this.actionSize == actionSize && this.predict == predict && this.fit == fit
      ensures this.learningRate == learningRate && this.gamma == gamma && this.epsilon == epsilon
      ensures this.epsilonDecay == epsilonDecay && this.epsilonMin == epsilonMin
      ensures memory == [] && remembered == [] && online == initial && target == initial
    {
      this.actionSize := actionSize;
      this.predict := predict;
      this.fit := fit;
      this.learningRate := learningRate;
      this.gamma := gamma;
      this.epsilon := epsilon;
      this.epsilonDecay := epsilonDecay;
      this.epsilonMin := epsilonMin;
      memory := [];
      remembered := [];
      online := initial;
      target := initial;
    }

    /** `update_target_model`: the target weights become the online weights. */
    method UpdateTargetModel()
      modifies this
      ensures target == online && online == old(online)
      ensures memory == old(memory) && remembered == old(remembered) && epsilon == old(epsilon)
    {
      target := online;
    }

    /** `load`: the online weights are replaced, then copied to the target. */
    method Load(weights: Weights)
      modifies this
      ensures online == weights && target == weights
      ensures memory == old(memory) && remembered == old(remembered) && epsilon == old(epsilon)
    {
      online := weights;
      UpdateTargetModel();
    }

    /**
     * `remember`: append to the bounded memory. The memory always holds the
     * most recent 50000 transitions in the order they were remembered; a
     * full memory drops its oldest one.
     */
    method Remember(t: Transition<S>)
      requires Valid() && t.action < actionSize
      modifies this
      ensures Valid()
      ensures remembered == old(remembered) + [t]
      ensures |memory| <= MemoryCapacity
      ensures |old(memory)| < MemoryCapacity ==> memory == old(memory) + [t]
      ensures |old(memory)| == MemoryCapacity ==> memory == old(memory)[1..] + [t]
      ensures online == old(online) && target == old(target) && epsilon == old(epsilon)
    {
      WindowOfWindow(remembered, t, MemoryCapacity);
      memory := Push(memory, t, MemoryCapacity);
      remembered := remembered + [t];
    }

    /**
     * `act`. `coin` is the uniform draw in [0, 1): at most epsilon means
     * explore, choosing a legal action at random (any action when none is
     * legal); otherwise the masked arg-max of the online Q-values.
     */
    method Act(state: S, mask: seq<bool>, coin: real) returns (action: nat, explored: bool)
      requires Valid() && |mask| == actionSize && 0.0 <= coin < 1.0
      ensures action < actionSize
      ensures explored <==> coin <= epsilon
      ensures explored && AnyTrue(mask) ==> mask[action]
      ensures !explored ==> action == Greedy(predict(online, state), mask)
    {
      explored := coin <= epsilon;
      if explored {
        if AnyTrue(mask) {
          action :| 0 <= action < |mask| && mask[action];
        } else {
          action :| 0 <= action < actionSize;
        }
      } else {
        var q := predict(online, state);
        action := Greedy(q, mask);
      }
    }

    /** The online predictions of a list of states. */
    function Predictions(w: Weights, states: seq<S>): (rows: seq<seq<real>>)
      ensures |rows| == |states|
      ensures forall k :: 0 <= k < |states| ==> rows[k] == predict(w, states[k])
    {
      seq(|states|, k requires 0 <= k < |states| => predict(w, states[k]))
    }

    /**
     * `replay`. With fewer transitions than the batch size nothing happens.
     * Otherwise `picks` is the random sample: the memory is left as it is,
     * the online network is fitted to the TD targets of the sampled
     * transitions, and epsilon decays.
     */
    method Replay(batchSize: nat, picks: seq<nat>) returns (trained: bool, batch: seq<Transition<S>>, targets: seq<seq<real>>)
      requires Valid()
      requires |memory| >= batchSize ==> SamplePicks(picks, |memory|, batchSize)
      modifies this
      ensures Valid()
      ensures memory == old(memory) && remembered == old(remembered) && target == old(target)
      ensures trained <==> |old(memory)| >= batchSize
      ensures !trained ==> online == old(online) && epsilon == old(epsilon)
      ensures trained ==>
        && batch == Select(memory, picks) && IsSample(batch, memory)
        && |targets| == batchSize && (forall i :: 0 <= i < batchSize ==> |targets[i]| == actionSize)
        && (forall i, j :: 0 <= i < batchSize && 0 <= j < actionSize ==>
              targets[i][j] == if j == batch[i].action then TdValue(batch[i], predict(target, batch[i].nextState), gamma)
                               else predict(old(online), batch[i].state)[j])
        && online == fit(old(online), StatesOf(batch), targets)
        && epsilon == DecayedEpsilon(old(epsilon), epsilonMin, epsilonDecay)
    {
      if |memory| < batchSize {
        return false, [], [];
      }
      trained := true;
      batch := Select(memory, picks);
      var states := StatesOf(batch);
      var nextStates := seq(batchSize, k requires 0 <= k < batchSize => batch[k].nextState);
      var predicted := Predictions(online, states);
      var nextQ := Predictions(target, nextStates);
      targets := TdTargets(batch, predicted, nextQ, gamma);
      online := fit(online, states, targets);
      if epsilon > epsilonMin {
        epsilon := epsilon * epsilonDecay;
      }
    }
  }

  function StatesOf<S>(batch: seq<Transition<S>>): (states: seq<S>)
    ensures |states| == |batch| && forall k :: 0 <= k < |batch| ==> states[k] == batch[k].state
  {
    seq(|batch|, k requires 0 <= k < |batch| => batch[k].state)
  }
}
