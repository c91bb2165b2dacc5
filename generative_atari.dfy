/** The transition sampler of the training script: a lazily built pool and
    the previous observation batch, kept between calls, from which each call
    produces one (before, action, after) batch of transitions. */
module GenerativeAtari {
  import opened Environment
  import opened Atari

  /** Number of environments stepped in lockstep. */
  const BatchSize: nat := 32

  /** Size of the discrete action space. */
  const NumActions: nat := 6

  /** The one-hot encoding of action `a` over `width` actions. */
  function OneHot(a: int, width: nat): seq<real>
  {
    seq(width, j => if j == a then 1.0 else 0.0)
  }

  /** One row of the action matrix per action. */
  function OneHotMatrix(actions: seq<int>, width: nat): seq<seq<real>>
  {
    seq(|actions|, i requires 0 <= i < |actions| => OneHot(actions[i], width))
  }

  /** The index of the first 1.0 in `row`, or `|row|` when there is none. */
  function FirstOne(row: seq<real>): nat
  {
    if row == [] then 0 else if row[0] == 1.0 then 0 else 1 + FirstOne(row[1..])
  }

  function Sum(row: seq<real>): real
  {
    if row == [] then 0.0 else row[0] + Sum(row[1..])
  }

  /** Dropping the first column of a one-hot row shifts the hot index. */
  lemma OneHotTail(a: int, width: nat)
    requires width > 0
    ensures OneHot(a, width)[1..] == OneHot(a - 1, width - 1)
  {
  }

  /** A one-hot row gives its action back: the first 1.0 sits at the action's
      index. */
  lemma {:induction false} OneHotDecodes(a: int, width: nat)
    requires 0 <= a < width
    ensures FirstOne(OneHot(a, width)) == a
    decreases width
  {
    if a > 0 {
      OneHotTail(a, width);
      OneHotDecodes(a - 1, width - 1);
    }
  }

  /** A one-hot row sums to 1.0 when the action is in range and to 0.0 (no
      column set) otherwise: exactly one entry is hot. */
  lemma {:induction false} OneHotSum(a: int, width: nat)
    ensures Sum(OneHot(a, width)) == if 0 <= a < width then 1.0 else 0.0
    decreases width
  {
    if width > 0 {
      OneHotTail(a, width);
      OneHotSum(a - 1, width - 1);
    }
  }

  /** Actions are drawn from `[0, NumActions)`. */
  predicate InActionRange(actions: seq<int>)
  {
    forall i :: 0 <= i < |actions| ==> 0 <= actions[i] < NumActions
  }

  /** The `action_tensor` loop: a zeroed `|actions| x width` matrix in which
      row i gets a 1.0 in column `actions[i]`. */
  method FillActionTensor(actions: seq<int>, width: nat) returns (m: array2<real>)
    requires forall i :: 0 <= i < |actions| ==> 0 <= actions[i] < width
    ensures fresh(m)
    ensures m.Length0 == |actions| && m.Length1 == width
    ensures forall i, j :: 0 <= i < |actions| && 0 <= j < width ==> m[i, j] == OneHot(actions[i], width)[j]
  {
    m := new real[|actions|, width]((i, j) => 0.0);
    for i := 0 to |actions|
      invariant forall r, c :: 0 <= r < |actions| && 0 <= c < width ==>
                                 m[r, c] == if r < i && c == actions[r] then 1.0 else 0.0
    {
      m[i, actions[i]] := 1.0;
    }
  }

  /** One returned triple, with the action matrix as its contents. */
  datatype Batch = Batch(prev: seq<Observation>, actions: seq<seq<real>>, states: seq<Observation>)

  /** Consecutive batches chain: the "before" of each is the "after" of the
      one returned just before it. */
  ghost predicate Chained(bs: seq<Batch>)
  {
    forall k :: 0 < k < |bs| ==> bs[k].prev == bs[k - 1].states
  }

  /** The script's module-level `env` and `prev_states`, and (ghost) every
      batch handed out so far. */
  class Session {
    const sim: Simulator
    var env: MultiEnvironment?
    var prevStates: seq<Observation>
    ghost var batches: seq<Batch>

    /** The pool exists exactly when a batch has been handed out; it has
        `BatchSize` slots and has taken one more step than batches were
        returned (the seeding step); `prevStates` is the last batch's
        "after"; and the batches chain. */
    ghost predicate Valid()
      reads this, env
    {
      (env == null <==> batches == []) &&
      (env != null ==>
         env.Valid() && env.sim == sim && env.batchSize == BatchSize &&
         env.macroSteps == |batches| + 1 &&
         |prevStates| == BatchSize &&
         prevStates == batches[|batches| - 1].states) &&
      Chained(batches)
    }

    /** `env = None`, `prev_states = None`: nothing is built yet. */
    constructor (sim: Simulator)
      ensures Valid()
      ensures this.sim == sim && env == null && batches == []
    {
      this.sim := sim;
      env := null;
      prevStates := [];
      batches := [];
    }

    /** `get_batch()`. On the first call only, the pool is built and one
        seeding step with `seedActions` gives the first "before"; every call
        then takes one pool step with `actions`, returns the previous
        "before", the one-hot action matrix and the new observations, and
        keeps the new observations as the next "before". */
    method GetBatch(seedActions: seq<int>, actions: seq<int>)
      returns (prev: seq<Observation>, actionTensor: array2<real>, states: seq<Observation>)
      requires Valid()
      requires env == null ==> |seedActions| == BatchSize
      requires |actions| == BatchSize && InActionRange(actions)
      modifies this, env
      ensures Valid() && env != null
      ensures old(env) == null ==> fresh(env)
      ensures old(env) == null ==>
        var first := PoolStep(sim, InitialSlots(sim, BatchSize), seedActions);
        var second := PoolStep(sim, Afters(first), actions);
        prev == Unzip(Results(first)).states &&
        states == Unzip(Results(second)).states &&
        env.envs == Afters(second) &&
        env.log == SlotLog(EverySlot(BatchSize, [Make])) + SlotLog(EverySlot(BatchSize, WarmUpOps())) +
                   SlotLog(OpsOf(first)) + SlotLog(OpsOf(second)) &&
        env.macroSteps == 2
      ensures old(env) != null ==>
        var outs := PoolStep(sim, old(env.envs), actions);
        env == old(env) &&
        prev == old(prevStates) &&
        states == Unzip(Results(outs)).states &&
        env.envs == Afters(outs) &&
        env.log == old(env.log) + SlotLog(OpsOf(outs)) &&
        env.macroSteps == old(env.macroSteps) + 1
      ensures prevStates == states && |states| == BatchSize
      ensures batches == old(batches) + [Batch(prev, OneHotMatrix(actions, NumActions), states)]
      ensures fresh(actionTensor)
      ensures actionTensor.Length0 == BatchSize && actionTensor.Length1 == NumActions
      ensures forall i, j :: 0 <= i < BatchSize && 0 <= j < NumActions ==>
                               actionTensor[i, j] == if j == actions[i] then 1.0 else 0.0
    {
      if env == null {
        var pool := new MultiEnvironment(sim, BatchSize);
        var seeded := pool.Step(seedActions);
        prevStates := seeded.value.states;
        env := pool;
        batches := [];
      }
      var r := env.Step(actions);
      states := r.value.states;
      actionTensor := FillActionTensor(actions, NumActions);
      prev := prevStates;
      prevStates := states;
      batches := batches + [Batch(prev, OneHotMatrix(actions, NumActions), states)];
    }
  }
}
