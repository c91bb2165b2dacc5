/** The batched environment pool: a fixed, ordered list of environments that
    is reset as a whole and stepped in lockstep, one action per slot, with
    every slot whose episode ends reset (and warmed up) before the step
    returns. */
module Atari {
  import opened Environment

  /** Number of no-op steps taken after every reset. */
  const WarmUpSteps: nat := 100

  /** The no-op action used for the warm-up. */
  const NoOpAction: int := 0

  /** The calls `reset_env` makes on its environment: one reset, then the warm-up. */
  function WarmUpOps(): seq<Op>
  {
    [Reset] + Repeat(Step(NoOpAction), WarmUpSteps)
  }

  /** The state after `k` no-op steps from `s`; what the steps return is dropped. */
  function NoOps(sim: Simulator, s: SimState, k: nat): SimState
  {
    if k == 0 then s else sim.step(NoOps(sim, s, k - 1), NoOpAction).next
  }

  /** The state `reset_env` leaves an environment in. */
  function ResetEnvState(sim: Simulator, s: SimState): SimState
  {
    NoOps(sim, sim.reset(s).next, WarmUpSteps)
  }

  /** `reset_env` makes 101 calls: exactly one reset, first, and exactly 100
      no-op steps after it, and no other call. */
  lemma WarmUpCalls()
    ensures |WarmUpOps()| == 1 + WarmUpSteps
    ensures WarmUpOps()[0] == Reset
    ensures forall k :: 1 <= k <= WarmUpSteps ==> WarmUpOps()[k] == Step(NoOpAction)
    ensures forall op :: Occurrences(WarmUpOps(), op) ==
                         if op == Reset then 1 else if op == Step(NoOpAction) then WarmUpSteps else 0
  {
    forall op ensures Occurrences(WarmUpOps(), op) ==
      if op == Reset then 1 else if op == Step(NoOpAction) then WarmUpSteps else 0
    {
      OccurrencesAppend([Reset], Repeat(Step(NoOpAction), WarmUpSteps), op);
      OccurrencesRepeat(Step(NoOpAction), WarmUpSteps, op);
      assert [Reset][..0] == [];
    }
  }

  /** The warm-up looks only at the state each step moves to: two simulators
      that restart and no-op step to the same states, whatever observations,
      rewards and `done` flags they report, warm up to the same state. */
  lemma {:induction false} NoOpsIgnoreResults(sim1: Simulator, sim2: Simulator, s: SimState, k: nat)
    requires forall t :: sim1.step(t, NoOpAction).next == sim2.step(t, NoOpAction).next
    ensures NoOps(sim1, s, k) == NoOps(sim2, s, k)
  {
    if k > 0 {
      NoOpsIgnoreResults(sim1, sim2, s, k - 1);
    }
  }

  lemma ResetEnvIgnoresResults(sim1: Simulator, sim2: Simulator, s: SimState)
    requires sim1.reset(s).next == sim2.reset(s).next
    requires forall t :: sim1.step(t, NoOpAction).next == sim2.step(t, NoOpAction).next
    ensures ResetEnvState(sim1, s) == ResetEnvState(sim2, s)
  {
    NoOpsIgnoreResults(sim1, sim2, sim1.reset(s).next, WarmUpSteps);
  }

  /** `reset_env(env)`: one reset, then 100 no-op steps whose results,
      `done` included, are ignored. `calls` records the calls made. */
  method ResetEnv(sim: Simulator, s: SimState) returns (s': SimState, ghost calls: seq<Op>)
    ensures s' == ResetEnvState(sim, s)
    ensures calls == WarmUpOps()
  {
    var start := sim.reset(s).next;
    calls := [Reset];
    s' := start;
    for k := 0 to WarmUpSteps
      invariant s' == NoOps(sim, start, k)
      invariant calls == [Reset] + Repeat(Step(NoOpAction), k)
    {
      var t := sim.step(s', NoOpAction);
      s' := t.next;
      calls := calls + [Step(NoOpAction)];
    }
  }

  /** What stepping one slot yields: the slot's new state, the step's own
      result, and the calls made on the slot. */
  datatype SlotOutcome = SlotOutcome(after: SimState, result: Transition, ops: seq<Op>)

  /** `run_one_step(env, action)` as a value. */
  function SlotStep(sim: Simulator, s: SimState, a: int): SlotOutcome
  {
    var t := sim.step(s, a);
    SlotOutcome(if t.done then ResetEnvState(sim, t.next) else t.next,
                t,
                [Step(a)] + (if t.done then WarmUpOps() else []))
  }

  /** A slot whose step is not `done` gets the one step and nothing else; a
      slot whose step is `done` gets the step followed by one full
      `reset_env`, i.e. exactly one reset. Either way the result returned is
      the step's own: for a `done` slot, the terminal observation. */
  lemma SlotStepCalls(sim: Simulator, s: SimState, a: int)
    ensures SlotStep(sim, s, a).result == sim.step(s, a)
    ensures !sim.step(s, a).done ==> SlotStep(sim, s, a).ops == [Step(a)] && SlotStep(sim, s, a).after == sim.step(s, a).next
    ensures sim.step(s, a).done ==> SlotStep(sim, s, a).ops == [Step(a)] + WarmUpOps() && SlotStep(sim, s, a).after == ResetEnvState(sim, sim.step(s, a).next)
    ensures Occurrences(SlotStep(sim, s, a).ops, Reset) == if sim.step(s, a).done then 1 else 0
    ensures Occurrences(SlotStep(sim, s, a).ops, Step(a)) ==
      1 + if sim.step(s, a).done && a == NoOpAction then WarmUpSteps else 0
  {
    var o := SlotStep(sim, s, a);
    OccurrencesAppend([Step(a)], o.ops[1..], Reset);
    OccurrencesAppend([Step(a)], o.ops[1..], Step(a));
    assert [Step(a)] + o.ops[1..] == o.ops;
    assert [Step(a)][..0] == [];
    if o.result.done {
      WarmUpCalls();
      assert o.ops[1..] == WarmUpOps();
    } else {
      assert o.ops[1..] == [];
    }
  }

  /** `run_one_step(env, action)`: step the slot, and if the step reports
      `done`, reset it; hand back the step's own result either way
      (`SlotStepCalls` spells out what that outcome is). */
  method RunOneStep(sim: Simulator, s: SimState, a: int) returns (s': SimState, t: Transition, ghost calls: seq<Op>)
    ensures s' == SlotStep(sim, s, a).after && t == SlotStep(sim, s, a).result
    ensures calls == SlotStep(sim, s, a).ops
  {
    t := sim.step(s, a);
    s' := t.next;
    calls := [Step(a)];
    if t.done {
      ghost var resetCalls;
      s', resetCalls := ResetEnv(sim, s');
      calls := calls + resetCalls;
    }
  }

  /** `map_fn(fn, xs, ys)`: `executor.map` applies `fn` pairwise, stops at
      the shorter input, and yields the results in input order. */
  function MapFn2<A, B, C>(f: (A, B) -> C, xs: seq<A>, ys: seq<B>): (r: seq<C>)
    ensures |r| == if |xs| <= |ys| then |xs| else |ys|
    ensures forall i :: 0 <= i < |r| ==> r[i] == f(xs[i], ys[i])
    decreases |xs|
  {
    if xs == [] || ys == [] then [] else [f(xs[0], ys[0])] + MapFn2(f, xs[1..], ys[1..])
  }

  /** One macro-step of the pool as a value: slot i stepped with action i,
      for as many slots as there are actions. */
  function PoolStep(sim: Simulator, envs: seq<SimState>, actions: seq<int>): seq<SlotOutcome>
  {
    seq(if |envs| <= |actions| then |envs| else |actions|,
        k requires 0 <= k < |envs| && k < |actions| => SlotStep(sim, envs[k], actions[k]))
  }

  /** `map_fn(run_one_step, self.envs, actions)` yields exactly the
      macro-step: the pool's order-preserving map is slot-by-slot stepping. */
  lemma MapFnIsPoolStep(sim: Simulator, envs: seq<SimState>, actions: seq<int>)
    ensures MapFn2((s, a) => SlotStep(sim, s, a), envs, actions) == PoolStep(sim, envs, actions)
  {
  }

  function Afters(outs: seq<SlotOutcome>): seq<SimState>
  {
    seq(|outs|, k requires 0 <= k < |outs| => outs[k].after)
  }

  function Results(outs: seq<SlotOutcome>): seq<Transition>
  {
    seq(|outs|, k requires 0 <= k < |outs| => outs[k].result)
  }

  function OpsOf(outs: seq<SlotOutcome>): seq<seq<Op>>
  {
    seq(|outs|, k requires 0 <= k < |outs| => outs[k].ops)
  }

  /** The four order-aligned sequences a macro-step returns. */
  datatype StepBatch = StepBatch(states: seq<Observation>, rewards: seq<real>, dones: seq<bool>, infos: seq<Info>)

  /** `zip(*results)`: the list of per-slot tuples turned into four sequences. */
  function Unzip(ts: seq<Transition>): StepBatch
  {
    StepBatch(seq(|ts|, k requires 0 <= k < |ts| => ts[k].obs),
              seq(|ts|, k requires 0 <= k < |ts| => ts[k].reward),
              seq(|ts|, k requires 0 <= k < |ts| => ts[k].done),
              seq(|ts|, k requires 0 <= k < |ts| => ts[k].info))
  }

  /** The log of giving slot 0 the calls `ps[0]`, then slot 1 the calls
      `ps[1]`, and so on, in list order. */
  function SlotLog(ps: seq<seq<Op>>): seq<Call>
  {
    if ps == [] then [] else SlotLog(ps[..|ps| - 1]) + Tag(|ps| - 1, ps[|ps| - 1])
  }

  /** Each slot's trace in such a log is exactly the calls meant for it. */
  lemma {:induction false} TraceSlotLog(ps: seq<seq<Op>>, slot: nat)
    ensures Trace(SlotLog(ps), slot) == if slot < |ps| then ps[slot] else []
    decreases |ps|
  {
    if ps != [] {
      var n := |ps| - 1;
      TraceSlotLog(ps[..n], slot);
      TraceAppend(SlotLog(ps[..n]), Tag(n, ps[n]), slot);
      TraceTag(n, ps[n], slot);
    }
  }

  /** Such a log mentions no slot beyond the last one served. */
  lemma {:induction false} SlotLogSlots(ps: seq<seq<Op>>)
    ensures forall c :: c in SlotLog(ps) ==> c.slot < |ps|
    decreases |ps|
  {
    if ps != [] {
      var n := |ps| - 1;
      SlotLogSlots(ps[..n]);
      TagSlots(n, ps[n]);
    }
  }

  /** Serving one more slot extends the log by that slot's calls. */
  lemma SlotLogSnoc(ps: seq<seq<Op>>, i: nat)
    requires i < |ps|
    ensures SlotLog(ps[..i + 1]) == SlotLog(ps[..i]) + Tag(i, ps[i])
  {
    assert ps[..i + 1][..i] == ps[..i];
  }

  /** Appending a round of calls for slots `0 .. |ps|-1` to a log adds to
      slot j's trace exactly `ps[j]`, and to no other slot's. */
  lemma AppendSlotLog(log: seq<Call>, ps: seq<seq<Op>>)
    ensures forall j: nat :: Trace(log + SlotLog(ps), j) == Trace(log, j) + (if j < |ps| then ps[j] else [])
  {
    forall j: nat ensures Trace(log + SlotLog(ps), j) == Trace(log, j) + (if j < |ps| then ps[j] else []) {
      TraceAppend(log, SlotLog(ps), j);
      TraceSlotLog(ps, j);
    }
  }

  /** ... and keeps a log that names only slots below `n` so. */
  lemma AppendSlotLogSlots(log: seq<Call>, ps: seq<seq<Op>>, n: nat)
    requires |ps| == n
    requires forall c :: c in log ==> c.slot < n
    ensures forall c :: c in log + SlotLog(ps) ==> c.slot < n
  {
    SlotLogSlots(ps);
  }

  /** The same calls `ops` for each of `n` slots. */
  function EverySlot(n: nat, ops: seq<Op>): (ps: seq<seq<Op>>)
    ensures |ps| == n && forall k :: 0 <= k < n ==> ps[k] == ops
  {
    seq(n, k => ops)
  }

  /** Each macro-step entry i comes from slot i stepped with action i: the
      four returned sequences have one entry per slot, entry i is what slot
      i's own step returned, and slot i's new state is that step's state,
      reset and warmed up when the step was `done`. */
  lemma PoolStepAligned(sim: Simulator, envs: seq<SimState>, actions: seq<int>)
    requires |envs| == |actions|
    ensures var outs := PoolStep(sim, envs, actions);
      var b := Unzip(Results(outs));
      |b.states| == |b.rewards| == |b.dones| == |b.infos| == |Afters(outs)| == |envs| &&
      forall i :: 0 <= i < |envs| ==>
        var t := sim.step(envs[i], actions[i]);
        b.states[i] == t.obs && b.rewards[i] == t.reward &&
        b.dones[i] == t.done && b.infos[i] == t.info &&
        Afters(outs)[i] == (if t.done then ResetEnvState(sim, t.next) else t.next)
  {
  }

  /** The calls of one macro-step in list order, seen slot by slot: slot j
      receives exactly the calls of its own `run_one_step`, and a slot the
      pool does not have receives nothing. */
  lemma PoolStepTrace(sim: Simulator, envs: seq<SimState>, actions: seq<int>, log: seq<Call>, j: nat)
    requires |envs| == |actions|
    ensures Trace(log + SlotLog(OpsOf(PoolStep(sim, envs, actions))), j) ==
      Trace(log, j) + (if j < |envs| then SlotStep(sim, envs[j], actions[j]).ops else [])
  {
    var ps := OpsOf(PoolStep(sim, envs, actions));
    TraceAppend(log, SlotLog(ps), j);
    TraceSlotLog(ps, j);
  }

  /** The owed calls after serving slots `0 .. m-1` of `ps` in full. */
  function Owed(ps: seq<seq<Op>>, m: nat): seq<seq<Op>>
  {
    seq(|ps|, k requires 0 <= k < |ps| => if k < m then ps[k] else [])
  }

  lemma {:induction false} SlotLogInterleavesPrefix(ps: seq<seq<Op>>, m: nat)
    requires m <= |ps|
    ensures Interleaves(SlotLog(ps[..m]), Owed(ps, m))
    decreases m
  {
    if m == 0 {
      assert ps[..0] == [];
    } else {
      SlotLogInterleavesPrefix(ps, m - 1);
      SlotLogSnoc(ps, m - 1);
      InterleavesExtend(SlotLog(ps[..m - 1]), Owed(ps, m - 1), m - 1, ps[m - 1]);
      assert Owed(ps, m - 1)[m - 1] + ps[m - 1] == ps[m - 1];
      assert Owed(ps, m - 1)[m - 1 := ps[m - 1]] == Owed(ps, m);
    }
  }

  /** The list-order log is one interleaving of the slots' calls: the
      in-order model is one of the schedules the thread pool may run. */
  lemma SlotLogInterleaves(ps: seq<seq<Op>>)
    ensures Interleaves(SlotLog(ps), ps)
  {
    SlotLogInterleavesPrefix(ps, |ps|);
    assert ps[..|ps|] == ps;
    assert Owed(ps, |ps|) == ps;
  }

  /** A macro-step run by worker threads: whatever schedule mixes the
      slots' calls, as long as each slot's own calls stay in order, slot j's
      trace grows by exactly its own `run_one_step` calls, and a slot the
      pool does not have gets nothing. */
  lemma PoolStepTraceInterleaved(sim: Simulator, envs: seq<SimState>, actions: seq<int>,
                                 log: seq<Call>, calls: seq<Call>, j: nat)
    requires |envs| == |actions|
    requires Interleaves(calls, OpsOf(PoolStep(sim, envs, actions)))
    ensures Trace(log + calls, j) ==
      Trace(log, j) + (if j < |envs| then SlotStep(sim, envs[j], actions[j]).ops else [])
  {
    TraceAppend(log, calls, j);
    InterleavingTrace(calls, OpsOf(PoolStep(sim, envs, actions)), j);
  }

  /** `reset()` as a value: every slot reset and warmed up. */
  function ResetAll(sim: Simulator, envs: seq<SimState>): seq<SimState>
  {
    seq(|envs|, k requires 0 <= k < |envs| => ResetEnvState(sim, envs[k]))
  }

  /** The first `n` environments the factory makes, in order. */
  function Made(sim: Simulator, n: nat): seq<SimState>
  {
    seq(n, k requires 0 <= k < n => sim.make(k))
  }

  /** The slot states right after the pool is built: the k-th environment
      constructed, reset and warmed up, in slot k. */
  function InitialSlots(sim: Simulator, n: nat): seq<SimState>
  {
    ResetAll(sim, Made(sim, n))
  }

  /** Building a pool of `n` and resetting it leaves slot j (of the `n`)
      with exactly two steps of history: its construction, then one
      `reset_env`; a slot beyond `n` has none. */
  lemma ConstructionTrace(n: nat, j: nat)
    ensures Trace(SlotLog(EverySlot(n, [Make])) + SlotLog(EverySlot(n, WarmUpOps())), j) ==
      if j < n then [Make] + WarmUpOps() else []
  {
    TraceAppend(SlotLog(EverySlot(n, [Make])), SlotLog(EverySlot(n, WarmUpOps())), j);
    TraceSlotLog(EverySlot(n, [Make]), j);
    TraceSlotLog(EverySlot(n, WarmUpOps()), j);
  }

  /** `[gym.make(name) for i in range(batch_size)]`: the environments are
      made one after another, never concurrently. */
  method MakeEnvs(sim: Simulator, n: nat) returns (envs: seq<SimState>, ghost calls: seq<Call>)
    ensures envs == Made(sim, n)
    ensures calls == SlotLog(EverySlot(n, [Make]))
  {
    ghost var ps := EverySlot(n, [Make]);
    envs := [];
    calls := [];
    for i := 0 to n
      invariant envs == Made(sim, i)
      invariant calls == SlotLog(ps[..i])
    {
      envs := envs + [sim.make(i)];
      calls := calls + Tag(i, [Make]);
      SlotLogSnoc(ps, i);
    }
    assert ps[..n] == ps;
  }

  /** The loop of `reset()`: `reset_env` on every slot, in list order. */
  method ResetEach(sim: Simulator, envs0: seq<SimState>) returns (envs: seq<SimState>, ghost calls: seq<Call>)
    ensures envs == ResetAll(sim, envs0)
    ensures calls == SlotLog(EverySlot(|envs0|, WarmUpOps()))
  {
    ghost var ps := EverySlot(|envs0|, WarmUpOps());
    envs := envs0;
    calls := [];
    var i := 0;
    while i < |envs|
      invariant 0 <= i <= |envs| == |envs0|
      invariant forall k :: 0 <= k < i ==> envs[k] == ResetEnvState(sim, envs0[k])
      invariant forall k :: i <= k < |envs| ==> envs[k] == envs0[k]
      invariant calls == SlotLog(ps[..i])
    {
      ghost var slotCalls;
      var s';
      s', slotCalls := ResetEnv(sim, envs[i]);
      envs := envs[i := s'];
      calls := calls + Tag(i, slotCalls);
      SlotLogSnoc(ps, i);
      i := i + 1;
    }
    assert ps[..i] == ps;
  }

  /** `map_fn(run_one_step, self.envs, actions)`, run in list order: slot i
      is stepped with action i (and reset if that step is `done`) in place,
      and the per-slot results are collected in input order. */
  method StepEach(sim: Simulator, envs0: seq<SimState>, actions: seq<int>) returns (envs: seq<SimState>, results: seq<Transition>, ghost calls: seq<Call>)
    requires |envs0| == |actions|
    ensures envs == Afters(PoolStep(sim, envs0, actions))
    ensures results == Results(PoolStep(sim, envs0, actions))
    ensures calls == SlotLog(OpsOf(PoolStep(sim, envs0, actions)))
  {
    ghost var outs := PoolStep(sim, envs0, actions);
    ghost var ps := OpsOf(outs);
    envs := envs0;
    results := [];
    calls := [];
    var i := 0;
    while i < |envs|
      invariant 0 <= i <= |envs| == |envs0| == |outs| == |ps|
      invariant |results| == i
      invariant forall k :: 0 <= k < i ==> results[k] == outs[k].result
      invariant forall k :: 0 <= k < i ==> envs[k] == outs[k].after
      invariant forall k :: i <= k < |envs| ==> envs[k] == envs0[k]
      invariant calls == SlotLog(ps[..i])
    {
      ghost var slotCalls;
      var s', t;
      s', t, slotCalls := RunOneStep(sim, envs[i], actions[i]);
      envs := envs[i := s'];
      results := results + [t];
      calls := calls + Tag(i, slotCalls);
      SlotLogSnoc(ps, i);
      i := i + 1;
    }
    assert ps[..i] == ps;
  }

  /** Why a macro-step can fail. */
  datatype StepError =
    | ActionCountMismatch  // `len(actions) != len(self.envs)`: the assertion fails before any slot is stepped
    | NothingToUnpack      // an empty pool: `zip(*[])` has nothing to unpack into four names

  datatype Result<T> = Success(value: T) | Failure(error: StepError)

  /** `MultiEnvironment`: the pool. `envs` holds the slots' states, in list
      order; `log` records every call made on a slot, in the order this
      model makes them; `macroSteps` counts the successful `step` calls. */
  class MultiEnvironment {
    const sim: Simulator
    const batchSize: nat
    var envs: seq<SimState>
    ghost var log: seq<Call>
    ghost var macroSteps: nat

    /** The pool never gains or loses a slot, and no call is ever made on a
        slot it does not have. */
    ghost predicate Valid()
      reads this
    {
      |envs| == batchSize &&
      forall c :: c in log ==> c.slot < batchSize
    }

    /** `MultiEnvironment(name, batch_size)`: the environments are made one
        after another, then every one is reset; each slot's trace is its
        construction followed by one `reset_env`. */
    constructor (sim: Simulator, batchSize: nat)
      ensures Valid()
      ensures this.sim == sim && this.batchSize == batchSize
      ensures envs == InitialSlots(sim, batchSize)
      ensures log == SlotLog(EverySlot(batchSize, [Make])) + SlotLog(EverySlot(batchSize, WarmUpOps()))
      ensures forall j: nat :: Trace(log, j) == if j < batchSize then [Make] + WarmUpOps() else []
      ensures macroSteps == 0
    {
      this.sim := sim;
      this.batchSize := batchSize;
      ghost var calls;
      var made;
      made, calls := MakeEnvs(sim, batchSize);
      AppendSlotLogSlots([], EverySlot(batchSize, [Make]), batchSize);
      assert [] + calls == calls;
      envs := made;
      log := calls;
      macroSteps := 0;
      new;
      Reset();
      forall j: nat ensures Trace(log, j) == if j < batchSize then [Make] + WarmUpOps() else [] {
        ConstructionTrace(batchSize, j);
      }
    }

    /** `reset()`: `reset_env` on every slot, in list order; each slot's
        trace grows by one reset and the warm-up. */
    method Reset()
      requires Valid()
      modifies this
      ensures Valid()
      ensures envs == ResetAll(sim, old(envs))
      ensures log == old(log) + SlotLog(EverySlot(batchSize, WarmUpOps()))
      ensures forall j: nat :: Trace(log, j) == Trace(old(log), j) + (if j < batchSize then WarmUpOps() else [])
      ensures macroSteps == old(macroSteps)
    {
      ghost var calls;
      AppendSlotLogSlots(log, EverySlot(batchSize, WarmUpOps()), batchSize);
      AppendSlotLog(log, EverySlot(batchSize, WarmUpOps()));
      envs, calls := ResetEach(sim, envs);
      log := log + calls;
    }

    /** `step(actions)`: one action per slot; slot i is stepped with
        `actions[i]` and, if that step is `done`, reset before the call
        returns. The four sequences returned hold, entry by entry, what each
        slot's own step returned (`PoolStepAligned`); each slot's trace grows
        by exactly its own `run_one_step` calls. */
    method Step(actions: seq<int>) returns (r: Result<StepBatch>)
      requires Valid()
      modifies this
      ensures Valid()
      ensures |actions| != batchSize ==> r == Failure(ActionCountMismatch)
      ensures |actions| == batchSize == 0 ==> r == Failure(NothingToUnpack)
      ensures r.Failure? ==> envs == old(envs) && log == old(log) && macroSteps == old(macroSteps)
      ensures |actions| == batchSize > 0 ==>
        var outs := PoolStep(sim, old(envs), actions);
        r == Success(Unzip(Results(outs))) &&
        envs == Afters(outs) &&
        log == old(log) + SlotLog(OpsOf(outs)) &&
        macroSteps == old(macroSteps) + 1
      ensures r.Success? ==>
        |r.value.states| == |r.value.rewards| == |r.value.dones| == |r.value.infos| == batchSize &&
        forall i :: 0 <= i < batchSize ==>
          var t := sim.step(old(envs)[i], actions[i]);
          r.value.states[i] == t.obs && r.value.rewards[i] == t.reward &&
          r.value.dones[i] == t.done && r.value.infos[i] == t.info &&
          envs[i] == (if t.done then ResetEnvState(sim, t.next) else t.next)
      ensures r.Success? ==>
        forall j: nat :: Trace(log, j) == Trace(old(log), j) +
                                          (if j < batchSize then SlotStep(sim, old(envs)[j], actions[j]).ops else [])
    {
      if |actions| != |envs| {
        return Failure(ActionCountMismatch);
      }
      ghost var calls;
      var stepped, results;
      stepped, results, calls := StepEach(sim, envs, actions);
      if results == [] {
        return Failure(NothingToUnpack);
      }
      AppendSlotLogSlots(log, OpsOf(PoolStep(sim, envs, actions)), batchSize);
      PoolStepAligned(sim, envs, actions);
      forall j: nat ensures Trace(log + calls, j) == Trace(log, j) +
                                                   (if j < batchSize then SlotStep(sim, envs[j], actions[j]).ops else [])
      {
        PoolStepTrace(sim, envs, actions, log, j);
      }
      envs := stepped;
      log := log + calls;
      macroSteps := macroSteps + 1;
      r := Success(Unzip(results));
    }
  }
}
