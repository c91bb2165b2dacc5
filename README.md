# Batched Atari environment pool and transition sampler

This project models the environment side of the scm-gan training code. Two pieces are modelled.

- **The pool** (`MultiEnvironment`, `atari.py`) holds a fixed, ordered list of N environments.
  - It builds them one after another and resets each one.
  - A reset (`reset_env`) is one `env.reset()` followed by exactly 100 no-op `step(0)` calls.
  - A macro-step takes one action per slot. It steps slot i with action i. Any slot whose step reports `done` is reset before the call returns. It returns the per-slot results as four order-aligned sequences: observations, rewards, done flags, infos.
- **The transition sampler** (`get_batch`, `generative_atari.py`) builds the pool lazily on its first call and takes one seeding step. Every call then takes one pool step and returns a triple: the previous observations, a one-hot action matrix and the new observations. It keeps the new observations as the next call's "before".

The environment is abstract (`Environment.Simulator`). It is a deterministic factory `make`, a `reset` and a `step`, each a total function of a hidden state `SimState`. Every call made on a slot is recorded in a ghost log of `Call(slot, op)`. `Trace(log, j)` recovers the calls slot j received, in order. The model runs the slots in list order. `Interleaves(log, ps)` says that a log mixes the slots' call sequences `ps` in some way that keeps each slot's own calls in order. Any such log gives every slot the same trace (`InterleavingTrace`), and the list-order log is one of them (`SlotLogInterleaves`). So the per-slot statements also hold for any schedule the thread pool in `map_fn` may run.

Files:
- `environment.dfy` (module `Environment`) holds the simulator, the call log and its projection lemmas.
- `atari.dfy` (module `Atari`) holds `reset_env`, `run_one_step`, `map_fn` and the `MultiEnvironment` class.
- `generative_atari.dfy` (module `GenerativeAtari`) holds the one-hot action matrix and the `Session` class. The class holds the script's module-level `env` and `prev_states`.

Behaviour as written, which the model follows:
- A slot whose step reports `done` hands back the *terminal* observation, reward, flag and info. Its reset happens afterwards, and the reset's observations are discarded (`atari.py:33-36`). The caller never sees a post-reset observation. One might expect a `done` slot to hand back its post-reset observation; the code does not, and neither does the model.
- The 100 warm-up steps ignore everything they return, including `done`.
- A wrong number of actions fails the assertion before any slot is stepped. This is modelled as `Failure(ActionCountMismatch)`, not as a precondition.
- A pool of zero environments passes that assertion. Unpacking `zip(*[])` into four names then raises. This is modelled as `Failure(NothingToUnpack)`, with nothing changed.

## Model

| member | source | states |
|---|---|---|
| Atari.WarmUpCalls | atari.py:43-47 | `reset_env` makes 101 calls: the reset comes first and occurs exactly once, followed by exactly 100 `step(0)` calls and no other call |
| Atari.ResetEnv | atari.py:43-47 | the environment ends in the state reached by one reset and 100 no-op steps; the calls made are exactly the warm-up sequence |
| Atari.NoOpsIgnoreResults | atari.py:46-47 | the no-op loop depends only on the states the steps move to, not on reported observations, rewards or `done` |
| Atari.ResetEnvIgnoresResults | atari.py:43-47 | two simulators that agree on the restarted state and on the no-op step's next state warm up to the same state, whatever they report |
| Atari.SlotStepCalls | atari.py:32-36 | a slot that is not `done` receives one `step(a)` and no reset, and keeps the stepped state; a `done` slot receives `step(a)` followed by one full `reset_env` (exactly one reset) and ends warmed up; the result is the step's own result either way |
| Atari.RunOneStep | atari.py:32-36 | the new slot state, the returned tuple and the calls made equal the per-slot step outcome |
| Atari.MapFn2 | atari.py:8-11 | the map has the length of the shorter input, and entry i is `fn(xs[i], ys[i])`: input order is preserved |
| Atari.MapFnIsPoolStep | atari.py:38 | mapping `run_one_step` over slots and actions is exactly stepping slot i with action i |
| Atari.PoolStepAligned | atari.py:38-41 | with N slots and N actions, the four unzipped sequences each have length N; entry i of each is slot i's own step result; slot i's new state is that step's state, reset and warmed up when `done` |
| Atari.PoolStepTrace | atari.py:32-38 | a macro-step run in list order adds to slot j's trace exactly slot j's own `run_one_step` calls, and nothing to a slot the pool lacks |
| Atari.PoolStepTraceInterleaved | atari.py:9-38 | the same holds for any schedule that mixes the slots' calls while keeping each slot's own calls in order, as the worker threads of `map_fn` may |
| Atari.SlotLogInterleaves | atari.py:9-11 | the list-order log of a round is one interleaving of the slots' calls, so the in-order model is one of the schedules the thread pool may run |
| Atari.TraceSlotLog | atari.py:25-26 | a round of per-slot calls made in list order gives each slot exactly its own calls and gives nothing to slots beyond the round |
| Atari.SlotLogSlots | atari.py:20 | a round over N slots names no slot at or beyond N |
| Atari.ConstructionTrace | atari.py:20-21 | after construction, slot j's trace is its creation followed by one `reset_env`; slots at or beyond N have an empty trace |
| Atari.MakeEnvs | atari.py:20 | exactly N environments are made, the k-th in slot k, one after another |
| Atari.ResetEach | atari.py:24-26 | every slot is replaced by its reset-and-warmed-up state, in list order, with the slot count unchanged |
| Atari.StepEach | atari.py:32-38 | the in-order loop over slots computes the macro-step: new states, per-slot results and calls |
| Atari.MultiEnvironment.constructor | atari.py:15-21 | the pool has exactly `batch_size` slots, each made and then reset; each slot's trace is its creation then one `reset_env`; no step is counted yet |
| Atari.MultiEnvironment.Reset | atari.py:24-26 | every slot is reset and warmed up; each slot's trace grows by exactly one `reset_env`; the slot count and step count are unchanged |
| Atari.MultiEnvironment.Step | atari.py:28-41 | a wrong action count fails before anything changes; an empty pool fails at the unpacking; otherwise the four sequences have length N and are aligned entry by entry with slot i's step under `actions[i]`; `done` slots are reset; each slot's trace grows by exactly its own calls; the slot count is kept |
| Environment.TraceAppend | atari.py:25-26 | a slot's trace of two consecutive call rounds is its trace of the first followed by its trace of the second |
| Environment.InterleavingTrace | atari.py:9-11 | in any interleaving of per-slot call sequences that keeps each slot's own order, each slot's trace is exactly its own sequence, and a slot outside the pool gets nothing |
| Environment.InterleavesExtend | atari.py:9-11 | appending a run of calls on one slot to an interleaving gives an interleaving in which that slot owes the run as well |
| Environment.TraceTag | atari.py:32-36 | calls made on one slot appear in that slot's trace and in no other |
| Environment.OccurrencesRepeat | atari.py:46-47 | a run of k identical calls contains that call k times and no other call |
| GenerativeAtari.OneHotDecodes | generative_atari.py:39-41 | a one-hot row gives its action back: its first 1.0 is at the action's column |
| GenerativeAtari.OneHotSum | generative_atari.py:39-41 | a one-hot row sums to 1.0 (exactly one hot column) for an in-range action, and to 0.0 otherwise |
| GenerativeAtari.FillActionTensor | generative_atari.py:39-41 | the matrix is `batch_size x num_actions`; row i holds 1.0 at column `actions[i]` and 0.0 elsewhere |
| GenerativeAtari.Session.constructor | generative_atari.py:22-23 | nothing is built yet: no pool, no batches |
| GenerativeAtari.Session.GetBatch | generative_atari.py:26-44 | the first call builds a 32-slot pool and takes a seeding step then a second step (two pool steps); later calls reuse the pool and take exactly one step; the pool's call log grows by exactly those steps' calls (after construction on the first call); the result is (old `prev_states`, the one-hot matrix, this step's observations); `prev_states` becomes `states`, so each batch's "before" is the previous batch's "after" |

## Left out

- The emulator behind `gym.make`, `env.reset` and `env.step` is an external library. It is the abstract deterministic `Simulator`; `gym.make(name)` is `sim.make(k)` for the k-th environment built, and the environment name is not modelled.
- The `ThreadPoolExecutor` in `map_fn` is modelled as a sequential in-order map. Every schedule that keeps each slot's own calls in order gives the same per-slot traces (`PoolStepTraceInterleaved`), but the pool's global `log` records the list-order schedule only. Races inside the emulator are not modelled.
- Timing and progress prints in `MultiEnvironment` are I/O.
- The `__main__` demo of `atari.py` is visualisation.
- `np.random.randint` draws are inputs to `GetBatch` (`seedActions`, `actions`), with the range `[0, num_actions)` as a precondition. The seeding draw's range is not required, because the model does not use it.
- The `torch.Tensor(...).cuda()` conversions keep their contents. Observations are sequences of reals, and the action tensor is a two-dimensional array.
- The neural networks, losses, optimisers, training loop and video output of `generative_atari.py` are floating-point tensor numerics.
- `main.py` is not part of this model.
- `causal_graph.py` is not part of this model.
- Python's `assert` disappears under `python -O`. The model keeps the length check as an error result.
