/** The abstract single-instance simulator that the batched pool drives, and
    the call log through which the pool's behaviour towards each of its
    environments is observed.

    The simulator is deterministic: a factory, a `reset` and a `step`, each a
    total function of the simulator's hidden state. Nothing about any
    particular emulator is modelled. */
module Environment {

  /** The simulator's hidden internal state (emulator memory, frame counter, seed). */
  type SimState = seq<int>

  /** One observation, e.g. a frame of pixels; the pool never looks inside it. */
  type Observation = seq<real>

  /** The side-channel dictionary a step returns, e.g. the number of lives left. */
  type Info = map<string, int>

  /** What `env.reset()` produces: the restarted state and its first observation. */
  datatype Restart = Restart(next: SimState, obs: Observation)

  /** What `env.step(action)` produces: the state it moves to and the
      (observation, reward, done, info) tuple it hands back. */
  datatype Transition = Transition(next: SimState, obs: Observation, reward: real, done: bool, info: Info)

  /** A simulator: `make(k)` is the k-th environment constructed, `reset` and
      `step` are the two calls an environment answers. */
  datatype Simulator = Simulator(make: nat -> SimState, reset: SimState -> Restart, step: (SimState, int) -> Transition)

  /** One call made on (or for) an environment: its construction, a reset, a step. */
  datatype Op = Make | Reset | Step(action: int)

  /** A call `op` made on the environment held in slot `slot` of a pool. */
  datatype Call = Call(slot: nat, op: Op)

  /** `k` copies of `op`, in a row. */
  function Repeat(op: Op, k: nat): (r: seq<Op>)
    ensures |r| == k
    ensures forall i :: 0 <= i < k ==> r[i] == op
  {
    seq(k, i => op)
  }

  /** How many of the calls in `ops` are `op`. */
  function Occurrences(ops: seq<Op>, op: Op): nat
  {
    if ops == [] then 0
    else Occurrences(ops[..|ops| - 1], op) + (if ops[|ops| - 1] == op then 1 else 0)
  }

  lemma {:induction false} OccurrencesAppend(a: seq<Op>, b: seq<Op>, op: Op)
    ensures Occurrences(a + b, op) == Occurrences(a, op) + Occurrences(b, op)
    decreases |b|
  {
    if b == [] {
      assert a + b == a;
    } else {
      var b' := b[..|b| - 1];
      assert (a + b)[..|a + b| - 1] == a + b';
      OccurrencesAppend(a, b', op);
    }
  }

  /** A run of `k` copies of `op` holds `op` exactly `k` times and nothing else. */
  lemma {:induction false} OccurrencesRepeat(op: Op, k: nat, other: Op)
    ensures Occurrences(Repeat(op, k), other) == if other == op then k else 0
  {
    if k > 0 {
      OccurrencesRepeat(op, k - 1, other);
      assert Repeat(op, k)[..k - 1] == Repeat(op, k - 1);
    }
  }

  /** The calls of `ops`, each attributed to slot `slot`. */
  function Tag(slot: nat, ops: seq<Op>): seq<Call>
  {
    seq(|ops|, k requires 0 <= k < |ops| => Call(slot, ops[k]))
  }

  /** The calls a log records for one slot, in the order they were made. */
  function Trace(log: seq<Call>, slot: nat): seq<Op>
  {
    if log == [] then []
    else Trace(log[..|log| - 1], slot) + (if log[|log| - 1].slot == slot then [log[|log| - 1].op] else [])
  }

  /** Projecting a log onto one slot distributes over appending to the log. */
  lemma {:induction false} TraceAppend(a: seq<Call>, b: seq<Call>, slot: nat)
    ensures Trace(a + b, slot) == Trace(a, slot) + Trace(b, slot)
    decreases |b|
  {
    if b == [] {
      assert a + b == a;
    } else {
      var b' := b[..|b| - 1];
      assert (a + b)[..|a + b| - 1] == a + b';
      TraceAppend(a, b', slot);
    }
  }

  /** Calls attributed to one slot show up in that slot's trace, and in no other. */
  lemma {:induction false} TraceTag(slot: nat, ops: seq<Op>, other: nat)
    ensures Trace(Tag(slot, ops), other) == if other == slot then ops else []
    decreases |ops|
  {
    if ops != [] {
      var ops' := ops[..|ops| - 1];
      var c := Call(slot, ops[|ops| - 1]);
      TraceTag(slot, ops', other);
      assert Tag(slot, ops) == Tag(slot, ops') + [c];
      TraceAppend(Tag(slot, ops'), [c], other);
      assert [c][..0] == [];
      assert ops' + [ops[|ops| - 1]] == ops;
    }
  }

  /** `log` is some interleaving of the per-slot call sequences `ps`: the
      calls of slot k appear in `log` in the order of `ps[k]`, but calls of
      different slots may be mixed in any way. Read backwards: the last call
      of the log is the last call still owed to its slot. */
  ghost predicate Interleaves(log: seq<Call>, ps: seq<seq<Op>>)
    decreases |log|
  {
    if log == [] then
      forall k :: 0 <= k < |ps| ==> ps[k] == []
    else
      var c := log[|log| - 1];
      c.slot < |ps| && ps[c.slot] != [] && ps[c.slot][|ps[c.slot]| - 1] == c.op &&
      Interleaves(log[..|log| - 1], ps[c.slot := ps[c.slot][..|ps[c.slot]| - 1]])
  }

  /** However the calls of different slots are interleaved, each slot's trace
      is exactly its own call sequence, and a slot outside `ps` gets nothing. */
  lemma {:induction false} InterleavingTrace(log: seq<Call>, ps: seq<seq<Op>>, slot: nat)
    requires Interleaves(log, ps)
    ensures Trace(log, slot) == if slot < |ps| then ps[slot] else []
    decreases |log|
  {
    if log != [] {
      var c := log[|log| - 1];
      var rest := ps[c.slot][..|ps[c.slot]| - 1];
      InterleavingTrace(log[..|log| - 1], ps[c.slot := rest], slot);
      if c.slot == slot {
        assert rest + [c.op] == ps[slot];
      }
    }
  }

  /** Appending a run of calls on one slot to an interleaving extends that
      slot's owed sequence by the run. */
  lemma {:induction false} InterleavesExtend(log: seq<Call>, ps: seq<seq<Op>>, slot: nat, ops: seq<Op>)
    requires Interleaves(log, ps) && slot < |ps|
    ensures Interleaves(log + Tag(slot, ops), ps[slot := ps[slot] + ops])
    decreases |ops|
  {
    if ops == [] {
      assert log + Tag(slot, ops) == log;
      assert ps[slot] + ops == ps[slot];
      assert ps[slot := ps[slot] + ops] == ps;
    } else {
      var ops' := ops[..|ops| - 1];
      InterleavesExtend(log, ps, slot, ops');
      var longer := log + Tag(slot, ops);
      assert longer[..|longer| - 1] == log + Tag(slot, ops');
      var owed := ps[slot := ps[slot] + ops];
      assert owed[slot][..|owed[slot]| - 1] == ps[slot] + ops';
      assert owed[slot := ps[slot] + ops'] == ps[slot := ps[slot] + ops'];
      assert longer[|longer| - 1] == Call(slot, ops[|ops| - 1]);
    }
  }

  /** Every call of `Tag(slot, ops)` is attributed to `slot`. */
  lemma TagSlots(slot: nat, ops: seq<Op>)
    ensures |Tag(slot, ops)| == |ops|
    ensures forall c :: c in Tag(slot, ops) ==> c.slot == slot
  {
  }
}
