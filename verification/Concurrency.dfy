/**
 * packages/dreamdex/src/services/concurrency.ts: workers that share a cursor. JavaScript runs each worker without
 * interruption between two awaits, so a step is one such segment: a worker starts, or its mapper call settles or
 * rejects, and in the first two cases it goes on to its next mapper call or its end. `None` is an undefined value.
 */
module Concurrency {
  import opened Arithmetic
  import opened Wrappers

  datatype Phase = Ready | Running(index: nat) | Finished | Rejected(index: nat)

  /** `started` lists the indices in the order in which the mapper was called on them. */
  datatype Pool<O> = Pool(cursor: nat, results: seq<Option<O>>, workers: seq<Phase>, started: seq<nat>)

  // ---- segments ----

  /** The first index from `cursor` on that holds a value. */
  function NextDefined<I>(values: seq<Option<I>>, cursor: nat): (i: nat)
    requires cursor <= |values|
    ensures cursor <= i <= |values|
    ensures i < |values| ==> values[i].Some?
    ensures forall k :: cursor <= k < i ==> values[k].None?
    decreases |values| - cursor
  {
    if cursor == |values| || values[cursor].Some? then cursor else NextDefined(values, cursor + 1)
  }

  /** A worker's loop up to its next await. */
  function Advance<I, O>(s: Pool<O>, w: nat, values: seq<Option<I>>): Pool<O>
    requires w < |s.workers| && s.cursor <= |values|
  {
    var i := NextDefined(values, s.cursor);
    if i < |values| then s.(cursor := i + 1, workers := s.workers[w := Running(i)], started := s.started + [i])
    else s.(cursor := i, workers := s.workers[w := Finished])
  }

  datatype Step = Start(w: nat) | Settle(w: nat) | Reject(w: nat)

  predicate Enabled<I, O>(s: Pool<O>, step: Step, values: seq<Option<I>>) {
    && step.w < |s.workers| && s.cursor <= |values| && |s.results| == |values|
    && match step
       case Start(w) => s.workers[w].Ready?
       case Settle(w) => s.workers[w].Running? && s.workers[w].index < |values| && values[s.workers[w].index].Some?
       case Reject(w) => s.workers[w].Running?
  }

  function Next<I, O>(s: Pool<O>, step: Step, values: seq<Option<I>>, mapper: (I, nat) -> O): Pool<O>
    requires Enabled(s, step, values)
  {
    match step
    case Start(w) => Advance(s, w, values)
    case Settle(w) =>
      var i := s.workers[w].index;
      Advance(s.(results := s.results[i := Some(mapper(values[i].value, i))]), w, values)
    case Reject(w) => s.(workers := s.workers[w := Rejected(s.workers[w].index)])
  }

  /** The pool before any worker has run. */
  function Fresh<O>(n: nat, limit: nat): Pool<O> {
    Pool(0, seq(n, _ => None), seq(Min(limit, n), _ => Ready), [])
  }

  ghost predicate Run<I, O>(
    states: seq<Pool<O>>, steps: seq<Step>, values: seq<Option<I>>, limit: nat, mapper: (I, nat) -> O) {
    && |states| == |steps| + 1 && states[0] == Fresh(|values|, limit)
    && forall i {:trigger steps[i]} :: 0 <= i < |steps| ==>
         Enabled(states[i], steps[i], values) && states[i + 1] == Next(states[i], steps[i], values, mapper)
  }

  // ---- the pool as the source has it ----

  class WorkerPool<I, O> {
    const values: seq<Option<I>>
    const mapper: (I, nat) -> O
    const results: array<Option<O>>
    var cursor: nat
    var workers: seq<Phase>
    ghost var started: seq<nat>

    ghost function State(): Pool<O>
      reads this, results
    {
      Pool(cursor, results[..], workers, started)
    }

    ghost predicate Valid()
      reads this, results
    {
      cursor <= |values| && results.Length == |values|
    }

    constructor (values: seq<Option<I>>, limit: nat, mapper: (I, nat) -> O)
      requires limit > 0
      ensures Valid() && State() == Fresh(|values|, limit) && fresh(results)
      ensures this.values == values && this.mapper == mapper
    {
      this.values, this.mapper := values, mapper;
      results := new Option<O>[|values|](_ => None);
      cursor, started := 0, [];
      workers := seq(Min(limit, |values|), _ => Ready);
      new;
      assert results[..] == seq(|values|, _ => None);
    }

    /** `while (cursor < values.length)` up to the next `await`. */
    method Resume(w: nat)
      requires Valid() && w < |workers|
      modifies this
      ensures Valid() && State() == Advance(old(State()), w, values)
    {
      while cursor < |values|
        invariant Valid() && workers == old(workers) && started == old(started) && results[..] == old(results[..])
        invariant NextDefined(values, cursor) == NextDefined(values, old(cursor))
      {
        var index := cursor;
        cursor := cursor + 1;
        if values[index].Some? {
          workers := workers[w := Running(index)];
          started := started + [index];
          return;
        }
      }
      workers := workers[w := Finished];
    }

    /** `results[index] = await mapper(value, index)` and on. */
    method SettleCall(w: nat)
      requires Valid() && Enabled(State(), Settle(w), values)
      modifies this, results
      ensures Valid() && State() == Next(old(State()), Settle(w), values, mapper)
    {
      var index := workers[w].index;
      results[index] := Some(mapper(values[index].value, index));
      Resume(w);
    }
  }

  datatype RangeError = BadLimit

  method StartPool<I, O>(
    values: seq<Option<I>>, limit: int, mapper: (I, nat) -> O)
    returns (pool: Result<WorkerPool<I, O>, RangeError>)
    ensures pool.Err? <==> limit <= 0
    ensures pool.Ok? ==> fresh(pool.value) && pool.value.Valid() && pool.value.State() == Fresh(|values|, limit)
                         && pool.value.values == values && pool.value.mapper == mapper
  {
    if limit <= 0 {
      return Err(BadLimit);
    }
    var created := new WorkerPool(values, limit, mapper);
    return Ok(created);
  }

  // ---- the invariant ----

  /** The mapper was called on exactly the defined values in front of the cursor, each once and in order. */
  ghost predicate StartedOk<I, O>(s: Pool<O>, values: seq<Option<I>>) {
    && s.cursor <= |values| && |s.results| == |values|
    && (forall a, b :: 0 <= a < b < |s.started| ==> s.started[a] < s.started[b])
    && (forall i :: i in s.started <==> 0 <= i < s.cursor && values[i].Some?)
  }

  predicate Owns(phase: Phase, i: nat) {
    (phase.Running? || phase.Rejected?) && phase.index == i
  }

  /** A worker holds only called indices whose result is still missing. */
  ghost predicate HoldersOk<O>(s: Pool<O>) {
    forall w, i: nat :: 0 <= w < |s.workers| && Owns(s.workers[w], i) ==>
      i in s.started && i < |s.results| && s.results[i].None?
  }

  ghost predicate HeldOnce<O>(s: Pool<O>) {
    forall v, w, i ::
      0 <= v < |s.workers| && 0 <= w < |s.workers| && Owns(s.workers[v], i) && Owns(s.workers[w], i) ==> v == w
  }

  predicate IsHeld<O>(s: Pool<O>, i: nat) {
    exists w :: 0 <= w < |s.workers| && Owns(s.workers[w], i)
  }

  /** What is stored is the mapper's value of a called index, and every other called index is with a worker. */
  ghost predicate ResultsOk<I, O>(s: Pool<O>, values: seq<Option<I>>, mapper: (I, nat) -> O) {
    && |s.results| == |values|
    && (forall i :: 0 <= i < |values| && s.results[i].Some? ==>
                      i in s.started && values[i].Some? && s.results[i] == Some(mapper(values[i].value, i)))
    && (forall i: nat :: i in s.started && i < |values| && s.results[i].None? ==> IsHeld(s, i))
  }

  ghost predicate Inv<I, O>(s: Pool<O>, values: seq<Option<I>>, mapper: (I, nat) -> O) {
    StartedOk(s, values) && HoldersOk(s) && HeldOnce(s) && ResultsOk(s, values, mapper)
  }

  lemma AdvanceKeepsStarted<I, O>(s: Pool<O>, w: nat, values: seq<Option<I>>)
    requires StartedOk(s, values) && w < |s.workers|
    ensures StartedOk(Advance(s, w, values), values)
    ensures forall i :: i in s.started ==> i in Advance(s, w, values).started
  {
    var i := NextDefined(values, s.cursor);
    forall a | 0 <= a < |s.started| ensures s.started[a] < i {
      assert s.started[a] in s.started;
    }
    assert forall k :: k in s.started + [i] <==> k in s.started || k == i;
  }

  lemma AdvanceKeepsInv<I, O>(s: Pool<O>, w: nat, values: seq<Option<I>>, mapper: (I, nat) -> O)
    requires Inv(s, values, mapper) && w < |s.workers| && s.workers[w].Ready?
    ensures Inv(Advance(s, w, values), values, mapper)
  {
    var t, next := Advance(s, w, values), NextDefined(values, s.cursor);
    AdvanceKeepsStarted(s, w, values);
    assert next !in s.started;
    forall i: nat | i in t.started && i < |values| && t.results[i].None? ensures IsHeld(t, i) {
      if i in s.started {
        assert IsHeld(s, i);
        var v :| 0 <= v < |s.workers| && Owns(s.workers[v], i);
        assert Owns(t.workers[v], i);
      } else {
        assert Owns(t.workers[w], i);
      }
    }
  }

  /** The state between storing a result and going on. */
  function Stored<I, O>(s: Pool<O>, w: nat, values: seq<Option<I>>, mapper: (I, nat) -> O): Pool<O>
    requires Enabled(s, Settle(w), values)
  {
    var i := s.workers[w].index;
    s.(results := s.results[i := Some(mapper(values[i].value, i))], workers := s.workers[w := Ready])
  }

  lemma StoreKeepsInv<I, O>(s: Pool<O>, w: nat, values: seq<Option<I>>, mapper: (I, nat) -> O)
    requires Inv(s, values, mapper) && Enabled(s, Settle(w), values)
    ensures Inv(Stored(s, w, values, mapper), values, mapper)
  {
    var t, index := Stored(s, w, values, mapper), s.workers[w].index;
    assert Owns(s.workers[w], index);
    forall i: nat | i in t.started && i < |values| && t.results[i].None? ensures IsHeld(t, i) {
      assert IsHeld(s, i);
      var v :| 0 <= v < |s.workers| && Owns(s.workers[v], i);
      assert Owns(t.workers[v], i);
    }
  }

  lemma RejectKeepsInv<I, O>(s: Pool<O>, w: nat, values: seq<Option<I>>, mapper: (I, nat) -> O)
    requires Inv(s, values, mapper) && Enabled(s, Reject(w), values)
    ensures Inv(Next(s, Reject(w), values, mapper), values, mapper)
  {
    var t := Next(s, Reject(w), values, mapper);
    assert forall v, i :: 0 <= v < |s.workers| ==> (Owns(t.workers[v], i) <==> Owns(s.workers[v], i));
    forall i: nat | i in t.started && i < |values| && t.results[i].None? ensures IsHeld(t, i) {
      assert IsHeld(s, i);
      var v :| 0 <= v < |s.workers| && Owns(s.workers[v], i);
      assert Owns(t.workers[v], i);
    }
  }

  lemma StepKeepsInv<I, O>(s: Pool<O>, step: Step, values: seq<Option<I>>, mapper: (I, nat) -> O)
    requires Inv(s, values, mapper) && Enabled(s, step, values)
    ensures Inv(Next(s, step, values, mapper), values, mapper)
    ensures |Next(s, step, values, mapper).workers| == |s.workers|
  {
    match step
    case Start(w) => AdvanceKeepsInv(s, w, values, mapper);
    case Settle(w) =>
      StoreKeepsInv(s, w, values, mapper);
      AdvanceKeepsInv(Stored(s, w, values, mapper), w, values, mapper);
      assert Next(s, step, values, mapper) == Advance(Stored(s, w, values, mapper), w, values);
    case Reject(w) => RejectKeepsInv(s, w, values, mapper);
  }

  lemma {:induction false} RunInv<I, O>(
    states: seq<Pool<O>>, steps: seq<Step>, values: seq<Option<I>>, limit: nat, mapper: (I, nat) -> O, i: nat)
    requires Run(states, steps, values, limit, mapper) && i < |states|
    ensures Inv(states[i], values, mapper) && |states[i].workers| == Min(limit, |values|)
  {
    if i > 0 {
      RunInv(states, steps, values, limit, mapper, i - 1);
      assert Enabled(states[i - 1], steps[i - 1], values);
      StepKeepsInv(states[i - 1], steps[i - 1], values, mapper);
    }
  }

  // ---- what holds of every interleaving ----

  /** The workers whose mapper call has not settled. */
  function InFlight(workers: seq<Phase>): set<nat> {
    set w: nat | w < |workers| && workers[w].Running?
  }

  lemma {:induction false} RangeSize(s: set<nat>, n: nat)
    requires forall x :: x in s ==> x < n
    ensures |s| <= n
  {
    if n > 0 {
      RangeSize(s - {n - 1}, n - 1);
    } else {
      assert s == {};
    }
  }

  /**
   * In every interleaving the mapper is called on each index at most once and only on defined values, in index
   * order; a called index is with exactly one worker until its result is stored; and at most min(limit, n) calls are
   * in flight.
   */
  lemma CalledOnce<I, O>(
    states: seq<Pool<O>>, steps: seq<Step>, values: seq<Option<I>>, limit: nat, mapper: (I, nat) -> O, k: nat)
    requires Run(states, steps, values, limit, mapper) && k < |states|
    ensures var s := states[k];
            && (forall a, b :: 0 <= a < b < |s.started| ==> s.started[a] < s.started[b])
            && (forall i :: i in s.started <==> 0 <= i < s.cursor <= |values| && values[i].Some?)
            && |s.results| == |values|
            && (forall i: nat :: i in s.started && i < |values| && s.results[i].None? ==> IsHeld(s, i))
            && (forall v, w, i ::
                  0 <= v < |s.workers| && 0 <= w < |s.workers| && Owns(s.workers[v], i) && Owns(s.workers[w], i) ==>
                    v == w)
            && |set w: nat | w < |s.workers| && s.workers[w].Running?| <= Min(limit, |values|)
  {
    RunInv(states, steps, values, limit, mapper, k);
    RangeSize(InFlight(states[k].workers), |states[k].workers|);
  }

  /** A finished worker has seen the cursor at the end, and the cursor never moves back. */
  ghost predicate EndSeen<I, O>(s: Pool<O>, values: seq<Option<I>>) {
    forall w :: 0 <= w < |s.workers| && s.workers[w].Finished? ==> s.cursor == |values|
  }

  lemma {:induction false} RunEndSeen<I, O>(
    states: seq<Pool<O>>, steps: seq<Step>, values: seq<Option<I>>, limit: nat, mapper: (I, nat) -> O, i: nat)
    requires Run(states, steps, values, limit, mapper) && i < |states|
    ensures EndSeen(states[i], values)
  {
    if i > 0 {
      RunEndSeen(states, steps, values, limit, mapper, i - 1);
      assert Enabled(states[i - 1], steps[i - 1], values);
    }
  }

  /** `Promise.all` resolves: every worker has finished. */
  predicate Resolved<O>(s: Pool<O>) {
    forall w :: 0 <= w < |s.workers| ==> s.workers[w].Finished?
  }

  /** When all workers have finished, every place holds the mapper's value of that place, or nothing if it had none. */
  lemma MapsEveryValue<I, O>(
    states: seq<Pool<O>>, steps: seq<Step>, values: seq<Option<I>>, limit: nat, mapper: (I, nat) -> O, k: nat,
    i: nat)
    requires Run(states, steps, values, limit, mapper) && limit > 0
    requires k < |states| && Resolved(states[k]) && i < |values|
    ensures |states[k].results| == |values|
    ensures states[k].results[i] == match values[i] case None => None case Some(v) => Some(mapper(v, i))
  {
    RunInv(states, steps, values, limit, mapper, k);
    RunEndSeen(states, steps, values, limit, mapper, k);
    var s := states[k];
    assert s.workers[0].Finished?;
    if values[i].Some? {
      assert i in s.started;
      assert !IsHeld(s, i);
    }
  }

  // ---- every run ends ----

  function Count(workers: seq<Phase>, p: Phase -> bool): nat {
    if workers == [] then 0 else Count(workers[..|workers| - 1], p) + if p(workers[|workers| - 1]) then 1 else 0
  }

  lemma {:induction false} UpdateCount(workers: seq<Phase>, w: nat, x: Phase, p: Phase -> bool)
    requires w < |workers|
    ensures Count(workers[w := x], p) == Count(workers, p) - (if p(workers[w]) then 1 else 0) + if p(x) then 1 else 0
  {
    var n := |workers| - 1;
    if w < n {
      assert workers[w := x][..n] == workers[..n][w := x];
      UpdateCount(workers[..n], w, x, p);
    } else {
      assert workers[w := x][..n] == workers[..n];
    }
  }

  /**
   * What remains to be done: two for a value not yet called, two for a worker not yet started, one for a call in
   * flight.
   */
  function Remaining<I, O>(s: Pool<O>, values: seq<Option<I>>): int {
    2 * (|values| - s.cursor) + 2 * Count(s.workers, (p: Phase) => p.Ready?)
      + Count(s.workers, (p: Phase) => p.Running?)
  }

  /** Every step brings the pool closer to its end, so every run is finite. */
  lemma StepsRunOut<I, O>(s: Pool<O>, step: Step, values: seq<Option<I>>, mapper: (I, nat) -> O)
    requires Enabled(s, step, values)
    ensures 0 <= Remaining(Next(s, step, values, mapper), values) < Remaining(s, values)
  {
    var t := Next(s, step, values, mapper);
    UpdateCount(s.workers, step.w, t.workers[step.w], (p: Phase) => p.Ready?);
    UpdateCount(s.workers, step.w, t.workers[step.w], (p: Phase) => p.Running?);
  }

  /** And it ends only when every worker has finished or been rejected. */
  lemma NoWorkerStuck<I, O>(
    states: seq<Pool<O>>, steps: seq<Step>, values: seq<Option<I>>, limit: nat, mapper: (I, nat) -> O, k: nat,
    w: nat)
    requires Run(states, steps, values, limit, mapper) && k < |states|
    requires w < |states[k].workers| && (states[k].workers[w].Ready? || states[k].workers[w].Running?)
    ensures Enabled(states[k], if states[k].workers[w].Ready? then Start(w) else Settle(w), values)
  {
    RunInv(states, steps, values, limit, mapper, k);
    var s := states[k];
    if s.workers[w].Running? {
      assert Owns(s.workers[w], s.workers[w].index);
      assert s.workers[w].index in s.started;
    }
  }

  // ---- what the caller sees ----

  /** What the promise of `Promise.all` has come to; once settled it stays. */
  datatype Answer = Waiting | Fulfilled | RejectedWith(index: nat)

  ghost function Seen<I, O>(
    states: seq<Pool<O>>, steps: seq<Step>, values: seq<Option<I>>, limit: nat, mapper: (I, nat) -> O, k: nat): Answer
    requires Run(states, steps, values, limit, mapper) && k < |states|
  {
    if k == 0 then if Resolved(states[0]) then Fulfilled else Waiting
    else
      var before, step := Seen(states, steps, values, limit, mapper, k - 1), steps[k - 1];
      if !before.Waiting? then before
      else if step.Reject? then
        assert Enabled(states[k - 1], step, values);
        RejectedWith(states[k - 1].workers[step.w].index)
      else if Resolved(states[k]) then Fulfilled
      else Waiting
  }

  /** No mapper call rejects in the first k steps. */
  predicate NoneRejects(steps: seq<Step>, k: nat)
    requires k <= |steps|
  {
    forall m :: 0 <= m < k ==> !steps[m].Reject?
  }

  /** Step j is the first rejection, and its mapper call was on index i. */
  predicate RejectsFirst<O>(states: seq<Pool<O>>, steps: seq<Step>, j: nat, i: nat) {
    && j < |steps| && j < |states| && NoneRejects(steps, j) && steps[j].Reject?
    && steps[j].w < |states[j].workers| && states[j].workers[steps[j].w] == Running(i)
  }

  predicate SomeRejected<O>(s: Pool<O>) {
    exists w :: 0 <= w < |s.workers| && s.workers[w].Rejected?
  }

  /** A worker is rejected by its own rejecting call only, and stays so. */
  lemma StepRejects<I, O>(s: Pool<O>, step: Step, values: seq<Option<I>>, mapper: (I, nat) -> O)
    requires Enabled(s, step, values)
    ensures SomeRejected(Next(s, step, values, mapper)) <==> SomeRejected(s) || step.Reject?
  {
    var t := Next(s, step, values, mapper);
    if SomeRejected(s) {
      var w :| 0 <= w < |s.workers| && s.workers[w].Rejected?;
      assert t.workers[w].Rejected?;
    } else if step.Reject? {
      assert t.workers[step.w].Rejected?;
    }
  }

  lemma ResolvedIsIdle<I, O>(s: Pool<O>, step: Step, values: seq<Option<I>>)
    requires Enabled(s, step, values)
    ensures !Resolved(s)
  {
    assert !s.workers[step.w].Finished?;
  }

  /** The promise is fulfilled exactly when all workers have finished, and rejected exactly when one was. */
  lemma {:induction false} SeenIsState<I, O>(
    states: seq<Pool<O>>, steps: seq<Step>, values: seq<Option<I>>, limit: nat, mapper: (I, nat) -> O, k: nat)
    requires Run(states, steps, values, limit, mapper) && k < |states|
    ensures var seen := Seen(states, steps, values, limit, mapper, k);
            (seen.Fulfilled? <==> Resolved(states[k])) && (seen.RejectedWith? <==> SomeRejected(states[k]))
  {
    if k > 0 {
      SeenIsState(states, steps, values, limit, mapper, k - 1);
      assert Enabled(states[k - 1], steps[k - 1], values);
      ResolvedIsIdle(states[k - 1], steps[k - 1], values);
      StepRejects(states[k - 1], steps[k - 1], values, mapper);
    }
  }

  lemma {:induction false} SeenIsFirst<I, O>(
    states: seq<Pool<O>>, steps: seq<Step>, values: seq<Option<I>>, limit: nat, mapper: (I, nat) -> O, k: nat)
    requires Run(states, steps, values, limit, mapper) && k < |states|
    ensures var seen := Seen(states, steps, values, limit, mapper, k);
            if seen.RejectedWith? then exists j :: 0 <= j < k && RejectsFirst(states, steps, j, seen.index)
            else NoneRejects(steps, k)
  {
    if k > 0 {
      SeenIsFirst(states, steps, values, limit, mapper, k - 1);
      SeenIsState(states, steps, values, limit, mapper, k - 1);
      var s, step := states[k - 1], steps[k - 1];
      assert Enabled(s, step, values);
      ResolvedIsIdle(s, step, values);
      if Seen(states, steps, values, limit, mapper, k - 1).Waiting? && step.Reject? {
        assert RejectsFirst(states, steps, k - 1, s.workers[step.w].index);
      }
    }
  }

  /** No segment is left to run. */
  ghost predicate Ended<I, O>(s: Pool<O>, values: seq<Option<I>>) {
    forall step :: !Enabled(s, step, values)
  }

  lemma EndedPhases<I, O>(
    states: seq<Pool<O>>, steps: seq<Step>, values: seq<Option<I>>, limit: nat, mapper: (I, nat) -> O, k: nat)
    requires Run(states, steps, values, limit, mapper) && k < |states| && Ended(states[k], values)
    ensures forall w :: 0 <= w < |states[k].workers| ==>
              states[k].workers[w].Finished? || states[k].workers[w].Rejected?
  {
    var s := states[k];
    forall w | 0 <= w < |s.workers| ensures s.workers[w].Finished? || s.workers[w].Rejected? {
      if s.workers[w].Ready? || s.workers[w].Running? {
        NoWorkerStuck(states, steps, values, limit, mapper, k, w);
      }
    }
  }

  predicate RejectedAt<O>(s: Pool<O>, i: nat) {
    exists w :: 0 <= w < |s.workers| && s.workers[w] == Rejected(i)
  }

  lemma EndedResults<I, O>(s: Pool<O>, values: seq<Option<I>>, mapper: (I, nat) -> O)
    requires Inv(s, values, mapper)
    requires forall w :: 0 <= w < |s.workers| ==> s.workers[w].Finished? || s.workers[w].Rejected?
    ensures forall i :: 0 <= i < s.cursor && values[i].Some? ==>
              s.results[i] == if RejectedAt(s, i) then None else Some(mapper(values[i].value, i))
  {
    forall i | 0 <= i < s.cursor && values[i].Some?
      ensures s.results[i] == if RejectedAt(s, i) then None else Some(mapper(values[i].value, i))
    {
      assert i in s.started;
      if RejectedAt(s, i) {
        var w :| 0 <= w < |s.workers| && s.workers[w] == Rejected(i);
        assert Owns(s.workers[w], i);
      } else {
        assert !IsHeld(s, i);
      }
    }
  }

  /**
   * How every run ends. The caller has an answer: the results if no mapper call rejected, and otherwise the index that
   * rejected first, whatever rejected or was stored after it. A rejection does not stop the other workers: all values
   * are called unless every worker was rejected, and of the called ones only the rejected are without a result.
   */
  lemma CallerSees<I, O>(
    states: seq<Pool<O>>, steps: seq<Step>, values: seq<Option<I>>, limit: nat, mapper: (I, nat) -> O, k: nat)
    requires Run(states, steps, values, limit, mapper) && limit > 0 && k < |states| && Ended(states[k], values)
    ensures var seen := Seen(states, steps, values, limit, mapper, k);
            && (seen.Fulfilled? <==> NoneRejects(steps, k))
            && (!seen.Fulfilled? ==>
                  seen.RejectedWith? && exists j :: 0 <= j < k && RejectsFirst(states, steps, j, seen.index))
    ensures var s := states[k];
            && |s.results| == |values|
            && (s.cursor == |values| || forall w :: 0 <= w < |s.workers| ==> s.workers[w].Rejected?)
            && (forall i :: 0 <= i < s.cursor <= |values| && values[i].Some? ==>
                  s.results[i] == if RejectedAt(s, i) then None else Some(mapper(values[i].value, i)))
  {
    SeenIsState(states, steps, values, limit, mapper, k);
    SeenIsFirst(states, steps, values, limit, mapper, k);
    EndedPhases(states, steps, values, limit, mapper, k);
    RunInv(states, steps, values, limit, mapper, k);
    RunEndSeen(states, steps, values, limit, mapper, k);
    EndedResults(states[k], values, mapper);
  }
}
