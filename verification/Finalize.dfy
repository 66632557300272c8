/** Batches of a plan and the finalization that pairs each of them with a passed simulation. */
module Finalize {
  import opened Wrappers
  import opened Ordering
  import opened Planner

  // ---- batches ----

  function Concat(batches: seq<Batch>): seq<Entry> {
    if batches == [] then [] else batches[0].entries + Concat(batches[1..])
  }

  function BatchTotal(batches: seq<Batch>): nat {
    if batches == [] then 0 else batches[0].expectedPayout + BatchTotal(batches[1..])
  }

  /** Numbered from `first`, filled up to the maximum except perhaps the last, each with the sum of its payouts. */
  ghost predicate WellBatched(batches: seq<Batch>, maximum: nat, first: nat) {
    forall k :: 0 <= k < |batches| ==>
                  && batches[k].index == first + k
                  && 1 <= |batches[k].entries| <= maximum
                  && (k < |batches| - 1 ==> |batches[k].entries| == maximum)
                  && batches[k].expectedPayout == Payouts(batches[k].entries)
  }

  lemma FirstBatch(batch: Batch, rest: seq<Batch>)
    ensures Concat([batch] + rest) == batch.entries + Concat(rest)
    ensures BatchTotal([batch] + rest) == batch.expectedPayout + BatchTotal(rest)
  {
    var all := [batch] + rest;
    assert all[0] == batch && all[1..] == rest;
  }

  lemma WellBatchedStep(batch: Batch, rest: seq<Batch>, maximum: nat, first: nat)
    requires WellBatched(rest, maximum, first + 1)
    requires batch.index == first && 1 <= |batch.entries| <= maximum && batch.expectedPayout == Payouts(batch.entries)
    requires rest != [] ==> |batch.entries| == maximum
    ensures WellBatched([batch] + rest, maximum, first)
  {
    var all := [batch] + rest;
    assert all[0] == batch;
    assert forall k :: 1 <= k < |all| ==> all[k] == rest[k - 1];
  }

  lemma CutFirst(entries: seq<Entry>, maximum: nat, index: nat) returns (taken: seq<Entry>, left: seq<Entry>)
    requires maximum > 0 && entries != []
    ensures entries == taken + left && 1 <= |taken| <= maximum && (left != [] ==> |taken| == maximum)
    ensures Batches(entries, maximum, index)
            == [Batch(index, taken, Payouts(taken))] + Batches(left, maximum, index + 1)
  {
    var size := if maximum < |entries| then maximum else |entries|;
    taken, left := entries[..size], entries[size..];
  }

  lemma TotalOfParts(taken: seq<Entry>, left: seq<Entry>)
    ensures Payouts(taken + left) == Payouts(taken) + Payouts(left)
  {
    SumConcat(taken, left, (e: Entry) => e.expectedPayout);
  }

  /** Batching keeps every entry once and in order, and conserves the total. */
  lemma {:induction false} BatchesCover(entries: seq<Entry>, maximum: nat, index: nat)
    requires maximum > 0
    ensures var batches := Batches(entries, maximum, index);
            && Concat(batches) == entries
            && WellBatched(batches, maximum, index)
            && BatchTotal(batches) == Payouts(entries)
    decreases |entries|
  {
    if entries != [] {
      var taken, left := CutFirst(entries, maximum, index);
      BatchesCover(left, maximum, index + 1);
      var batch, rest := Batch(index, taken, Payouts(taken)), Batches(left, maximum, index + 1);
      FirstBatch(batch, rest);
      WellBatchedStep(batch, rest, maximum, index);
      TotalOfParts(taken, left);
    }
  }

  // ---- simulations ----

  datatype Simulation =
    | Passed(batchIndex: nat, gasEstimate: nat, verifiedBlock: nat)
    | FailedSim(batchIndex: nat, reason: string, verifiedBlock: nat)

  datatype Plan = Plan(draft: Draft, simulations: seq<Simulation>, integrityHash: string)

  datatype SimulationError = EmptyPlan | WrongCount | Missing(index: nat) | DidNotPass(index: nat) | TooOld(index: nat)

  /** The first simulation of the batch, as `Array.prototype.find` returns it. */
  function Find(simulations: seq<Simulation>, index: nat): (i: nat)
    ensures i <= |simulations|
    ensures i < |simulations| ==> simulations[i].batchIndex == index
    ensures forall k :: 0 <= k < i ==> simulations[k].batchIndex != index
  {
    IndexOf(simulations, (s: Simulation) => s.batchIndex == index)
  }

  function BatchProblem(batch: Batch, simulations: seq<Simulation>, verifiedBlock: nat): Option<SimulationError> {
    var i := Find(simulations, batch.index);
    if i == |simulations| then Some(Missing(batch.index))
    else if !simulations[i].Passed? then Some(DidNotPass(batch.index))
    else if simulations[i].verifiedBlock < verifiedBlock then Some(TooOld(batch.index))
    else None
  }

  /** The problem of the first batch that has one. */
  function FirstProblem(
    batches: seq<Batch>, simulations: seq<Simulation>, verifiedBlock: nat): (problem: Option<SimulationError>)
    ensures problem.None? <==> forall b :: b in batches ==> BatchProblem(b, simulations, verifiedBlock).None?
    ensures problem.Some? ==>
              exists k :: 0 <= k < |batches| && problem == BatchProblem(batches[k], simulations, verifiedBlock)
                          && forall m :: 0 <= m < k ==> BatchProblem(batches[m], simulations, verifiedBlock).None?
  {
    var i := IndexOf(batches, (b: Batch) => BatchProblem(b, simulations, verifiedBlock).Some?);
    if i == |batches| then None else BatchProblem(batches[i], simulations, verifiedBlock)
  }

  /** What `validateSimulations` throws, if anything: the emptiness, the count, then the batches in order. */
  function SimulationsProblem(draft: Draft, simulations: seq<Simulation>): Option<SimulationError> {
    if draft.entries == [] then Some(EmptyPlan)
    else if |simulations| != |draft.batches| then Some(WrongCount)
    else FirstProblem(draft.batches, simulations, draft.verifiedBlock)
  }

  lemma FirstProblemIs(batches: seq<Batch>, simulations: seq<Simulation>, verifiedBlock: nat, k: nat)
    requires k < |batches| && BatchProblem(batches[k], simulations, verifiedBlock).Some?
    requires forall m :: 0 <= m < k ==> BatchProblem(batches[m], simulations, verifiedBlock).None?
    ensures FirstProblem(batches, simulations, verifiedBlock) == BatchProblem(batches[k], simulations, verifiedBlock)
  {
    var p := (b: Batch) => BatchProblem(b, simulations, verifiedBlock).Some?;
    assert p(batches[k]);
    assert IndexOf(batches, p) == k;
  }

  method ValidateSimulations(draft: Draft, simulations: seq<Simulation>) returns (problem: Option<SimulationError>)
    ensures problem == SimulationsProblem(draft, simulations)
  {
    if draft.entries == [] {
      return Some(EmptyPlan);
    }
    if |simulations| != |draft.batches| {
      return Some(WrongCount);
    }
    for k := 0 to |draft.batches|
      invariant forall m :: 0 <= m < k ==> BatchProblem(draft.batches[m], simulations, draft.verifiedBlock).None?
    {
      var batch := draft.batches[k];
      var i := 0;
      while i < |simulations| && simulations[i].batchIndex != batch.index
        invariant i <= |simulations|
        invariant forall m :: 0 <= m < i ==> simulations[m].batchIndex != batch.index
      {
        i := i + 1;
      }
      assert i == Find(simulations, batch.index);
      if i == |simulations| || !simulations[i].Passed? || simulations[i].verifiedBlock < draft.verifiedBlock {
        FirstProblemIs(draft.batches, simulations, draft.verifiedBlock, k);
      }
      if i == |simulations| {
        return Some(Missing(batch.index));
      }
      if !simulations[i].Passed? {
        return Some(DidNotPass(batch.index));
      }
      if simulations[i].verifiedBlock < draft.verifiedBlock {
        return Some(TooOld(batch.index));
      }
    }
    return None;
  }

  predicate SimulationLeq(a: Simulation, b: Simulation) { a.batchIndex <= b.batchIndex }

  /** `digest` is the integrity hash of the draft with its simulations. */
  method FinalizeClaimPlan(draft: Draft, simulations: seq<Simulation>, digest: (Draft, seq<Simulation>) -> string)
    returns (result: Result<Plan, SimulationError>)
    ensures match SimulationsProblem(draft, simulations)
            case Some(problem) => result == Err(problem)
            case None =>
              && result.Ok? && result.value.draft == draft
              && result.value.simulations == SortBy(simulations, SimulationLeq)
              && result.value.integrityHash == digest(draft, result.value.simulations)
  {
    var problem := ValidateSimulations(draft, simulations);
    if problem.Some? {
      return Err(problem.value);
    }
    var sorted := SortBy(simulations, SimulationLeq);
    return Ok(Plan(draft, sorted, digest(draft, sorted)));
  }

  function Indices(simulations: seq<Simulation>): (indices: seq<nat>)
    ensures |indices| == |simulations|
    ensures forall i :: 0 <= i < |simulations| ==> indices[i] == simulations[i].batchIndex
  {
    seq(|simulations|, i requires 0 <= i < |simulations| => simulations[i].batchIndex)
  }

  /** Pigeonhole: n numbers that hit each of 0..n-1 hit each once and nothing else. */
  lemma {:induction false} Pigeonhole(s: seq<nat>)
    requires forall k: nat :: k < |s| ==> k in s
    ensures forall i, j :: 0 <= i < j < |s| ==> s[i] != s[j]
    ensures forall i :: 0 <= i < |s| ==> s[i] < |s|
    decreases |s|
  {
    if s != [] {
      var n := |s| - 1;
      assert n in s;
      var p :| 0 <= p < |s| && s[p] == n;
      var rest := s[..p] + s[p + 1..];
      forall k: nat | k < |rest| ensures k in rest {
        assert k in s;
        var q :| 0 <= q < |s| && s[q] == k;
        assert rest[if q < p then q else q - 1] == k;
      }
      Pigeonhole(rest);
      assert forall i :: 0 <= i < |s| && i != p ==> s[i] == rest[if i < p then i else i - 1];
    }
  }

  /** Each batch has one simulation and no simulation is left over. */
  ghost predicate Paired(simulations: seq<Simulation>, n: nat) {
    && |simulations| == n
    && (forall i, j :: 0 <= i < j < n ==> simulations[i].batchIndex != simulations[j].batchIndex)
    && (forall i :: 0 <= i < n ==> simulations[i].batchIndex < n)
  }

  ghost predicate AllFresh(simulations: seq<Simulation>, verifiedBlock: nat) {
    forall i :: 0 <= i < |simulations| ==> simulations[i].Passed? && simulations[i].verifiedBlock >= verifiedBlock
  }

  ghost predicate Validated(draft: Draft, simulations: seq<Simulation>) {
    |simulations| == |draft.batches|
    && forall b :: b in draft.batches ==> BatchProblem(b, simulations, draft.verifiedBlock).None?
  }

  lemma ValidatedIndices(draft: Draft, simulations: seq<Simulation>)
    requires Validated(draft, simulations)
    requires forall k :: 0 <= k < |draft.batches| ==> draft.batches[k].index == k
    ensures Paired(simulations, |draft.batches|)
  {
    var s := Indices(simulations);
    forall k: nat | k < |s| ensures k in s {
      assert draft.batches[k] in draft.batches;
      assert s[Find(simulations, k)] == k;
    }
    Pigeonhole(s);
    assert forall i :: 0 <= i < |simulations| ==> s[i] == simulations[i].batchIndex;
  }

  lemma ValidatedFresh(draft: Draft, simulations: seq<Simulation>, i: nat)
    requires Validated(draft, simulations) && Paired(simulations, |draft.batches|) && i < |simulations|
    requires forall k :: 0 <= k < |draft.batches| ==> draft.batches[k].index == k
    ensures simulations[i].Passed? && simulations[i].verifiedBlock >= draft.verifiedBlock
  {
    var b := draft.batches[simulations[i].batchIndex];
    assert b in draft.batches;
    assert Find(simulations, b.index) == i;
  }

  /** The other way round: n different numbers below n hit every one of them. */
  lemma {:induction false} DistinctHits(s: seq<nat>, k: nat)
    requires forall i, j :: 0 <= i < j < |s| ==> s[i] != s[j]
    requires forall i :: 0 <= i < |s| ==> s[i] < |s|
    requires k < |s|
    ensures k in s
    decreases |s|
  {
    var n := |s| - 1;
    if n in s {
      var p :| 0 <= p < |s| && s[p] == n;
      var rest := s[..p] + s[p + 1..];
      assert forall i :: 0 <= i < |rest| ==> rest[i] == s[if i < p then i else i + 1];
      if k < n {
        DistinctHits(rest, k);
        var q :| 0 <= q < |rest| && rest[q] == k;
        assert s[if q < p then q else q + 1] == k;
      }
    } else {
      var front := s[..n];
      assert forall i :: 0 <= i < |s| ==> s[i] in s;
      DistinctHits(front, s[n]);
    }
  }

  lemma PairedHits(simulations: seq<Simulation>, n: nat, k: nat)
    requires Paired(simulations, n) && k < n
    ensures Find(simulations, k) < n
  {
    DistinctHits(Indices(simulations), k);
  }

  /** The batches of a prepared plan split its entries in order and its expected payout exactly. */
  lemma BatchesOfPlan(input: Input, draft: Draft)
    requires PlanOf(input) == Ok(draft)
    ensures input.batchPolicy.maxEntries > 0 && WellBatched(draft.batches, input.batchPolicy.maxEntries, 0)
    ensures Concat(draft.batches) == draft.entries && BatchTotal(draft.batches) == draft.expectedPayout
  {
    BatchesCover(draft.entries, input.batchPolicy.maxEntries, 0);
  }

  /**
   * The length test and the `find` together are an exact pairing: a prepared plan with entries finalizes if and
   * only if the simulations are in bijection with its batches, all passed, and none is older than the plan.
   */
  lemma FinalizesExactly(input: Input, draft: Draft, simulations: seq<Simulation>)
    requires PlanOf(input) == Ok(draft)
    ensures SimulationsProblem(draft, simulations).None? <==>
            && draft.entries != []
            && Paired(simulations, |draft.batches|) && AllFresh(simulations, draft.verifiedBlock)
  {
    assert SimulationsProblem(draft, simulations).None? <==> draft.entries != [] && Validated(draft, simulations);
    BatchesOfPlan(input, draft);
    PairingIsExact(draft, simulations);
  }

  lemma PairingIsExact(draft: Draft, simulations: seq<Simulation>)
    requires forall k :: 0 <= k < |draft.batches| ==> draft.batches[k].index == k
    ensures Validated(draft, simulations) <==>
            Paired(simulations, |draft.batches|) && AllFresh(simulations, draft.verifiedBlock)
  {
    if Validated(draft, simulations) {
      ValidatedIndices(draft, simulations);
      forall i | 0 <= i < |simulations|
        ensures simulations[i].Passed? && simulations[i].verifiedBlock >= draft.verifiedBlock
      {
        ValidatedFresh(draft, simulations, i);
      }
    }
    if Paired(simulations, |draft.batches|) && AllFresh(simulations, draft.verifiedBlock) {
      forall b | b in draft.batches ensures BatchProblem(b, simulations, draft.verifiedBlock).None? {
        var k :| 0 <= k < |draft.batches| && draft.batches[k] == b;
        PairedHits(simulations, |draft.batches|, k);
      }
    }
  }

  /** In the finalized plan simulation k is the simulation of batch k. */
  lemma SimulationsLineUp(simulations: seq<Simulation>, n: nat, k: nat)
    requires Paired(simulations, n) && k < n
    ensures |SortBy(simulations, SimulationLeq)| == n && SortBy(simulations, SimulationLeq)[k].batchIndex == k
  {
    var sorted := SortBy(simulations, SimulationLeq);
    SortMultiset(simulations, SimulationLeq);
    SortSorted(simulations, SimulationLeq);
    var s := Indices(sorted);
    forall m: nat | m < n ensures m in s {
      PairedHits(simulations, n, m);
      SortContains(simulations, SimulationLeq, simulations[Find(simulations, m)]);
      var i :| 0 <= i < n && sorted[i] == simulations[Find(simulations, m)];
      assert s[i] == m;
    }
    Pigeonhole(s);
    AscendingIsIdentity(s, k);
  }

  lemma {:induction false} AscendingIsIdentity(s: seq<nat>, k: nat)
    requires k < |s| && forall i, j :: 0 <= i <= j < |s| ==> s[i] <= s[j]
    requires forall m: nat :: m < |s| ==> m in s
    requires forall i, j :: 0 <= i < j < |s| ==> s[i] != s[j]
    requires forall i :: 0 <= i < |s| ==> s[i] < |s|
    ensures s[k] == k
    decreases |s| - k
  {
    AtLeast(s, k);
    if k == |s| - 1 {
      assert s[k] <= |s| - 1;
    } else {
      AscendingIsIdentity(s, k + 1);
      assert s[k] != s[k + 1];
    }
  }

  lemma {:induction false} AtLeast(s: seq<nat>, k: nat)
    requires k < |s| && forall i, j :: 0 <= i <= j < |s| ==> s[i] <= s[j]
    requires forall i, j :: 0 <= i < j < |s| ==> s[i] != s[j]
    ensures s[k] >= k
  {
    if k > 0 {
      AtLeast(s, k - 1);
      assert s[k - 1] <= s[k] && s[k - 1] != s[k];
    }
  }
}
