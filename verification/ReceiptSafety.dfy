/** What a confirmed reconciliation proves about the chain, and when the greedy matcher can be trusted. */
module ReceiptSafety {
  import opened Wrappers
  import opened Ordering
  import opened Planner
  import opened PlanSafety
  import opened Receipts

  /** Every entry has its own log, with the entry's market, outcome, recipient, amount and payout. */
  ghost predicate Injects(
    matched: seq<Redeemed>, entries: seq<Entry>, logs: seq<Redeemed>, draft: Draft, marketKey: nat -> nat) {
    && |matched| == |entries|
    && (forall i :: 0 <= i < |matched| ==>
          matched[i] in logs && Names(matched[i], entries[i], draft, marketKey) && Agrees(matched[i], entries[i]))
    && (forall i, j :: 0 <= i < j < |matched| ==> matched[i].logIndex != matched[j].logIndex)
  }

  /** A match extends the match of all but the last entry by one unused log. */
  lemma MatchLast(entries: seq<Entry>, logs: seq<Redeemed>, draft: Draft, marketKey: nat -> nat)
    requires entries != []
    ensures var n := |entries| - 1;
            var front := Match(entries[..n], logs, draft, marketKey);
            var all := Match(entries, logs, draft, marketKey);
            && (front.Err? ==> all.Err?)
            && (front.Ok? ==>
                  var i := FirstMatch(logs, Used(front.value), entries[n], draft, marketKey);
                  && (all.Ok? <==> i < |logs| && Agrees(logs[i], entries[n]))
                  && (all.Ok? ==> all.value == front.value + [logs[i]]))
  {}

  lemma InjectsOneMore(
    matched: seq<Redeemed>, log: Redeemed, entries: seq<Entry>, logs: seq<Redeemed>, draft: Draft,
    marketKey: nat -> nat)
    requires entries != [] && Injects(matched, entries[..|entries| - 1], logs, draft, marketKey)
    requires log in logs && log.logIndex !in Used(matched)
    requires Names(log, entries[|entries| - 1], draft, marketKey) && Agrees(log, entries[|entries| - 1])
    ensures Injects(matched + [log], entries, logs, draft, marketKey)
  {
    forall k | 0 <= k < |matched| ensures matched[k].logIndex != log.logIndex {
      assert matched[k].logIndex in Used(matched);
    }
    forall k | 0 <= k < |matched|
      ensures matched[k] in logs && Names(matched[k], entries[k], draft, marketKey) && Agrees(matched[k], entries[k])
    {
      assert entries[..|entries| - 1][k] == entries[k];
    }
  }

  /** Soundness: a successful match is an injective map from entries to distinct, agreeing logs. */
  lemma {:induction false} MatchInjects(entries: seq<Entry>, logs: seq<Redeemed>, draft: Draft, marketKey: nat -> nat)
    requires Match(entries, logs, draft, marketKey).Ok?
    ensures Injects(Match(entries, logs, draft, marketKey).value, entries, logs, draft, marketKey)
  {
    if entries != [] {
      var n := |entries| - 1;
      MatchLast(entries, logs, draft, marketKey);
      MatchInjects(entries[..n], logs, draft, marketKey);
      var matched := Match(entries[..n], logs, draft, marketKey).value;
      var i := FirstMatch(logs, Used(matched), entries[n], draft, marketKey);
      InjectsOneMore(matched, logs[i], entries, logs, draft, marketKey);
    }
  }

  /** The collateral a confirmation reports is the payout the plan expected of the batch. */
  lemma {:induction false} MatchedCollateral(entries: seq<Entry>, matched: seq<Redeemed>)
    requires |matched| == |entries| && forall i :: 0 <= i < |entries| ==> Agrees(matched[i], entries[i])
    ensures Sum(ReceiptEntries(entries, matched), ActualCollateral) == Payouts(entries)
  {
    if entries != [] {
      var n := |entries| - 1;
      MatchedCollateral(entries[..n], matched[..n]);
      assert ReceiptEntries(entries, matched)[..n] == ReceiptEntries(entries[..n], matched[..n]);
    }
  }

  /**
   * A confirmed receipt of a batch proves its redemptions one by one and reports exactly the collateral the
   * batch was expected to pay.
   */
  lemma ConfirmedMeansRedeemed(draft: Draft, b: nat, gateway: Gateway, marketKey: nat -> nat)
    requires Verified(draft, b, gateway, marketKey)
    ensures var entries, logs := draft.batches[b].entries, gateway.receipt.value.redemptions;
            var matched := Match(entries, logs, draft, marketKey).value;
            && Injects(matched, entries, logs, draft, marketKey)
            && Sum(ReceiptEntries(entries, matched), ActualCollateral) == Payouts(entries)
  {
    var entries, logs := draft.batches[b].entries, gateway.receipt.value.redemptions;
    MatchInjects(entries, logs, draft, marketKey);
    MatchedCollateral(entries, Match(entries, logs, draft, marketKey).value);
  }

  // ---- log order ----

  /** At most one log names the entry. */
  ghost predicate OneLog(logs: seq<Redeemed>, e: Entry, draft: Draft, marketKey: nat -> nat) {
    forall l, k :: l in logs && k in logs && Names(l, e, draft, marketKey) && Names(k, e, draft, marketKey) ==> l == k
  }

  lemma SameFirst(
    logs: seq<Redeemed>, other: seq<Redeemed>, used: set<nat>, e: Entry, draft: Draft, marketKey: nat -> nat)
    requires forall l :: l in logs <==> l in other
    requires OneLog(logs, e, draft, marketKey)
    ensures var i, j := FirstMatch(logs, used, e, draft, marketKey), FirstMatch(other, used, e, draft, marketKey);
            (i == |logs| <==> j == |other|) && (i < |logs| ==> logs[i] == other[j])
  {
    var i, j := FirstMatch(logs, used, e, draft, marketKey), FirstMatch(other, used, e, draft, marketKey);
    if j < |other| {
      assert other[j] in logs;
      var k :| 0 <= k < |logs| && logs[k] == other[j];
      assert i <= k;
    }
    if i < |logs| {
      assert logs[i] in other;
      var k :| 0 <= k < |other| && other[k] == logs[i];
      assert j <= k;
      assert other[j] in logs;
    }
  }

  /** With one log per entry the verdict does not depend on the order, or repetition, of the logs. */
  lemma {:induction false} LogOrderIsIrrelevant(
    entries: seq<Entry>, logs: seq<Redeemed>, other: seq<Redeemed>, draft: Draft, marketKey: nat -> nat)
    requires forall l :: l in logs <==> l in other
    requires forall e :: e in entries ==> OneLog(logs, e, draft, marketKey)
    ensures Match(entries, other, draft, marketKey) == Match(entries, logs, draft, marketKey)
  {
    if entries != [] {
      var n := |entries| - 1;
      assert forall e :: e in entries[..n] ==> e in entries;
      LogOrderIsIrrelevant(entries[..n], logs, other, draft, marketKey);
      if Match(entries[..n], logs, draft, marketKey).Ok? {
        assert entries[n] in entries;
        SameFirst(logs, other, Used(Match(entries[..n], logs, draft, marketKey).value), entries[n], draft, marketKey);
      }
    }
  }

  // ---- exactly when the greedy match succeeds ----

  /** No two entries share market key and outcome. */
  ghost predicate DistinctKeys(entries: seq<Entry>, marketKey: nat -> nat) {
    forall i, j :: 0 <= i < j < |entries| ==>
                     !(marketKey(entries[i].tokenId) == marketKey(entries[j].tokenId)
                       && entries[i].outcomeIndex == entries[j].outcomeIndex)
  }

  /** Log indices identify logs. */
  ghost predicate DistinctLogs(logs: seq<Redeemed>) {
    forall l, k :: l in logs && k in logs && l.logIndex == k.logIndex ==> l == k
  }

  /** The first log that names the entry, whatever was matched before, agrees with it. */
  predicate FirstAgrees(e: Entry, logs: seq<Redeemed>, draft: Draft, marketKey: nat -> nat) {
    var i := FirstMatch(logs, {}, e, draft, marketKey);
    i < |logs| && Agrees(logs[i], e)
  }

  /** Every entry's first log agrees with it. */
  ghost predicate AllFirstAgree(entries: seq<Entry>, logs: seq<Redeemed>, draft: Draft, marketKey: nat -> nat) {
    forall i :: 0 <= i < |entries| ==> FirstAgrees(entries[i], logs, draft, marketKey)
  }

  lemma AllButLast(entries: seq<Entry>, logs: seq<Redeemed>, draft: Draft, marketKey: nat -> nat)
    requires entries != []
    ensures var n := |entries| - 1;
            AllFirstAgree(entries, logs, draft, marketKey)
            <==> AllFirstAgree(entries[..n], logs, draft, marketKey) && FirstAgrees(entries[n], logs, draft, marketKey)
  {
    var n := |entries| - 1;
    if AllFirstAgree(entries[..n], logs, draft, marketKey) {
      assert forall i :: 0 <= i < n ==> FirstAgrees(entries[..n][i], logs, draft, marketKey);
    }
  }

  lemma UsedElsewhere(
    entries: seq<Entry>, n: nat, matched: seq<Redeemed>, logs: seq<Redeemed>, draft: Draft, marketKey: nat -> nat)
    requires n < |entries| && DistinctKeys(entries, marketKey) && DistinctLogs(logs)
    requires Injects(matched, entries[..n], logs, draft, marketKey)
    ensures FirstMatch(logs, Used(matched), entries[n], draft, marketKey)
            == FirstMatch(logs, {}, entries[n], draft, marketKey)
  {
    forall k, m | 0 <= k < |logs| && Names(logs[k], entries[n], draft, marketKey) && 0 <= m < |matched|
      ensures matched[m].logIndex != logs[k].logIndex
    {
      assert entries[..n][m] == entries[m];
      assert Names(matched[m], entries[m], draft, marketKey);
      assert matched[m] in logs && logs[k] in logs;
    }
    FirstUnused(logs, Used(matched), entries[n], draft, marketKey);
  }

  /** Skipping used logs makes no difference when none of them names the entry. */
  lemma FirstUnused(logs: seq<Redeemed>, used: set<nat>, e: Entry, draft: Draft, marketKey: nat -> nat)
    requires forall k :: 0 <= k < |logs| && Names(logs[k], e, draft, marketKey) ==> logs[k].logIndex !in used
    ensures FirstMatch(logs, used, e, draft, marketKey) == FirstMatch(logs, {}, e, draft, marketKey)
  {
    var i, j := FirstMatch(logs, used, e, draft, marketKey), FirstMatch(logs, {}, e, draft, marketKey);
    assert i < |logs| ==> Names(logs[i], e, draft, marketKey);
    assert j < |logs| ==> Names(logs[j], e, draft, marketKey);
  }

  /**
   * On a batch with one entry per market and outcome, as the planner builds them, the greedy matcher accepts
   * exactly when the first log naming each entry carries that entry's amount and payout.
   */
  lemma {:induction false} GreedyIsExact(entries: seq<Entry>, logs: seq<Redeemed>, draft: Draft, marketKey: nat -> nat)
    requires DistinctKeys(entries, marketKey) && DistinctLogs(logs)
    ensures Match(entries, logs, draft, marketKey).Ok? <==> AllFirstAgree(entries, logs, draft, marketKey)
  {
    if entries != [] {
      var n := |entries| - 1;
      AllButLast(entries, logs, draft, marketKey);
      MatchLast(entries, logs, draft, marketKey);
      GreedyIsExact(entries[..n], logs, draft, marketKey);
      if Match(entries[..n], logs, draft, marketKey).Ok? {
        MatchInjects(entries[..n], logs, draft, marketKey);
        UsedElsewhere(entries, n, Match(entries[..n], logs, draft, marketKey).value, logs, draft, marketKey);
      }
    }
  }

  /**
   * The matcher is not complete: with two logs of one key, a wrong one listed first makes it fail although an
   * agreeing log exists.
   */
  lemma GreedyIsNotComplete(e: Entry, draft: Draft, marketKey: nat -> nat, wrong: Redeemed, right: Redeemed)
    requires Names(wrong, e, draft, marketKey) && Names(right, e, draft, marketKey)
    requires wrong.logIndex != right.logIndex && !Agrees(wrong, e) && Agrees(right, e)
    ensures Match([e], [wrong, right], draft, marketKey).Err?
    ensures Match([e], [right, wrong], draft, marketKey).Ok?
  {
    assert [e][..0] == [];
    assert Match([], [wrong, right], draft, marketKey) == Ok([]);
    assert Match([], [right, wrong], draft, marketKey) == Ok([]);
    assert Used([]) == {};
    assert FirstMatch([wrong, right], {}, e, draft, marketKey) == 0;
    assert FirstMatch([right, wrong], {}, e, draft, marketKey) == 0;
  }

  // ---- planner-built batches ----

  /** Token ids of one market key belong to one market. */
  ghost predicate KeysAreMarkets(entries: seq<Entry>, marketKey: nat -> nat) {
    forall d, e :: d in entries && e in entries && marketKey(d.tokenId) == marketKey(e.tokenId) ==>
      d.marketId == e.marketId
  }

  lemma {:induction false} BatchEntriesIn(batches: seq<Batch>, b: nat)
    requires b < |batches|
    ensures forall e :: e in batches[b].entries ==> e in F.Concat(batches)
    ensures forall market :: MarketPayouts(batches[b].entries, market) <= MarketPayouts(F.Concat(batches), market)
  {
    forall market ensures MarketPayouts(batches[b].entries, market) <= MarketPayouts(F.Concat(batches), market) {
      SumConcat(batches[0].entries, F.Concat(batches[1..]), PayoutIn(market));
      if b > 0 {
        BatchEntriesIn(batches[1..], b - 1);
        assert batches[1..][b - 1] == batches[b];
      }
    }
    if b > 0 {
      BatchEntriesIn(batches[1..], b - 1);
      assert batches[1..][b - 1] == batches[b];
    }
  }

  lemma {:induction false} PaidWithinMarket(
    entries: seq<Entry>, matched: seq<Redeemed>, key: nat, market: string, marketKey: nat -> nat)
    requires |matched| == |entries| && forall i :: 0 <= i < |entries| ==> Agrees(matched[i], entries[i])
    requires forall e :: e in entries && marketKey(e.tokenId) == key ==> e.marketId == market
    ensures Paid(ReceiptEntries(entries, matched), key, marketKey) <= MarketPayouts(entries, market)
  {
    if entries != [] {
      var n := |entries| - 1;
      assert forall e :: e in entries[..n] ==> e in entries;
      PaidWithinMarket(entries[..n], matched[..n], key, market, marketKey);
      assert ReceiptEntries(entries, matched)[..n] == ReceiptEntries(entries[..n], matched[..n]);
      assert entries[n] in entries;
    }
  }

  /**
   * For a plan from the planner the two subtractions of the post-state check never go below zero: no expected
   * balance and no maximum backing is negative.
   */
  lemma NoNegativePostState(
    input: Input, draft: Draft, b: nat, matched: seq<Redeemed>, logs: seq<Redeemed>, i: nat, marketKey: nat -> nat)
    requires PlanOf(input) == Ok(draft) && b < |draft.batches| && KeysAreMarkets(draft.entries, marketKey)
    requires Injects(matched, draft.batches[b].entries, logs, draft, marketKey) && i < |draft.batches[b].entries|
    ensures var entries := draft.batches[b].entries;
            var e := entries[i];
            && e.verifiedBalance - e.amount >= 0
            && e.settlementBacking - Paid(ReceiptEntries(entries, matched), marketKey(e.tokenId), marketKey) >= 0
  {
    PlanIsSafe(input, draft);
    F.BatchesOfPlan(input, draft);
    BatchEntriesIn(draft.batches, b);
    var entries := draft.batches[b].entries;
    var e := entries[i];
    assert e in entries && e in draft.entries;
    PaidWithinMarket(entries, matched, marketKey(e.tokenId), e.marketId, marketKey);
  }

  /** Where a batch's entries stand in the whole. */
  lemma {:induction false} BatchIsSlice(batches: seq<Batch>, b: nat) returns (offset: nat)
    requires b < |batches|
    ensures offset + |batches[b].entries| <= |F.Concat(batches)|
    ensures F.Concat(batches)[offset..offset + |batches[b].entries|] == batches[b].entries
  {
    if b == 0 {
      offset := 0;
    } else {
      offset := BatchIsSlice(batches[1..], b - 1);
      assert batches[1..][b - 1] == batches[b];
      var first, rest := batches[0].entries, F.Concat(batches[1..]);
      assert (first + rest)[|first| + offset..|first| + offset + |batches[b].entries|]
             == rest[offset..offset + |batches[b].entries|];
      offset := |first| + offset;
    }
  }

  /** Market and outcome identify an entry. */
  ghost predicate DistinctOutcomes(entries: seq<Entry>) {
    forall i, j :: 0 <= i < j < |entries| && entries[i].marketId == entries[j].marketId ==>
                     entries[i].outcomeIndex != entries[j].outcomeIndex
  }

  lemma PlannedOutcomesDistinct(input: Input, draft: Draft)
    requires PlanOf(input) == Ok(draft)
    ensures DistinctOutcomes(draft.entries)
  {
    forall i, j | 0 <= i < j < |draft.entries| && draft.entries[i].marketId == draft.entries[j].marketId
      ensures draft.entries[i].outcomeIndex != draft.entries[j].outcomeIndex
    {
      if draft.entries[i].outcomeIndex == draft.entries[j].outcomeIndex {
        EntryKey(input, draft, i, j);
      }
    }
  }

  lemma SliceKeysDistinct(all: seq<Entry>, entries: seq<Entry>, offset: nat, marketKey: nat -> nat)
    requires offset + |entries| <= |all| && all[offset..offset + |entries|] == entries
    requires DistinctOutcomes(all) && KeysAreMarkets(all, marketKey)
    ensures DistinctKeys(entries, marketKey)
  {
    forall i, j | 0 <= i < j < |entries| && marketKey(entries[i].tokenId) == marketKey(entries[j].tokenId)
      ensures entries[i].outcomeIndex != entries[j].outcomeIndex
    {
      assert entries[i] == all[offset + i] && entries[j] == all[offset + j];
      assert entries[i] in all && entries[j] in all;
    }
  }

  lemma BatchKeysDistinct(all: seq<Entry>, batches: seq<Batch>, b: nat, marketKey: nat -> nat)
    requires F.Concat(batches) == all && b < |batches|
    requires DistinctOutcomes(all) && KeysAreMarkets(all, marketKey)
    ensures DistinctKeys(batches[b].entries, marketKey)
  {
    var offset := BatchIsSlice(batches, b);
    SliceKeysDistinct(all, batches[b].entries, offset, marketKey);
  }

  /** The planner never puts two entries of one market and outcome in a batch, as exact matching needs. */
  lemma PlannedKeysDistinct(input: Input, draft: Draft, b: nat, marketKey: nat -> nat)
    requires PlanOf(input) == Ok(draft) && b < |draft.batches| && KeysAreMarkets(draft.entries, marketKey)
    ensures DistinctKeys(draft.batches[b].entries, marketKey)
  {
    F.BatchesOfPlan(input, draft);
    PlannedOutcomesDistinct(input, draft);
    BatchKeysDistinct(draft.entries, draft.batches, b, marketKey);
  }
}
