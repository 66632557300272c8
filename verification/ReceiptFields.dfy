/**
 * Receipts in terms of the fields of logs, entries and the chain's answers: which receipts confirm a batch, stated
 * without the matcher and its tests.
 */
module ReceiptFields {
  import opened Wrappers
  import opened Ordering
  import opened Planner
  import opened Receipts
  import opened ReceiptSafety
  import F = Finalize

  // ---- one entry and its log ----

  /** The log is of the entry's market and outcome. */
  predicate SameKey(log: Redeemed, e: Entry, marketKey: nat -> nat) {
    log.marketKey == marketKey(e.tokenId) && log.outcomeIndex == e.outcomeIndex
  }

  /** It was paid to the recipient, out of what the owner or, for a batched redemption, the module held. */
  predicate Addressed(log: Redeemed, draft: Draft) {
    log.to == draft.recipient && log.holder in [draft.owner, draft.binaryModule]
  }

  /** It burned what the entry burns and paid what the entry expects. */
  predicate SameMoney(log: Redeemed, e: Entry) {
    log.amountBurned == e.amount && log.collateralOut == e.expectedPayout
  }

  /** The log at k is the entry's, and no earlier one is addressed like it. */
  predicate RedeemsFirst(logs: seq<Redeemed>, k: nat, e: Entry, draft: Draft, marketKey: nat -> nat) {
    && k < |logs| && SameKey(logs[k], e, marketKey) && Addressed(logs[k], draft) && SameMoney(logs[k], e)
    && (forall m :: 0 <= m < k ==> !(SameKey(logs[m], e, marketKey) && Addressed(logs[m], draft)))
  }

  ghost predicate HasRedemption(logs: seq<Redeemed>, e: Entry, draft: Draft, marketKey: nat -> nat) {
    exists k: nat :: RedeemsFirst(logs, k, e, draft, marketKey)
  }

  /** The one log of the entry's market and outcome is a redemption of it. */
  ghost predicate OnlyLog(logs: seq<Redeemed>, log: Redeemed, e: Entry, draft: Draft, marketKey: nat -> nat) {
    && log in logs && SameKey(log, e, marketKey) && Addressed(log, draft) && SameMoney(log, e)
    && (forall other :: other in logs && SameKey(other, e, marketKey) ==> other == log)
  }

  lemma FirstInFields(e: Entry, logs: seq<Redeemed>, draft: Draft, marketKey: nat -> nat)
    ensures FirstAgrees(e, logs, draft, marketKey) <==> HasRedemption(logs, e, draft, marketKey)
  {
    var i := FirstMatch(logs, {}, e, draft, marketKey);
    if i < |logs| && Agrees(logs[i], e) {
      assert RedeemsFirst(logs, i, e, draft, marketKey);
    }
    if k: nat :| RedeemsFirst(logs, k, e, draft, marketKey) {
      assert Names(logs[k], e, draft, marketKey);
      assert i == k;
    }
  }

  /**
   * Which logs are accepted, in their fields: with one entry per market and outcome and distinct log indices, the
   * match succeeds if and only if for every entry the first log of its market key and outcome that was paid to the
   * recipient, and held by the owner or by the module, burned its amount and paid its payout.
   */
  lemma MatchInFields(entries: seq<Entry>, logs: seq<Redeemed>, draft: Draft, marketKey: nat -> nat)
    requires DistinctKeys(entries, marketKey) && DistinctLogs(logs)
    ensures Match(entries, logs, draft, marketKey).Ok?
            <==> forall e :: e in entries ==> HasRedemption(logs, e, draft, marketKey)
  {
    GreedyIsExact(entries, logs, draft, marketKey);
    forall e | e in entries
      ensures FirstAgrees(e, logs, draft, marketKey) <==> HasRedemption(logs, e, draft, marketKey)
    {
      FirstInFields(e, logs, draft, marketKey);
    }
    if AllFirstAgree(entries, logs, draft, marketKey) {
      forall e | e in entries ensures FirstAgrees(e, logs, draft, marketKey) {
        var i :| 0 <= i < |entries| && entries[i] == e;
        assert FirstAgrees(entries[i], logs, draft, marketKey);
      }
    }
  }

  /** A receipt with one log of each entry's market and outcome, and that log a redemption of it, is accepted. */
  lemma OneLogEachMatches(entries: seq<Entry>, logs: seq<Redeemed>, draft: Draft, marketKey: nat -> nat)
    requires DistinctKeys(entries, marketKey) && DistinctLogs(logs)
    requires forall e :: e in entries ==> exists log :: OnlyLog(logs, log, e, draft, marketKey)
    ensures Match(entries, logs, draft, marketKey).Ok?
  {
    forall e | e in entries ensures HasRedemption(logs, e, draft, marketKey) {
      var log :| OnlyLog(logs, log, e, draft, marketKey);
      FirstOccurrence(logs, log, e, draft, marketKey);
    }
    MatchInFields(entries, logs, draft, marketKey);
  }

  lemma FirstOccurrence(logs: seq<Redeemed>, log: Redeemed, e: Entry, draft: Draft, marketKey: nat -> nat)
    requires OnlyLog(logs, log, e, draft, marketKey)
    ensures HasRedemption(logs, e, draft, marketKey)
  {
    var k := IndexOf(logs, (l: Redeemed) => SameKey(l, e, marketKey));
    var m :| 0 <= m < |logs| && logs[m] == log;
    assert k <= m;
    assert RedeemsFirst(logs, k, e, draft, marketKey);
  }

  /** The first log addressed like the entry is at k. */
  predicate FirstAddressed(logs: seq<Redeemed>, k: nat, e: Entry, draft: Draft, marketKey: nat -> nat) {
    && k < |logs| && SameKey(logs[k], e, marketKey) && Addressed(logs[k], draft)
    && (forall m :: 0 <= m < k ==> !(SameKey(logs[m], e, marketKey) && Addressed(logs[m], draft)))
  }

  /** What the failure of entry i means: no log addressed like it, or the first such log with other figures. */
  ghost predicate Explains(
    problem: Problem, i: nat, entries: seq<Entry>, logs: seq<Redeemed>, draft: Draft, marketKey: nat -> nat)
    requires i < |entries|
  {
    match problem
    case MissingRedemption(n) =>
      n == i && forall log :: log in logs ==> !(SameKey(log, entries[i], marketKey) && Addressed(log, draft))
    case AmountDiffers(n) =>
      n == i && exists k: nat :: FirstAddressed(logs, k, entries[i], draft, marketKey)
                            && logs[k].amountBurned != entries[i].amount
    case PayoutDiffers(n) =>
      n == i && exists k: nat :: FirstAddressed(logs, k, entries[i], draft, marketKey)
                            && logs[k].amountBurned == entries[i].amount
                            && logs[k].collateralOut != entries[i].expectedPayout
    case _ => false
  }

  lemma FirstOrNone(e: Entry, logs: seq<Redeemed>, draft: Draft, marketKey: nat -> nat)
    ensures var k := FirstMatch(logs, {}, e, draft, marketKey);
            if k < |logs| then FirstAddressed(logs, k, e, draft, marketKey)
            else forall log :: log in logs ==> !(SameKey(log, e, marketKey) && Addressed(log, draft))
  {
    var k := FirstMatch(logs, {}, e, draft, marketKey);
    forall m | 0 <= m < |logs|
      ensures Names(logs[m], e, draft, marketKey) <==> SameKey(logs[m], e, marketKey) && Addressed(logs[m], draft)
    {
    }
  }

  /** The error of the last entry, when those before it matched. */
  lemma LastError(entries: seq<Entry>, logs: seq<Redeemed>, draft: Draft, marketKey: nat -> nat)
    requires DistinctKeys(entries, marketKey) && DistinctLogs(logs) && entries != []
    requires Match(entries[..|entries| - 1], logs, draft, marketKey).Ok? && Match(entries, logs, draft, marketKey).Err?
    ensures var n := |entries| - 1;
            var k := FirstMatch(logs, {}, entries[n], draft, marketKey);
            Match(entries, logs, draft, marketKey)
            == Err(if k == |logs| then MissingRedemption(n)
                   else if logs[k].amountBurned != entries[n].amount then AmountDiffers(n)
                   else PayoutDiffers(n))
  {
    var n := |entries| - 1;
    var matched := Match(entries[..n], logs, draft, marketKey).value;
    MatchInjects(entries[..n], logs, draft, marketKey);
    UsedElsewhere(entries, n, matched, logs, draft, marketKey);
  }

  /** The first log addressed like a failing last entry does not agree with it. */
  lemma MatchAgain(entries: seq<Entry>, logs: seq<Redeemed>, draft: Draft, marketKey: nat -> nat)
    requires DistinctKeys(entries, marketKey) && DistinctLogs(logs) && entries != []
    requires Match(entries[..|entries| - 1], logs, draft, marketKey).Ok? && Match(entries, logs, draft, marketKey).Err?
    ensures var k := FirstMatch(logs, {}, entries[|entries| - 1], draft, marketKey);
            k < |logs| ==> !Agrees(logs[k], entries[|entries| - 1])
  {
    GreedyIsExact(entries, logs, draft, marketKey);
    GreedyIsExact(entries[..|entries| - 1], logs, draft, marketKey);
    AllButLast(entries, logs, draft, marketKey);
  }

  lemma LastProblem(entries: seq<Entry>, logs: seq<Redeemed>, draft: Draft, marketKey: nat -> nat)
    requires DistinctKeys(entries, marketKey) && DistinctLogs(logs) && entries != []
    requires Match(entries[..|entries| - 1], logs, draft, marketKey).Ok? && Match(entries, logs, draft, marketKey).Err?
    ensures Explains(Match(entries, logs, draft, marketKey).error, |entries| - 1, entries, logs, draft, marketKey)
  {
    LastError(entries, logs, draft, marketKey);
    MatchAgain(entries, logs, draft, marketKey);
    FirstOrNone(entries[|entries| - 1], logs, draft, marketKey);
  }

  /** A match that fails names the first entry whose log is missing or differs, and says which. */
  lemma {:induction false} ProblemInFields(
    entries: seq<Entry>, logs: seq<Redeemed>, draft: Draft, marketKey: nat -> nat) returns (i: nat)
    requires DistinctKeys(entries, marketKey) && DistinctLogs(logs)
    requires Match(entries, logs, draft, marketKey).Err?
    ensures i < |entries| && Explains(Match(entries, logs, draft, marketKey).error, i, entries, logs, draft, marketKey)
    ensures forall j :: 0 <= j < i ==> HasRedemption(logs, entries[j], draft, marketKey)
  {
    i := |entries| - 1;
    var front := entries[..i];
    if Match(front, logs, draft, marketKey).Err? {
      i := ProblemInFields(front, logs, draft, marketKey);
      assert forall j :: 0 <= j < |front| ==> front[j] == entries[j];
    } else {
      LastProblem(entries, logs, draft, marketKey);
      MatchInFields(front, logs, draft, marketKey);
      forall j | 0 <= j < i ensures HasRedemption(logs, entries[j], draft, marketKey) {
        assert front[j] in front;
      }
    }
  }

  /** What a match found: for every entry a log of its own with exactly these fields. */
  lemma MatchedFields(entries: seq<Entry>, logs: seq<Redeemed>, draft: Draft, marketKey: nat -> nat, i: nat)
    requires Match(entries, logs, draft, marketKey).Ok? && i < |entries|
    ensures var matched := Match(entries, logs, draft, marketKey).value;
            && |matched| == |entries| && matched[i] in logs
            && matched[i].marketKey == marketKey(entries[i].tokenId)
            && matched[i].outcomeIndex == entries[i].outcomeIndex
            && (matched[i].holder == draft.owner || matched[i].holder == draft.binaryModule)
            && matched[i].to == draft.recipient
            && matched[i].amountBurned == entries[i].amount
            && matched[i].collateralOut == entries[i].expectedPayout
            && (forall j :: 0 <= j < |entries| && j != i ==> matched[j].logIndex != matched[i].logIndex)
  {
    MatchInjects(entries, logs, draft, marketKey);
  }

  // ---- what the batch paid out of a market ----

  function ExpectedOf(entries: seq<Entry>, key: nat, marketKey: nat -> nat): nat {
    if entries == [] then 0
    else
      var n := |entries| - 1;
      ExpectedOf(entries[..n], key, marketKey)
      + if marketKey(entries[n].tokenId) == key then entries[n].expectedPayout else 0
  }

  lemma {:induction false} PaidIsExpected(
    entries: seq<Entry>, matched: seq<Redeemed>, key: nat, marketKey: nat -> nat)
    requires |matched| == |entries| && forall i :: 0 <= i < |entries| ==> Agrees(matched[i], entries[i])
    ensures Paid(ReceiptEntries(entries, matched), key, marketKey) == ExpectedOf(entries, key, marketKey)
  {
    if entries != [] {
      var n := |entries| - 1;
      PaidIsExpected(entries[..n], matched[..n], key, marketKey);
      assert ReceiptEntries(entries, matched)[..n] == ReceiptEntries(entries[..n], matched[..n]);
    }
  }

  /** Every balance fell by what was burned, and every market's backing by at least what it paid. */
  ghost predicate Settled(entries: seq<Entry>, gateway: Gateway, marketKey: nat -> nat) {
    && (forall e :: e in entries ==> gateway.balance(e.tokenId) + e.amount == e.verifiedBalance)
    && (forall i :: 0 <= i < |entries| && LastOfMarket(entries, i, marketKey) ==>
          var key := marketKey(entries[i].tokenId);
          gateway.backing(key) + ExpectedOf(entries, key, marketKey) <= entries[i].settlementBacking)
  }

  predicate LastOfMarket(entries: seq<Entry>, i: nat, marketKey: nat -> nat)
    requires i < |entries|
  {
    forall k :: i < k < |entries| ==> marketKey(entries[k].tokenId) != marketKey(entries[i].tokenId)
  }

  lemma SettledIsPostState(entries: seq<Entry>, matched: seq<Redeemed>, gateway: Gateway, marketKey: nat -> nat)
    requires |matched| == |entries| && forall i :: 0 <= i < |entries| ==> Agrees(matched[i], entries[i])
    ensures PostStateOk(entries, ReceiptEntries(entries, matched), gateway, marketKey)
            <==> Settled(entries, gateway, marketKey)
  {
    var receipts := ReceiptEntries(entries, matched);
    forall key ensures Paid(receipts, key, marketKey) == ExpectedOf(entries, key, marketKey) {
      PaidIsExpected(entries, matched, key, marketKey);
    }
    BalancesInFields(entries, gateway);
    forall i: nat | i < |entries|
      ensures LastOfMarket(entries, i, marketKey) <==> LastOfKey(entries, i, marketKey)
    {
    }
  }

  lemma BalancesInFields(entries: seq<Entry>, gateway: Gateway)
    ensures BalancesOk(entries, |entries|, gateway)
            <==> forall e :: e in entries ==> gateway.balance(e.tokenId) + e.amount == e.verifiedBalance
  {
    if BalancesOk(entries, |entries|, gateway) {
      forall e | e in entries ensures gateway.balance(e.tokenId) + e.amount == e.verifiedBalance {
        var i :| 0 <= i < |entries| && entries[i] == e;
        assert BalanceOk(entries[i], gateway.balance);
      }
    }
  }

  // ---- the whole reconciliation ----

  /** The chain has the batch's redemptions and its after-state. */
  ghost predicate FullyRedeemed(draft: Draft, b: nat, gateway: Gateway, marketKey: nat -> nat)
    requires b < |draft.batches|
  {
    && gateway.receipt.Some? && !gateway.receipt.value.reverted
    && (forall e :: e in draft.batches[b].entries ==>
          HasRedemption(gateway.receipt.value.redemptions, e, draft, marketKey))
    && Settled(draft.batches[b].entries, gateway, marketKey)
  }

  /**
   * A batch is confirmed exactly when the chain says so in these fields: a receipt that did not revert, for every entry
   * the first log addressed like it with its amount and payout, every balance lower by what was burned and every
   * market's backing by at least what it paid.
   */
  lemma ConfirmedExactly(
    plan: F.Plan, b: nat, batchIndex: nat, nonce: Option<nat>, gateway: Gateway, marketKey: nat -> nat,
    outcome: Outcome)
    requires Reconciles(plan, batchIndex, nonce, gateway, marketKey, outcome)
    requires b < |plan.draft.batches| && plan.draft.batches[b].index == batchIndex
    requires forall k :: 0 <= k < b ==> plan.draft.batches[k].index != batchIndex
    requires DistinctKeys(plan.draft.batches[b].entries, marketKey)
    requires gateway.receipt.Some? ==> DistinctLogs(gateway.receipt.value.redemptions)
    ensures outcome.Confirmed? <==> FullyRedeemed(plan.draft, b, gateway, marketKey)
  {
    assert FindBatch(plan.draft.batches, batchIndex) == b;
    if gateway.receipt.Some? {
      var entries, logs := plan.draft.batches[b].entries, gateway.receipt.value.redemptions;
      MatchInFields(entries, logs, plan.draft, marketKey);
      if Match(entries, logs, plan.draft, marketKey).Ok? {
        MatchInjects(entries, logs, plan.draft, marketKey);
        SettledIsPostState(entries, Match(entries, logs, plan.draft, marketKey).value, gateway, marketKey);
      }
    }
  }

  /** The backing of the market of entry i does not cover what the market paid. */
  predicate TooHigh(entries: seq<Entry>, i: nat, gateway: Gateway, marketKey: nat -> nat)
    requires i < |entries|
  {
    var key := marketKey(entries[i].tokenId);
    gateway.backing(key) + ExpectedOf(entries, key, marketKey) > entries[i].settlementBacking
  }

  /** Where a market first appears among the entries. */
  predicate FirstOfMarket(entries: seq<Entry>, i: nat, marketKey: nat -> nat)
    requires i < |entries|
  {
    forall k :: 0 <= k < i ==> marketKey(entries[k].tokenId) != marketKey(entries[i].tokenId)
  }

  /** The m-th market of the map is the one that first appears with entry i. */
  predicate AppearsAt(entries: seq<Entry>, marketKey: nat -> nat, m: nat, i: nat) {
    && m < |MarketKeys(entries, marketKey)| && i < |entries| && FirstOfMarket(entries, i, marketKey)
    && MarketKeys(entries, marketKey)[m] == marketKey(entries[i].tokenId)
  }

  lemma {:induction false} KeysAreListed(entries: seq<Entry>, marketKey: nat -> nat, key: nat)
    requires key in MarketKeys(entries, marketKey)
    ensures exists k :: 0 <= k < |entries| && marketKey(entries[k].tokenId) == key
  {
    var n := |entries| - 1;
    if marketKey(entries[n].tokenId) != key {
      KeysAreListed(entries[..n], marketKey, key);
      var k :| 0 <= k < n && marketKey(entries[..n][k].tokenId) == key;
      assert marketKey(entries[k].tokenId) == key;
    }
  }

  /** A market is not listed before its first entry. */
  lemma NotListedYet(entries: seq<Entry>, marketKey: nat -> nat, i: nat)
    requires i < |entries| && FirstOfMarket(entries, i, marketKey)
    ensures marketKey(entries[i].tokenId) !in MarketKeys(entries[..i], marketKey)
  {
    var key := marketKey(entries[i].tokenId);
    if key in MarketKeys(entries[..i], marketKey) {
      KeysAreListed(entries[..i], marketKey, key);
    }
  }

  lemma {:induction false} KeysInOrder(entries: seq<Entry>, marketKey: nat -> nat, m: nat, n: nat, i: nat, j: nat)
    requires m < n && AppearsAt(entries, marketKey, m, i) && AppearsAt(entries, marketKey, n, j)
    ensures i < j
  {
    var last := |entries| - 1;
    var front := entries[..last];
    if i == last {
      // The last entry is of the last market if it is the first of its own, and m is an earlier one.
      NotListedYet(entries, marketKey, i);
    } else if j < last {
      assert FirstOfMarket(front, i, marketKey) && FirstOfMarket(front, j, marketKey);
      KeyListed(front, marketKey, i);
      KeyListed(front, marketKey, j);
      KeysInOrder(front, marketKey, m, n, i, j);
    }
  }

  /** What a failure after matching logs means: the first wrong balance, or the first market backed too high. */
  ghost predicate PostFault(problem: Problem, entries: seq<Entry>, gateway: Gateway, marketKey: nat -> nat) {
    match problem
    case BalanceDiffers(i) =>
      && i < |entries| && gateway.balance(entries[i].tokenId) + entries[i].amount != entries[i].verifiedBalance
      && forall j :: 0 <= j < i ==>
           gateway.balance(entries[j].tokenId) + entries[j].amount == entries[j].verifiedBalance
    case BackingTooHigh(i) =>
      && (forall e :: e in entries ==> gateway.balance(e.tokenId) + e.amount == e.verifiedBalance)
      && i < |entries| && LastOfMarket(entries, i, marketKey) && TooHigh(entries, i, gateway, marketKey)
      && (forall j: nat :: j < |entries| && LastOfMarket(entries, j, marketKey) ==>
            (TooHigh(entries, j, gateway, marketKey) ==> MarketNotAfter(entries, i, j, marketKey)))
    case _ => false
  }

  /** The market of entry i first appears no later than that of entry j. */
  ghost predicate MarketNotAfter(entries: seq<Entry>, i: nat, j: nat, marketKey: nat -> nat)
    requires i < |entries| && j < |entries|
  {
    forall f: nat, g: nat ::
      && f < |entries| && g < |entries| && FirstOfMarket(entries, f, marketKey) && FirstOfMarket(entries, g, marketKey)
      && marketKey(entries[f].tokenId) == marketKey(entries[i].tokenId)
      && marketKey(entries[g].tokenId) == marketKey(entries[j].tokenId) ==>
        f <= g
  }

  lemma TooHighInFields(entries: seq<Entry>, matched: seq<Redeemed>, i: nat, gateway: Gateway, marketKey: nat -> nat)
    requires |matched| == |entries| && forall k :: 0 <= k < |entries| ==> Agrees(matched[k], entries[k])
    requires i < |entries|
    ensures TooHigh(entries, i, gateway, marketKey)
            <==> !BackingOk(entries, ReceiptEntries(entries, matched), i, gateway, marketKey)
  {
    PaidIsExpected(entries, matched, marketKey(entries[i].tokenId), marketKey);
  }

  lemma FirstMarketTooHigh(
    entries: seq<Entry>, matched: seq<Redeemed>, i: nat, j: nat, gateway: Gateway, marketKey: nat -> nat)
    requires |matched| == |entries| && forall k :: 0 <= k < |entries| ==> Agrees(matched[k], entries[k])
    requires FirstTooHigh(entries, ReceiptEntries(entries, matched), gateway, marketKey, i)
    requires j < |entries| && LastOfMarket(entries, j, marketKey) && TooHigh(entries, j, gateway, marketKey)
    ensures i < |entries| && LastOfMarket(entries, i, marketKey) && TooHigh(entries, i, gateway, marketKey)
    ensures MarketNotAfter(entries, i, j, marketKey)
  {
    var keys, receipts := MarketKeys(entries, marketKey), ReceiptEntries(entries, matched);
    var n: nat :| n < |keys| && i == LastIndex(entries, keys[n], marketKey)
                  && !MarketOk(entries, receipts, gateway, marketKey, keys[n])
                  && MarketsOk(entries, receipts, gateway, marketKey, n);
    TooHighInFields(entries, matched, i, gateway, marketKey);
    TooHighInFields(entries, matched, j, gateway, marketKey);
    LastIsIndex(entries, marketKey, j);
    var m: nat :| m < |keys| && keys[m] == marketKey(entries[j].tokenId);
    assert n <= m by {
      assert !MarketOk(entries, receipts, gateway, marketKey, keys[m]);
    }
    forall f: nat, g: nat |
      f < |entries| && g < |entries| && FirstOfMarket(entries, f, marketKey) && FirstOfMarket(entries, g, marketKey)
      && marketKey(entries[f].tokenId) == marketKey(entries[i].tokenId)
      && marketKey(entries[g].tokenId) == marketKey(entries[j].tokenId)
      ensures f <= g
    {
      if n < m {
        KeysInOrder(entries, marketKey, n, m, f, g);
      }
    }
  }

  /** Why a matched receipt still fails, in fields. */
  lemma PostFaultInFields(
    entries: seq<Entry>, matched: seq<Redeemed>, gateway: Gateway, marketKey: nat -> nat, problem: Problem)
    requires |matched| == |entries| && forall k :: 0 <= k < |entries| ==> Agrees(matched[k], entries[k])
    requires PostProblem(entries, ReceiptEntries(entries, matched), gateway, marketKey, Some(problem))
    ensures PostFault(problem, entries, gateway, marketKey)
  {
    BalancesInFields(entries, gateway);
    if problem.BackingTooHigh? {
      var i := problem.entry;
      var keys := MarketKeys(entries, marketKey);
      var n: nat :| n < |keys| && i == LastIndex(entries, keys[n], marketKey)
                    && !MarketOk(entries, ReceiptEntries(entries, matched), gateway, marketKey, keys[n]);
      TooHighInFields(entries, matched, i, gateway, marketKey);
      forall j: nat | j < |entries| && LastOfMarket(entries, j, marketKey) && TooHigh(entries, j, gateway, marketKey)
        ensures MarketNotAfter(entries, i, j, marketKey)
      {
        FirstMarketTooHigh(entries, matched, i, j, gateway, marketKey);
      }
    } else if problem.BalanceDiffers? {
      forall j | 0 <= j < problem.entry
        ensures gateway.balance(entries[j].tokenId) + entries[j].amount == entries[j].verifiedBalance
      {
        assert BalanceOk(entries[j], gateway.balance);
      }
    }
  }

  /**
   * Why a batch is reported as failed, in fields: the receipt reverted, else the first entry whose log is missing or
   * differs, else the first wrong balance, else the first market whose backing is too high.
   */
  lemma FailedExactly(
    plan: F.Plan, b: nat, batchIndex: nat, nonce: Option<nat>, gateway: Gateway, marketKey: nat -> nat,
    outcome: Outcome)
    requires Reconciles(plan, batchIndex, nonce, gateway, marketKey, outcome) && outcome.Failed?
    requires b < |plan.draft.batches| && plan.draft.batches[b].index == batchIndex
    requires forall k :: 0 <= k < b ==> plan.draft.batches[k].index != batchIndex
    requires DistinctKeys(plan.draft.batches[b].entries, marketKey)
    requires gateway.receipt.Some? ==> DistinctLogs(gateway.receipt.value.redemptions)
    ensures gateway.receipt.Some? && outcome.blockNumber == Some(gateway.receipt.value.blockNumber)
    ensures outcome.gasUsed == Some(gateway.receipt.value.gasUsed)
    ensures var entries, mined := plan.draft.batches[b].entries, gateway.receipt.value;
            if mined.reverted then outcome.problem == Reverted
            else
              || (exists i: nat :: i < |entries|
                    && Explains(outcome.problem, i, entries, mined.redemptions, plan.draft, marketKey)
                    && forall j :: 0 <= j < i ==> HasRedemption(mined.redemptions, entries[j], plan.draft, marketKey))
              || PostFault(outcome.problem, entries, gateway, marketKey)
  {
    assert FindBatch(plan.draft.batches, batchIndex) == b;
    var entries, mined := plan.draft.batches[b].entries, gateway.receipt.value;
    if !mined.reverted {
      if Match(entries, mined.redemptions, plan.draft, marketKey).Err? {
        var i := ProblemInFields(entries, mined.redemptions, plan.draft, marketKey);
      } else {
        var matched := Match(entries, mined.redemptions, plan.draft, marketKey).value;
        MatchInjects(entries, mined.redemptions, plan.draft, marketKey);
        PostFaultInFields(entries, matched, gateway, marketKey, outcome.problem);
      }
    }
  }

  /** The figures of a confirmation: those of the plan's entries, and the chain's block, gas and fallback balances. */
  lemma ConfirmedFigures(
    plan: F.Plan, b: nat, batchIndex: nat, nonce: Option<nat>, gateway: Gateway, marketKey: nat -> nat,
    outcome: Outcome)
    requires Reconciles(plan, batchIndex, nonce, gateway, marketKey, outcome) && outcome.Confirmed?
    requires b < |plan.draft.batches| && plan.draft.batches[b].index == batchIndex
    requires forall k :: 0 <= k < b ==> plan.draft.batches[k].index != batchIndex
    ensures var entries := plan.draft.batches[b].entries;
            && |outcome.entries| == |entries|
            && (forall i :: 0 <= i < |entries| ==>
                  outcome.entries[i] == ReceiptEntry(entries[i].marketId, entries[i].outcomeIndex, entries[i].tokenId,
                                                     entries[i].amount, entries[i].expectedPayout,
                                                     entries[i].expectedPayout))
            && outcome.actualCollateral == Sum(entries, (e: Entry) => e.expectedPayout)
            && outcome.expectedPayout == plan.draft.batches[b].expectedPayout
            && gateway.receipt.Some? && outcome.minedBlock == gateway.receipt.value.blockNumber
            && outcome.gas == gateway.receipt.value.gasUsed
            && exists tokens :: EachTokenOnce(tokens, entries) && outcome.fallbackOwed == Sum(tokens, gateway.owed)
  {
    assert FindBatch(plan.draft.batches, batchIndex) == b;
    var entries := plan.draft.batches[b].entries;
    ConfirmedMeansRedeemed(plan.draft, b, gateway, marketKey);
    CollateralsOnce(entries);
    assert EachTokenOnce(Collaterals(entries), entries);
  }

  /** The tokens are those of the entries, none twice. */
  ghost predicate EachTokenOnce(tokens: seq<string>, entries: seq<Entry>) {
    && (forall i, j :: 0 <= i < j < |tokens| ==> tokens[i] != tokens[j])
    && (forall token :: token in tokens <==> exists e :: e in entries && e.collateral == token)
  }

  lemma {:induction false} CollateralsOnce(entries: seq<Entry>)
    ensures EachTokenOnce(Collaterals(entries), entries)
  {
    if entries != [] {
      var front, last := entries[..|entries| - 1], entries[|entries| - 1];
      CollateralsOnce(front);
      assert forall e :: e in entries <==> e in front || e == last;
    }
  }
}
