/**
 * packages/dreamdex/src/receipts/service.ts: a mined transaction against one batch of the plan. Decoded logs and
 * the gateway's answers are inputs; `marketKey` is the token id's market key.
 */
module Receipts {
  import opened Wrappers
  import opened Ordering
  import opened Planner
  import F = Finalize

  datatype Redeemed = Redeemed(
    marketKey: nat, holder: string, to: string, outcomeIndex: nat, amountBurned: nat, collateralOut: nat, logIndex: nat)

  datatype Mined = Mined(reverted: bool, blockNumber: nat, gasUsed: nat, redemptions: seq<Redeemed>)

  /** The chain's answers to one reconciliation. */
  datatype Gateway = Gateway(
    receipt: Option<Mined>,
    nonceReplaced: bool,
    balance: nat -> int,
    backing: nat -> int,
    owed: string -> nat)

  datatype ReceiptEntry = ReceiptEntry(
    marketId: string, outcomeIndex: nat, tokenId: nat, amountBurned: nat, expectedPayout: nat, actualCollateral: nat)

  datatype Problem =
    | NoSuchBatch
    | Reverted
    | MissingRedemption(entry: nat)
    | AmountDiffers(entry: nat)
    | PayoutDiffers(entry: nat)
    | BalanceDiffers(entry: nat)
    | BackingTooHigh(entry: nat)

  datatype Outcome =
    | Pending
    | Superseded
    | Failed(problem: Problem, blockNumber: Option<nat>, gasUsed: Option<nat>)
    | Confirmed(entries: seq<ReceiptEntry>, expectedPayout: nat, actualCollateral: nat, fallbackOwed: nat,
                minedBlock: nat, gas: nat)

  // ---- matching ----

  /** The log names the entry's market, outcome and payout recipient, redeemed by the owner or the module. */
  predicate Names(log: Redeemed, e: Entry, draft: Draft, marketKey: nat -> nat) {
    && log.marketKey == marketKey(e.tokenId)
    && log.outcomeIndex == e.outcomeIndex
    && (log.holder == draft.owner || log.holder == draft.binaryModule)
    && log.to == draft.recipient
  }

  /** The first log not yet used that names the entry. */
  function FirstMatch(logs: seq<Redeemed>, used: set<nat>, e: Entry, draft: Draft, marketKey: nat -> nat): (i: nat)
    ensures i <= |logs|
    ensures i < |logs| ==> logs[i].logIndex !in used && Names(logs[i], e, draft, marketKey)
    ensures forall k :: 0 <= k < i ==> !(logs[k].logIndex !in used && Names(logs[k], e, draft, marketKey))
  {
    IndexOf(logs, (log: Redeemed) => log.logIndex !in used && Names(log, e, draft, marketKey))
  }

  predicate Agrees(log: Redeemed, e: Entry) {
    log.amountBurned == e.amount && log.collateralOut == e.expectedPayout
  }

  function EntryOf(e: Entry, log: Redeemed): ReceiptEntry {
    ReceiptEntry(e.marketId, e.outcomeIndex, e.tokenId, log.amountBurned, e.expectedPayout, log.collateralOut)
  }

  /** The log each entry is matched to, in entry order, or the first problem. */
  function Match(
    entries: seq<Entry>, logs: seq<Redeemed>, draft: Draft, marketKey: nat -> nat): Result<seq<Redeemed>, Problem> {
    if entries == [] then Ok([])
    else
      var n := |entries| - 1;
      match Match(entries[..n], logs, draft, marketKey)
      case Err(p) => Err(p)
      case Ok(matched) =>
        var i := FirstMatch(logs, Used(matched), entries[n], draft, marketKey);
        if i == |logs| then Err(MissingRedemption(n))
        else if logs[i].amountBurned != entries[n].amount then Err(AmountDiffers(n))
        else if logs[i].collateralOut != entries[n].expectedPayout then Err(PayoutDiffers(n))
        else Ok(matched + [logs[i]])
  }

  function Used(matched: seq<Redeemed>): set<nat> {
    set i | 0 <= i < |matched| :: matched[i].logIndex
  }

  function ReceiptEntries(entries: seq<Entry>, matched: seq<Redeemed>): seq<ReceiptEntry>
    requires |entries| == |matched|
  {
    seq(|entries|, i requires 0 <= i < |entries| => EntryOf(entries[i], matched[i]))
  }

  function ActualCollateral(r: ReceiptEntry): nat { r.actualCollateral }

  /** What the receipt paid out of one market. */
  function Paid(receipts: seq<ReceiptEntry>, key: nat, marketKey: nat -> nat): nat {
    if receipts == [] then 0
    else
      var last := receipts[|receipts| - 1];
      Paid(receipts[..|receipts| - 1], key, marketKey)
      + if marketKey(last.tokenId) == key then last.actualCollateral else 0
  }

  // ---- post-state checks ----

  predicate BalanceOk(e: Entry, balance: nat -> int) {
    balance(e.tokenId) == e.verifiedBalance - e.amount
  }

  /** The entry whose backing stands for its market: the last one the map is filled from. */
  predicate LastOfKey(entries: seq<Entry>, i: nat, marketKey: nat -> nat) {
    i < |entries| && forall k :: i < k < |entries| ==> marketKey(entries[k].tokenId) != marketKey(entries[i].tokenId)
  }

  predicate BackingOk(entries: seq<Entry>, receipts: seq<ReceiptEntry>, i: nat, gateway: Gateway, marketKey: nat -> nat)
    requires i < |entries|
  {
    var key := marketKey(entries[i].tokenId);
    gateway.backing(key) <= entries[i].settlementBacking - Paid(receipts, key, marketKey)
  }

  ghost predicate BalancesOk(entries: seq<Entry>, n: nat, gateway: Gateway)
    requires n <= |entries|
  {
    forall i :: 0 <= i < n ==> BalanceOk(entries[i], gateway.balance)
  }

  ghost predicate BackingsOk(
    entries: seq<Entry>, receipts: seq<ReceiptEntry>, gateway: Gateway, marketKey: nat -> nat) {
    forall i: nat :: LastOfKey(entries, i, marketKey) ==> BackingOk(entries, receipts, i, gateway, marketKey)
  }

  ghost predicate PostStateOk(
    entries: seq<Entry>, receipts: seq<ReceiptEntry>, gateway: Gateway, marketKey: nat -> nat) {
    BalancesOk(entries, |entries|, gateway) && BackingsOk(entries, receipts, gateway, marketKey)
  }

  /** The markets of the entries in order of first appearance, as a map keeps its keys. */
  function MarketKeys(entries: seq<Entry>, marketKey: nat -> nat): seq<nat> {
    if entries == [] then []
    else
      var earlier, key := MarketKeys(entries[..|entries| - 1], marketKey), marketKey(entries[|entries| - 1].tokenId);
      if key in earlier then earlier else earlier + [key]
  }

  /** The last entry of a market, which is the one a map ends up with. */
  function LastIndex(entries: seq<Entry>, key: nat, marketKey: nat -> nat): (i: nat)
    requires key in MarketKeys(entries, marketKey)
    ensures LastOfKey(entries, i, marketKey) && marketKey(entries[i].tokenId) == key
  {
    var n := |entries| - 1;
    if marketKey(entries[n].tokenId) == key then n else LastIndex(entries[..n], key, marketKey)
  }

  /** The n-th market passes: its last entry's backing covers what was paid. */
  predicate MarketOk(
    entries: seq<Entry>, receipts: seq<ReceiptEntry>, gateway: Gateway, marketKey: nat -> nat, key: nat)
    requires key in MarketKeys(entries, marketKey)
  {
    BackingOk(entries, receipts, LastIndex(entries, key, marketKey), gateway, marketKey)
  }

  /** Every one of the first n markets passes. */
  ghost predicate MarketsOk(
    entries: seq<Entry>, receipts: seq<ReceiptEntry>, gateway: Gateway, marketKey: nat -> nat, n: nat)
    requires n <= |MarketKeys(entries, marketKey)|
  {
    forall m :: 0 <= m < n ==> MarketOk(entries, receipts, gateway, marketKey, MarketKeys(entries, marketKey)[m])
  }

  /** The first market whose backing is too high is the one of entry i, its last. */
  ghost predicate FirstTooHigh(
    entries: seq<Entry>, receipts: seq<ReceiptEntry>, gateway: Gateway, marketKey: nat -> nat, i: nat) {
    var keys := MarketKeys(entries, marketKey);
    exists n ::
      && 0 <= n < |keys| && i == LastIndex(entries, keys[n], marketKey)
      && !MarketOk(entries, receipts, gateway, marketKey, keys[n])
      && MarketsOk(entries, receipts, gateway, marketKey, n)
  }

  /** The first wrong balance in entry order, then the first market whose backing is too high. */
  ghost predicate PostProblem(
    entries: seq<Entry>, receipts: seq<ReceiptEntry>, gateway: Gateway, marketKey: nat -> nat,
    problem: Option<Problem>) {
    match problem
    case None => PostStateOk(entries, receipts, gateway, marketKey)
    case Some(BalanceDiffers(i)) =>
      i < |entries| && !BalanceOk(entries[i], gateway.balance) && BalancesOk(entries, i, gateway)
    case Some(BackingTooHigh(i)) =>
      BalancesOk(entries, |entries|, gateway) && FirstTooHigh(entries, receipts, gateway, marketKey, i)
    case Some(_) => false
  }

  function Owed(tokens: seq<string>, owed: string -> nat): nat {
    Sum(tokens, owed)
  }

  function Collaterals(entries: seq<Entry>): seq<string> {
    if entries == [] then []
    else
      var earlier, token := Collaterals(entries[..|entries| - 1]), entries[|entries| - 1].collateral;
      if token in earlier then earlier else earlier + [token]
  }

  function FindBatch(batches: seq<Batch>, index: nat): (i: nat)
    ensures i <= |batches|
    ensures i < |batches| ==> batches[i].index == index
    ensures forall k :: 0 <= k < i ==> batches[k].index != index
  {
    IndexOf(batches, (b: Batch) => b.index == index)
  }

  // ---- the source's loops ----

  method MatchEntries(entries: seq<Entry>, logs: seq<Redeemed>, draft: Draft, marketKey: nat -> nat)
    returns (result: Result<seq<Redeemed>, Problem>)
    ensures result == Match(entries, logs, draft, marketKey)
  {
    var used: set<nat> := {};
    var matched: seq<Redeemed> := [];
    for n := 0 to |entries|
      invariant Match(entries[..n], logs, draft, marketKey) == Ok(matched)
      invariant used == Used(matched)
    {
      var entry := entries[n];
      var i := FindRedemption(logs, used, entry, draft, marketKey);
      NextMatch(entries, n, logs, draft, marketKey, matched);
      if i == |logs| || !Agrees(logs[i], entry) {
        var problem := if i == |logs| then MissingRedemption(n)
                       else if logs[i].amountBurned != entry.amount then AmountDiffers(n)
                       else PayoutDiffers(n);
        MatchStopsAt(entries, n + 1, logs, draft, marketKey);
        return Err(problem);
      }
      UsedAppend(matched, logs[i]);
      used := used + {logs[i].logIndex};
      matched := matched + [logs[i]];
    }
    assert entries[..|entries|] == entries;
    return Ok(matched);
  }

  /** `redemptions.find(...)` */
  method FindRedemption(logs: seq<Redeemed>, used: set<nat>, entry: Entry, draft: Draft, marketKey: nat -> nat)
    returns (i: nat)
    ensures i == FirstMatch(logs, used, entry, draft, marketKey)
  {
    i := 0;
    while i < |logs| && !(logs[i].logIndex !in used && Names(logs[i], entry, draft, marketKey))
      invariant i <= |logs|
      invariant forall k :: 0 <= k < i ==> !(logs[k].logIndex !in used && Names(logs[k], entry, draft, marketKey))
    {
      i := i + 1;
    }
  }

  lemma NextMatch(
    entries: seq<Entry>, n: nat, logs: seq<Redeemed>, draft: Draft, marketKey: nat -> nat, matched: seq<Redeemed>)
    requires n < |entries| && Match(entries[..n], logs, draft, marketKey) == Ok(matched)
    ensures var i := FirstMatch(logs, Used(matched), entries[n], draft, marketKey);
            Match(entries[..n + 1], logs, draft, marketKey)
            == if i == |logs| then Err(MissingRedemption(n))
               else if logs[i].amountBurned != entries[n].amount then Err(AmountDiffers(n))
               else if logs[i].collateralOut != entries[n].expectedPayout then Err(PayoutDiffers(n))
               else Ok(matched + [logs[i]])
  {
    var taken := entries[..n + 1];
    assert taken[..n] == entries[..n] && taken[n] == entries[n];
  }

  lemma UsedAppend(matched: seq<Redeemed>, log: Redeemed)
    ensures Used(matched + [log]) == Used(matched) + {log.logIndex}
  {
    var longer := matched + [log];
    forall x | x in Used(matched) + {log.logIndex} ensures x in Used(longer) {
      if x in Used(matched) {
        var i :| 0 <= i < |matched| && matched[i].logIndex == x;
        assert longer[i].logIndex == x;
      } else {
        assert longer[|matched|].logIndex == x;
      }
    }
  }

  lemma {:induction false} MatchStopsAt(
    entries: seq<Entry>, n: nat, logs: seq<Redeemed>, draft: Draft, marketKey: nat -> nat)
    requires n <= |entries| && Match(entries[..n], logs, draft, marketKey).Err?
    ensures Match(entries, logs, draft, marketKey) == Match(entries[..n], logs, draft, marketKey)
    decreases |entries|
  {
    if n < |entries| {
      var front := entries[..|entries| - 1];
      assert front[..n] == entries[..n];
      MatchStopsAt(front, n, logs, draft, marketKey);
    } else {
      assert entries[..n] == entries;
    }
  }

  lemma {:induction false} MatchLength(entries: seq<Entry>, logs: seq<Redeemed>, draft: Draft, marketKey: nat -> nat)
    requires Match(entries, logs, draft, marketKey).Ok?
    ensures |Match(entries, logs, draft, marketKey).value| == |entries|
  {
    if entries != [] {
      MatchLength(entries[..|entries| - 1], logs, draft, marketKey);
    }
  }

  lemma {:induction false} KeyListed(entries: seq<Entry>, marketKey: nat -> nat, i: nat)
    requires i < |entries|
    ensures marketKey(entries[i].tokenId) in MarketKeys(entries, marketKey)
  {
    if i < |entries| - 1 {
      KeyListed(entries[..|entries| - 1], marketKey, i);
    }
  }

  /** An entry that is the last of its market stands for it. */
  lemma LastIsIndex(entries: seq<Entry>, marketKey: nat -> nat, i: nat)
    requires LastOfKey(entries, i, marketKey)
    ensures marketKey(entries[i].tokenId) in MarketKeys(entries, marketKey)
    ensures LastIndex(entries, marketKey(entries[i].tokenId), marketKey) == i
  {
    KeyListed(entries, marketKey, i);
    var k := LastIndex(entries, marketKey(entries[i].tokenId), marketKey);
    assert !(k < i) && !(i < k);
  }

  /** All markets pass exactly when every last entry's backing does. */
  lemma MarketsCover(entries: seq<Entry>, receipts: seq<ReceiptEntry>, gateway: Gateway, marketKey: nat -> nat)
    requires MarketsOk(entries, receipts, gateway, marketKey, |MarketKeys(entries, marketKey)|)
    ensures BackingsOk(entries, receipts, gateway, marketKey)
  {
    var keys := MarketKeys(entries, marketKey);
    forall i: nat | LastOfKey(entries, i, marketKey) ensures BackingOk(entries, receipts, i, gateway, marketKey) {
      LastIsIndex(entries, marketKey, i);
      var m :| 0 <= m < |keys| && keys[m] == marketKey(entries[i].tokenId);
      assert MarketOk(entries, receipts, gateway, marketKey, keys[m]);
    }
  }

  /** The map has the last entry of every market among the first n entries. */
  ghost predicate Filled(entries: seq<Entry>, marketKey: nat -> nat, last: map<nat, nat>) {
    forall key :: key in MarketKeys(entries, marketKey) ==>
                    key in last && last[key] == LastIndex(entries, key, marketKey)
  }

  lemma FillNext(entries: seq<Entry>, n: nat, marketKey: nat -> nat, last: map<nat, nat>)
    requires n < |entries| && Filled(entries[..n], marketKey, last)
    ensures Filled(entries[..n + 1], marketKey, last[marketKey(entries[n].tokenId) := n])
    ensures MarketKeys(entries[..n + 1], marketKey)
            == var earlier := MarketKeys(entries[..n], marketKey);
               if marketKey(entries[n].tokenId) in earlier then earlier else earlier + [marketKey(entries[n].tokenId)]
  {
    var taken := entries[..n + 1];
    assert taken[..n] == entries[..n] && taken[n] == entries[n];
  }

  /** `new Map(entries.map((entry) => [marketKey(entry.tokenId), entry]))` */
  method UniqueMarkets(entries: seq<Entry>, marketKey: nat -> nat) returns (order: seq<nat>, last: map<nat, nat>)
    ensures order == MarketKeys(entries, marketKey) && Filled(entries, marketKey, last)
  {
    order, last := [], map[];
    for n := 0 to |entries|
      invariant order == MarketKeys(entries[..n], marketKey) && Filled(entries[..n], marketKey, last)
    {
      var key := marketKey(entries[n].tokenId);
      FillNext(entries, n, marketKey, last);
      if key !in order {
        order := order + [key];
      }
      last := last[key := n];
    }
    assert entries[..|entries|] == entries;
  }

  method CheckPostState(entries: seq<Entry>, receipts: seq<ReceiptEntry>, gateway: Gateway, marketKey: nat -> nat)
    returns (problem: Option<Problem>)
    ensures PostProblem(entries, receipts, gateway, marketKey, problem)
  {
    for i := 0 to |entries|
      invariant BalancesOk(entries, i, gateway)
    {
      if !BalanceOk(entries[i], gateway.balance) {
        return Some(BalanceDiffers(i));
      }
    }
    var tooHigh := CheckBackings(entries, receipts, gateway, marketKey);
    return if tooHigh.None? then None else Some(BackingTooHigh(tooHigh.value));
  }

  method CheckBackings(entries: seq<Entry>, receipts: seq<ReceiptEntry>, gateway: Gateway, marketKey: nat -> nat)
    returns (tooHigh: Option<nat>)
    ensures tooHigh.None? ==> BackingsOk(entries, receipts, gateway, marketKey)
    ensures tooHigh.Some? ==> FirstTooHigh(entries, receipts, gateway, marketKey, tooHigh.value)
  {
    var order, last := UniqueMarkets(entries, marketKey);
    for n := 0 to |order|
      invariant MarketsOk(entries, receipts, gateway, marketKey, n)
    {
      assert order[n] in order;
      if !BackingOk(entries, receipts, last[order[n]], gateway, marketKey) {
        assert !MarketOk(entries, receipts, gateway, marketKey, order[n]);
        return Some(last[order[n]]);
      }
    }
    MarketsCover(entries, receipts, gateway, marketKey);
    return None;
  }

  /** What every confirmation has passed. */
  ghost predicate Verified(draft: Draft, b: nat, gateway: Gateway, marketKey: nat -> nat) {
    && b < |draft.batches| && gateway.receipt.Some? && !gateway.receipt.value.reverted
    && var entries, matched := draft.batches[b].entries,
                               Match(draft.batches[b].entries, gateway.receipt.value.redemptions, draft, marketKey);
       matched.Ok? && |matched.value| == |entries|
       && PostStateOk(entries, ReceiptEntries(entries, matched.value), gateway, marketKey)
  }

  /** Which outcome a reconciliation of one batch ends in, and what it reports. */
  ghost predicate Reconciles(
    plan: F.Plan, batchIndex: nat, nonce: Option<nat>, gateway: Gateway, marketKey: nat -> nat, outcome: Outcome) {
    var b := FindBatch(plan.draft.batches, batchIndex);
    && (outcome.Confirmed? <==> Verified(plan.draft, b, gateway, marketKey))
    && (outcome.Pending? || outcome.Superseded? <==> b < |plan.draft.batches| && gateway.receipt.None?)
    && (outcome.Superseded? ==> nonce.Some? && gateway.nonceReplaced)
    && (outcome.Pending? ==> nonce.None? || !gateway.nonceReplaced)
    && (b == |plan.draft.batches| ==> outcome == Failed(NoSuchBatch, None, None))
    && (outcome.Failed? && b < |plan.draft.batches| ==>
          gateway.receipt.Some? && outcome.blockNumber == Some(gateway.receipt.value.blockNumber)
          && outcome.gasUsed == Some(gateway.receipt.value.gasUsed)
          && FailsFor(plan.draft, plan.draft.batches[b].entries, gateway, marketKey, outcome.problem))
    && (outcome.Confirmed? ==> Reports(plan.draft, b, gateway, marketKey, outcome))
  }

  /** The problem a failure names: the revert, else the first mismatch of the logs, else that of the post-state. */
  ghost predicate FailsFor(
    draft: Draft, entries: seq<Entry>, gateway: Gateway, marketKey: nat -> nat, problem: Problem)
    requires gateway.receipt.Some?
  {
    if gateway.receipt.value.reverted then problem == Reverted
    else
      match Match(entries, gateway.receipt.value.redemptions, draft, marketKey)
      case Err(p) => problem == p
      case Ok(matched) =>
        && |matched| == |entries|
        && PostProblem(entries, ReceiptEntries(entries, matched), gateway, marketKey, Some(problem))
  }

  /** The figures of a confirmation are those of its matched logs. */
  ghost predicate Reports(draft: Draft, b: nat, gateway: Gateway, marketKey: nat -> nat, outcome: Outcome)
    requires outcome.Confirmed? && Verified(draft, b, gateway, marketKey)
  {
    var entries := draft.batches[b].entries;
    var matched := Match(entries, gateway.receipt.value.redemptions, draft, marketKey).value;
    && outcome.entries == ReceiptEntries(entries, matched)
    && outcome.expectedPayout == draft.batches[b].expectedPayout
    && outcome.actualCollateral == Sum(outcome.entries, ActualCollateral)
    && outcome.fallbackOwed == Owed(Collaterals(entries), gateway.owed)
    && outcome.minedBlock == gateway.receipt.value.blockNumber
    && outcome.gas == gateway.receipt.value.gasUsed
  }

  method ReconcileClaimReceipt(
    plan: F.Plan, batchIndex: nat, nonce: Option<nat>, gateway: Gateway, marketKey: nat -> nat)
    returns (outcome: Outcome)
    ensures Reconciles(plan, batchIndex, nonce, gateway, marketKey, outcome)
  {
    var b := FindBatch(plan.draft.batches, batchIndex);
    if b == |plan.draft.batches| {
      return Failed(NoSuchBatch, None, None);
    }
    if gateway.receipt.None? {
      if nonce.None? {
        return Pending;
      }
      return if gateway.nonceReplaced then Superseded else Pending;
    }
    var mined := gateway.receipt.value;
    if mined.reverted {
      return Failed(Reverted, Some(mined.blockNumber), Some(mined.gasUsed));
    }
    var entries := plan.draft.batches[b].entries;
    var matched := MatchEntries(entries, mined.redemptions, plan.draft, marketKey);
    if matched.Err? {
      return Failed(matched.error, Some(mined.blockNumber), Some(mined.gasUsed));
    }
    MatchLength(entries, mined.redemptions, plan.draft, marketKey);
    var receipts := ReceiptEntries(entries, matched.value);
    var problem := CheckPostState(entries, receipts, gateway, marketKey);
    if problem.Some? {
      return Failed(problem.value, Some(mined.blockNumber), Some(mined.gasUsed));
    }
    return Confirmed(receipts, plan.draft.batches[b].expectedPayout, Sum(receipts, ActualCollateral),
                     Owed(Collaterals(entries), gateway.owed), mined.blockNumber, mined.gasUsed);
  }
}
