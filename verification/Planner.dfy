/**
 * packages/core/src/claims/planner.ts: from verified candidates to a batched redemption plan.
 * Functions say what each stage yields; the methods below fill their arrays and maps in the source's loops
 * and are proved equal to them. Explanation texts are left out of exclusions.
 */
module Planner {
  import opened Wrappers
  import opened Ordering
  import opened Payout

  const MAX_SAFE_INTEGER: nat := 9007199254740991

  datatype ContractStatus = Listed | Trading | Locked | Settling | Resolved | Voided

  datatype Freshness = Fresh | Stale | Unknown

  datatype Market = Market(chainId: nat, binaryModule: string, marketId: string)

  datatype Candidate = Candidate(
    candidateId: string,
    market: Market,
    owner: string,
    venueId: string,
    operatorId: int,
    outcomeIndex: OutcomeIndex,
    tokenId: nat,
    outcomeToken: string,
    amount: nat,
    verifiedBalance: nat,
    pool: string,
    marketNonce: int,
    collateral: string,
    contractStatus: ContractStatus,
    isResolved: bool,
    isVoided: bool,
    settlementFinalized: bool,
    settlementBacking: nat,
    payoutVector: PayoutVector,
    settlementFee: nat,
    alreadyRedeemed: bool,
    freshness: Freshness,
    conflicts: seq<string>,
    evidenceVersion: string)

  datatype Entry = Entry(
    positionIdentity: string,
    marketId: string,
    outcomeIndex: OutcomeIndex,
    tokenId: nat,
    amount: nat,
    verifiedBalance: nat,
    pool: string,
    marketNonce: int,
    collateral: string,
    settlementBacking: nat,
    payoutNumerator: nat,
    payoutDenominator: nat,
    settlementFee: nat,
    expectedPayout: nat,
    evidenceVersion: string,
    candidateIds: seq<string>)

  datatype Reason =
    | IdentityMismatch
    | AlreadyRedeemed
    | StaleEvidence
    | EvidenceConflict
    | NonTerminal
    | NonFinalized
    | ZeroBalance
    | ZeroAmount
    | InvalidPayoutVector
    | ZeroPayout
    | InsufficientBacking
    | DuplicateOverBalance

  datatype Exclusion = Exclusion(
    candidateIds: seq<string>, positionIdentity: string, marketId: string, outcomeIndex: OutcomeIndex, reason: Reason)

  datatype Batch = Batch(index: nat, entries: seq<Entry>, expectedPayout: nat)

  datatype BatchPolicy = BatchPolicy(maxEntries: int, name: string, evidenceReference: string)

  datatype Completeness = Complete | Partial | FailedScan

  datatype Input = Input(
    chainId: nat,
    binaryModule: string,
    outcomeToken: string,
    venueId: string,
    operatorId: int,
    owner: string,
    recipient: string,
    operatorApproved: bool,
    candidates: seq<Candidate>,
    discoveryCompleteness: Completeness,
    verifiedBlock: nat,
    now: nat,
    ttlMs: int,
    batchPolicy: BatchPolicy)

  datatype Draft = Draft(
    chainId: nat,
    binaryModule: string,
    outcomeToken: string,
    venueId: string,
    operatorId: nat,
    owner: string,
    recipient: string,
    approvalRequired: bool,
    entries: seq<Entry>,
    batches: seq<Batch>,
    exclusions: seq<Exclusion>,
    expectedPayout: nat,
    discoveryCompleteness: Completeness,
    verifiedBlock: nat,
    createdAt: nat,
    expiresAt: nat,
    batchPolicy: BatchPolicy)

  datatype Error = BadOperator | BadTtl | BadBatchSize | RecipientIsNotOwner | FeeTooHigh | BadTimestamp

  // ---- identity and order ----

  function Decimal(n: nat): string {
    (if n < 10 then "" else Decimal(n / 10)) + [("0123456789")[n % 10]]
  }

  function PositionIdentity(market: Market, wallet: string, outcomeIndex: nat): string {
    Decimal(market.chainId) + ":" + market.binaryModule + ":" + market.marketId + ":" + wallet + ":"
      + Decimal(outcomeIndex)
  }

  function IdentityOf(c: Candidate): string {
    PositionIdentity(c.market, c.owner, c.outcomeIndex)
  }

  predicate CandidateLeq(a: Candidate, b: Candidate) {
    if a.market.marketId != b.market.marketId then Leq(a.market.marketId, b.market.marketId)
    else if a.outcomeIndex != b.outcomeIndex then a.outcomeIndex < b.outcomeIndex
    else Leq(a.candidateId, b.candidateId)
  }

  function ReasonText(reason: Reason): string {
    match reason
    case IdentityMismatch => "identity_mismatch"
    case AlreadyRedeemed => "already_redeemed"
    case StaleEvidence => "stale_evidence"
    case EvidenceConflict => "evidence_conflict"
    case NonTerminal => "non_terminal"
    case NonFinalized => "non_finalized"
    case ZeroBalance => "zero_balance"
    case ZeroAmount => "zero_amount"
    case InvalidPayoutVector => "invalid_payout_vector"
    case ZeroPayout => "zero_payout"
    case InsufficientBacking => "insufficient_backing"
    case DuplicateOverBalance => "duplicate_over_balance"
  }

  function Joined(ids: seq<string>): string {
    if ids == [] then "" else if |ids| == 1 then ids[0] else Joined(ids[..|ids| - 1]) + ":" + ids[|ids| - 1]
  }

  predicate ExclusionLeq(a: Exclusion, b: Exclusion) {
    if a.marketId != b.marketId then Leq(a.marketId, b.marketId)
    else if a.outcomeIndex != b.outcomeIndex then a.outcomeIndex < b.outcomeIndex
    else if a.reason != b.reason then Leq(ReasonText(a.reason), ReasonText(b.reason))
    else Leq(Joined(a.candidateIds), Joined(b.candidateIds))
  }

  predicate GroupLeq(a: Bucket<Candidate>, b: Bucket<Candidate>) { Leq(a.key, b.key) }

  predicate EntryLeq(a: Entry, b: Entry) { Leq(a.positionIdentity, b.positionIdentity) }

  // ---- deduplication ----

  predicate HasId(candidates: seq<Candidate>, id: string) {
    exists i :: 0 <= i < |candidates| && candidates[i].candidateId == id
  }

  /** The first candidate of every id. */
  function Unique(candidates: seq<Candidate>): seq<Candidate> {
    if candidates == [] then []
    else
      var earlier, c := Unique(candidates[..|candidates| - 1]), candidates[|candidates| - 1];
      if HasId(earlier, c.candidateId) then earlier else earlier + [c]
  }

  // ---- gating ----

  predicate MatchesPlan(c: Candidate, input: Input) {
    && c.market.chainId == input.chainId
    && c.market.binaryModule == input.binaryModule
    && c.outcomeToken == input.outcomeToken
    && c.venueId == input.venueId
    && c.operatorId == input.operatorId
    && c.owner == input.owner
  }

  predicate IsTerminal(status: ContractStatus) {
    status == Resolved || status == Voided
  }

  /** Why a candidate is excluded on its own evidence, or None. */
  function Gate(c: Candidate, input: Input): Option<Reason> {
    if !MatchesPlan(c, input) then Some(IdentityMismatch)
    else if c.alreadyRedeemed then Some(AlreadyRedeemed)
    else if c.freshness != Fresh then Some(StaleEvidence)
    else if |c.conflicts| > 0 then Some(EvidenceConflict)
    else if (c.isResolved && c.contractStatus != Resolved) || (c.isVoided && c.contractStatus != Voided)
            || (c.isResolved && c.isVoided) then Some(EvidenceConflict)
    else if !IsTerminal(c.contractStatus) || (!c.isResolved && !c.isVoided) then Some(NonTerminal)
    else if !c.settlementFinalized then Some(NonFinalized)
    else if c.verifiedBalance == 0 then Some(ZeroBalance)
    else if c.amount == 0 then Some(ZeroAmount)
    else if !ValidVector(c.payoutVector) then Some(InvalidPayoutVector)
    else None
  }

  function Excluded(c: Candidate, reason: Reason): Exclusion {
    Exclusion([c.candidateId], IdentityOf(c), c.market.marketId, c.outcomeIndex, reason)
  }

  function Gated(candidates: seq<Candidate>, input: Input): seq<Exclusion> {
    if candidates == [] then []
    else
      var c := candidates[|candidates| - 1];
      match Gate(c, input)
      case None => Gated(candidates[..|candidates| - 1], input)
      case Some(reason) => Gated(candidates[..|candidates| - 1], input) + [Excluded(c, reason)]
  }

  function Passed(candidates: seq<Candidate>, input: Input): seq<Candidate> {
    if candidates == [] then []
    else
      var c := candidates[|candidates| - 1];
      if Gate(c, input).None? then Passed(candidates[..|candidates| - 1], input) + [c]
      else Passed(candidates[..|candidates| - 1], input)
  }

  // ---- entries ----

  /** The fields whose disagreement within one position is a conflict. */
  datatype Evidence = Evidence(
    verifiedBalance: nat, pool: string, marketNonce: int, collateral: string, settlementBacking: nat,
    payoutVector: PayoutVector, settlementFee: nat, isVoided: bool, evidenceVersion: string)

  function EvidenceOf(c: Candidate): Evidence {
    Evidence(c.verifiedBalance, c.pool, c.marketNonce, c.collateral, c.settlementBacking, c.payoutVector,
             c.settlementFee, c.isVoided, c.evidenceVersion)
  }

  predicate SameEvidence(items: seq<Candidate>) {
    forall i :: 0 <= i < |items| ==> EvidenceOf(items[i]) == EvidenceOf(items[0])
  }

  function Amount(items: seq<Candidate>): nat {
    Sum(items, (c: Candidate) => c.amount)
  }

  function CandidateIds(items: seq<Candidate>): (ids: seq<string>)
    ensures |ids| == |items|
  {
    if items == [] then [] else CandidateIds(items[..|items| - 1]) + [items[|items| - 1].candidateId]
  }

  function SortedIds(items: seq<Candidate>): seq<string> {
    SortBy(CandidateIds(items), Leq)
  }

  function GroupExcluded(group: Bucket<Candidate>, reason: Reason): Exclusion
    requires group.items != []
  {
    var first := group.items[0];
    Exclusion(SortedIds(group.items), group.key, first.market.marketId, first.outcomeIndex, reason)
  }

  datatype Built = Accept(entry: Entry) | Reject(exclusion: Exclusion) | Throw

  /** What a non-empty group of gated candidates of one position becomes. */
  function CreateEntry(group: Bucket<Candidate>): Built
    requires group.items != [] && ValidVector(group.items[0].payoutVector)
  {
    var first, amount := group.items[0], Amount(group.items);
    if !SameEvidence(group.items) then Reject(GroupExcluded(group, EvidenceConflict))
    else if amount > first.verifiedBalance then Reject(GroupExcluded(group, DuplicateOverBalance))
    else
      match CalculatePayout(amount, first.outcomeIndex, first.payoutVector, first.settlementFee)
      case Err(_) => Throw
      case Ok(payout) =>
        PayoutWithinAmount(amount, first.payoutVector.numerators[first.outcomeIndex], first.payoutVector.denominator);
        if payout == 0 then Reject(GroupExcluded(group, ZeroPayout))
        else
          Accept(Entry(group.key, first.market.marketId, first.outcomeIndex, first.tokenId, amount,
                       first.verifiedBalance, first.pool, first.marketNonce, first.collateral, first.settlementBacking,
                       first.payoutVector.numerators[first.outcomeIndex], first.payoutVector.denominator,
                       first.settlementFee, payout, first.evidenceVersion, SortedIds(group.items)))
  }

  ghost predicate Buildable(groups: seq<Bucket<Candidate>>) {
    forall i :: 0 <= i < |groups| ==> groups[i].items != [] && ValidVector(groups[i].items[0].payoutVector)
  }

  /** Entries and exclusions of the groups in order, or the error that aborts the plan. */
  function Build(groups: seq<Bucket<Candidate>>): Result<(seq<Entry>, seq<Exclusion>), Error>
    requires Buildable(groups)
  {
    if groups == [] then Ok(([], []))
    else
      match Build(groups[..|groups| - 1])
      case Err(e) => Err(e)
      case Ok((entries, exclusions)) =>
        match CreateEntry(groups[|groups| - 1])
        case Accept(entry) => Ok((entries + [entry], exclusions))
        case Reject(exclusion) => Ok((entries, exclusions + [exclusion]))
        case Throw => Err(FeeTooHigh)
  }

  // ---- settlement backing ----

  datatype BackingEvidence = BackingEvidence(
    pool: string, marketNonce: int, collateral: string, settlementBacking: nat, evidenceVersion: string)

  function BackingOf(e: Entry): BackingEvidence {
    BackingEvidence(e.pool, e.marketNonce, e.collateral, e.settlementBacking, e.evidenceVersion)
  }

  function Payouts(entries: seq<Entry>): nat {
    Sum(entries, (e: Entry) => e.expectedPayout)
  }

  /** Why all the entries of a market are dropped, or None. */
  function MarketProblem(entries: seq<Entry>): Option<Reason>
    requires entries != []
  {
    if exists i :: 0 <= i < |entries| && BackingOf(entries[i]) != BackingOf(entries[0]) then Some(EvidenceConflict)
    else if Payouts(entries) > entries[0].settlementBacking then Some(InsufficientBacking)
    else None
  }

  function BackingExcluded(e: Entry, reason: Reason): Exclusion {
    Exclusion(e.candidateIds, e.positionIdentity, e.marketId, e.outcomeIndex, reason)
  }

  function AllExcluded(entries: seq<Entry>, reason: Reason): (x: seq<Exclusion>)
    ensures |x| == |entries|
  {
    if entries == [] then []
    else AllExcluded(entries[..|entries| - 1], reason) + [BackingExcluded(entries[|entries| - 1], reason)]
  }

  ghost predicate NonEmpty(markets: seq<Bucket<Entry>>) {
    forall i :: 0 <= i < |markets| ==> markets[i].items != []
  }

  function Backed(markets: seq<Bucket<Entry>>): seq<Entry>
    requires NonEmpty(markets)
  {
    if markets == [] then []
    else
      var m := markets[|markets| - 1].items;
      Backed(markets[..|markets| - 1]) + if MarketProblem(m).None? then m else []
  }

  function Unbacked(markets: seq<Bucket<Entry>>): seq<Exclusion>
    requires NonEmpty(markets)
  {
    if markets == [] then []
    else
      var m := markets[|markets| - 1].items;
      Unbacked(markets[..|markets| - 1])
      + match MarketProblem(m) case None => [] case Some(reason) => AllExcluded(m, reason)
  }

  function MarketOf(e: Entry): string { e.marketId }

  // ---- batches ----

  function Batches(entries: seq<Entry>, maximum: nat, index: nat): seq<Batch>
    requires maximum > 0
  {
    if entries == [] then []
    else
      var size := if maximum < |entries| then maximum else |entries|;
      [Batch(index, entries[..size], Payouts(entries[..size]))] + Batches(entries[size..], maximum, index + 1)
  }

  // ---- the plan ----

  function InputError(input: Input): Option<Error> {
    if input.operatorId < 0 || input.operatorId > MAX_SAFE_INTEGER then Some(BadOperator)
    else if input.ttlMs <= 0 || input.ttlMs > MAX_SAFE_INTEGER then Some(BadTtl)
    else if input.batchPolicy.maxEntries <= 0 || input.batchPolicy.maxEntries > MAX_SAFE_INTEGER then Some(BadBatchSize)
    else if input.recipient != input.owner then Some(RecipientIsNotOwner)
    else None
  }

  function Deduplicated(input: Input): seq<Candidate> {
    Unique(SortBy(input.candidates, CandidateLeq))
  }

  function Groups(candidates: seq<Candidate>, input: Input): seq<Bucket<Candidate>> {
    GroupBy(Passed(candidates, input), IdentityOf)
  }

  function SortedGroups(candidates: seq<Candidate>, input: Input): (groups: seq<Bucket<Candidate>>)
    ensures Buildable(groups)
  {
    GroupsBuildable(candidates, input);
    SortBy(Groups(candidates, input), GroupLeq)
  }

  function Markets(entries: seq<Entry>): (markets: seq<Bucket<Entry>>)
    ensures NonEmpty(markets) && Grouped(markets, MarketOf)
  {
    GroupByGrouped(entries, MarketOf);
    GroupBy(entries, MarketOf)
  }

  function SortedEntries(entries: seq<Entry>): seq<Entry> {
    SortBy(Backed(Markets(entries)), EntryLeq)
  }

  function SortedExclusions(gated: seq<Exclusion>, rejected: seq<Exclusion>, unbacked: seq<Exclusion>): seq<Exclusion> {
    SortBy(gated + rejected + unbacked, ExclusionLeq)
  }

  function Assemble(input: Input, entries: seq<Entry>, batches: seq<Batch>, exclusions: seq<Exclusion>): Draft
    requires InputError(input).None?
  {
    Draft(input.chainId, input.binaryModule, input.outcomeToken, input.venueId, input.operatorId, input.owner,
          input.recipient, !input.operatorApproved, entries, batches, exclusions, Payouts(entries),
          input.discoveryCompleteness, input.verifiedBlock, input.now, input.now + input.ttlMs, input.batchPolicy)
  }

  function DraftOf(input: Input, entries: seq<Entry>, exclusions: seq<Exclusion>): Draft
    requires InputError(input).None?
  {
    Assemble(input, entries, Batches(entries, input.batchPolicy.maxEntries, 0), exclusions)
  }

  /** The last stages, from what gating excluded and what the groups became. */
  function Finish(
    input: Input, gated: seq<Exclusion>, built: Result<(seq<Entry>, seq<Exclusion>), Error>): Result<Draft, Error>
    requires InputError(input).None?
  {
    match built
    case Err(e) => Err(e)
    case Ok((entries, rejected)) =>
      if input.now + input.ttlMs > MAX_SAFE_INTEGER then Err(BadTimestamp)
      else Ok(DraftOf(input, SortedEntries(entries), SortedExclusions(gated, rejected, Unbacked(Markets(entries)))))
  }

  function PlanOf(input: Input): Result<Draft, Error> {
    match InputError(input)
    case Some(e) => Err(e)
    case None =>
      var unique := Deduplicated(input);
      Finish(input, Gated(unique, input), Build(SortedGroups(unique, input)))
  }

  // ---- every group that reaches `createEntry` is non-empty and gated ----

  lemma {:induction false} PassedGate(candidates: seq<Candidate>, input: Input)
    ensures forall c :: c in Passed(candidates, input) ==> Gate(c, input).None? && c in candidates
  {
    if candidates != [] {
      PassedGate(candidates[..|candidates| - 1], input);
    }
  }

  lemma {:induction false} BucketItems<T>(s: seq<T>, key: T -> string)
    ensures forall i, x :: 0 <= i < |GroupBy(s, key)| && x in GroupBy(s, key)[i].items ==> x in s
  {
    if s != [] {
      var front, item := s[..|s| - 1], s[|s| - 1];
      BucketItems(front, key);
      PutItems(GroupBy(front, key), key(item), item);
      assert forall x :: x in front ==> x in s;
    }
  }

  lemma PutItems<T>(buckets: seq<Bucket<T>>, key: string, item: T)
    ensures forall i, x :: 0 <= i < |Put(buckets, key, item)| && x in Put(buckets, key, item)[i].items ==>
                             x == item || exists k :: 0 <= k < |buckets| && x in buckets[k].items
  {
    var put := Put(buckets, key, item);
    forall i, x | 0 <= i < |put| && x in put[i].items
      ensures x == item || exists k :: 0 <= k < |buckets| && x in buckets[k].items
    {
      if i < |buckets| && x != item {
        assert x in buckets[i].items;
      }
    }
  }

  /** A group of candidates that all passed the gate and share the group's identity. */
  ghost predicate GatedGroup(g: Bucket<Candidate>, candidates: seq<Candidate>, input: Input) {
    && g.items != []
    && (forall c :: c in g.items ==> Gate(c, input).None? && c in candidates && IdentityOf(c) == g.key)
  }

  lemma GroupsGated(candidates: seq<Candidate>, input: Input)
    ensures forall i :: 0 <= i < |Groups(candidates, input)| ==>
            GatedGroup(Groups(candidates, input)[i], candidates, input)
  {
    PassedGate(candidates, input);
    BucketItems(Passed(candidates, input), IdentityOf);
    GroupByGrouped(Passed(candidates, input), IdentityOf);
  }

  lemma SortedGroupGated(candidates: seq<Candidate>, input: Input, i: nat)
    requires i < |SortBy(Groups(candidates, input), GroupLeq)|
    ensures GatedGroup(SortBy(Groups(candidates, input), GroupLeq)[i], candidates, input)
  {
    var groups := Groups(candidates, input);
    var g := SortBy(groups, GroupLeq)[i];
    SortContains(groups, GroupLeq, g);
    GroupsGated(candidates, input);
    var k :| 0 <= k < |groups| && groups[k] == g;
  }

  lemma GroupsBuildable(candidates: seq<Candidate>, input: Input)
    ensures Buildable(SortBy(Groups(candidates, input), GroupLeq))
  {
    var sorted := SortBy(Groups(candidates, input), GroupLeq);
    forall i | 0 <= i < |sorted| ensures sorted[i].items != [] && ValidVector(sorted[i].items[0].payoutVector) {
      SortedGroupGated(candidates, input, i);
      assert sorted[i].items[0] in sorted[i].items;
    }
  }

  // ---- the source's loops ----

  method Deduplicate(candidates: seq<Candidate>) returns (unique: seq<Candidate>)
    ensures unique == Unique(SortBy(candidates, CandidateLeq))
  {
    var sorted := SortBy(candidates, CandidateLeq);
    unique := [];
    for i := 0 to |sorted|
      invariant unique == Unique(sorted[..i])
    {
      assert sorted[..i + 1][..i] == sorted[..i];
      if !HasId(unique, sorted[i].candidateId) {
        unique := unique + [sorted[i]];
      }
    }
    assert sorted[..|sorted|] == sorted;
  }

  method GateAndGroup(
    unique: seq<Candidate>, input: Input)
    returns (exclusions: seq<Exclusion>, groups: seq<Bucket<Candidate>>)
    ensures exclusions == Gated(unique, input) && groups == Groups(unique, input)
  {
    exclusions, groups := [], [];
    for i := 0 to |unique|
      invariant exclusions == Gated(unique[..i], input) && groups == Groups(unique[..i], input)
    {
      assert unique[..i + 1][..i] == unique[..i];
      var problem := Gate(unique[i], input);
      if problem.Some? {
        exclusions := exclusions + [Excluded(unique[i], problem.value)];
      } else {
        assert Passed(unique[..i + 1], input) == Passed(unique[..i], input) + [unique[i]];
        groups := Put(groups, IdentityOf(unique[i]), unique[i]);
      }
    }
    assert unique[..|unique|] == unique;
  }

  method BuildEntries(groups: seq<Bucket<Candidate>>) returns (result: Result<(seq<Entry>, seq<Exclusion>), Error>)
    requires Buildable(groups)
    ensures result == Build(groups)
  {
    var entries, exclusions := [], [];
    for i := 0 to |groups|
      invariant Build(groups[..i]) == Ok((entries, exclusions))
    {
      BuildNext(groups, i, entries, exclusions);
      match CreateEntry(groups[i]) {
        case Accept(entry) => entries := entries + [entry];
        case Reject(exclusion) => exclusions := exclusions + [exclusion];
        case Throw =>
          BuildStopsAt(groups, i + 1);
          return Err(FeeTooHigh);
      }
    }
    assert groups[..|groups|] == groups;
    return Ok((entries, exclusions));
  }

  lemma BuildNext(groups: seq<Bucket<Candidate>>, i: nat, entries: seq<Entry>, exclusions: seq<Exclusion>)
    requires Buildable(groups) && i < |groups| && Build(groups[..i]) == Ok((entries, exclusions))
    ensures Build(groups[..i + 1])
            == match CreateEntry(groups[i])
               case Accept(entry) => Ok((entries + [entry], exclusions))
               case Reject(exclusion) => Ok((entries, exclusions + [exclusion]))
               case Throw => Err(FeeTooHigh)
  {
    var taken := groups[..i + 1];
    assert taken[..i] == groups[..i] && taken[i] == groups[i];
  }

  lemma {:induction false} BuildStopsAt(groups: seq<Bucket<Candidate>>, i: nat)
    requires Buildable(groups) && i <= |groups| && Build(groups[..i]).Err?
    ensures Build(groups) == Build(groups[..i])
    decreases |groups|
  {
    if i < |groups| {
      var front := groups[..|groups| - 1];
      assert front[..i] == groups[..i];
      BuildStopsAt(front, i);
    } else {
      assert groups[..i] == groups;
    }
  }

  method ReconcileSettlementBacking(entries: seq<Entry>) returns (accepted: seq<Entry>, exclusions: seq<Exclusion>)
    ensures accepted == Backed(Markets(entries)) && exclusions == Unbacked(Markets(entries))
  {
    var byMarket: seq<Bucket<Entry>> := [];
    for i := 0 to |entries|
      invariant byMarket == GroupBy(entries[..i], MarketOf)
    {
      assert entries[..i + 1][..i] == entries[..i];
      byMarket := Put(byMarket, entries[i].marketId, entries[i]);
    }
    assert entries[..|entries|] == entries;
    assert byMarket == Markets(entries);
    accepted, exclusions := [], [];
    for k := 0 to |byMarket|
      invariant accepted == Backed(byMarket[..k]) && exclusions == Unbacked(byMarket[..k])
    {
      assert byMarket[..k + 1][..k] == byMarket[..k];
      var market := byMarket[k].items;
      var problem := MarketProblem(market);
      if problem.Some? {
        exclusions := exclusions + AllExcluded(market, problem.value);
      } else {
        accepted := accepted + market;
      }
    }
    assert byMarket[..|byMarket|] == byMarket;
  }

  method CreateBatches(entries: seq<Entry>, maximum: nat) returns (batches: seq<Batch>)
    requires maximum > 0
    ensures batches == Batches(entries, maximum, 0)
  {
    batches := [];
    var offset := 0;
    while offset < |entries|
      invariant offset <= |entries|
      invariant batches + Batches(entries[offset..], maximum, |batches|) == Batches(entries, maximum, 0)
    {
      var end := if offset + maximum < |entries| then offset + maximum else |entries|;
      var batch := Batch(|batches|, entries[offset..end], Payouts(entries[offset..end]));
      NextBatch(entries, offset, end, maximum, |batches|);
      Reassociate(batches, [batch], Batches(entries[end..], maximum, |batches| + 1));
      batches := batches + [batch];
      offset := end;
    }
  }

  lemma Reassociate<T>(a: seq<T>, b: seq<T>, c: seq<T>)
    ensures a + (b + c) == (a + b) + c
  {}

  lemma NextBatch(entries: seq<Entry>, offset: nat, end: nat, maximum: nat, index: nat)
    requires maximum > 0 && offset < |entries|
    requires end == if offset + maximum < |entries| then offset + maximum else |entries|
    ensures Batches(entries[offset..], maximum, index)
            == [Batch(index, entries[offset..end], Payouts(entries[offset..end]))]
              + Batches(entries[end..], maximum, index + 1)
  {
    var rest := entries[offset..];
    assert rest[..end - offset] == entries[offset..end] && rest[end - offset..] == entries[end..];
  }

  method PrepareClaimPlan(input: Input) returns (result: Result<Draft, Error>)
    ensures result == PlanOf(input)
  {
    var problem := InputError(input);
    if problem.Some? {
      return Err(problem.value);
    }
    var unique := Deduplicate(input.candidates);
    var gated, groups := GateAndGroup(unique, input);
    var built := BuildEntries(SortedGroups(unique, input));
    if built.Err? {
      return Err(built.error);
    }
    result := FinishPlan(input, gated, built.value.0, built.value.1);
  }

  method FinishPlan(input: Input, gated: seq<Exclusion>, built: seq<Entry>, rejected: seq<Exclusion>)
    returns (result: Result<Draft, Error>)
    requires InputError(input).None?
    ensures result == Finish(input, gated, Ok((built, rejected)))
  {
    var accepted, unbacked := ReconcileSettlementBacking(built);
    var entries := SortBy(accepted, EntryLeq);
    var batches := CreateBatches(entries, input.batchPolicy.maxEntries);
    if input.now + input.ttlMs > MAX_SAFE_INTEGER {
      return Err(BadTimestamp);
    }
    var exclusions := SortBy(gated + rejected + unbacked, ExclusionLeq);
    assert entries == SortedEntries(built) && exclusions == SortedExclusions(gated, rejected, Unbacked(Markets(built)));
    return Ok(Assemble(input, entries, batches, exclusions));
  }
}
