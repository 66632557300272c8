/**
 * packages/core/src/markets/lifecycle.ts and packages/dreamdex/src/reconcile/market.ts: what the indexer says about
 * a market is compared with the chain, and every disagreement becomes a conflict. Addresses and status texts are
 * lower case and trimmed; evidence sources, display fields and oracle values are left out.
 */
module Markets {
  import opened Payout
  import opened Planner
  import opened Wrappers

  datatype LifecycleConflict =
    | ResolvedAndVoided
    | ResolvedFlagDisagrees
    | VoidedFlagDisagrees
    | ResolvedFlagMissing
    | VoidedFlagMissing
    | FinalizedBeforeTerminal
    | IndexedFinalizedOnly

  datatype Conflict =
    | MarketAddressDiffers
    | PoolDiffers
    | CollateralDiffers
    | NonceDiffers
    | TokenIdsDiffer
    | IndexedStatusDiffers
    | LifecycleDiffers(reason: LifecycleConflict)
    | SettlementPoolDiffers
    | SettlementNonceDiffers
    | SettlementCollateralDiffers
    | SettlementVectorDiffers
    | FinalizationEventMissing
    | EventNonceDiffers
    | BackingAboveNet
    | EventVectorDiffers
    | RowTokenDiffers
    | RowBalanceDiffers

  datatype RangeError = UnknownStatus

  // ---- statuses ----

  function StatusNumber(n: nat): Option<ContractStatus> {
    match n
    case 0 => Some(Listed)
    case 1 => Some(Trading)
    case 2 => Some(Locked)
    case 3 => Some(Settling)
    case 4 => Some(Resolved)
    case 5 => Some(Voided)
    case _ => None
  }

  function StatusText(s: string): Option<ContractStatus> {
    match s
    case "listed" => Some(Listed)
    case "trading" => Some(Trading)
    case "locked" => Some(Locked)
    case "settling" => Some(Settling)
    case "resolved" => Some(Resolved)
    case "voided" => Some(Voided)
    case "0" => Some(Listed)
    case "1" => Some(Trading)
    case "2" => Some(Locked)
    case "3" => Some(Settling)
    case "4" => Some(Resolved)
    case "5" => Some(Voided)
    case _ => None
  }

  // ---- lifecycle ----

  datatype Lifecycle = Lifecycle(
    contractStatus: ContractStatus, settlementFinalized: bool, isResolved: bool, isVoided: bool, indexedStatus: string)

  method ReconcileMarketLifecycle(l: Lifecycle) returns (conflicts: seq<LifecycleConflict>, terminal: bool)
    ensures terminal == (l.isResolved || l.isVoided)
    ensures conflicts == [] <==> Consistent(l)
    ensures forall x :: x in conflicts <==> LifecycleProblem(x, l)
  {
    conflicts := [];
    terminal := l.isResolved || l.isVoided;
    if l.isResolved && l.isVoided {
      conflicts := conflicts + [ResolvedAndVoided];
    }
    if l.isResolved && l.contractStatus != Resolved {
      conflicts := conflicts + [ResolvedFlagDisagrees];
    }
    if l.isVoided && l.contractStatus != Voided {
      conflicts := conflicts + [VoidedFlagDisagrees];
    }
    if l.contractStatus == Resolved && !l.isResolved {
      conflicts := conflicts + [ResolvedFlagMissing];
    }
    if l.contractStatus == Voided && !l.isVoided {
      conflicts := conflicts + [VoidedFlagMissing];
    }
    if l.settlementFinalized && !terminal {
      conflicts := conflicts + [FinalizedBeforeTerminal];
    }
    if l.indexedStatus == "finalized" && !l.settlementFinalized {
      conflicts := conflicts + [IndexedFinalizedOnly];
    }
  }

  /** The flags say exactly what the status says, and nothing is finalized before its result. */
  predicate Consistent(l: Lifecycle) {
    && (l.isResolved <==> l.contractStatus == Resolved)
    && (l.isVoided <==> l.contractStatus == Voided)
    && (l.settlementFinalized ==> IsTerminal(l.contractStatus))
    && (l.indexedStatus == "finalized" ==> l.settlementFinalized)
  }

  // ---- reconciliation with the chain ----

  datatype Indexed = Indexed(
    marketId: string, marketAddress: string, pool: string, collateral: string, nonce: Option<int>,
    yesTokenId: nat, noTokenId: nat, status: string, operatorId: Option<nat>, venueId: Option<string>)

  datatype OnChain = OnChain(
    marketAddress: string, pool: string, collateral: string, outcomeToken: string, nonce: int, yesId: nat, noId: nat,
    status: nat, isResolved: bool, isVoided: bool, backing: nat)

  datatype Settlement = Settlement(
    finalized: bool, pool: string, nonce: int, collateral: string, payoutNumerators: seq<nat>, backing: nat, fee: nat)

  datatype FinalizationEvent = FinalizationEvent(nonce: int, netBacking: nat, payoutNumerators: seq<nat>)

  datatype Bundle = Bundle(
    indexed: Indexed, onchain: OnChain, settlement: Settlement, event: Option<FinalizationEvent>,
    directPayoutNumerators: seq<nat>, headBlock: nat)

  /** A reconciled market; its wiring and backing are always verified, the vector and the fee may be missing. */
  datatype MarketRecord = MarketRecord(
    identity: Market, contractStatus: ContractStatus, settlementFinalized: bool, isResolved: bool, isVoided: bool,
    pool: string, marketNonce: int, outcomeToken: string, collateral: string, yesTokenId: nat, noTokenId: nat,
    payoutVector: Option<PayoutVector>, backing: nat, fee: Option<nat>, conflicts: seq<Conflict>,
    operatorId: Option<nat>, venueId: Option<string>, evidenceVersion: string, verifiedBlock: nat)

  const EVIDENCE_VERSION := "claimrail-dreamdex-reconciliation/v1"

  function Numerators(numerators: seq<nat>): (r: seq<int>)
    ensures |r| == |numerators| && forall i :: 0 <= i < |r| ==> r[i] == numerators[i]
  {
    seq(|numerators|, i requires 0 <= i < |numerators| => numerators[i])
  }

  function LifecycleOf(b: Bundle, status: ContractStatus): Lifecycle {
    Lifecycle(status, b.settlement.finalized, b.onchain.isResolved, b.onchain.isVoided, b.indexed.status)
  }

  /** Indexer and module agree on the market's wiring. */
  predicate WiringAgrees(b: Bundle) {
    && b.indexed.marketAddress == b.onchain.marketAddress && b.indexed.pool == b.onchain.pool
    && b.indexed.collateral == b.onchain.collateral
    && (b.indexed.nonce.Some? ==> b.indexed.nonce.value == b.onchain.nonce)
    && b.indexed.yesTokenId == b.onchain.yesId && b.indexed.noTokenId == b.onchain.noId
  }

  /** The indexer calls the market finalized exactly when it is, and otherwise knows its status. */
  predicate IndexedStatusAgrees(b: Bundle, status: ContractStatus) {
    && (b.indexed.status == "finalized" <==> b.settlement.finalized)
    && (b.indexed.status != "finalized" ==> StatusText(b.indexed.status) == Some(status))
  }

  /** A finalized settlement agrees with the module, with the market's own vector and with its event. */
  predicate SettlementAgrees(b: Bundle) {
    var s := b.settlement;
    s.finalized ==>
      && s.pool == b.onchain.pool && s.nonce == b.onchain.nonce && s.collateral == b.onchain.collateral
      && (b.directPayoutNumerators != [] ==> s.payoutNumerators == b.directPayoutNumerators)
      && b.event.Some? && b.event.value.nonce == s.nonce && s.backing <= b.event.value.netBacking
      && b.event.value.payoutNumerators == s.payoutNumerators
  }

  /** `normalizeContractStatus` is asked for the indexed status only when that can still agree. */
  predicate Throws(b: Bundle) {
    || StatusNumber(b.onchain.status).None?
    || (b.indexed.status != "finalized" && !b.settlement.finalized && StatusText(b.indexed.status).None?)
  }

  /** What the indexer says wrongly about the market's wiring. */
  predicate WiringConflict(x: Conflict, b: Bundle) {
    match x
    case MarketAddressDiffers => b.indexed.marketAddress != b.onchain.marketAddress
    case PoolDiffers => b.indexed.pool != b.onchain.pool
    case CollateralDiffers => b.indexed.collateral != b.onchain.collateral
    case NonceDiffers => b.indexed.nonce.Some? && b.indexed.nonce.value != b.onchain.nonce
    case TokenIdsDiffer => b.indexed.yesTokenId != b.onchain.yesId || b.indexed.noTokenId != b.onchain.noId
    case _ => false
  }

  /** What disagrees about a finalized settlement. */
  predicate SettlementConflict(x: Conflict, b: Bundle) {
    var s := b.settlement;
    && s.finalized
    && match x
       case SettlementPoolDiffers => s.pool != b.onchain.pool
       case SettlementNonceDiffers => s.nonce != b.onchain.nonce
       case SettlementCollateralDiffers => s.collateral != b.onchain.collateral
       case SettlementVectorDiffers =>
         |b.directPayoutNumerators| > 0 && s.payoutNumerators != b.directPayoutNumerators
       case FinalizationEventMissing => b.event.None?
       case EventNonceDiffers => b.event.Some? && b.event.value.nonce != s.nonce
       case BackingAboveNet => b.event.Some? && s.backing > b.event.value.netBacking
       case EventVectorDiffers => b.event.Some? && b.event.value.payoutNumerators != s.payoutNumerators
       case _ => false
  }

  /** What a disagreement in the lifecycle is. */
  predicate LifecycleProblem(x: LifecycleConflict, l: Lifecycle) {
    match x
    case ResolvedAndVoided => l.isResolved && l.isVoided
    case ResolvedFlagDisagrees => l.isResolved && l.contractStatus != Resolved
    case VoidedFlagDisagrees => l.isVoided && l.contractStatus != Voided
    case ResolvedFlagMissing => l.contractStatus == Resolved && !l.isResolved
    case VoidedFlagMissing => l.contractStatus == Voided && !l.isVoided
    case FinalizedBeforeTerminal => l.settlementFinalized && !l.isResolved && !l.isVoided
    case IndexedFinalizedOnly => l.indexedStatus == "finalized" && !l.settlementFinalized
  }

  /** Which conflicts a bundle has, and no others. */
  predicate Conflicting(x: Conflict, b: Bundle, status: ContractStatus) {
    || WiringConflict(x, b) || SettlementConflict(x, b)
    || (x.IndexedStatusDiffers?
        && if b.indexed.status == "finalized" || b.settlement.finalized
           then !(b.indexed.status == "finalized" && b.settlement.finalized)
           else StatusText(b.indexed.status) != Some(status))
    || (x.LifecycleDiffers? && LifecycleProblem(x.reason, LifecycleOf(b, status)))
  }

  /** The record of a bundle; it has no conflict exactly when wiring, status, lifecycle and settlement agree. */
  ghost predicate Reconciled(m: MarketRecord, b: Bundle, chainId: nat, binaryModule: string, denominator: nat) {
    && !Throws(b)
    && var status := StatusNumber(b.onchain.status).value;
       && m == RecordOf(b, status, m.conflicts, chainId, binaryModule, denominator)
       && (forall x :: x in m.conflicts <==> Conflicting(x, b, status))
       && (m.conflicts == [] <==>
           && WiringAgrees(b) && IndexedStatusAgrees(b, status)
           && Consistent(LifecycleOf(b, status)) && SettlementAgrees(b))
  }

  method ReconcileDreamDexMarket(
    b: Bundle, chainId: nat, binaryModule: string, denominator: nat)
    returns (r: Result<MarketRecord, RangeError>)
    ensures r.Err? <==> Throws(b)
    ensures r.Ok? ==> Reconciled(r.value, b, chainId, binaryModule, denominator)
  {
    var conflicts := CompareWiring(b);
    var status := StatusNumber(b.onchain.status);
    if status.None? {
      return Err(UnknownStatus);
    }
    var indexedFinalized := b.indexed.status == "finalized";
    if indexedFinalized != b.settlement.finalized {
      conflicts := conflicts + [IndexedStatusDiffers];
    } else if !indexedFinalized {
      var indexed := StatusText(b.indexed.status);
      if indexed.None? {
        return Err(UnknownStatus);
      }
      if indexed.value != status.value {
        conflicts := conflicts + [IndexedStatusDiffers];
      }
    }
    var lifecycle, _ := ReconcileMarketLifecycle(LifecycleOf(b, status.value));
    ghost var before := conflicts;
    for i := 0 to |lifecycle|
      invariant conflicts == [] <==> before == [] && i == 0
      invariant forall x :: x in conflicts <==> x in before || (x.LifecycleDiffers? && x.reason in lifecycle[..i])
    {
      conflicts := conflicts + [LifecycleDiffers(lifecycle[i])];
    }
    var settlement := CompareSettlement(b);
    conflicts := conflicts + settlement;
    return Ok(RecordOf(b, status.value, conflicts, chainId, binaryModule, denominator));
  }

  method CompareWiring(b: Bundle) returns (conflicts: seq<Conflict>)
    ensures conflicts == [] <==> WiringAgrees(b)
    ensures forall x :: x in conflicts <==> WiringConflict(x, b)
  {
    conflicts := [];
    if b.indexed.marketAddress != b.onchain.marketAddress {
      conflicts := conflicts + [MarketAddressDiffers];
    }
    if b.indexed.pool != b.onchain.pool {
      conflicts := conflicts + [PoolDiffers];
    }
    if b.indexed.collateral != b.onchain.collateral {
      conflicts := conflicts + [CollateralDiffers];
    }
    if b.indexed.nonce.Some? && b.indexed.nonce.value != b.onchain.nonce {
      conflicts := conflicts + [NonceDiffers];
    }
    if b.indexed.yesTokenId != b.onchain.yesId || b.indexed.noTokenId != b.onchain.noId {
      conflicts := conflicts + [TokenIdsDiffer];
    }
  }

  method CompareSettlement(b: Bundle) returns (conflicts: seq<Conflict>)
    ensures conflicts == [] <==> SettlementAgrees(b)
    ensures forall x :: x in conflicts <==> SettlementConflict(x, b)
  {
    conflicts := [];
    var s := b.settlement;
    if !s.finalized {
      return;
    }
    if s.pool != b.onchain.pool {
      conflicts := conflicts + [SettlementPoolDiffers];
    }
    if s.nonce != b.onchain.nonce {
      conflicts := conflicts + [SettlementNonceDiffers];
    }
    if s.collateral != b.onchain.collateral {
      conflicts := conflicts + [SettlementCollateralDiffers];
    }
    if |b.directPayoutNumerators| > 0 && s.payoutNumerators != b.directPayoutNumerators {
      conflicts := conflicts + [SettlementVectorDiffers];
    }
    if b.event.None? {
      conflicts := conflicts + [FinalizationEventMissing];
    } else {
      var event := b.event.value;
      if event.nonce != s.nonce {
        conflicts := conflicts + [EventNonceDiffers];
      }
      if s.backing > event.netBacking {
        conflicts := conflicts + [BackingAboveNet];
      }
      if event.payoutNumerators != s.payoutNumerators {
        conflicts := conflicts + [EventVectorDiffers];
      }
    }
  }

  /** Payout vector, backing and fee come from the settlement once it is finalized, from the market before. */
  function RecordOf(
    b: Bundle, status: ContractStatus, conflicts: seq<Conflict>, chainId: nat, binaryModule: string,
    denominator: nat): MarketRecord {
    var numerators := if b.settlement.finalized then b.settlement.payoutNumerators else b.directPayoutNumerators;
    MarketRecord(
      Market(chainId, binaryModule, b.indexed.marketId), status, b.settlement.finalized, b.onchain.isResolved,
      b.onchain.isVoided,
      b.onchain.pool, b.onchain.nonce, b.onchain.outcomeToken, b.onchain.collateral, b.onchain.yesId, b.onchain.noId,
      if numerators == [] then None else Some(PayoutVector(Numerators(numerators), denominator)),
      if b.settlement.finalized then b.settlement.backing else b.onchain.backing,
      if b.settlement.finalized then Some(b.settlement.fee) else None,
      conflicts, b.indexed.operatorId, b.indexed.venueId, EVIDENCE_VERSION, b.headBlock)
  }

  /** What a record without conflicts guarantees the planner. */
  predicate CleanRecord(m: MarketRecord) {
    m.conflicts == [] ==>
      && (m.isResolved <==> m.contractStatus == Resolved) && (m.isVoided <==> m.contractStatus == Voided)
      && (m.settlementFinalized ==> IsTerminal(m.contractStatus))
      && (m.fee.Some? <==> m.settlementFinalized)
  }

  /** Every reconciled market is clean: without conflicts, status and flags agree. */
  lemma ReconciledIsClean(
    b: Bundle, status: ContractStatus, conflicts: seq<Conflict>, chainId: nat, binaryModule: string,
    denominator: nat)
    requires conflicts == [] ==> Consistent(LifecycleOf(b, status))
    ensures CleanRecord(RecordOf(b, status, conflicts, chainId, binaryModule, denominator))
  {}
}
