/**
 * The read side in fields: what a reconciled record takes from chain and indexer, and what a row becomes, without the
 * functions the read is computed with.
 */
module ReadFields {
  import opened Markets
  import Ordering
  import opened OutcomeBalances
  import opened Payout
  import P = Planner
  import opened PlanFields
  import opened ReadSide
  import opened Wrappers

  // ---- the record of a market ----

  /** The number the chain has for a status. */
  predicate Numbered(n: nat, status: P.ContractStatus) {
    match status
    case Listed => n == 0
    case Trading => n == 1
    case Locked => n == 2
    case Settling => n == 3
    case Resolved => n == 4
    case Voided => n == 5
  }

  /** What a record takes from the chain: wiring, flags and status, then the settlement's money once it is final. */
  predicate FromChain(m: MarketRecord, b: Bundle, denominator: nat) {
    && Numbered(b.onchain.status, m.contractStatus)
    && m.isResolved == b.onchain.isResolved && m.isVoided == b.onchain.isVoided
    && m.settlementFinalized == b.settlement.finalized
    && m.pool == b.onchain.pool && m.marketNonce == b.onchain.nonce && m.outcomeToken == b.onchain.outcomeToken
    && m.collateral == b.onchain.collateral && m.yesTokenId == b.onchain.yesId && m.noTokenId == b.onchain.noId
    && m.verifiedBlock == b.headBlock
    && (if b.settlement.finalized then
          m.backing == b.settlement.backing && m.fee == Some(b.settlement.fee)
          && VectorIs(m.payoutVector, b.settlement.payoutNumerators, denominator)
        else
          m.backing == b.onchain.backing && m.fee == None
          && VectorIs(m.payoutVector, b.directPayoutNumerators, denominator))
  }

  /** No vector without numerators, and otherwise these over the denominator. */
  predicate VectorIs(v: Option<PayoutVector>, numerators: seq<nat>, denominator: nat) {
    match v
    case None => numerators == []
    case Some(v) =>
      && numerators != [] && v.denominator == denominator && |v.numerators| == |numerators|
      && forall i :: 0 <= i < |numerators| ==> v.numerators[i] == numerators[i]
  }

  /** The indexer's word or number for a status. */
  predicate StatusWord(s: string, status: P.ContractStatus) {
    match status
    case Listed => s == "listed" || s == "0"
    case Trading => s == "trading" || s == "1"
    case Locked => s == "locked" || s == "2"
    case Settling => s == "settling" || s == "3"
    case Resolved => s == "resolved" || s == "4"
    case Voided => s == "voided" || s == "5"
  }

  /** The indexer says what the record says. */
  predicate FromIndexer(m: MarketRecord, b: Bundle) {
    && b.indexed.marketAddress == b.onchain.marketAddress && b.indexed.pool == m.pool
    && b.indexed.collateral == m.collateral
    && (b.indexed.nonce.Some? ==> b.indexed.nonce == Some(m.marketNonce))
    && b.indexed.yesTokenId == m.yesTokenId && b.indexed.noTokenId == m.noTokenId
    && (if m.settlementFinalized then b.indexed.status == "finalized"
        else StatusWord(b.indexed.status, m.contractStatus))
  }

  /** The chain does not contradict itself: flags follow the status, and only a result is finalized. */
  predicate Coherent(m: MarketRecord) {
    && (m.isResolved <==> m.contractStatus == P.Resolved) && (m.isVoided <==> m.contractStatus == P.Voided)
    && (m.settlementFinalized ==> m.isResolved || m.isVoided)
  }

  /** A finalized settlement is of this market and says what its event and the market's own vector say. */
  predicate Witnessed(m: MarketRecord, b: Bundle) {
    m.settlementFinalized ==>
      && b.settlement.pool == m.pool && b.settlement.nonce == m.marketNonce && b.settlement.collateral == m.collateral
      && b.event.Some? && b.event.value.nonce == m.marketNonce && m.backing <= b.event.value.netBacking
      && b.event.value.payoutNumerators == b.settlement.payoutNumerators
      && (b.directPayoutNumerators != [] ==> b.directPayoutNumerators == b.settlement.payoutNumerators)
  }

  /**
   * What a record says: always what the chain says; and it has no conflict if and only if the indexer says the same,
   * the chain is coherent and a finalized settlement is witnessed by its event.
   */
  lemma RecordInFields(m: MarketRecord, b: Bundle, chainId: nat, binaryModule: string, denominator: nat)
    requires Reconciled(m, b, chainId, binaryModule, denominator)
    ensures m.identity == P.Market(chainId, binaryModule, b.indexed.marketId)
    ensures m.operatorId == b.indexed.operatorId && m.venueId == b.indexed.venueId
    ensures FromChain(m, b, denominator)
    ensures m.conflicts == [] <==> FromIndexer(m, b) && Coherent(m) && Witnessed(m, b)
  {}

  /** Reconciling throws for a chain status beyond five, and for a word that no status has if it is looked at. */
  lemma ThrowsInFields(b: Bundle)
    ensures Throws(b) <==>
              || b.onchain.status > 5
              || (!b.settlement.finalized && b.indexed.status != "finalized"
                  && forall status :: !StatusWord(b.indexed.status, status))
  {
    if StatusText(b.indexed.status).Some? {
      assert StatusWord(b.indexed.status, StatusText(b.indexed.status).value);
    }
  }

  // ---- the state of a position ----

  /** The market has a result: its status is terminal and one of the flags is set. */
  predicate HasResult(m: MarketRecord) {
    (m.contractStatus == P.Resolved || m.contractStatus == P.Voided) && (m.isResolved || m.isVoided)
  }

  /** Which state each position is in; what the wallet already did comes first. */
  lemma StateInFields(m: MarketRecord, payoutNumerator: int, claim: ClaimStatus, owed: nat)
    ensures var state := DeriveState(m, payoutNumerator, claim, owed);
            && (state == PayoutOwed <==> owed > 0)
            && (state == Redeemed <==> owed == 0 && claim == ClaimConfirmed)
            && (state == ClaimSubmitted <==> owed == 0 && claim == ClaimSent)
    ensures owed == 0 && claim == NoClaim ==>
              var state := DeriveState(m, payoutNumerator, claim, owed);
              && (state == Open <==> m.contractStatus == P.Listed || m.contractStatus == P.Trading)
              && (state == LockedState <==> state != Open && !HasResult(m))
              && (state == Losing <==> HasResult(m) && payoutNumerator == 0)
              && (state == WinningUnfinalized <==>
                    HasResult(m) && payoutNumerator != 0 && !m.settlementFinalized)
              && (state == VoidRefundable <==>
                    HasResult(m) && payoutNumerator != 0 && m.settlementFinalized && m.isVoided)
              && (state == Claimable <==>
                    HasResult(m) && payoutNumerator != 0 && m.settlementFinalized && !m.isVoided)
  {}

  // ---- what a row becomes ----

  /** The token of the row's outcome. */
  function OutcomeToken(m: MarketRecord, outcome: nat): nat {
    match outcome case 0 => m.yesTokenId case _ => m.noTokenId
  }

  /** The row is the wallet's, of a binary market that was read, with a vector that can be paid out or none. */
  predicate RowReadable(wallet: string, row: Row, markets: map<string, MarketRecord>) {
    && row.account == wallet && (row.outcomeIndex == 0 || row.outcomeIndex == 1)
    && row.market.Some? && row.market.value in markets
    && (markets[row.market.value].payoutVector.Some? ==> PayingVector(markets[row.market.value].payoutVector.value))
  }

  /** What a holding pays out: nothing without a vector, otherwise its share of the balance. */
  function Due(m: MarketRecord, outcome: OutcomeIndex, balance: nat): int
    requires m.payoutVector.Some? ==> PayingVector(m.payoutVector.value)
  {
    match m.payoutVector
    case None => 0
    case Some(v) => balance * v.numerators[outcome] / v.denominator
  }

  function NumeratorFor(m: MarketRecord, outcome: OutcomeIndex): int
    requires m.payoutVector.Some? ==> PayingVector(m.payoutVector.value)
  {
    match m.payoutVector case None => 0 case Some(v) => v.numerators[outcome]
  }

  /** Which rows become positions, and what these say: the chain's balance, not the indexer's, and what it pays. */
  lemma PositionOfRow(wallet: string, row: Row, markets: map<string, MarketRecord>, balanceOf: nat -> nat)
    ensures BuildOf(wallet, row, markets, balanceOf).Built? <==> RowReadable(wallet, row, markets)
    ensures RowReadable(wallet, row, markets) ==>
              var m := markets[row.market.value];
              var p := BuildOf(wallet, row, markets, balanceOf).position;
              && p.marketId == m.identity.marketId && p.outcomeIndex == row.outcomeIndex
              && p.identity == P.PositionIdentity(m.identity, wallet, row.outcomeIndex)
              && p.tokenId == OutcomeToken(m, row.outcomeIndex) && p.verifiedBalance == balanceOf(p.tokenId)
              && p.expectedPayout == Due(m, row.outcomeIndex, p.verifiedBalance)
              && p.state == DeriveState(m, NumeratorFor(m, row.outcomeIndex), NoClaim, 0)
  {
    if row.market.Some? && row.market.value in markets && markets[row.market.value].payoutVector.Some? {
      VectorInFields(markets[row.market.value].payoutVector.value);
    }
  }

  /** The row and the market's evidence agree, and everything a claim needs is known. */
  predicate Provable(row: Row, m: MarketRecord, balance: nat) {
    && m.payoutVector.Some? && m.fee.Some? && m.venueId.Some? && m.operatorId.Some? && m.conflicts == []
    && row.tokenId == OutcomeToken(m, row.outcomeIndex) && row.balance == balance
  }

  /** The assessment of a row says what row, record and chain say, and asks for the whole balance. */
  predicate AssessmentOf(a: P.Candidate, wallet: string, row: Row, m: MarketRecord, balance: nat) {
    && a.candidateId == row.id && a.market == m.identity && a.owner == wallet
    && Some(a.venueId) == m.venueId && m.operatorId.Some? && a.operatorId == m.operatorId.value
    && a.outcomeIndex == row.outcomeIndex && a.tokenId == OutcomeToken(m, row.outcomeIndex)
    && a.outcomeToken == m.outcomeToken && a.amount == balance && a.verifiedBalance == balance
    && a.pool == m.pool && a.marketNonce == m.marketNonce && a.collateral == m.collateral
    && a.contractStatus == m.contractStatus && a.isResolved == m.isResolved && a.isVoided == m.isVoided
    && a.settlementFinalized == m.settlementFinalized && a.settlementBacking == m.backing
    && Some(a.payoutVector) == m.payoutVector && Some(a.settlementFee) == m.fee
    && (a.alreadyRedeemed <==> balance == 0) && a.freshness == P.Fresh && a.conflicts == []
    && a.evidenceVersion == m.evidenceVersion
  }

  /**
   * Which positions are assessed and which are candidates: an assessment needs agreeing evidence and a finalized fee; a
   * candidate is an assessment that is claimable or refundable and pays something.
   */
  lemma AssessmentOfRow(wallet: string, row: Row, markets: map<string, MarketRecord>, balanceOf: nat -> nat)
    requires RowReadable(wallet, row, markets)
    ensures var m, built := markets[row.market.value], BuildOf(wallet, row, markets, balanceOf);
            && built.Built?
            && var balance := balanceOf(OutcomeToken(m, row.outcomeIndex));
            && (built.assessment.Some? <==> Provable(row, m, balance))
            && (built.assessment.Some? ==> AssessmentOf(built.assessment.value, wallet, row, m, balance))
            && (built.candidate.Some? <==>
                  && Provable(row, m, balance) && HasResult(m) && m.settlementFinalized
                  && Due(m, row.outcomeIndex, balance) > 0)
            && (built.candidate.Some? ==> built.candidate == built.assessment)
  {
    PositionOfRow(wallet, row, markets, balanceOf);
    var m := markets[row.market.value];
    StateInFields(m, NumeratorFor(m, row.outcomeIndex), NoClaim, 0);
    NothingDue(m, row.outcomeIndex, balanceOf(OutcomeToken(m, row.outcomeIndex)));
  }

  lemma NothingDue(m: MarketRecord, outcome: OutcomeIndex, balance: nat)
    requires m.payoutVector.Some? ==> PayingVector(m.payoutVector.value)
    ensures Due(m, outcome, balance) > 0 ==> NumeratorFor(m, outcome) != 0
  {}

  // ---- the inbox ----

  function Shown(known: set<string>): WalletPosition -> nat {
    (p: WalletPosition) =>
      if p.marketId in known && p.state in [Claimable, VoidRefundable, PayoutOwed] then p.expectedPayout else 0
  }

  /** The inbox's total is the expected payout of the shown positions one can claim, be refunded or is owed. */
  lemma {:induction false} InboxTotal(positions: seq<WalletPosition>, known: set<string>)
    ensures ClaimableRaw(positions, known) == Ordering.Sum(positions, Shown(known))
  {
    if positions != [] {
      InboxTotal(positions[..|positions| - 1], known);
    }
  }

  /** The places of the rows of known markets whose state is counted. */
  ghost function Counted(positions: seq<WalletPosition>, known: set<string>, counted: State -> bool): set<nat> {
    set i: nat | i < |positions| && positions[i].marketId in known && counted(positions[i].state)
  }

  /** A count of the inbox is the number of rows of known markets in a counted state. */
  lemma {:induction false} InboxCounts(positions: seq<WalletPosition>, known: set<string>, counted: State -> bool)
    ensures CountIn(positions, known, counted) == |Counted(positions, known, counted)|
  {
    if positions == [] {
      assert Counted(positions, known, counted) == {};
    } else {
      var n: nat := |positions| - 1;
      var front := Counted(positions[..n], known, counted);
      InboxCounts(positions[..n], known, counted);
      var p := positions[n];
      assert Counted(positions, known, counted)
          == front + if p.marketId in known && counted(p.state) then {n} else {};
    }
  }
}
