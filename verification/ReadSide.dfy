/**
 * packages/dreamdex/src/services/claimrail.ts, packages/core/src/positions/derive.ts and
 * packages/ui/src/inbox/view-model.ts: what a wallet is shown, and what is handed to the planner.
 */
module ReadSide {
  import opened Markets
  import opened OutcomeBalances
  import opened Payout
  import P = Planner
  import opened Wrappers

  datatype State =
    | Open | LockedState | WinningUnfinalized | Claimable | Losing | VoidRefundable
    | ClaimSubmitted | Redeemed | PayoutOwed

  datatype ClaimStatus = NoClaim | ClaimSent | ClaimConfirmed

  datatype WalletPosition = WalletPosition(
    identity: string, marketId: string, outcomeIndex: OutcomeIndex, tokenId: nat, verifiedBalance: nat, state: State,
    expectedPayout: nat)

  datatype Built = Failure | Built(position: WalletPosition, assessment: Option<P.Candidate>,
                                   candidate: Option<P.Candidate>)

  /** `deriveWalletPositionState` */
  function DeriveState(m: MarketRecord, payoutNumerator: int, claim: ClaimStatus, owed: nat): State {
    if owed > 0 then PayoutOwed
    else if claim.ClaimConfirmed? then Redeemed
    else if claim.ClaimSent? then ClaimSubmitted
    else if m.contractStatus.Listed? || m.contractStatus.Trading? then Open
    else if m.contractStatus.Locked? || m.contractStatus.Settling? then LockedState
    else if !m.isResolved && !m.isVoided then LockedState
    else if payoutNumerator == 0 then Losing
    else if !m.settlementFinalized then WinningUnfinalized
    else if m.isVoided then VoidRefundable
    else Claimable
  }

  /** The payout of the whole balance; None when the vector does not validate and the calculation throws. */
  function PositionPayout(m: MarketRecord, outcome: OutcomeIndex, balance: nat): (payout: Option<nat>)
    ensures payout.Some? <==> m.payoutVector.None? || ValidVector(m.payoutVector.value)
  {
    if m.payoutVector.None? then Some(0)
    else
      match CalculatePayout(balance, outcome, m.payoutVector.value, 0)
      case Err(_) => None
      case Ok(payout) =>
        PayoutWithinAmount(balance, m.payoutVector.value.numerators[outcome], m.payoutVector.value.denominator);
        Some(payout)
  }

  function TokenOf(m: MarketRecord, outcome: OutcomeIndex): nat {
    if outcome == 0 then m.yesTokenId else m.noTokenId
  }

  /** The candidate that stands for the whole balance of a position. */
  function Assess(wallet: string, row: Row, m: MarketRecord, outcome: OutcomeIndex, balance: nat): P.Candidate
    requires m.payoutVector.Some? && m.fee.Some? && m.venueId.Some? && m.operatorId.Some?
  {
    P.Candidate(row.id, m.identity, wallet, m.venueId.value, m.operatorId.value, outcome, TokenOf(m, outcome),
                m.outcomeToken,
                balance, balance, m.pool, m.marketNonce, m.collateral, m.contractStatus, m.isResolved, m.isVoided,
                m.settlementFinalized, m.backing, m.payoutVector.value, m.fee.value, balance == 0, P.Fresh, [],
                m.evidenceVersion)
  }

  /** The wallet's position in the row's market, with the balance the chain reports. */
  predicate Readable(wallet: string, row: Row, markets: map<string, MarketRecord>) {
    row.market.Some? && row.account == wallet && row.outcomeIndex < 2 && row.market.value in markets
  }

  method BuildPosition(
    wallet: string, row: Row, markets: map<string, MarketRecord>, balanceOf: nat -> nat)
    returns (built: Built)
    ensures built == BuildOf(wallet, row, markets, balanceOf)
  {
    if row.market.None? || row.account != wallet || row.outcomeIndex >= 2 || row.market.value !in markets {
      return Failure;
    }
    var m, outcome := markets[row.market.value], row.outcomeIndex;
    var expectedTokenId := TokenOf(m, outcome);
    var conflicts := m.conflicts;
    if expectedTokenId != row.tokenId {
      conflicts := conflicts + [RowTokenDiffers];
    }
    var balance := balanceOf(expectedTokenId);
    if balance != row.balance {
      conflicts := conflicts + [RowBalanceDiffers];
    }
    var expectedPayout := PositionPayout(m, outcome, balance);
    if expectedPayout.None? {
      return Failure;
    }
    var payoutNumerator := if m.payoutVector.Some? then m.payoutVector.value.numerators[outcome] else 0;
    var position := WalletPosition(P.PositionIdentity(m.identity, wallet, outcome), m.identity.marketId, outcome,
                                   expectedTokenId,
                                   balance, DeriveState(m, payoutNumerator, NoClaim, 0), expectedPayout.value);
    var assessment: Option<P.Candidate> := None;
    if m.payoutVector.Some? && m.fee.Some? && |conflicts| == 0 && m.venueId.Some? && m.operatorId.Some? {
      assessment := Some(Assess(wallet, row, m, outcome, balance));
    }
    var candidate: Option<P.Candidate> := None;
    if assessment.Some? && (position.state.Claimable? || position.state.VoidRefundable?) && expectedPayout.value > 0 {
      candidate := assessment;
    }
    return Built(position, assessment, candidate);
  }

  predicate Assessable(row: Row, m: MarketRecord, outcome: OutcomeIndex, balance: nat) {
    && m.payoutVector.Some? && m.fee.Some? && m.venueId.Some? && m.operatorId.Some?
    && m.conflicts == [] && TokenOf(m, outcome) == row.tokenId && balance == row.balance
  }

  function NumeratorOf(m: MarketRecord, outcome: OutcomeIndex): int
    requires m.payoutVector.Some? ==> ValidVector(m.payoutVector.value)
  {
    if m.payoutVector.Some? then m.payoutVector.value.numerators[outcome] else 0
  }

  function BuildOf(wallet: string, row: Row, markets: map<string, MarketRecord>, balanceOf: nat -> nat): Built {
    if !Readable(wallet, row, markets) then Failure
    else
      var m, outcome := markets[row.market.value], row.outcomeIndex;
      var balance := balanceOf(TokenOf(m, outcome));
      match PositionPayout(m, outcome, balance)
      case None => Failure
      case Some(payout) =>
        var state := DeriveState(m, NumeratorOf(m, outcome), NoClaim, 0);
        var assessment := if Assessable(row, m, outcome, balance) then Some(Assess(wallet, row, m, outcome, balance))
          else None;
        Built(WalletPosition(P.PositionIdentity(m.identity, wallet, outcome), m.identity.marketId, outcome,
                             TokenOf(m, outcome), balance, state, payout),
              assessment,
              if (state.Claimable? || state.VoidRefundable?) && payout > 0 then assessment else None)
  }

  // ---- the wallet ----

  datatype Wallet = Wallet(positions: seq<WalletPosition>, assessments: seq<P.Candidate>, candidates: seq<P.Candidate>)

  /** The three lists that the scan's rows flat-map to. */
  function WalletOf(wallet: string, rows: seq<Row>, markets: map<string, MarketRecord>, balanceOf: nat -> nat): Wallet {
    if rows == [] then Wallet([], [], [])
    else
      var w := WalletOf(wallet, rows[..|rows| - 1], markets, balanceOf);
      match BuildOf(wallet, rows[|rows| - 1], markets, balanceOf)
      case Failure => w
      case Built(position, assessment, candidate) =>
        Wallet(w.positions + [position], w.assessments + Optional(assessment), w.candidates + Optional(candidate))
  }

  function Optional<T>(o: Option<T>): seq<T> {
    match o case None => [] case Some(x) => [x]
  }

  /** How complete a wallet read is: as the scan, unless a page or a row failed. */
  function CompletenessOf(scan: Scan, failed: seq<nat>, positions: seq<WalletPosition>): Completeness {
    if scan.failures == [] && failed == [] then scan.completeness
    else if positions == [] then Completeness.Failed
    else Partial
  }

  /** The rows, in order, that could not be built into a position. */
  function FailedRows(
    wallet: string, rows: seq<Row>, markets: map<string, MarketRecord>, balanceOf: nat -> nat): (failed: seq<nat>)
    ensures forall i :: i in failed <==> 0 <= i < |rows| && BuildOf(wallet, rows[i], markets, balanceOf).Failure?
  {
    if rows == [] then []
    else
      var n := |rows| - 1;
      var earlier := FailedRows(wallet, rows[..n], markets, balanceOf);
      if BuildOf(wallet, rows[n], markets, balanceOf).Failure? then earlier + [n] else earlier
  }

  lemma NoneFailed(wallet: string, rows: seq<Row>, markets: map<string, MarketRecord>, balanceOf: nat -> nat)
    ensures FailedRows(wallet, rows, markets, balanceOf) == [] <==>
            forall row :: row in rows ==> BuildOf(wallet, row, markets, balanceOf).Built?
  {
    var failed := FailedRows(wallet, rows, markets, balanceOf);
    if failed == [] {
      forall row | row in rows ensures BuildOf(wallet, row, markets, balanceOf).Built? {
        var i :| 0 <= i < |rows| && rows[i] == row;
        assert i !in failed;
      }
    } else {
      assert failed[0] in failed && rows[failed[0]] in rows;
    }
  }

  /** `byMarket`: of two records of one market the later one counts. */
  function ByMarket(records: seq<MarketRecord>): (markets: map<string, MarketRecord>)
    ensures forall id :: id in markets ==> markets[id] in records && markets[id].identity.marketId == id
    ensures forall m :: m in records ==> m.identity.marketId in markets
  {
    if records == [] then map[]
    else
      var last := records[|records| - 1];
      ByMarket(records[..|records| - 1])[last.identity.marketId := last]
  }

  function AllConflicts(records: seq<MarketRecord>): (conflicts: seq<Conflict>)
    ensures conflicts == [] <==> forall m :: m in records ==> m.conflicts == []
  {
    if records == [] then []
    else AllConflicts(records[..|records| - 1]) + records[|records| - 1].conflicts
  }

  /** What vouches for a wallet read: the oldest block of its markets and all their conflicts. */
  datatype Evidence = Evidence(isFresh: bool, verifiedBlock: Option<nat>, conflicts: seq<Conflict>)

  datatype WalletRead = WalletRead(
    wallet: Wallet, failed: seq<nat>, completeness: Completeness, evidence: Evidence, operatorApproved: Option<bool>)

  /**
   * The read of a wallet over the markets that could be read: its three lists, the rows that failed, how complete it
   * is, its evidence, and whether the module may operate the first market's outcome tokens. `isOperator` answers None
   * when the call throws.
   */
  method ReadWallet(
    wallet: string, scan: Scan, records: seq<MarketRecord>, balanceOf: nat -> nat, isOperator: string -> Option<bool>)
    returns (read: WalletRead)
    ensures var markets := ByMarket(records);
            && read.wallet == WalletOf(wallet, scan.positions, markets, balanceOf)
            && read.failed == FailedRows(wallet, scan.positions, markets, balanceOf)
            && read.completeness == CompletenessOf(scan, read.failed, read.wallet.positions)
            && (read.evidence.isFresh <==>
                  scan.failures == [] && forall row :: row in scan.positions ==>
                                           BuildOf(wallet, row, markets, balanceOf).Built?)
            && read.completeness == (if read.evidence.isFresh then scan.completeness
                                     else if read.wallet.positions == [] then Completeness.Failed else Partial)
    ensures read.evidence.verifiedBlock.None? <==> records == []
    ensures read.evidence.verifiedBlock.Some? ==>
              && (exists m :: m in records && m.verifiedBlock == read.evidence.verifiedBlock.value)
              && (forall m :: m in records ==> read.evidence.verifiedBlock.value <= m.verifiedBlock)
    ensures read.evidence.conflicts == AllConflicts(records)
    ensures read.operatorApproved == if records == [] then None else isOperator(records[0].outcomeToken)
  {
    var rows, markets := scan.positions, ByMarket(records);
    var positions, assessments, candidates, failed := [], [], [], [];
    for i := 0 to |rows|
      invariant Wallet(positions, assessments, candidates) == WalletOf(wallet, rows[..i], markets, balanceOf)
      invariant failed == FailedRows(wallet, rows[..i], markets, balanceOf)
    {
      assert rows[..i + 1][..i] == rows[..i];
      var built := BuildPosition(wallet, rows[i], markets, balanceOf);
      if built.Built? {
        positions := positions + [built.position];
        assessments := assessments + Optional(built.assessment);
        candidates := candidates + Optional(built.candidate);
      } else {
        failed := failed + [i];
      }
    }
    assert rows[..|rows|] == rows;
    NoneFailed(wallet, rows, markets, balanceOf);
    var evidence := CollectEvidence(records, scan.failures == [] && failed == []);
    read := WalletRead(
      Wallet(positions, assessments, candidates), failed, CompletenessOf(scan, failed, positions), evidence,
      if records == [] then None else isOperator(records[0].outcomeToken));
  }

  /** The oldest block among the records. */
  ghost predicate Oldest(records: seq<MarketRecord>, block: Option<nat>) {
    && (block.None? <==> records == [])
    && (block.Some? ==> exists m :: m in records && m.verifiedBlock == block.value)
    && (block.Some? ==> forall m :: m in records ==> block.value <= m.verifiedBlock)
  }

  lemma OldestOfOneMore(front: seq<MarketRecord>, last: MarketRecord, block: Option<nat>)
    requires Oldest(front, block)
    ensures Oldest(front + [last],
                   if block.None? || last.verifiedBlock < block.value then Some(last.verifiedBlock) else block)
  {
    assert forall m :: m in front + [last] <==> m in front || m == last;
  }

  method CollectEvidence(records: seq<MarketRecord>, isFresh: bool) returns (evidence: Evidence)
    ensures evidence.isFresh == isFresh && evidence.conflicts == AllConflicts(records)
    ensures evidence.verifiedBlock.None? <==> records == []
    ensures evidence.verifiedBlock.Some? ==>
              && (exists m :: m in records && m.verifiedBlock == evidence.verifiedBlock.value)
              && (forall m :: m in records ==> evidence.verifiedBlock.value <= m.verifiedBlock)
  {
    var oldest, conflicts: seq<Conflict> := None, [];
    for i := 0 to |records|
      invariant conflicts == AllConflicts(records[..i])
      invariant Oldest(records[..i], oldest)
    {
      OldestOfOneMore(records[..i], records[i], oldest);
      assert records[..i + 1] == records[..i] + [records[i]];
      conflicts := conflicts + records[i].conflicts;
      if oldest.None? || records[i].verifiedBlock < oldest.value {
        oldest := Some(records[i].verifiedBlock);
      }
    }
    assert records[..|records|] == records;
    evidence := Evidence(isFresh, oldest, conflicts);
  }

  // ---- the inbox ----

  datatype Counts = Counts(open: nat, locked: nat, resolved: nat, ready: nat)

  /** The filter of a row's station contains "claimable". */
  predicate InClaimable(state: State) {
    state.Claimable? || state.VoidRefundable? || state.PayoutOwed?
  }

  function ClaimableRaw(positions: seq<WalletPosition>, known: set<string>): nat {
    if positions == [] then 0
    else
      var p := positions[|positions| - 1];
      ClaimableRaw(positions[..|positions| - 1], known)
      + if p.marketId in known && InClaimable(p.state) then p.expectedPayout else 0
  }

  function CountIn(positions: seq<WalletPosition>, known: set<string>, counted: State -> bool): nat {
    if positions == [] then 0
    else
      var p := positions[|positions| - 1];
      CountIn(positions[..|positions| - 1], known, counted) + if p.marketId in known && counted(p.state) then 1 else 0
  }

  method BuildInbox(
    positions: seq<WalletPosition>, known: set<string>)
    returns (claimable: nat, counts: Counts, rows: nat)
    ensures claimable == ClaimableRaw(positions, known)
    ensures counts.open == CountIn(positions, known, (s: State) => s.Open?)
    ensures counts.locked == CountIn(positions, known, (s: State) => s.LockedState? || s.WinningUnfinalized?)
    ensures counts.ready == CountIn(positions, known, InClaimable)
    ensures counts.open + counts.locked + counts.resolved + counts.ready == rows
            == CountIn(positions, known, (s: State) => true)
  {
    claimable, rows := 0, 0;
    counts := Counts(0, 0, 0, 0);
    for i := 0 to |positions|
      invariant claimable == ClaimableRaw(positions[..i], known)
      invariant counts.open == CountIn(positions[..i], known, (s: State) => s.Open?)
      invariant counts.locked == CountIn(positions[..i], known, (s: State) => s.LockedState? || s.WinningUnfinalized?)
      invariant counts.ready == CountIn(positions[..i], known, InClaimable)
      invariant counts.open + counts.locked + counts.resolved + counts.ready == rows
                == CountIn(positions[..i], known, (s: State) => true)
    {
      assert positions[..i + 1][..i] == positions[..i];
      var position := positions[i];
      if position.marketId in known {
        rows := rows + 1;
        if position.state.Open? {
          counts := counts.(open := counts.open + 1);
        } else if position.state.LockedState? || position.state.WinningUnfinalized? {
          counts := counts.(locked := counts.locked + 1);
        } else if InClaimable(position.state) {
          counts := counts.(ready := counts.ready + 1);
          claimable := claimable + position.expectedPayout;
        } else {
          counts := counts.(resolved := counts.resolved + 1);
        }
      }
    }
    assert positions[..|positions|] == positions;
  }
}
