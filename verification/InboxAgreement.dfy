/**
 * The read side agrees with the planner: what is shown as claimable is what the planner accepts, and bounds its total.
 */
module InboxAgreement {
  import opened Markets
  import opened OutcomeBalances
  import opened Ordering
  import opened Payout
  import P = Planner
  import opened ReadSide
  import Safety = PlanSafety
  import opened Wrappers

  ghost predicate AllClean(markets: map<string, MarketRecord>) {
    forall id :: id in markets ==> CleanRecord(markets[id])
  }

  /** What the planner would pay for a candidate on its own. */
  function PaysAlone(c: P.Candidate): int
    requires ValidVector(c.payoutVector)
  {
    ExpectedPayout(c.amount, c.payoutVector.numerators[c.outcomeIndex], c.payoutVector.denominator)
  }

  lemma AssessmentFacts(wallet: string, row: Row, markets: map<string, MarketRecord>, balanceOf: nat -> nat)
    requires BuildOf(wallet, row, markets, balanceOf).Built?
    requires BuildOf(wallet, row, markets, balanceOf).assessment.Some?
    ensures var built := BuildOf(wallet, row, markets, balanceOf);
            var a, m := built.assessment.value, markets[row.market.value];
            && ValidVector(a.payoutVector)
               && a == Assess(wallet, row, m, row.outcomeIndex, built.position.verifiedBalance)
            && built.position.expectedPayout == PaysAlone(a)
            && built.position.identity == P.IdentityOf(a)
            && built.position.state == DeriveState(m, a.payoutVector.numerators[a.outcomeIndex], NoClaim, 0)
            && m.conflicts == []
  {}

  /** No numerator, no payout. */
  lemma NothingWithoutNumerator(amount: nat, d: int)
    requires d > 0
    ensures ExpectedPayout(amount, 0, d) == 0
  {}

  /**
   * Read side and planner agree: for the plan's own market wiring, an assessed position passes every per-candidate
   * gate and pays something if and only if the wallet read also exposes it as a claim candidate; and the only gate an
   * assessment can fail is an empty balance.
   */
  lemma ClaimableIsAccepted(
    wallet: string, row: Row, markets: map<string, MarketRecord>, balanceOf: nat -> nat, input: P.Input)
    requires var built := BuildOf(wallet, row, markets, balanceOf);
             built.Built? && built.assessment.Some? && P.MatchesPlan(built.assessment.value, input)
    requires AllClean(markets)
    ensures var built := BuildOf(wallet, row, markets, balanceOf);
            var a := built.assessment.value;
            && ValidVector(a.payoutVector)
            && P.Gate(a, input) == (if a.verifiedBalance == 0 then Some(P.AlreadyRedeemed) else None)
            && (P.Gate(a, input).None? && PaysAlone(a) > 0 <==> built.candidate.Some?)
            && (built.candidate.Some? ==> built.candidate == built.assessment && InClaimable(built.position.state))
  {
    AssessmentFacts(wallet, row, markets, balanceOf);
    var a := BuildOf(wallet, row, markets, balanceOf).assessment.value;
    var m := markets[row.market.value];
    assert CleanRecord(m);
    NothingWithoutNumerator(a.amount, a.payoutVector.denominator);
    assert a.amount == 0 ==> PaysAlone(a) == 0;
  }

  // ---- the plan's total against the inbox ----

  /** Where an assessment comes from: a position of the same identity, balance and payout. */
  lemma {:induction false} AssessedRow(
    wallet: string, rows: seq<Row>, markets: map<string, MarketRecord>, balanceOf: nat -> nat, a: P.Candidate)
    returns (row: Row, i: nat)
    requires a in WalletOf(wallet, rows, markets, balanceOf).assessments
    ensures row in rows && BuildOf(wallet, row, markets, balanceOf).Built?
    ensures BuildOf(wallet, row, markets, balanceOf).assessment == Some(a)
    ensures var positions := WalletOf(wallet, rows, markets, balanceOf).positions;
            i < |positions| && positions[i] == BuildOf(wallet, row, markets, balanceOf).position
  {
    var n := |rows| - 1;
    var front := WalletOf(wallet, rows[..n], markets, balanceOf);
    if a in front.assessments {
      row, i := AssessedRow(wallet, rows[..n], markets, balanceOf, a);
    } else {
      row, i := rows[n], |front.positions|;
    }
  }

  /** An entry of the plan has a claimable position of its identity that shows the same payout. */
  predicate Shown(e: P.Entry, p: WalletPosition, known: set<string>) {
    p.identity == e.positionIdentity && p.expectedPayout == e.expectedPayout && p.marketId in known
      && InClaimable(p.state)
  }

  lemma TwoAmounts(items: seq<P.Candidate>)
    requires |items| >= 2
    ensures P.Amount(items) >= items[0].amount + items[|items| - 1].amount
    decreases |items|
  {
    var n := |items| - 1;
    FirstAmount(items[..n]);
  }

  lemma {:induction false} FirstAmount(items: seq<P.Candidate>)
    requires items != []
    ensures P.Amount(items) >= items[0].amount
  {
    if |items| > 1 {
      FirstAmount(items[..|items| - 1]);
    } else {
      assert P.Amount(items[..0]) == 0;
    }
  }

  /** Every assessment asks for its whole balance, so an entry cannot merge two of them. */
  lemma EntryIsOneCandidate(e: P.Entry, items: seq<P.Candidate>, input: P.Input)
    requires Safety.EntrySafe(e) && Safety.Merges(e, items, input)
    requires forall c :: c in items ==> c.amount == c.verifiedBalance
    ensures |items| == 1 && e.amount == items[0].amount
  {
    Safety.AmountIsSum(items);
    assert items[0] in items && items[|items| - 1] in items;
    assert P.Gate(items[|items| - 1], input).None?;
    if |items| >= 2 {
      TwoAmounts(items);
      assert false;
    }
    assert items == items[..0] + [items[0]];
    assert P.Amount(items[..0]) == 0;
  }

  lemma EntryIsShown(
    wallet: string, rows: seq<Row>, markets: map<string, MarketRecord>, balanceOf: nat -> nat, known: set<string>,
    input: P.Input, e: P.Entry)
    returns (i: nat)
    requires AllClean(markets) && (forall id :: id in markets ==> markets[id].identity.marketId in known)
    requires input.candidates == WalletOf(wallet, rows, markets, balanceOf).assessments
    requires Safety.EntrySafe(e) && Safety.Traceable(e, input)
    ensures var positions := WalletOf(wallet, rows, markets, balanceOf).positions;
            i < |positions| && Shown(e, positions[i], known)
  {
    var items: seq<P.Candidate> :| Safety.Merges(e, items, input);
    forall c: P.Candidate | c in items ensures c.amount == c.verifiedBalance {
      var row, k := AssessedRow(wallet, rows, markets, balanceOf, c);
      AssessmentFacts(wallet, row, markets, balanceOf);
    }
    EntryIsOneCandidate(e, items, input);
    var a := items[0];
    assert a in items;
    var row;
    row, i := AssessedRow(wallet, rows, markets, balanceOf, a);
    AssessmentFacts(wallet, row, markets, balanceOf);
    ClaimableIsAccepted(wallet, row, markets, balanceOf, input);
  }

  ghost predicate AllShown(entries: seq<P.Entry>, positions: seq<WalletPosition>, known: set<string>) {
    forall k :: 0 <= k < |entries| ==> exists i :: 0 <= i < |positions| && Shown(entries[k], positions[i], known)
  }

  lemma {:induction false} SumWithout(entries: seq<P.Entry>, k: nat)
    requires k < |entries|
    ensures P.Payouts(entries) == entries[k].expectedPayout + P.Payouts(entries[..k] + entries[k + 1..])
  {
    var f := (e: P.Entry) => e.expectedPayout;
    assert entries == entries[..k] + [entries[k]] + entries[k + 1..];
    SumConcat(entries[..k] + [entries[k]], entries[k + 1..], f);
    SumConcat(entries[..k], [entries[k]], f);
    SumConcat(entries[..k], entries[k + 1..], f);
    assert [entries[k]][..0] == [];
  }

  /** Entries of distinct positions, each shown, pay no more than all that is shown. */
  lemma {:induction false} ShownTotal(entries: seq<P.Entry>, positions: seq<WalletPosition>, known: set<string>)
    requires AllShown(entries, positions, known) && Safety.DistinctPositions(entries)
    ensures P.Payouts(entries) <= ClaimableRaw(positions, known)
    decreases |positions|
  {
    if entries != [] && positions != [] {
      var n := |positions| - 1;
      var front, last := positions[..n], positions[n];
      if k :| 0 <= k < |entries| && Shown(entries[k], last, known) {
        var others := entries[..k] + entries[k + 1..];
        assert forall j :: 0 <= j < |others| ==> others[j] == entries[if j < k then j else j + 1];
        forall j | 0 <= j < |others| ensures exists i :: 0 <= i < n && Shown(others[j], front[i], known) {
          var i :| 0 <= i < |positions| && Shown(others[j], positions[i], known);
          assert front[i] == positions[i];
        }
        ShownTotal(others, front, known);
        SumWithout(entries, k);
      } else {
        forall j | 0 <= j < |entries| ensures exists i :: 0 <= i < n && Shown(entries[j], front[i], known) {
          var i :| 0 <= i < |positions| && Shown(entries[j], positions[i], known);
          assert front[i] == positions[i];
        }
        ShownTotal(entries, front, known);
      }
    }
  }

  /** For one and the same scan the plan never expects more than the inbox shows as claimable. */
  lemma PlanWithinInbox(
    wallet: string, rows: seq<Row>, markets: map<string, MarketRecord>, balanceOf: nat -> nat, known: set<string>,
    input: P.Input, draft: P.Draft)
    requires AllClean(markets) && (forall id :: id in markets ==> markets[id].identity.marketId in known)
    requires input.candidates == WalletOf(wallet, rows, markets, balanceOf).assessments
    requires P.PlanOf(input) == Ok(draft)
    ensures draft.expectedPayout <= ClaimableRaw(WalletOf(wallet, rows, markets, balanceOf).positions, known)
  {
    var positions := WalletOf(wallet, rows, markets, balanceOf).positions;
    Safety.PlanIsSafe(input, draft);
    forall k | 0 <= k < |draft.entries|
      ensures exists i :: 0 <= i < |positions| && Shown(draft.entries[k], positions[i], known)
    {
      assert draft.entries[k] in draft.entries;
      var i := EntryIsShown(wallet, rows, markets, balanceOf, known, input, draft.entries[k]);
    }
    ShownTotal(draft.entries, positions, known);
  }

  // ---- from reconciled bundles ----

  /** Every market record is what reconciliation made of its bundle. */
  ghost predicate FromBundles(
    markets: map<string, MarketRecord>, bundles: map<string, Bundle>, chainId: nat, binaryModule: string,
    denominator: nat) {
    forall id :: id in markets ==>
      id in bundles && Reconciled(markets[id], bundles[id], chainId, binaryModule, denominator)
  }

  lemma BundlesAreClean(
    markets: map<string, MarketRecord>, bundles: map<string, Bundle>, chainId: nat, binaryModule: string,
    denominator: nat)
    requires FromBundles(markets, bundles, chainId, binaryModule, denominator)
    ensures AllClean(markets)
  {
    forall id | id in markets ensures CleanRecord(markets[id]) {
      var b, m := bundles[id], markets[id];
      ReconciledIsClean(b, StatusNumber(b.onchain.status).value, m.conflicts, chainId, binaryModule, denominator);
    }
  }

  /**
   * From chain and indexer to the plan: over the records reconciled from any bundles, conflicting ones included, read
   * side and planner agree on every candidate and the plan expects no more than the inbox shows.
   */
  lemma ReconciledAgreement(
    bundles: map<string, Bundle>, chainId: nat, binaryModule: string, denominator: nat, wallet: string,
    rows: seq<Row>, markets: map<string, MarketRecord>, balanceOf: nat -> nat, known: set<string>, input: P.Input,
    draft: P.Draft)
    requires FromBundles(markets, bundles, chainId, binaryModule, denominator)
    requires forall id :: id in markets ==> markets[id].identity.marketId in known
    requires input.candidates == WalletOf(wallet, rows, markets, balanceOf).assessments
    requires P.PlanOf(input) == Ok(draft)
    ensures draft.expectedPayout <= ClaimableRaw(WalletOf(wallet, rows, markets, balanceOf).positions, known)
    ensures forall row :: row in rows ==>
              var built := BuildOf(wallet, row, markets, balanceOf);
              built.Built? && built.assessment.Some? && P.MatchesPlan(built.assessment.value, input) ==>
                && ValidVector(built.assessment.value.payoutVector)
                && (P.Gate(built.assessment.value, input).None? && PaysAlone(built.assessment.value) > 0
                    <==> built.candidate.Some?)
  {
    BundlesAreClean(markets, bundles, chainId, binaryModule, denominator);
    PlanWithinInbox(wallet, rows, markets, balanceOf, known, input, draft);
    forall row | row in rows
      ensures var built := BuildOf(wallet, row, markets, balanceOf);
              built.Built? && built.assessment.Some? && P.MatchesPlan(built.assessment.value, input) ==>
                && ValidVector(built.assessment.value.payoutVector)
                && (P.Gate(built.assessment.value, input).None? && PaysAlone(built.assessment.value) > 0
                    <==> built.candidate.Some?)
    {
      var built := BuildOf(wallet, row, markets, balanceOf);
      if built.Built? && built.assessment.Some? && P.MatchesPlan(built.assessment.value, input) {
        ClaimableIsAccepted(wallet, row, markets, balanceOf, input);
      }
    }
  }
}
