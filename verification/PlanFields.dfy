/**
 * The plan in terms of the fields of its input: which candidates it redeems, what its entries say and why the others
 * are excluded, without the planner's own gate, identity test, evidence records, groups and markets.
 */
module PlanFields {
  import opened Wrappers
  import opened Ordering
  import opened Payout
  import opened Planner
  import opened PlanReasons
  import Safety = PlanSafety

  // ---- one candidate ----

  /** The candidate is of the plan's chain, module, outcome token, venue, operator and owner. */
  predicate Own(c: Candidate, input: Input) {
    && c.market.chainId == input.chainId && c.market.binaryModule == input.binaryModule
    && c.outcomeToken == input.outcomeToken && c.venueId == input.venueId
    && c.operatorId == input.operatorId && c.owner == input.owner
  }

  /** Exactly one of the two results is flagged, and the contract's status says the same. */
  predicate Decided(c: Candidate) {
    if c.isResolved then c.contractStatus == Resolved && !c.isVoided else c.isVoided && c.contractStatus == Voided
  }

  /** Two numerators within the denominator that pay something together, and no more than everything. */
  predicate PayingVector(v: PayoutVector) {
    && |v.numerators| == 2 && 0 <= v.numerators[0] && 0 <= v.numerators[1]
    && 0 < v.numerators[0] + v.numerators[1] <= v.denominator
  }

  /** Nothing is wrong with the candidate itself. */
  predicate Faultless(c: Candidate, input: Input) {
    && Own(c, input) && !c.alreadyRedeemed && c.freshness == Fresh && c.conflicts == []
    && Decided(c) && c.settlementFinalized
    && c.verifiedBalance > 0 && c.amount > 0 && PayingVector(c.payoutVector)
  }

  lemma {:induction false} TotalOfTwo(numerators: seq<int>)
    requires |numerators| == 2
    ensures Total(numerators) == numerators[0] + numerators[1]
  {
    assert numerators[..1][..0] == [] && numerators[..1][0] == numerators[0];
    assert Total(numerators[..1]) == numerators[0];
  }

  lemma VectorInFields(v: PayoutVector)
    ensures ValidVector(v) <==> PayingVector(v)
  {
    if |v.numerators| == 2 {
      TotalOfTwo(v.numerators);
    }
  }

  lemma GateInFields(c: Candidate, input: Input)
    ensures Gate(c, input).None? <==> Faultless(c, input)
  {
    VectorInFields(c.payoutVector);
  }

  /** The exclusion of a candidate that is dropped alone. */
  function Alone(c: Candidate, reason: Reason): Exclusion {
    Exclusion([c.candidateId], PositionIdentity(c.market, c.owner, c.outcomeIndex), c.market.marketId, c.outcomeIndex,
              reason)
  }

  /** A foreign candidate is never redeemed, whichever of the six identity fields is wrong. */
  lemma ForeignIsExcluded(input: Input, draft: Draft, c: Candidate)
    requires PlanOf(input) == Ok(draft) && c in Deduplicated(input)
    requires || c.market.chainId != input.chainId || c.market.binaryModule != input.binaryModule
             || c.outcomeToken != input.outcomeToken || c.venueId != input.venueId
             || c.operatorId != input.operatorId || c.owner != input.owner
    ensures Alone(c, IdentityMismatch) in draft.exclusions
    ensures forall e :: e in draft.entries ==> c.candidateId !in e.candidateIds
  {
    FateIsExact(input, draft, c);
    PlannedOrExcluded(input, draft, c);
  }

  /** Why a candidate of the plan is dropped for its own evidence, in the order in which the reasons count. */
  lemma OwnEvidenceDecides(input: Input, draft: Draft, c: Candidate)
    requires PlanOf(input) == Ok(draft) && c in Deduplicated(input) && Own(c, input)
    ensures c.alreadyRedeemed ==> Alone(c, AlreadyRedeemed) in draft.exclusions
    ensures !c.alreadyRedeemed && c.freshness != Fresh ==> Alone(c, StaleEvidence) in draft.exclusions
    ensures !c.alreadyRedeemed && c.freshness == Fresh ==>
              && (c.conflicts != [] ==> Alone(c, EvidenceConflict) in draft.exclusions)
              && (c.conflicts == [] && !Decided(c) ==>
                    Alone(c, if c.isResolved || c.isVoided then EvidenceConflict else NonTerminal) in draft.exclusions)
    ensures !c.alreadyRedeemed && c.freshness == Fresh && c.conflicts == [] && Decided(c) ==>
              && (!c.settlementFinalized ==> Alone(c, NonFinalized) in draft.exclusions)
              && (c.settlementFinalized && c.verifiedBalance == 0 ==> Alone(c, ZeroBalance) in draft.exclusions)
              && (c.settlementFinalized && c.verifiedBalance > 0 && c.amount == 0 ==>
                    Alone(c, ZeroAmount) in draft.exclusions)
              && (c.settlementFinalized && c.verifiedBalance > 0 && c.amount > 0 && !PayingVector(c.payoutVector) ==>
                    Alone(c, InvalidPayoutVector) in draft.exclusions)
  {
    PlannedOrExcluded(input, draft, c);
    VectorInFields(c.payoutVector);
  }

  // ---- one position ----

  /** Another faultless candidate of the same market and outcome, or the same one. */
  predicate Peers(c: Candidate, d: Candidate, input: Input) {
    Faultless(c, input) && Faultless(d, input) && c.market.marketId == d.market.marketId
    && c.outcomeIndex == d.outcomeIndex
  }

  predicate SameProof(c: Candidate, d: Candidate) {
    && c.verifiedBalance == d.verifiedBalance && c.pool == d.pool && c.marketNonce == d.marketNonce
    && c.collateral == d.collateral && c.settlementBacking == d.settlementBacking
    && c.payoutVector == d.payoutVector && c.settlementFee == d.settlementFee && c.isVoided == d.isVoided
    && c.evidenceVersion == d.evidenceVersion
  }

  function PeerAmount(c: Candidate, input: Input): Candidate -> nat {
    (d: Candidate) => if Peers(c, d, input) then d.amount else 0
  }

  /** What the candidates of c's position burn together. */
  function BurnedWith(c: Candidate, input: Input): nat {
    Sum(Deduplicated(input), PeerAmount(c, input))
  }

  function PaidWith(c: Candidate, input: Input): int
    requires PayingVector(c.payoutVector)
  {
    BurnedWith(c, input) * c.payoutVector.numerators[c.outcomeIndex] / c.payoutVector.denominator
  }

  ghost predicate Agreed(c: Candidate, input: Input) {
    forall d :: d in Deduplicated(input) && Peers(c, d, input) ==> SameProof(c, d)
  }

  /** The position of c pays: its candidates agree, burn no more than the balance and are worth something. */
  ghost predicate Solid(c: Candidate, input: Input) {
    && c in Deduplicated(input) && Faultless(c, input) && Agreed(c, input)
    && BurnedWith(c, input) <= c.verifiedBalance && PaidWith(c, input) > 0
  }

  lemma PeersShareIdentity(c: Candidate, d: Candidate, input: Input)
    requires Faultless(c, input) && Faultless(d, input)
    ensures Peers(c, d, input) <==> IdentityOf(c) == IdentityOf(d)
  {
    GateInFields(c, input);
    GateInFields(d, input);
    if IdentityOf(c) == IdentityOf(d) {
      IdentityDetermines(c, d, c.outcomeIndex, d.outcomeIndex, input);
    }
  }

  lemma SurvivorsArePeers(c: Candidate, input: Input, d: Candidate)
    requires Faultless(c, input)
    ensures d in Survivors(input, IdentityOf(c)) <==> d in Deduplicated(input) && Peers(c, d, input)
  {
    GateInFields(d, input);
    if d in Deduplicated(input) && Peers(c, d, input) {
      PeersShareIdentity(c, d, input);
      InOwnPosition(d, input);
    } else if d in Survivors(input, IdentityOf(c)) {
      PeersShareIdentity(c, d, input);
    }
  }

  function PeersIn(candidates: seq<Candidate>, c: Candidate, input: Input): seq<Candidate> {
    OfKey(Passed(candidates, input), IdentityOf, IdentityOf(c))
  }

  lemma OneMorePeer(front: seq<Candidate>, last: Candidate, c: Candidate, input: Input)
    requires Faultless(c, input)
    ensures PeersIn(front + [last], c, input)
            == PeersIn(front, c, input) + if Peers(c, last, input) then [last] else []
  {
    GateInFields(last, input);
    assert (front + [last])[..|front|] == front;
    var passed := Passed(front, input);
    if Faultless(last, input) {
      PeersShareIdentity(c, last, input);
      assert (passed + [last])[..|passed|] == passed;
    }
  }

  lemma {:induction false} AmountOfPeers(candidates: seq<Candidate>, c: Candidate, input: Input)
    requires Faultless(c, input)
    ensures Amount(PeersIn(candidates, c, input)) == Sum(candidates, PeerAmount(c, input))
  {
    if candidates != [] {
      var front, last := candidates[..|candidates| - 1], candidates[|candidates| - 1];
      AmountOfPeers(front, c, input);
      OneMorePeer(front, last, c, input);
      assert front + [last] == candidates;
      AmountOfOneMore(PeersIn(front, c, input), last);
    }
  }

  lemma AmountOfOneMore(items: seq<Candidate>, last: Candidate)
    ensures Amount(items + [last]) == Amount(items) + last.amount && Amount(items + []) == Amount(items)
  {
    assert (items + [last])[..|items|] == items && items + [] == items;
  }

  lemma BurnedOfPeers(c: Candidate, input: Input)
    requires Faultless(c, input)
    ensures Burned(Survivors(input, IdentityOf(c))) == BurnedWith(c, input)
  {
    AmountOfPeers(Deduplicated(input), c, input);
    Safety.AmountIsSum(Survivors(input, IdentityOf(c)));
  }

  /** What the planner's own evidence test says, in fields. */
  lemma AgreedIsSameEvidence(c: Candidate, input: Input)
    requires c in Deduplicated(input) && Faultless(c, input)
    ensures Agreed(c, input) <==> SameEvidence(Survivors(input, IdentityOf(c)))
  {
    var mine := Survivors(input, IdentityOf(c));
    SurvivorsArePeers(c, input, c);
    var k :| 0 <= k < |mine| && mine[k] == c;
    forall d ensures d in mine <==> d in Deduplicated(input) && Peers(c, d, input) {
      SurvivorsArePeers(c, input, d);
    }
    if SameEvidence(mine) {
      assert EvidenceOf(c) == EvidenceOf(mine[0]);
      forall d | d in mine ensures SameProof(c, d) {
        var i :| 0 <= i < |mine| && mine[i] == d;
        assert EvidenceOf(mine[i]) == EvidenceOf(mine[0]);
      }
    }
    if Agreed(c, input) {
      forall i | 0 <= i < |mine| ensures EvidenceOf(mine[i]) == EvidenceOf(mine[0]) {
        assert mine[i] in mine && mine[0] in mine;
        assert SameProof(c, mine[i]) && SameProof(c, mine[0]);
      }
    }
  }

  lemma FirstOfPosition(c: Candidate, input: Input) returns (first: Candidate)
    requires c in Deduplicated(input) && Faultless(c, input)
    ensures Survivors(input, IdentityOf(c)) != [] && first == Survivors(input, IdentityOf(c))[0]
    ensures first in Deduplicated(input) && Peers(c, first, input) && Peers(first, c, input)
  {
    SurvivorsArePeers(c, input, c);
    first := Survivors(input, IdentityOf(c))[0];
    SurvivorsArePeers(c, input, first);
  }

  /** The fault of a position, in fields. */
  lemma PositionInFields(c: Candidate, input: Input)
    requires c in Deduplicated(input) && Faultless(c, input)
    ensures var mine := Survivors(input, IdentityOf(c));
            && mine != []
            && PositionFault(mine)
               == (if !Agreed(c, input) then Some(EvidenceConflict)
                   else if BurnedWith(c, input) > c.verifiedBalance then Some(DuplicateOverBalance)
                   else if PaidWith(c, input) == 0 then Some(ZeroPayout)
                   else None)
            && (Agreed(c, input) ==> PayoutOf(mine) == PaidWith(c, input) >= 0 && BackingFor(mine[0]) == BackingFor(c)
                                     && mine[0].settlementBacking == c.settlementBacking)
  {
    var first := FirstOfPosition(c, input);
    AgreedIsSameEvidence(c, input);
    BurnedOfPeers(c, input);
    if Agreed(c, input) {
      assert SameProof(c, first);
      PayoutWithinAmount(BurnedWith(c, input), c.payoutVector.numerators[c.outcomeIndex], c.payoutVector.denominator);
    }
  }

  // ---- one market ----

  /** The paying position of the other outcome, by any of its candidates. */
  ghost predicate Rival(c: Candidate, d: Candidate, input: Input) {
    Solid(d, input) && d.market.marketId == c.market.marketId && d.outcomeIndex != c.outcomeIndex
  }

  predicate SameBacking(c: Candidate, d: Candidate) {
    && c.pool == d.pool && c.marketNonce == d.marketNonce && c.collateral == d.collateral
    && c.settlementBacking == d.settlementBacking && c.evidenceVersion == d.evidenceVersion
  }

  /** The backing verified for the market covers the position, alone and with the other one. */
  ghost predicate Covered(c: Candidate, input: Input)
    requires Faultless(c, input)
  {
    && PaidWith(c, input) <= c.settlementBacking
    && (forall d :: Rival(c, d, input) ==> PaidWith(c, input) + PaidWith(d, input) <= c.settlementBacking)
  }

  ghost predicate BackingAgreed(c: Candidate, input: Input) {
    forall d :: Rival(c, d, input) ==> SameBacking(c, d)
  }

  lemma OtherIdentity(c: Candidate, d: Candidate, input: Input)
    requires Faultless(c, input) && Faultless(d, input)
    ensures d.market.marketId == c.market.marketId && d.outcomeIndex != c.outcomeIndex
            <==> IdentityOf(d) == OtherPosition(c)
  {
    if IdentityOf(d) == OtherPosition(c) {
      GateInFields(c, input);
      GateInFields(d, input);
      IdentityDetermines(c, d, 1 - c.outcomeIndex, d.outcomeIndex, input);
    }
  }

  lemma RivalIsOther(c: Candidate, d: Candidate, input: Input)
    requires Faultless(c, input)
    ensures Rival(c, d, input) <==> Solid(d, input) && IdentityOf(d) == OtherPosition(c)
  {
    if Solid(d, input) {
      OtherIdentity(c, d, input);
    }
  }

  /** Whether the other position pays, and what. */
  lemma OtherInFields(c: Candidate, input: Input)
    requires c in Deduplicated(input) && Faultless(c, input)
    ensures var other := Survivors(input, OtherPosition(c));
            && (Pays(other) ==> Rival(c, other[0], input))
            && (forall d :: Rival(c, d, input) ==> Pays(other) && PayoutOf(other) == PaidWith(d, input)
                                                   && BackingFor(other[0]) == BackingFor(d))
  {
    var other := Survivors(input, OtherPosition(c));
    if Pays(other) {
      var d := other[0];
      assert d in other;
      GateInFields(d, input);
      PositionInFields(d, input);
      RivalIsOther(c, d, input);
    }
    forall d | Rival(c, d, input)
      ensures Pays(other) && PayoutOf(other) == PaidWith(d, input) && BackingFor(other[0]) == BackingFor(d)
    {
      RivalIsOther(c, d, input);
      PositionInFields(d, input);
    }
  }

  lemma MarketInFields(c: Candidate, input: Input)
    requires Solid(c, input)
    ensures Survivors(input, IdentityOf(c)) != []
    ensures MarketFault(Survivors(input, IdentityOf(c)), Survivors(input, OtherPosition(c)))
            == if !BackingAgreed(c, input) then Some(EvidenceConflict)
               else if !Covered(c, input) then Some(InsufficientBacking)
               else None
  {
    PositionInFields(c, input);
    OtherInFields(c, input);
    var other := Survivors(input, OtherPosition(c));
    if Pays(other) {
      assert Rival(c, other[0], input);
    }
  }

  // ---- the theorems ----

  /**
   * Which candidates are redeemed, in fields: a deduplicated candidate's id is in an entry if and only if nothing is
   * wrong with it, with its position, or with the backing of its market.
   */
  lemma RedeemedExactly(input: Input, draft: Draft, c: Candidate)
    requires PlanOf(input) == Ok(draft) && c in Deduplicated(input)
    ensures (exists e :: e in draft.entries && c.candidateId in e.candidateIds)
            <==> Solid(c, input) && BackingAgreed(c, input) && Covered(c, input)
  {
    FateIsExact(input, draft, c);
    GateInFields(c, input);
    if Faultless(c, input) {
      PositionInFields(c, input);
      if Solid(c, input) {
        MarketInFields(c, input);
      }
    }
  }

  /** Why a faultless candidate is dropped together with its position. */
  lemma PositionDecides(input: Input, draft: Draft, c: Candidate, x: Exclusion)
    requires PlanOf(input) == Ok(draft) && c in Deduplicated(input) && Faultless(c, input)
    requires x in draft.exclusions && c.candidateId in x.candidateIds
    ensures x.positionIdentity == PositionIdentity(c.market, c.owner, c.outcomeIndex)
    ensures x.marketId == c.market.marketId && x.outcomeIndex == c.outcomeIndex
    ensures x.reason == if !Agreed(c, input) then EvidenceConflict
                        else if BurnedWith(c, input) > c.verifiedBalance then DuplicateOverBalance
                        else if PaidWith(c, input) == 0 then ZeroPayout
                        else if !BackingAgreed(c, input) then EvidenceConflict
                        else InsufficientBacking
  {
    FateIsExact(input, draft, c);
    GateInFields(c, input);
    PositionInFields(c, input);
    var first := FirstOfPosition(c, input);
    if Solid(c, input) {
      MarketInFields(c, input);
    }
  }

  /** The entry stands for exactly the faultless candidates of its market and outcome, and says what they say. */
  ghost predicate StandsFor(e: Entry, items: seq<Candidate>, input: Input) {
    && items != []
    && (forall c :: c in items <==>
          c in Deduplicated(input) && Faultless(c, input)
          && c.market.marketId == e.marketId && c.outcomeIndex == e.outcomeIndex)
    && (forall c :: c in items ==>
          && e.verifiedBalance == c.verifiedBalance && e.pool == c.pool && e.marketNonce == c.marketNonce
          && e.collateral == c.collateral && e.settlementBacking == c.settlementBacking
          && e.payoutNumerator == c.payoutVector.numerators[e.outcomeIndex]
          && e.payoutDenominator == c.payoutVector.denominator
          && e.settlementFee == c.settlementFee && e.evidenceVersion == c.evidenceVersion)
    && e.tokenId == items[0].tokenId
    && e.amount == Sum(items, (c: Candidate) => c.amount)
    && e.expectedPayout == e.amount * e.payoutNumerator / e.payoutDenominator
    && e.positionIdentity == PositionIdentity(Market(input.chainId, input.binaryModule, e.marketId), input.owner,
                                              e.outcomeIndex)
    && |e.candidateIds| == |items| && Sorted(e.candidateIds, Leq)
    && (forall id :: id in e.candidateIds <==> exists c :: c in items && c.candidateId == id)
  }

  lemma LeqIsOrder()
    ensures TotalPreorder(Leq)
  {
    forall a, b ensures Leq(a, b) || Leq(b, a) {
      LeqTotal(a, b);
    }
    forall a, b, c | Leq(a, b) && Leq(b, c) ensures Leq(a, c) {
      LeqTransitive(a, b, c);
    }
  }

  lemma {:induction false} IdsOfItems(items: seq<Candidate>, id: string)
    ensures id in CandidateIds(items) <==> exists c :: c in items && c.candidateId == id
  {
    if items != [] {
      var front, last := items[..|items| - 1], items[|items| - 1];
      IdsOfItems(front, id);
      assert CandidateIds(items) == CandidateIds(front) + [last.candidateId];
      assert forall c :: c in items <==> c in front || c == last;
    }
  }

  lemma ListedIds(items: seq<Candidate>)
    ensures var ids := SortedIds(items);
            && |ids| == |items| && Sorted(ids, Leq)
            && (forall id :: id in ids <==> exists c :: c in items && c.candidateId == id)
  {
    LeqIsOrder();
    SortSorted(CandidateIds(items), Leq);
    SortLength(CandidateIds(items), Leq);
    forall id ensures id in SortedIds(items) <==> exists c :: c in items && c.candidateId == id {
      SortContains(CandidateIds(items), Leq, id);
      IdsOfItems(items, id);
    }
  }

  /** An entry that a position makes, field by field. */
  lemma MadeEntry(c: Candidate, input: Input, e: Entry)
    requires OwnEntry(c, input, e)
    ensures StandsFor(e, OwnGroup(c, input).items, input)
  {
    var g := OwnGroup(c, input);
    GateInFields(c, input);
    var first := FirstOfPosition(c, input);
    PositionInFields(c, input);
    AgreedIsSameEvidence(c, input);
    OwnEntryFields(c, input, e);
    ListedIds(g.items);
    forall d ensures d in g.items <==> d in Deduplicated(input) && Faultless(d, input)
                                       && d.market.marketId == e.marketId && d.outcomeIndex == e.outcomeIndex {
      SurvivorsArePeers(c, input, d);
    }
    forall d | d in g.items ensures EvidenceOf(d) == EvidenceOf(first) {
      var i :| 0 <= i < |g.items| && g.items[i] == d;
    }
    assert c.market == Market(input.chainId, input.binaryModule, e.marketId);
  }

  /** What the entries of a plan say, in fields: each stands for all faultless candidates of its market and outcome. */
  lemma EntriesInFields(input: Input, draft: Draft, e: Entry)
    requires PlanOf(input) == Ok(draft) && e in draft.entries
    ensures exists items: seq<Candidate> :: StandsFor(e, items, input)
  {
    var unique := Deduplicated(input);
    var (built, rejected) := Build(SortedGroups(unique, input)).value;
    SortContains(Backed(Markets(built)), EntryLeq, e);
    var k := Safety.BackedFrom(Markets(built), e);
    BucketItems(built, MarketOf);
    var d := BuiltPosition(input, built, rejected, e);
    MadeEntry(d, input, e);
  }

  // ---- the rest of the plan ----

  predicate BeforeOrSame(a: Exclusion, b: Exclusion) {
    || (a.marketId != b.marketId && Leq(a.marketId, b.marketId))
    || (a.marketId == b.marketId && a.outcomeIndex < b.outcomeIndex)
    || (a.marketId == b.marketId && a.outcomeIndex == b.outcomeIndex
        && if a.reason != b.reason then Leq(ReasonText(a.reason), ReasonText(b.reason))
           else Leq(Joined(a.candidateIds), Joined(b.candidateIds)))
  }

  /** `join(":")` */
  lemma JoinedText(ids: seq<string>, id: string)
    ensures Joined([]) == "" && Joined([id]) == id
    ensures ids != [] ==> Joined(ids + [id]) == Joined(ids) + ":" + id
  {
    assert (ids + [id])[..|ids|] == ids;
  }

  lemma ExclusionOrder()
    ensures TotalPreorder(ExclusionLeq)
  {
    forall a, b ensures ExclusionLeq(a, b) || ExclusionLeq(b, a) {
      LeqTotal(a.marketId, b.marketId);
      LeqTotal(ReasonText(a.reason), ReasonText(b.reason));
      LeqTotal(Joined(a.candidateIds), Joined(b.candidateIds));
    }
    forall a, b, c | ExclusionLeq(a, b) && ExclusionLeq(b, c) ensures ExclusionLeq(a, c) {
      ExclusionStep(a, b, c);
    }
  }

  lemma LeqChain(a: string, b: string, c: string)
    requires Leq(a, b) && Leq(b, c)
    ensures Leq(a, c) && (a == c ==> a == b)
  {
    LeqTransitive(a, b, c);
    if a == c {
      LeqAntisymmetric(a, b);
    }
  }

  lemma ReasonTextsDiffer(r: Reason, s: Reason)
    ensures ReasonText(r) == ReasonText(s) ==> r == s
  {
    var x, y := ReasonText(r), ReasonText(s);
    if x == y {
      assert |x| == |y| && x[0] == y[0] && x[1] == y[1] && x[2] == y[2] && x[4] == y[4];
    }
  }

  lemma ExclusionStep(a: Exclusion, b: Exclusion, c: Exclusion)
    requires ExclusionLeq(a, b) && ExclusionLeq(b, c)
    ensures ExclusionLeq(a, c)
  {
    if a.marketId != b.marketId && b.marketId != c.marketId {
      LeqChain(a.marketId, b.marketId, c.marketId);
    } else if a.marketId == b.marketId == c.marketId && a.outcomeIndex == b.outcomeIndex == c.outcomeIndex {
      if a.reason != b.reason && b.reason != c.reason {
        LeqChain(ReasonText(a.reason), ReasonText(b.reason), ReasonText(c.reason));
        ReasonTextsDiffer(a.reason, b.reason);
      } else if a.reason == b.reason == c.reason {
        LeqTransitive(Joined(a.candidateIds), Joined(b.candidateIds), Joined(c.candidateIds));
      }
    }
  }

  lemma EntryOrder()
    ensures TotalPreorder(EntryLeq)
  {
    forall a, b ensures EntryLeq(a, b) || EntryLeq(b, a) {
      LeqTotal(a.positionIdentity, b.positionIdentity);
    }
    forall a, b, c | EntryLeq(a, b) && EntryLeq(b, c) ensures EntryLeq(a, c) {
      LeqTransitive(a.positionIdentity, b.positionIdentity, c.positionIdentity);
    }
  }

  /** The plan lists entries by position, and exclusions by market, outcome, the reason's text and the joined ids. */
  lemma PlanIsOrdered(input: Input, draft: Draft)
    requires PlanOf(input) == Ok(draft)
    ensures forall i, j :: 0 <= i < j < |draft.entries| ==>
              Leq(draft.entries[i].positionIdentity, draft.entries[j].positionIdentity)
    ensures forall i, j :: 0 <= i < j < |draft.exclusions| ==> BeforeOrSame(draft.exclusions[i], draft.exclusions[j])
  {
    var unique := Deduplicated(input);
    var (built, rejected) := Build(SortedGroups(unique, input)).value;
    EntryOrder();
    ExclusionOrder();
    SortSorted(Backed(Markets(built)), EntryLeq);
    SortSorted(Gated(unique, input) + rejected + Unbacked(Markets(built)), ExclusionLeq);
    forall i, j | 0 <= i < j < |draft.entries|
      ensures Leq(draft.entries[i].positionIdentity, draft.entries[j].positionIdentity)
    {
      assert EntryLeq(draft.entries[i], draft.entries[j]);
    }
    forall i, j | 0 <= i < j < |draft.exclusions|
      ensures BeforeOrSame(draft.exclusions[i], draft.exclusions[j])
    {
      assert ExclusionLeq(draft.exclusions[i], draft.exclusions[j]);
    }
  }

  /** A plan is its input's, expires a time to live after it was made and asks for the approval that is missing. */
  lemma PlanCarriesInput(input: Input, draft: Draft)
    requires PlanOf(input) == Ok(draft)
    ensures draft.chainId == input.chainId && draft.binaryModule == input.binaryModule
    ensures draft.outcomeToken == input.outcomeToken && draft.venueId == input.venueId
    ensures draft.operatorId == input.operatorId && draft.owner == draft.recipient == input.owner
    ensures draft.approvalRequired <==> !input.operatorApproved
    ensures draft.discoveryCompleteness == input.discoveryCompleteness && draft.verifiedBlock == input.verifiedBlock
    ensures draft.createdAt == input.now && 0 < draft.expiresAt - draft.createdAt == input.ttlMs
    ensures draft.batchPolicy == input.batchPolicy && 0 < draft.batchPolicy.maxEntries
    ensures draft.expiresAt <= MAX_SAFE_INTEGER && draft.operatorId <= MAX_SAFE_INTEGER
  {}

  // ---- when there is no plan ----

  predicate SafeInteger(n: int) { 0 <= n <= 9007199254740991 }

  /** Operator, time to live, batch size and recipient are acceptable. */
  predicate GoodInput(input: Input) {
    && SafeInteger(input.operatorId) && 0 < input.ttlMs && SafeInteger(input.ttlMs)
    && 0 < input.batchPolicy.maxEntries && SafeInteger(input.batchPolicy.maxEntries)
    && input.recipient == input.owner
  }

  /** The position of c would be paid out, but its fee is above everything there is. */
  ghost predicate FeeBlocks(c: Candidate, input: Input) {
    && c in Deduplicated(input) && Faultless(c, input) && Agreed(c, input)
    && BurnedWith(c, input) <= c.verifiedBalance && c.settlementFee > 10000000
  }

  lemma FeeInFields(c: Candidate, input: Input)
    requires c in Deduplicated(input)
    ensures Overcharged(c, input) <==> FeeBlocks(c, input)
  {
    GateInFields(c, input);
    if Faultless(c, input) {
      var first := FirstOfPosition(c, input);
      AgreedIsSameEvidence(c, input);
      BurnedOfPeers(c, input);
      if Agreed(c, input) {
        assert SameProof(c, first);
      }
    }
  }

  /** Which error a bad input gets, in the order in which its parts are looked at. */
  lemma BadInputErrors(input: Input)
    ensures !SafeInteger(input.operatorId) ==> PlanOf(input) == Err(BadOperator)
    ensures SafeInteger(input.operatorId) && !(0 < input.ttlMs && SafeInteger(input.ttlMs)) ==>
              PlanOf(input) == Err(BadTtl)
    ensures SafeInteger(input.operatorId) && 0 < input.ttlMs && SafeInteger(input.ttlMs) ==>
              var maximum := input.batchPolicy.maxEntries;
              if !(0 < maximum && SafeInteger(maximum)) then PlanOf(input) == Err(BadBatchSize)
              else input.recipient != input.owner ==> PlanOf(input) == Err(RecipientIsNotOwner)
    ensures GoodInput(input) <==> InputError(input).None?
  {}

  /** A good input fails for a blocking fee, then for an expiry that is no safe integer, and otherwise has a plan. */
  lemma GoodInputPlans(input: Input)
    requires GoodInput(input)
    ensures PlanOf(input) == Err(FeeTooHigh) <==> exists c :: FeeBlocks(c, input)
    ensures PlanOf(input) == Err(BadTimestamp)
            <==> !SafeInteger(input.now + input.ttlMs) && forall c :: !FeeBlocks(c, input)
    ensures PlanOf(input).Ok? <==> SafeInteger(input.now + input.ttlMs) && forall c :: !FeeBlocks(c, input)
  {
    BadInputErrors(input);
    PlanFailsExactly(input);
    BuildThrowsExactly(input);
    BuildError(SortedGroups(Deduplicated(input), input));
    forall c | c in Deduplicated(input) ensures Overcharged(c, input) <==> FeeBlocks(c, input) {
      FeeInFields(c, input);
    }
  }
}
