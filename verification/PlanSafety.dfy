/** What a prepared plan may burn and pay. */
module PlanSafety {
  import opened Wrappers
  import opened Ordering
  import opened Payout
  import opened Planner

  // ---- one entry ----

  predicate EntrySafe(e: Entry) {
    && 0 < e.amount <= e.verifiedBalance
    && 0 < e.payoutDenominator && e.payoutNumerator <= e.payoutDenominator
    && e.expectedPayout == ExpectedPayout(e.amount, e.payoutNumerator, e.payoutDenominator)
    && 1 <= e.expectedPayout <= e.amount
  }

  function Amounts(items: seq<Candidate>): (amounts: seq<nat>)
    ensures |amounts| == |items|
  {
    if items == [] then [] else Amounts(items[..|items| - 1]) + [items[|items| - 1].amount]
  }

  /** The entry stands for exactly these candidates, all of its position and with one set of evidence. */
  ghost predicate Merges(e: Entry, items: seq<Candidate>, input: Input) {
    && items != [] && SameEvidence(items)
    && (forall c :: c in items ==> c in input.candidates && Gate(c, input).None? && IdentityOf(c) == e.positionIdentity)
    && e.candidateIds == SortedIds(items)
    && e.amount == SumAmounts(Amounts(items))
    && e.marketId == items[0].market.marketId && e.outcomeIndex == items[0].outcomeIndex
       && e.tokenId == items[0].tokenId
    && e.verifiedBalance == items[0].verifiedBalance && e.settlementBacking == items[0].settlementBacking
    && ValidVector(items[0].payoutVector)
    && e.payoutNumerator == items[0].payoutVector.numerators[e.outcomeIndex]
    && e.payoutDenominator == items[0].payoutVector.denominator
  }

  lemma {:induction false} AmountIsSum(items: seq<Candidate>)
    ensures Amount(items) == SumAmounts(Amounts(items))
  {
    if items != [] {
      AmountIsSum(items[..|items| - 1]);
      assert Amounts(items)[..|items| - 1] == Amounts(items[..|items| - 1]);
    }
  }

  lemma {:induction false} PositiveAmount(items: seq<Candidate>)
    requires items != [] && forall c :: c in items ==> c.amount > 0
    ensures Amount(items) > 0
  {
    assert items[|items| - 1] in items;
  }

  lemma AcceptedEntry(g: Bucket<Candidate>, candidates: seq<Candidate>, input: Input)
    requires GatedGroup(g, candidates, input) && ValidVector(g.items[0].payoutVector) && CreateEntry(g).Accept?
    requires forall c :: c in candidates ==> c in input.candidates
    ensures var e := CreateEntry(g).entry;
            EntrySafe(e) && e.positionIdentity == g.key && Merges(e, g.items, input)
  {
    var first := g.items[0];
    assert first in g.items;
    forall c | c in g.items ensures c.amount > 0 {
      assert Gate(c, input).None?;
    }
    PositiveAmount(g.items);
    AmountIsSum(g.items);
    PayoutWithinAmount(Amount(g.items), first.payoutVector.numerators[first.outcomeIndex],
                       first.payoutVector.denominator);
  }

  /** The entries that `Build` yields are the accepted groups. */
  lemma {:induction false} BuiltFrom(
    groups: seq<Bucket<Candidate>>, entries: seq<Entry>, exclusions: seq<Exclusion>, e: Entry)
    returns (i: nat)
    requires Buildable(groups) && Build(groups) == Ok((entries, exclusions)) && e in entries
    ensures i < |groups| && CreateEntry(groups[i]) == Accept(e)
  {
    var front, g := groups[..|groups| - 1], groups[|groups| - 1];
    var (entries0, exclusions0) := Build(front).value;
    if e in entries0 {
      i := BuiltFrom(front, entries0, exclusions0, e);
    } else {
      i := |groups| - 1;
    }
  }

  // ---- a market's payouts ----

  function PayoutIn(market: string): Entry -> nat {
    (e: Entry) => if e.marketId == market then e.expectedPayout else 0
  }

  /** What the plan pays out of one market. */
  function MarketPayouts(entries: seq<Entry>, market: string): nat {
    Sum(entries, PayoutIn(market))
  }

  lemma {:induction false} OneMarket(entries: seq<Entry>, market: string)
    requires forall e :: e in entries ==> e.marketId == market
    ensures MarketPayouts(entries, market) == Payouts(entries)
  {
    if entries != [] {
      assert entries[|entries| - 1] in entries;
      OneMarket(entries[..|entries| - 1], market);
    }
  }

  lemma {:induction false} OtherMarket(entries: seq<Entry>, market: string)
    requires forall e :: e in entries ==> e.marketId != market
    ensures MarketPayouts(entries, market) == 0
  {
    if entries != [] {
      assert entries[|entries| - 1] in entries;
      OtherMarket(entries[..|entries| - 1], market);
    }
  }

  ghost predicate Kept(b: Bucket<Entry>) {
    b.items != [] && MarketProblem(b.items).None?
  }

  lemma {:induction false} BackedWithin(markets: seq<Bucket<Entry>>, market: string, bound: nat)
    requires NonEmpty(markets) && Grouped(markets, MarketOf)
    requires forall i :: 0 <= i < |markets| && markets[i].key == market && Kept(markets[i]) ==>
             Payouts(markets[i].items) <= bound
    ensures MarketPayouts(Backed(markets), market) <= bound
  {
    if markets != [] {
      var front, last := markets[..|markets| - 1], markets[|markets| - 1];
      if last.key == market {
        BackedWithin(front, market, 0);
        OneMarket(last.items, market);
      } else {
        BackedWithin(front, market, bound);
        OtherMarket(last.items, market);
      }
      if Kept(last) {
        SumConcat(Backed(front), last.items, PayoutIn(market));
      } else {
        assert Backed(markets) == Backed(front) + [];
        assert Backed(front) + [] == Backed(front);
      }
    }
  }

  lemma {:induction false} BackedFrom(markets: seq<Bucket<Entry>>, e: Entry) returns (i: nat)
    requires NonEmpty(markets) && e in Backed(markets)
    ensures i < |markets| && Kept(markets[i]) && e in markets[i].items
  {
    var front, last := markets[..|markets| - 1], markets[|markets| - 1];
    if e in Backed(front) {
      i := BackedFrom(front, e);
    } else {
      i := |markets| - 1;
    }
  }

  lemma BackedIsCovered(markets: seq<Bucket<Entry>>, e: Entry)
    requires NonEmpty(markets) && Grouped(markets, MarketOf) && e in Backed(markets)
    ensures MarketPayouts(Backed(markets), e.marketId) <= e.settlementBacking
  {
    var i := BackedFrom(markets, e);
    var k :| 0 <= k < |markets[i].items| && markets[i].items[k] == e;
    assert BackingOf(e) == BackingOf(markets[i].items[0]);
    assert MarketOf(e) == markets[i].key;
    BackedWithin(markets, e.marketId, e.settlementBacking);
  }

  // ---- distinct positions ----

  function IdentityBag(e: Entry): multiset<string> { multiset{e.positionIdentity} }
  function KeyBag(b: Bucket<Candidate>): multiset<string> { multiset{b.key} }

  lemma {:induction false} KeysOnce(groups: seq<Bucket<Candidate>>, key: string)
    requires forall i, j :: 0 <= i < j < |groups| ==> groups[i].key != groups[j].key
    ensures Gather(groups, KeyBag)[key] <= 1
    ensures (forall i :: 0 <= i < |groups| ==> groups[i].key != key) ==> Gather(groups, KeyBag)[key] == 0
  {
    if groups != [] {
      KeysOnce(groups[..|groups| - 1], key);
    }
  }

  lemma AcceptedKey(g: Bucket<Candidate>)
    requires g.items != [] && ValidVector(g.items[0].payoutVector) && CreateEntry(g).Accept?
    ensures CreateEntry(g).entry.positionIdentity == g.key
  {}

  lemma {:induction false} BuiltIdentities(
    groups: seq<Bucket<Candidate>>, entries: seq<Entry>, exclusions: seq<Exclusion>)
    requires Buildable(groups) && Build(groups) == Ok((entries, exclusions))
    ensures Gather(entries, IdentityBag) <= Gather(groups, KeyBag)
  {
    if groups != [] {
      var front, g := groups[..|groups| - 1], groups[|groups| - 1];
      var (entries0, exclusions0) := Build(front).value;
      BuiltIdentities(front, entries0, exclusions0);
      assert Gather(groups, KeyBag) == Gather(front, KeyBag) + multiset{g.key};
      match CreateEntry(g)
      case Accept(e) =>
        AcceptedKey(g);
        assert entries == entries0 + [e];
        GatherOne(entries0, e, IdentityBag);
      case Reject(_) =>
        assert entries == entries0;
    }
  }

  lemma {:induction false} BackedIdentities(markets: seq<Bucket<Entry>>)
    requires NonEmpty(markets)
    ensures Gather(Backed(markets), IdentityBag) <= Gather(markets, Held(IdentityBag))
  {
    if markets != [] {
      var front, last := markets[..|markets| - 1], markets[|markets| - 1];
      BackedIdentities(front);
      if Kept(last) {
        GatherConcat(Backed(front), last.items, IdentityBag);
      } else {
        assert Backed(front) + [] == Backed(front);
      }
    }
  }

  lemma {:induction false} OccursGathers(entries: seq<Entry>, i: nat)
    requires i < |entries|
    ensures Gather(entries, IdentityBag)[entries[i].positionIdentity] >= 1
  {
    if i < |entries| - 1 {
      OccursGathers(entries[..|entries| - 1], i);
    }
  }

  lemma {:induction false} OnceIsDistinct(entries: seq<Entry>, i: nat, j: nat)
    requires forall id :: Gather(entries, IdentityBag)[id] <= 1
    requires i < j < |entries|
    ensures entries[i].positionIdentity != entries[j].positionIdentity
  {
    var front := entries[..|entries| - 1];
    if j < |entries| - 1 {
      forall id ensures Gather(front, IdentityBag)[id] <= 1 {
        assert Gather(entries, IdentityBag)[id] <= 1;
      }
      OnceIsDistinct(front, i, j);
    } else {
      OccursGathers(front, i);
      assert Gather(entries, IdentityBag)[entries[j].positionIdentity] <= 1;
    }
  }

  ghost predicate DistinctPositions(entries: seq<Entry>) {
    forall i, j :: 0 <= i < j < |entries| ==> entries[i].positionIdentity != entries[j].positionIdentity
  }

  /** Gathered once each, the positions of a list of entries are distinct. */
  lemma OncePerKey(entries: seq<Entry>, groups: seq<Bucket<Candidate>>)
    requires Gather(entries, IdentityBag) <= Gather(groups, KeyBag) && Grouped(groups, IdentityOf)
    ensures DistinctPositions(entries)
  {
    forall id ensures Gather(entries, IdentityBag)[id] <= 1 {
      KeysOnce(groups, id);
    }
    forall i, j | 0 <= i < j < |entries| ensures entries[i].positionIdentity != entries[j].positionIdentity {
      OnceIsDistinct(entries, i, j);
    }
  }

  lemma BuiltWithin(unique: seq<Candidate>, input: Input, built: seq<Entry>, rejected: seq<Exclusion>)
    requires Build(SortedGroups(unique, input)) == Ok((built, rejected))
    ensures Gather(built, IdentityBag) <= Gather(Groups(unique, input), KeyBag)
    ensures Grouped(Groups(unique, input), IdentityOf)
  {
    GroupByGrouped(Passed(unique, input), IdentityOf);
    GatherSort(Groups(unique, input), GroupLeq, KeyBag);
    BuiltIdentities(SortedGroups(unique, input), built, rejected);
  }

  lemma BuiltDistinct(unique: seq<Candidate>, input: Input, built: seq<Entry>, rejected: seq<Exclusion>)
    requires Build(SortedGroups(unique, input)) == Ok((built, rejected))
    ensures DistinctPositions(built)
  {
    BuiltWithin(unique, input, built, rejected);
    OncePerKey(built, Groups(unique, input));
  }

  lemma EntriesDistinct(unique: seq<Candidate>, input: Input, built: seq<Entry>, rejected: seq<Exclusion>)
    requires Build(SortedGroups(unique, input)) == Ok((built, rejected))
    ensures DistinctPositions(SortedEntries(built))
  {
    BuiltWithin(unique, input, built, rejected);
    GroupByGather(built, MarketOf, IdentityBag);
    BackedIdentities(Markets(built));
    GatherSort(Backed(Markets(built)), EntryLeq, IdentityBag);
    OncePerKey(SortedEntries(built), Groups(unique, input));
  }

  // ---- the whole plan ----

  lemma {:induction false} UniqueMembers(candidates: seq<Candidate>)
    ensures forall c :: c in Unique(candidates) ==> c in candidates
  {
    if candidates != [] {
      UniqueMembers(candidates[..|candidates| - 1]);
    }
  }

  lemma DeduplicatedMembers(input: Input)
    ensures forall c :: c in Deduplicated(input) ==> c in input.candidates
  {
    UniqueMembers(SortBy(input.candidates, CandidateLeq));
    forall c | c in Deduplicated(input) ensures c in input.candidates {
      SortContains(input.candidates, CandidateLeq, c);
    }
  }

  ghost predicate Traceable(e: Entry, input: Input) {
    exists items: seq<Candidate> :: Merges(e, items, input)
  }

  lemma EntryFacts(unique: seq<Candidate>, input: Input, built: seq<Entry>, rejected: seq<Exclusion>, e: Entry)
    requires Build(SortedGroups(unique, input)) == Ok((built, rejected)) && e in SortedEntries(built)
    requires forall c :: c in unique ==> c in input.candidates
    ensures EntrySafe(e) && Traceable(e, input)
    ensures MarketPayouts(SortedEntries(built), e.marketId) <= e.settlementBacking
  {
    var markets := Markets(built);
    SortContains(Backed(markets), EntryLeq, e);
    BackedIsCovered(markets, e);
    SumSort(Backed(markets), EntryLeq, PayoutIn(e.marketId));
    var k := BackedFrom(markets, e);
    BucketItems(built, MarketOf);
    var groups := SortedGroups(unique, input);
    var i := BuiltFrom(groups, built, rejected, e);
    SortedGroupGated(unique, input, i);
    AcceptedEntry(groups[i], unique, input);
  }

  /**
   * Planner safety: every entry burns a positive amount within the verified balance, pays between one unit and
   * what it burns, and stands for gated candidates of one position; no position appears twice; and the payouts
   * of each market stay within the backing verified for it.
   */
  lemma PlanIsSafe(input: Input, draft: Draft)
    requires PlanOf(input) == Ok(draft)
    ensures forall e :: e in draft.entries ==>
                          EntrySafe(e) && Traceable(e, input)
                            && MarketPayouts(draft.entries, e.marketId) <= e.settlementBacking
    ensures DistinctPositions(draft.entries)
    ensures draft.expectedPayout == Payouts(draft.entries)
  {
    var unique := Deduplicated(input);
    var (built, rejected) := Build(SortedGroups(unique, input)).value;
    DeduplicatedMembers(input);
    forall e | e in draft.entries
      ensures EntrySafe(e) && Traceable(e, input) && MarketPayouts(draft.entries, e.marketId) <= e.settlementBacking
    {
      EntryFacts(unique, input, built, rejected, e);
    }
    EntriesDistinct(unique, input, built, rejected);
  }

  /** Within a plan, market and outcome identify the entry. */
  lemma EntryKey(input: Input, draft: Draft, i: nat, j: nat)
    requires PlanOf(input) == Ok(draft) && i < |draft.entries| && j < |draft.entries|
    requires draft.entries[i].marketId == draft.entries[j].marketId
    requires draft.entries[i].outcomeIndex == draft.entries[j].outcomeIndex
    ensures i == j
  {
    PlanIsSafe(input, draft);
    IdentityFromKey(draft.entries[i], input);
    IdentityFromKey(draft.entries[j], input);
  }

  lemma IdentityFromKey(e: Entry, input: Input)
    requires Traceable(e, input)
    ensures e.positionIdentity
            == PositionIdentity(Market(input.chainId, input.binaryModule, e.marketId), input.owner, e.outcomeIndex)
  {
    var items :| Merges(e, items, input);
    var first := items[0];
    assert first in items && MatchesPlan(first, input);
    assert first.market == Market(input.chainId, input.binaryModule, e.marketId);
  }

  /** Merging k rows into one entry pays between 0 and k - 1 units more than redeeming them one by one. */
  lemma MergingPays(e: Entry, items: seq<Candidate>, input: Input)
    requires EntrySafe(e) && Merges(e, items, input)
    ensures var separate := SeparatePayouts(Amounts(items), e.payoutNumerator, e.payoutDenominator);
            separate <= e.expectedPayout <= separate + |e.candidateIds| - 1
  {
    MergeGain(Amounts(items), e.payoutNumerator, e.payoutDenominator);
    SortMultiset(CandidateIds(items), Leq);
  }
}
