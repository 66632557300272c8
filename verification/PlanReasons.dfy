/**
 * What becomes of each candidate of a plan. `Fate` judges one candidate by its own evidence and, among the
 * deduplicated candidates that pass their gates, by those of its position and of the other position of its market; the
 * planner's groups, sorted lists and passes over markets are proved to plan and exclude exactly as it says.
 */
module PlanReasons {
  import opened Wrappers
  import opened Ordering
  import opened Payout
  import opened Planner
  import A = PlanAccounting
  import Safety = PlanSafety

  // ---- the fate of one candidate ----

  /** The candidates of a position that count: first of their id and past the gate. */
  function Survivors(input: Input, position: string): (items: seq<Candidate>)
    ensures forall c :: c in items ==> c in Deduplicated(input) && Gate(c, input).None? && IdentityOf(c) == position
    ensures items != [] ==> ValidVector(items[0].payoutVector)
  {
    SurvivorsGated(input, position);
    var items := OfKey(Passed(Deduplicated(input), input), IdentityOf, position);
    assert items != [] ==> items[0] in items;
    items
  }

  lemma SurvivorsGated(input: Input, position: string)
    ensures forall c :: c in OfKey(Passed(Deduplicated(input), input), IdentityOf, position) ==>
                          c in Deduplicated(input) && Gate(c, input).None? && IdentityOf(c) == position
  {
    PassedGate(Deduplicated(input), input);
    forall c | c in OfKey(Passed(Deduplicated(input), input), IdentityOf, position)
      ensures c in Passed(Deduplicated(input), input) && IdentityOf(c) == position
    {
      OfKeyMembers(Passed(Deduplicated(input), input), IdentityOf, position, c);
    }
  }

  function Burned(items: seq<Candidate>): nat {
    SumAmounts(Safety.Amounts(items))
  }

  function PayoutOf(items: seq<Candidate>): int
    requires items != [] && ValidVector(items[0].payoutVector)
  {
    var v := items[0].payoutVector;
    ExpectedPayout(Burned(items), v.numerators[items[0].outcomeIndex], v.denominator)
  }

  /** What is wrong with the survivors of one position taken together. */
  function PositionFault(items: seq<Candidate>): Option<Reason>
    requires items != [] && ValidVector(items[0].payoutVector)
  {
    if !SameEvidence(items) then Some(EvidenceConflict)
    else if Burned(items) > items[0].verifiedBalance then Some(DuplicateOverBalance)
    else if PayoutOf(items) == 0 then Some(ZeroPayout)
    else None
  }

  predicate Pays(items: seq<Candidate>)
    requires items != [] ==> ValidVector(items[0].payoutVector)
  {
    items != [] && PositionFault(items).None?
  }

  function BackingFor(c: Candidate): BackingEvidence {
    BackingEvidence(c.pool, c.marketNonce, c.collateral, c.settlementBacking, c.evidenceVersion)
  }

  /** What is wrong with the two paying positions of a market taken together. */
  function MarketFault(mine: seq<Candidate>, other: seq<Candidate>): Option<Reason>
    requires mine != [] && ValidVector(mine[0].payoutVector)
    requires other != [] ==> ValidVector(other[0].payoutVector)
  {
    if Pays(other) && BackingFor(other[0]) != BackingFor(mine[0]) then Some(EvidenceConflict)
    else if PayoutOf(mine) + (if Pays(other) then PayoutOf(other) else 0) > mine[0].settlementBacking then
      Some(InsufficientBacking)
    else None
  }

  function OtherPosition(c: Candidate): string {
    PositionIdentity(c.market, c.owner, 1 - c.outcomeIndex)
  }

  /** A survivor of deduplication is among the survivors of its position once its own evidence passes. */
  lemma InOwnPosition(c: Candidate, input: Input)
    requires c in Deduplicated(input) && Gate(c, input).None?
    ensures c in Survivors(input, IdentityOf(c))
  {
    PassedHas(Deduplicated(input), input, c);
    OfKeyMembers(Passed(Deduplicated(input), input), IdentityOf, IdentityOf(c), c);
  }

  /** Why the candidate is excluded, or None when the plan redeems it. */
  function Fate(c: Candidate, input: Input): Option<Reason>
    requires c in Deduplicated(input)
  {
    match Gate(c, input)
    case Some(reason) => Some(reason)
    case None =>
      InOwnPosition(c, input);
      var mine := Survivors(input, IdentityOf(c));
      match PositionFault(mine)
      case Some(reason) => Some(reason)
      case None => MarketFault(mine, Survivors(input, OtherPosition(c)))
  }

  /** The bucket of a candidate's position. */
  function OwnGroup(c: Candidate, input: Input): Bucket<Candidate> {
    Bucket(IdentityOf(c), Survivors(input, IdentityOf(c)))
  }

  /** The exclusion that names a candidate, alone or with the rest of its position. */
  function ExclusionOf(c: Candidate, input: Input, reason: Reason): Exclusion
    requires c in Deduplicated(input)
  {
    if Gate(c, input).Some? then Excluded(c, reason)
    else
      InOwnPosition(c, input);
      GroupExcluded(OwnGroup(c, input), reason)
  }

  /** The maximum fee is exceeded by a position that would otherwise be paid out: the whole call throws. */
  predicate Overcharged(c: Candidate, input: Input)
    requires c in Deduplicated(input)
  {
    && Gate(c, input).None?
    && (InOwnPosition(c, input);
        var mine := Survivors(input, IdentityOf(c));
        SameEvidence(mine) && Burned(mine) <= mine[0].verifiedBalance && mine[0].settlementFee > FEE_DENOMINATOR)
  }

  // ---- the groups of the planner are the positions ----

  lemma {:induction false} PassedHas(candidates: seq<Candidate>, input: Input, c: Candidate)
    requires c in candidates && Gate(c, input).None?
    ensures c in Passed(candidates, input)
  {
    var front, last := candidates[..|candidates| - 1], candidates[|candidates| - 1];
    if c in front {
      PassedHas(front, input, c);
    } else {
      assert c == last;
    }
  }

  lemma GroupOf(c: Candidate, input: Input) returns (i: nat)
    requires c in Deduplicated(input) && Gate(c, input).None?
    ensures i < |SortedGroups(Deduplicated(input), input)|
    ensures SortedGroups(Deduplicated(input), input)[i] == OwnGroup(c, input)
  {
    var unique := Deduplicated(input);
    PassedHas(unique, input, c);
    OwnBucket(Passed(unique, input), IdentityOf, c);
    SortContains(Groups(unique, input), GroupLeq, OwnGroup(c, input));
    i :| 0 <= i < |SortedGroups(unique, input)| && SortedGroups(unique, input)[i] == OwnGroup(c, input);
  }

  lemma GroupIsPosition(input: Input, i: nat)
    requires i < |SortedGroups(Deduplicated(input), input)|
    ensures var g := SortedGroups(Deduplicated(input), input)[i];
            g.items != [] && g.items == Survivors(input, g.key) && OwnGroup(g.items[0], input) == g
  {
    var unique := Deduplicated(input);
    var groups := Groups(unique, input);
    var g := SortedGroups(unique, input)[i];
    SortContains(groups, GroupLeq, g);
    var k :| 0 <= k < |groups| && groups[k] == g;
    GroupByItems(Passed(unique, input), IdentityOf, k);
    GroupByGrouped(Passed(unique, input), IdentityOf);
    assert g.items[0] in g.items;
  }

  /** What a group becomes, unless the fee throws. */
  lemma GroupFate(g: Bucket<Candidate>)
    requires g.items != [] && ValidVector(g.items[0].payoutVector)
    ensures match CreateEntry(g)
            case Throw => true
            case Reject(x) => PositionFault(g.items).Some? && x == GroupExcluded(g, PositionFault(g.items).value)
            case Accept(e) => PositionFault(g.items).None?
    ensures CreateEntry(g).Throw? <==>
            && SameEvidence(g.items) && Burned(g.items) <= g.items[0].verifiedBalance
            && g.items[0].settlementFee > FEE_DENOMINATOR
  {
    Safety.AmountIsSum(g.items);
  }

  lemma AcceptedFields(g: Bucket<Candidate>)
    requires g.items != [] && ValidVector(g.items[0].payoutVector) && CreateEntry(g).Accept?
    ensures var e, first := CreateEntry(g).entry, g.items[0];
            && e.positionIdentity == g.key && e.marketId == first.market.marketId
            && e.outcomeIndex == first.outcomeIndex && e.candidateIds == SortedIds(g.items)
            && e.expectedPayout == PayoutOf(g.items) && BackingOf(e) == BackingFor(first)
  {
    Safety.AmountIsSum(g.items);
  }

  // ---- what the passes of the planner put where ----

  lemma {:induction false} BuildHas(
    groups: seq<Bucket<Candidate>>, entries: seq<Entry>, rejected: seq<Exclusion>, i: nat)
    requires Buildable(groups) && Build(groups) == Ok((entries, rejected)) && i < |groups|
    ensures match CreateEntry(groups[i])
            case Accept(e) => e in entries
            case Reject(x) => x in rejected
            case Throw => false
  {
    var front, g := groups[..|groups| - 1], groups[|groups| - 1];
    var (entries0, rejected0) := Build(front).value;
    if i < |groups| - 1 {
      BuildHas(front, entries0, rejected0, i);
    }
    match CreateEntry(g)
    case Accept(e) => assert entries == entries0 + [e];
    case Reject(x) => assert rejected == rejected0 + [x];
  }

  lemma {:induction false} BuildThrows(groups: seq<Bucket<Candidate>>) returns (i: nat)
    requires Buildable(groups) && Build(groups).Err?
    ensures i < |groups| && CreateEntry(groups[i]).Throw?
  {
    var front := groups[..|groups| - 1];
    if Build(front).Err? {
      i := BuildThrows(front);
    } else {
      i := |groups| - 1;
    }
  }

  lemma {:induction false} GatedHas(candidates: seq<Candidate>, input: Input, c: Candidate)
    requires c in candidates && Gate(c, input).Some?
    ensures Excluded(c, Gate(c, input).value) in Gated(candidates, input)
  {
    var front, last := candidates[..|candidates| - 1], candidates[|candidates| - 1];
    if c in front {
      GatedHas(front, input, c);
    } else {
      assert c == last;
    }
  }

  lemma {:induction false} AllExcludedHas(entries: seq<Entry>, reason: Reason, e: Entry)
    requires e in entries
    ensures BackingExcluded(e, reason) in AllExcluded(entries, reason)
  {
    var front, last := entries[..|entries| - 1], entries[|entries| - 1];
    if e in front {
      AllExcludedHas(front, reason, e);
    } else {
      assert e == last;
    }
  }

  lemma {:induction false} BackedHas(markets: seq<Bucket<Entry>>, i: nat, e: Entry)
    requires NonEmpty(markets) && i < |markets| && e in markets[i].items
    ensures match MarketProblem(markets[i].items)
            case None => e in Backed(markets)
            case Some(reason) => BackingExcluded(e, reason) in Unbacked(markets)
  {
    var front, last := markets[..|markets| - 1], markets[|markets| - 1];
    if i < |markets| - 1 {
      BackedHas(front, i, e);
      assert Backed(front) <= Backed(markets) && Unbacked(front) <= Unbacked(markets);
    } else if MarketProblem(last.items).Some? {
      AllExcludedHas(last.items, MarketProblem(last.items).value, e);
    }
  }

  /** The market of a built entry is judged as a whole. */
  lemma MarketJudged(built: seq<Entry>, e: Entry)
    requires e in built
    ensures e in OfKey(built, MarketOf, e.marketId)
    ensures match MarketProblem(OfKey(built, MarketOf, e.marketId))
            case None => e in Backed(Markets(built))
            case Some(reason) => BackingExcluded(e, reason) in Unbacked(Markets(built))
  {
    OfKeyMembers(built, MarketOf, e.marketId, e);
    OwnBucket(built, MarketOf, e);
    var markets := Markets(built);
    var i :| 0 <= i < |markets| && markets[i] == Bucket(e.marketId, OfKey(built, MarketOf, e.marketId));
    BackedHas(markets, i, e);
  }

  // ---- a market has at most two entries ----

  lemma {:induction false} OfKeyDistinct(entries: seq<Entry>, market: string)
    requires Safety.DistinctPositions(entries)
    ensures Safety.DistinctPositions(OfKey(entries, MarketOf, market))
  {
    if entries != [] {
      var front, last := entries[..|entries| - 1], entries[|entries| - 1];
      OfKeyDistinct(front, market);
      var kept := OfKey(front, MarketOf, market);
      forall i | 0 <= i < |kept| ensures kept[i].positionIdentity != last.positionIdentity {
        OfKeyMembers(front, MarketOf, market, kept[i]);
        var k :| 0 <= k < |front| && front[k] == kept[i];
        assert entries[k] == kept[i];
      }
    }
  }

  lemma OneEntry(market: seq<Entry>, e: Entry)
    requires e in market && Safety.DistinctPositions(market)
    requires forall d :: d in market ==> d.positionIdentity == e.positionIdentity
    ensures market == [e]
  {
    var last := |market| - 1;
    assert market[0] in market && market[last] in market;
    assert market[0].positionIdentity == market[last].positionIdentity;
  }

  lemma TwoEntries(market: seq<Entry>, e: Entry, f: Entry)
    requires e in market && f in market && Safety.DistinctPositions(market)
    requires e.positionIdentity != f.positionIdentity
    requires forall d :: d in market ==> d.positionIdentity in [e.positionIdentity, f.positionIdentity]
    ensures market == [e, f] || market == [f, e]
  {
    var i :| 0 <= i < |market| && market[i] == e;
    var j :| 0 <= j < |market| && market[j] == f;
    forall k | 0 <= k < |market| ensures market[k] in market && (k == i || k == j) {
      assert market[k].positionIdentity == market[i].positionIdentity
             || market[k].positionIdentity == market[j].positionIdentity;
    }
    assert market[0] in market && market[1] in market && market[|market| - 1] in market;
  }

  lemma SumOfTwo<T>(x: T, y: T, f: T -> nat)
    ensures Sum([x], f) == f(x) && Sum([x, y], f) == f(x) + f(y)
  {
    assert [x][..0] == [] && [x, y][..1] == [x];
  }

  lemma ProblemOfOne(e: Entry)
    ensures MarketProblem([e]) == if e.expectedPayout > e.settlementBacking then Some(InsufficientBacking) else None
  {
    SumOfTwo(e, e, (d: Entry) => d.expectedPayout);
  }

  lemma ProblemOfTwo(e: Entry, f: Entry)
    ensures MarketProblem([e, f])
            == if BackingOf(f) != BackingOf(e) then Some(EvidenceConflict)
               else if e.expectedPayout + f.expectedPayout > e.settlementBacking then Some(InsufficientBacking)
               else None
  {
    SumOfTwo(e, f, (d: Entry) => d.expectedPayout);
    assert [e, f][1] == f;
  }

  lemma PairVerdict(market: seq<Entry>, e: Entry, f: Entry)
    requires e in market && f in market && Safety.DistinctPositions(market)
    requires e.positionIdentity != f.positionIdentity
    requires forall d :: d in market ==> d.positionIdentity in [e.positionIdentity, f.positionIdentity]
    ensures MarketProblem(market)
            == if BackingOf(f) != BackingOf(e) then Some(EvidenceConflict)
               else if e.expectedPayout + f.expectedPayout > e.settlementBacking then Some(InsufficientBacking)
               else None
  {
    TwoEntries(market, e, f);
    ProblemOfTwo(e, f);
    ProblemOfTwo(f, e);
  }

  /** Each position that pays has its entry among those built; each built entry is the entry of its position. */
  lemma PositionBuilt(input: Input, built: seq<Entry>, rejected: seq<Exclusion>, c: Candidate)
    requires Build(SortedGroups(Deduplicated(input), input)) == Ok((built, rejected))
    requires c in Deduplicated(input) && Gate(c, input).None?
    ensures OwnGroup(c, input).items != []
    ensures match PositionFault(OwnGroup(c, input).items)
            case None => CreateEntry(OwnGroup(c, input)).Accept? && CreateEntry(OwnGroup(c, input)).entry in built
            case Some(reason) => GroupExcluded(OwnGroup(c, input), reason) in rejected
  {
    InOwnPosition(c, input);
    var i := GroupOf(c, input);
    BuildHas(SortedGroups(Deduplicated(input), input), built, rejected, i);
    GroupFate(OwnGroup(c, input));
  }

  lemma BuiltPosition(input: Input, built: seq<Entry>, rejected: seq<Exclusion>, e: Entry) returns (d: Candidate)
    requires Build(SortedGroups(Deduplicated(input), input)) == Ok((built, rejected)) && e in built
    ensures d in Deduplicated(input) && Gate(d, input).None? && OwnGroup(d, input).items != []
    ensures OwnGroup(d, input).items[0] == d && CreateEntry(OwnGroup(d, input)) == Accept(e)
  {
    var groups := SortedGroups(Deduplicated(input), input);
    var i := Safety.BuiltFrom(groups, built, rejected, e);
    GroupIsPosition(input, i);
    d := groups[i].items[0];
    assert d in Survivors(input, groups[i].key);
  }

  // ---- positions of a market ----

  lemma SamePrefix(a: string, m: string, n: string, s: string, t: string)
    requires a + m + s == a + n + t && |s| == |t|
    ensures m == n && s == t
  {
    var whole := a + m + s;
    assert |m| == |n|;
    assert m == whole[|a|..|a| + |m|] && n == whole[|a|..|a| + |n|];
    assert s == whole[|a| + |m|..] && t == whole[|a| + |n|..];
  }

  lemma IdentityParts(market: Market, owner: string, i: nat)
    ensures PositionIdentity(market, owner, i)
            == (Decimal(market.chainId) + ":" + market.binaryModule + ":") + market.marketId
               + (":" + owner + ":" + Decimal(i))
  {}

  lemma OneDigit(n: nat)
    requires n < 10
    ensures Decimal(n) == [("0123456789")[n]]
  {
    assert n % 10 == n;
    assert Decimal(n) == "" + [("0123456789")[n % 10]];
  }

  /** With chain, module and owner fixed by the gate, an identity determines market and outcome. */
  lemma IdentityDetermines(c: Candidate, d: Candidate, i: OutcomeIndex, j: OutcomeIndex, input: Input)
    requires Gate(c, input).None? && Gate(d, input).None?
    requires PositionIdentity(c.market, c.owner, i) == PositionIdentity(d.market, d.owner, j)
    ensures c.market == d.market && i == j
  {
    assert MatchesPlan(c, input) && MatchesPlan(d, input);
    var prefix := Decimal(input.chainId) + ":" + input.binaryModule + ":";
    OneDigit(i);
    OneDigit(j);
    var s, t := ":" + input.owner + ":" + Decimal(i), ":" + input.owner + ":" + Decimal(j);
    IdentityParts(c.market, c.owner, i);
    IdentityParts(d.market, d.owner, j);
    SamePrefix(prefix, c.market.marketId, d.market.marketId, s, t);
    assert s[|s| - 1] == t[|t| - 1];
  }

  lemma PositionsDiffer(c: Candidate, input: Input)
    requires Gate(c, input).None?
    ensures IdentityOf(c) != OtherPosition(c)
  {
    if IdentityOf(c) == OtherPosition(c) {
      IdentityDetermines(c, c, c.outcomeIndex, 1 - c.outcomeIndex, input);
    }
  }

  /** Gated candidates of one market are in one of its two positions. */
  lemma SameMarket(c: Candidate, d: Candidate, input: Input)
    requires Gate(c, input).None? && Gate(d, input).None? && c.market.marketId == d.market.marketId
    ensures IdentityOf(d) == IdentityOf(c) || IdentityOf(d) == OtherPosition(c)
  {
    assert MatchesPlan(c, input) && MatchesPlan(d, input);
    assert c.market == Market(input.chainId, input.binaryModule, c.market.marketId) == d.market;
    assert d.outcomeIndex == c.outcomeIndex || d.outcomeIndex == 1 - c.outcomeIndex;
  }

  /** The entry that the position of a gated candidate makes. */
  ghost predicate OwnEntry(c: Candidate, input: Input, e: Entry) {
    && c in Deduplicated(input) && Gate(c, input).None? && OwnGroup(c, input).items != []
    && CreateEntry(OwnGroup(c, input)) == Accept(e)
  }

  lemma OwnEntryFields(c: Candidate, input: Input, e: Entry)
    requires OwnEntry(c, input, e)
    ensures e.positionIdentity == IdentityOf(c) && e.marketId == c.market.marketId
    ensures e.expectedPayout == PayoutOf(OwnGroup(c, input).items)
    ensures BackingOf(e) == BackingFor(OwnGroup(c, input).items[0])
    ensures e.candidateIds == SortedIds(OwnGroup(c, input).items)
    ensures e.outcomeIndex == c.outcomeIndex
  {
    var g := OwnGroup(c, input);
    assert g.items[0] in g.items;
    AcceptedFields(g);
    IdentityDetermines(c, g.items[0], c.outcomeIndex, g.items[0].outcomeIndex, input);
  }

  /** A market's entries are those of the two positions. */
  lemma MarketPositions(
    input: Input, built: seq<Entry>, rejected: seq<Exclusion>, c: Candidate, e: Entry, d: Entry)
    requires Build(SortedGroups(Deduplicated(input), input)) == Ok((built, rejected))
    requires OwnEntry(c, input, e) && d in OfKey(built, MarketOf, e.marketId)
    ensures d.positionIdentity == IdentityOf(c)
            || (d.positionIdentity == OtherPosition(c) && Pays(Survivors(input, OtherPosition(c))))
  {
    OfKeyMembers(built, MarketOf, e.marketId, d);
    var x := BuiltPosition(input, built, rejected, d);
    OwnEntryFields(x, input, d);
    OwnEntryFields(c, input, e);
    SameMarket(c, x, input);
    GroupFate(OwnGroup(x, input));
  }

  /** The entry of the other position, if that pays. */
  lemma OtherEntry(input: Input, built: seq<Entry>, rejected: seq<Exclusion>, c: Candidate, e: Entry)
    returns (f: Entry)
    requires Build(SortedGroups(Deduplicated(input), input)) == Ok((built, rejected))
    requires OwnEntry(c, input, e) && Pays(Survivors(input, OtherPosition(c)))
    ensures f in OfKey(built, MarketOf, e.marketId) && f.positionIdentity == OtherPosition(c)
    ensures f.expectedPayout == PayoutOf(Survivors(input, OtherPosition(c)))
    ensures BackingOf(f) == BackingFor(Survivors(input, OtherPosition(c))[0])
  {
    var other := Survivors(input, OtherPosition(c));
    var y := other[0];
    assert y in other;
    assert OwnGroup(y, input).items == other;
    PositionBuilt(input, built, rejected, y);
    f := CreateEntry(OwnGroup(y, input)).entry;
    OwnEntryFields(y, input, f);
    OwnEntryFields(c, input, e);
    IdentityDetermines(c, y, 1 - c.outcomeIndex, y.outcomeIndex, input);
    OfKeyMembers(built, MarketOf, e.marketId, f);
  }

  lemma MarketShape(input: Input, built: seq<Entry>, rejected: seq<Exclusion>, c: Candidate, e: Entry)
    requires Build(SortedGroups(Deduplicated(input), input)) == Ok((built, rejected)) && e in built
    requires OwnEntry(c, input, e)
    ensures var market := OfKey(built, MarketOf, e.marketId);
            && e in market && Safety.DistinctPositions(market)
            && (forall d :: d in market ==>
                  d.positionIdentity == e.positionIdentity
                  || (d.positionIdentity == OtherPosition(c) && Pays(Survivors(input, OtherPosition(c)))))
  {
    var market := OfKey(built, MarketOf, e.marketId);
    OfKeyMembers(built, MarketOf, e.marketId, e);
    Safety.BuiltDistinct(Deduplicated(input), input, built, rejected);
    OfKeyDistinct(built, e.marketId);
    OwnEntryFields(c, input, e);
    forall d | d in market
      ensures d.positionIdentity == e.positionIdentity
              || (d.positionIdentity == OtherPosition(c) && Pays(Survivors(input, OtherPosition(c))))
    {
      MarketPositions(input, built, rejected, c, e, d);
    }
  }

  /** The planner's verdict on a market is that of its two positions. */
  lemma MarketVerdict(input: Input, built: seq<Entry>, rejected: seq<Exclusion>, c: Candidate, e: Entry)
    requires Build(SortedGroups(Deduplicated(input), input)) == Ok((built, rejected)) && e in built
    requires OwnEntry(c, input, e)
    ensures e in OfKey(built, MarketOf, e.marketId)
    ensures MarketProblem(OfKey(built, MarketOf, e.marketId))
            == MarketFault(OwnGroup(c, input).items, Survivors(input, OtherPosition(c)))
  {
    var market, other := OfKey(built, MarketOf, e.marketId), Survivors(input, OtherPosition(c));
    MarketShape(input, built, rejected, c, e);
    OwnEntryFields(c, input, e);
    if Pays(other) {
      var f := OtherEntry(input, built, rejected, c, e);
      PositionsDiffer(c, input);
      PairVerdict(market, e, f);
    } else {
      OneEntry(market, e);
      ProblemOfOne(e);
    }
  }

  // ---- the planner follows the fates ----

  lemma PlannedOrExcluded(input: Input, draft: Draft, c: Candidate)
    requires PlanOf(input) == Ok(draft) && c in Deduplicated(input)
    ensures match Fate(c, input)
            case None =>
              exists e :: e in draft.entries && OwnEntry(c, input, e)
            case Some(reason) => ExclusionOf(c, input, reason) in draft.exclusions
  {
    var unique := Deduplicated(input);
    var (built, rejected) := Build(SortedGroups(unique, input)).value;
    var gated, unbacked := Gated(unique, input), Unbacked(Markets(built));
    if Gate(c, input).Some? {
      GatedHas(unique, input, c);
      SortContains(gated + rejected + unbacked, ExclusionLeq, Excluded(c, Gate(c, input).value));
    } else {
      PositionBuilt(input, built, rejected, c);
      var g := OwnGroup(c, input);
      if PositionFault(g.items).Some? {
        SortContains(gated + rejected + unbacked, ExclusionLeq, GroupExcluded(g, PositionFault(g.items).value));
      } else {
        var e := CreateEntry(g).entry;
        MarketVerdict(input, built, rejected, c, e);
        MarketJudged(built, e);
        AcceptedFields(g);
        var fault := MarketFault(g.items, Survivors(input, OtherPosition(c)));
        if fault.Some? {
          assert BackingExcluded(e, fault.value) == GroupExcluded(g, fault.value);
          SortContains(gated + rejected + unbacked, ExclusionLeq, GroupExcluded(g, fault.value));
        } else {
          SortContains(Backed(Markets(built)), EntryLeq, e);
        }
      }
    }
  }

  /** The exclusion drops the candidate, for the reason of its fate. */
  ghost predicate Drops(x: Exclusion, c: Candidate, input: Input)
    requires c in Deduplicated(input)
  {
    Fate(c, input).Some? && x == ExclusionOf(c, input, Fate(c, input).value)
  }

  lemma {:induction false} IdListed(items: seq<Candidate>, c: Candidate)
    requires c in items
    ensures c.candidateId in CandidateIds(items)
  {
    var front, last := items[..|items| - 1], items[|items| - 1];
    if c in front {
      IdListed(front, c);
    } else {
      assert c == last;
    }
  }

  lemma OwnIdListed(c: Candidate, input: Input)
    requires c in Deduplicated(input) && Gate(c, input).None?
    ensures c.candidateId in SortedIds(OwnGroup(c, input).items)
  {
    InOwnPosition(c, input);
    IdListed(OwnGroup(c, input).items, c);
    SortContains(CandidateIds(OwnGroup(c, input).items), Leq, c.candidateId);
  }

  /** Only one entry or exclusion lists an id. */
  lemma ListedOnce(input: Input, draft: Draft, c: Candidate)
    requires PlanOf(input) == Ok(draft) && c in Deduplicated(input)
    ensures forall d, e | d in draft.entries && e in draft.entries
              :: c.candidateId in d.candidateIds && c.candidateId in e.candidateIds ==> d == e
    ensures forall x, y | x in draft.exclusions && y in draft.exclusions
              :: c.candidateId in x.candidateIds && c.candidateId in y.candidateIds ==> x == y
    ensures forall e, x :: e in draft.entries && x in draft.exclusions ==>
                             !(c.candidateId in e.candidateIds && c.candidateId in x.candidateIds)
  {
    var id := c.candidateId;
    A.ExactAccounting(input, draft, id);
    forall d, e | d in draft.entries && e in draft.entries && id in d.candidateIds && id in e.candidateIds
      ensures d == e
    {
      OnlyOne(draft.entries, A.IdsOfEntry, id, d, e);
    }
    forall x, y | x in draft.exclusions && y in draft.exclusions && id in x.candidateIds && id in y.candidateIds
      ensures x == y
    {
      OnlyOne(draft.exclusions, A.IdsOfExclusion, id, x, y);
    }
    forall e, x | e in draft.entries && x in draft.exclusions && id in e.candidateIds && id in x.candidateIds
      ensures false
    {
      OnceAtLeast(draft.entries, A.IdsOfEntry, id, e);
      OnceAtLeast(draft.exclusions, A.IdsOfExclusion, id, x);
    }
  }

  lemma OnceAtLeast<T>(s: seq<T>, ids: T -> multiset<string>, id: string, x: T)
    requires x in s && id in ids(x)
    ensures Gather(s, ids)[id] >= 1
  {
    var i :| 0 <= i < |s| && s[i] == x;
    GatherCounts(s, ids, id, i);
  }

  lemma OnlyOne<T>(s: seq<T>, ids: T -> multiset<string>, id: string, x: T, y: T)
    requires x in s && y in s && id in ids(x) && id in ids(y) && Gather(s, ids)[id] <= 1
    ensures x == y
  {
    var i :| 0 <= i < |s| && s[i] == x;
    var j :| 0 <= j < |s| && s[j] == y;
    if i < j {
      GatherCountsTwo(s, ids, id, i, j);
    } else if j < i {
      GatherCountsTwo(s, ids, id, j, i);
    }
  }

  /**
   * The plan does with every candidate what its fate says, whatever else is in the list: its id is in an entry if
   * and only if nothing is wrong with it, its position or its market, and that entry is the one its position makes;
   * otherwise its id is in exactly the exclusion of its fate.
   */
  lemma FateIsExact(input: Input, draft: Draft, c: Candidate)
    requires PlanOf(input) == Ok(draft) && c in Deduplicated(input)
    ensures Fate(c, input).None? <==> exists e :: e in draft.entries && c.candidateId in e.candidateIds
    ensures Fate(c, input).Some? <==> exists x :: x in draft.exclusions && c.candidateId in x.candidateIds
    ensures forall e :: e in draft.entries && c.candidateId in e.candidateIds ==> OwnEntry(c, input, e)
    ensures forall x :: x in draft.exclusions && c.candidateId in x.candidateIds ==> Drops(x, c, input)
  {
    PlannedOrExcluded(input, draft, c);
    ListedOnce(input, draft, c);
    if Gate(c, input).None? {
      OwnIdListed(c, input);
    }
    match Fate(c, input)
    case None =>
      var e :| e in draft.entries && OwnEntry(c, input, e);
      OwnEntryFields(c, input, e);
    case Some(reason) =>
      var x := ExclusionOf(c, input, reason);
      assert c.candidateId in x.candidateIds;
  }

  // ---- and lists nothing else ----

  lemma {:induction false} GatedList(candidates: seq<Candidate>, input: Input)
    ensures forall x :: x in Gated(candidates, input) ==> x.candidateIds != []
  {
    if candidates != [] {
      GatedList(candidates[..|candidates| - 1], input);
    }
  }

  lemma SortedIdsLength(items: seq<Candidate>)
    ensures |SortedIds(items)| == |items|
  {
    SortMultiset(CandidateIds(items), Leq);
  }

  lemma {:induction false} BuiltList(groups: seq<Bucket<Candidate>>, entries: seq<Entry>, rejected: seq<Exclusion>)
    requires Buildable(groups) && Build(groups) == Ok((entries, rejected))
    ensures forall e :: e in entries ==> e.candidateIds != []
    ensures forall x :: x in rejected ==> x.candidateIds != []
  {
    if groups != [] {
      var front, g := groups[..|groups| - 1], groups[|groups| - 1];
      var (entries0, rejected0) := Build(front).value;
      BuiltList(front, entries0, rejected0);
      SortedIdsLength(g.items);
      A.CreateEntryLists(g);
      match CreateEntry(g)
      case Accept(e) => assert entries == entries0 + [e] && rejected == rejected0;
      case Reject(x) => assert rejected == rejected0 + [x] && entries == entries0;
    }
  }

  lemma {:induction false} AllExcludedList(entries: seq<Entry>, reason: Reason)
    requires forall e :: e in entries ==> e.candidateIds != []
    ensures forall x :: x in AllExcluded(entries, reason) ==> x.candidateIds != []
  {
    if entries != [] {
      assert entries[|entries| - 1] in entries;
      AllExcludedList(entries[..|entries| - 1], reason);
    }
  }

  lemma {:induction false} UnbackedList(markets: seq<Bucket<Entry>>)
    requires NonEmpty(markets)
    requires forall i, e :: 0 <= i < |markets| && e in markets[i].items ==> e.candidateIds != []
    ensures forall x :: x in Unbacked(markets) ==> x.candidateIds != []
  {
    if markets != [] {
      var front, last := markets[..|markets| - 1], markets[|markets| - 1].items;
      forall i, e | 0 <= i < |front| && e in front[i].items ensures e.candidateIds != [] {
        assert e in markets[i].items;
      }
      UnbackedList(front);
      if MarketProblem(last).Some? {
        AllExcludedList(last, MarketProblem(last).value);
      }
    }
  }

  lemma ExclusionsList(input: Input, draft: Draft, x: Exclusion)
    requires PlanOf(input) == Ok(draft) && x in draft.exclusions
    ensures x.candidateIds != []
  {
    var unique := Deduplicated(input);
    var (built, rejected) := Build(SortedGroups(unique, input)).value;
    var gated, unbacked := Gated(unique, input), Unbacked(Markets(built));
    GatedList(unique, input);
    BuiltList(SortedGroups(unique, input), built, rejected);
    BucketItems(built, MarketOf);
    UnbackedList(Markets(built));
    SortContains(gated + rejected + unbacked, ExclusionLeq, x);
  }

  /** Nothing is excluded without cause: every exclusion is the one that some candidate's fate calls for. */
  lemma ExclusionsAreJustified(input: Input, draft: Draft, x: Exclusion)
    requires PlanOf(input) == Ok(draft) && x in draft.exclusions
    ensures exists c :: c in Deduplicated(input) && Drops(x, c, input)
  {
    ExclusionsList(input, draft, x);
    var id := x.candidateIds[0];
    A.ExactAccounting(input, draft, id);
    OnceAtLeast(draft.exclusions, A.IdsOfExclusion, id, x);
    var sorted := SortBy(input.candidates, CandidateLeq);
    A.SortKeepsIds(input.candidates, id);
    A.UniqueKeepsIds(sorted, id);
    var k :| 0 <= k < |Deduplicated(input)| && Deduplicated(input)[k].candidateId == id;
    FateIsExact(input, draft, Deduplicated(input)[k]);
  }

  // ---- when there is no plan ----

  ghost predicate SomeOvercharged(input: Input) {
    exists c :: c in Deduplicated(input) && Overcharged(c, input)
  }

  lemma BuildThrowsExactly(input: Input)
    ensures Build(SortedGroups(Deduplicated(input), input)).Err? <==> SomeOvercharged(input)
  {
    var groups := SortedGroups(Deduplicated(input), input);
    if Build(groups).Err? {
      var i := BuildThrows(groups);
      GroupIsPosition(input, i);
      GroupFate(groups[i]);
      var c := groups[i].items[0];
      assert c in Survivors(input, groups[i].key);
      assert Overcharged(c, input);
    } else if SomeOvercharged(input) {
      var c :| c in Deduplicated(input) && Overcharged(c, input);
      var i := GroupOf(c, input);
      InOwnPosition(c, input);
      GroupFate(OwnGroup(c, input));
      BuildHas(groups, Build(groups).value.0, Build(groups).value.1, i);
    }
  }

  /** The planner throws on a bad input, on a position it would pay but for its fee, or on an unsafe expiry. */
  lemma PlanFailsExactly(input: Input)
    ensures PlanOf(input).Err? <==>
            || InputError(input).Some? || SomeOvercharged(input) || input.now + input.ttlMs > MAX_SAFE_INTEGER
    ensures InputError(input).None? && SomeOvercharged(input) ==> PlanOf(input) == Err(FeeTooHigh)
  {
    BuildThrowsExactly(input);
    BuildError(SortedGroups(Deduplicated(input), input));
  }

  lemma {:induction false} BuildError(groups: seq<Bucket<Candidate>>)
    requires Buildable(groups)
    ensures Build(groups).Err? ==> Build(groups) == Err(FeeTooHigh)
  {
    if groups != [] {
      BuildError(groups[..|groups| - 1]);
    }
  }
}
