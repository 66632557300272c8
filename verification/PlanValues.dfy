/**
 * The finalized plan as the JavaScript value that is hashed and stored, and the chain from planner to stored hash:
 * every plan the planner prepares from lower-case input and finalization accepts survives storage with its hash.
 */
module PlanValues {
  import opened Canonical
  import opened Ordering
  import opened Payout
  import opened Planner
  import opened PlanIntegrity
  import opened PlanStorage
  import opened Wrappers
  import F = Finalize
  import Fates = PlanReasons
  import R = ReceiptSafety
  import Safety = PlanSafety

  // ---- objects and lists ----

  /** The object that holds one value for each member, in their order. */
  function ObjectOf(members: seq<Member>, values: seq<Value>): Value
    requires |values| == |members|
  {
    Obj(FieldsOf(members, values))
  }

  function FieldsOf(members: seq<Member>, values: seq<Value>): (fields: seq<Field>)
    requires |values| == |members|
    ensures |fields| == |members|
  {
    seq(|members|, i requires 0 <= i < |members| => Field(members[i].key, values[i]))
  }

  /** A domain value of the schema. */
  ghost predicate Fits(schema: Schema, v: Value) {
    Conforms(schema, v) && Plain(v) && !v.Undefined?
  }

  ghost predicate FitFrom(members: seq<Member>, values: seq<Value>, from: nat, to: nat)
    requires |values| == |members| && to <= |members|
  {
    forall i :: from <= i < to ==> Fits(members[i].schema, values[i])
  }

  ghost predicate AllFit(members: seq<Member>, values: seq<Value>)
    requires |values| == |members|
  {
    FitFrom(members, values, 0, |members|)
  }

  lemma FieldsConform(members: seq<Member>, values: seq<Value>)
    requires |values| == |members| && DistinctMembers(members) && AllFit(members, values)
    ensures ConformMembers(members, FieldsOf(members, values)) && Plain(ObjectOf(members, values))
  {
    var fields := FieldsOf(members, values);
    forall i | 0 <= i < |fields| ensures Known(fields[i].key, members) && Plain(fields[i].value) {
      assert members[i].key == fields[i].key && Fits(members[i].schema, values[i]);
    }
    forall m | 0 <= m < |members|
      ensures Present(fields, members[m].key) && Conforms(members[m].schema, At(fields, members[m].key))
    {
      FindsItself(fields, m);
      assert fields[m] == Field(members[m].key, values[m]) && Fits(members[m].schema, values[m]);
    }
  }

  lemma RecordFits(members: seq<Member>, values: seq<Value>)
    requires |values| == |members| && DistinctMembers(members) && AllFit(members, values)
    ensures Fits(Record(members), ObjectOf(members, values))
  {
    FieldsConform(members, values);
  }

  function ListOf<T>(items: seq<T>, value: T -> Value): Value {
    Arr(seq(|items|, i requires 0 <= i < |items| => value(items[i])))
  }

  lemma ListFits<T>(items: seq<T>, value: T -> Value, item: Schema, nonEmpty: bool)
    requires (nonEmpty ==> items != []) && forall x :: x in items ==> Fits(item, value(x))
    ensures Fits(List(item, nonEmpty), ListOf(items, value))
  {
    var v := ListOf(items, value);
    forall i | 0 <= i < |v.items| ensures Fits(item, v.items[i]) {
      assert items[i] in items;
    }
  }

  // ---- the parts of a plan ----

  function TextOf(s: string): Value { Str(s) }

  function EntryValues(e: Entry): (values: seq<Value>)
    ensures |values| == 16
  {
    [Str(e.positionIdentity), Str(e.marketId), Num(e.outcomeIndex as real), Str(Decimal(e.tokenId)), Big(e.amount),
     Big(e.verifiedBalance), Str(e.pool), Big(e.marketNonce), Str(e.collateral), Big(e.settlementBacking),
     Big(e.payoutNumerator), Big(e.payoutDenominator), Big(e.settlementFee), Big(e.expectedPayout),
     Str(e.evidenceVersion), ListOf(e.candidateIds, TextOf)]
  }

  function EntryValue(e: Entry): Value {
    ObjectOf(ENTRY_MEMBERS, EntryValues(e))
  }

  function ExclusionValues(x: Exclusion, detail: Exclusion -> string): (values: seq<Value>)
    ensures |values| == 6
  {
    [ListOf(x.candidateIds, TextOf), Str(x.positionIdentity), Str(x.marketId), Num(x.outcomeIndex as real),
     Str(ReasonText(x.reason)), Str(detail(x))]
  }

  function ExclusionValue(detail: Exclusion -> string): Exclusion -> Value {
    (x: Exclusion) => ObjectOf(EXCLUSION_MEMBERS, ExclusionValues(x, detail))
  }

  function BatchValues(b: Batch): (values: seq<Value>)
    ensures |values| == 3
  {
    [Num(b.index as real), ListOf(b.entries, EntryValue), Big(b.expectedPayout)]
  }

  function BatchValue(b: Batch): Value {
    ObjectOf(BATCH_MEMBERS, BatchValues(b))
  }

  function SimulationValue(s: F.Simulation): Value {
    match s
    case Passed(index, gas, block) =>
      ObjectOf(PASSED_MEMBERS, [Str("passed"), Num(index as real), Big(gas), Big(block)])
    case FailedSim(index, reason, block) =>
      ObjectOf(FAILED_MEMBERS, [Str("failed"), Num(index as real), Str(reason), Big(block)])
  }

  function ApprovalValue(draft: Draft): Value {
    ObjectOf(APPROVAL_MEMBERS, [Bool(draft.approvalRequired), Str("module-wide"), Str(draft.binaryModule)])
  }

  function PolicyValue(policy: BatchPolicy): Value {
    ObjectOf(POLICY_MEMBERS, [Num(policy.maxEntries as real), Str(policy.name), Str(policy.evidenceReference)])
  }

  function CompletenessText(c: Completeness): string {
    match c
    case Complete => "complete"
    case Partial => "partial"
    case FailedScan => "failed"
  }

  /** Everything but the hash. */
  function PayloadValues(
    draft: Draft, simulations: seq<F.Simulation>, detail: Exclusion -> string): (values: seq<Value>)
    ensures |values| == 19
  {
    [Str("1"), Num(draft.chainId as real), Str(draft.binaryModule), Str(draft.outcomeToken), Str(draft.venueId),
     Num(draft.operatorId as real), Str(draft.owner), Str(draft.recipient), ApprovalValue(draft),
     ListOf(draft.entries, EntryValue), ListOf(draft.batches, BatchValue),
     ListOf(draft.exclusions, ExclusionValue(detail)), Big(draft.expectedPayout),
     Str(CompletenessText(draft.discoveryCompleteness)), Big(draft.verifiedBlock), Num(draft.createdAt as real),
     Num(draft.expiresAt as real), PolicyValue(draft.batchPolicy), ListOf(simulations, SimulationValue)]
  }

  /** `{ ...draft, simulations }` */
  function Payload(draft: Draft, simulations: seq<F.Simulation>, detail: Exclusion -> string): seq<Field> {
    FieldsOf(PLAN_MEMBERS[..19], PayloadValues(draft, simulations, detail))
  }

  // ---- input of the domain types ----

  predicate LowerHexId(s: string, digits: nat) {
    IsHex(s, digits) && Lower(s) == s
  }

  /** A candidate as the read side hands it over: checked lower-case identifiers, no empty text, an unsigned nonce. */
  predicate TypedCandidate(c: Candidate) {
    && c.candidateId != "" && c.evidenceVersion != "" && c.marketNonce >= 0
    && LowerHexId(c.market.marketId, 64) && LowerHexId(c.pool, 40) && LowerHexId(c.collateral, 40)
  }

  predicate TypedInput(input: Input) {
    && 0 < input.chainId <= MAX_SAFE_INTEGER
    && LowerHexId(input.binaryModule, 40) && LowerHexId(input.outcomeToken, 40) && LowerHexId(input.venueId, 64)
    && LowerHexId(input.owner, 40) && input.batchPolicy.name != "" && input.batchPolicy.evidenceReference != ""
    && (forall c :: c in input.candidates ==> TypedCandidate(c))
  }

  predicate TypedEntry(e: Entry) {
    && e.positionIdentity != "" && e.evidenceVersion != "" && e.marketNonce >= 0
    && LowerHexId(e.marketId, 64) && LowerHexId(e.pool, 40) && LowerHexId(e.collateral, 40)
    && e.candidateIds != [] && "" !in e.candidateIds
  }

  predicate TypedExclusion(x: Exclusion) {
    x.positionIdentity != "" && LowerHexId(x.marketId, 64) && x.candidateIds != [] && "" !in x.candidateIds
  }

  // ---- the planner's output is of the domain types ----

  lemma {:induction false} IdsTyped(items: seq<Candidate>)
    requires forall c :: c in items ==> c.candidateId != ""
    ensures "" !in CandidateIds(items)
  {
    if items != [] {
      assert forall c :: c in items[..|items| - 1] ==> c in items;
      IdsTyped(items[..|items| - 1]);
      assert items[|items| - 1] in items;
    }
  }

  /** What names a position of typed candidates. */
  lemma GroupTyped(input: Input, c: Candidate)
    requires TypedInput(input) && c in Deduplicated(input) && Gate(c, input).None?
    ensures var g := Fates.OwnGroup(c, input);
            && g.items != [] && TypedCandidate(g.items[0]) && g.key != ""
            && SortedIds(g.items) != [] && "" !in SortedIds(g.items)
  {
    var g := Fates.OwnGroup(c, input);
    Fates.InOwnPosition(c, input);
    Safety.DeduplicatedMembers(input);
    forall d | d in g.items ensures TypedCandidate(d) {
      assert d in Deduplicated(input);
    }
    assert g.items[0] in g.items;
    IdsTyped(g.items);
    Fates.SortedIdsLength(g.items);
    SortContains(CandidateIds(g.items), Leq, "");
  }

  lemma MadeEntryTyped(g: Bucket<Candidate>, e: Entry)
    requires g.items != [] && TypedCandidate(g.items[0]) && g.key != "" && ValidVector(g.items[0].payoutVector)
    requires SortedIds(g.items) != [] && "" !in SortedIds(g.items) && CreateEntry(g) == Accept(e)
    ensures TypedEntry(e)
  {}

  lemma EntryTyped(input: Input, draft: Draft, e: Entry)
    requires TypedInput(input) && PlanOf(input) == Ok(draft) && e in draft.entries
    ensures TypedEntry(e)
  {
    var (built, rejected) := Build(SortedGroups(Deduplicated(input), input)).value;
    SortContains(Backed(Markets(built)), EntryLeq, e);
    var k := Safety.BackedFrom(Markets(built), e);
    BucketItems(built, MarketOf);
    var c := Fates.BuiltPosition(input, built, rejected, e);
    GroupTyped(input, c);
    MadeEntryTyped(Fates.OwnGroup(c, input), e);
  }

  lemma ExclusionTyped(input: Input, draft: Draft, x: Exclusion)
    requires TypedInput(input) && PlanOf(input) == Ok(draft) && x in draft.exclusions
    ensures TypedExclusion(x)
  {
    Fates.ExclusionsAreJustified(input, draft, x);
    var c :| c in Deduplicated(input) && Fates.Drops(x, c, input);
    Safety.DeduplicatedMembers(input);
    assert TypedCandidate(c);
    if Gate(c, input).None? {
      GroupTyped(input, c);
    }
  }

  // ---- and so its values are those of the schema ----

  lemma TextsFit(ids: seq<string>)
    requires ids != [] && "" !in ids
    ensures Fits(List(Text, true), ListOf(ids, TextOf))
  {
    ListFits(ids, TextOf, Text, true);
  }

  lemma CountFits(n: nat)
    ensures n <= MAX_SAFE_INTEGER ==> Fits(COUNT, Num(n as real))
    ensures 0 < n <= MAX_SAFE_INTEGER ==> Fits(POSITIVE, Num(n as real))
    ensures n < 2 ==> Fits(OUTCOME, Num(n as real))
  {
    assert (n as real).Floor == n;
  }

  lemma TokenFits(n: nat)
    ensures Fits(DecimalText, Str(Decimal(n)))
  {
    ParsedDecimal(n);
  }

  lemma FirstHalfFits(e: Entry)
    requires TypedEntry(e)
    ensures FitFrom(ENTRY_MEMBERS, EntryValues(e), 0, 8)
  {
    CountFits(e.outcomeIndex);
    TokenFits(e.tokenId);
  }

  lemma SecondHalfFits(e: Entry)
    requires TypedEntry(e)
    ensures FitFrom(ENTRY_MEMBERS, EntryValues(e), 8, 16)
  {
    TextsFit(e.candidateIds);
  }

  lemma JoinHalves(members: seq<Member>, values: seq<Value>, middle: nat)
    requires |values| == |members| && middle <= |members|
    requires FitFrom(members, values, 0, middle) && FitFrom(members, values, middle, |members|)
    ensures AllFit(members, values)
  {}

  lemma EntryFits(e: Entry)
    requires TypedEntry(e)
    ensures Fits(Record(ENTRY_MEMBERS), EntryValue(e))
  {
    FirstHalfFits(e);
    SecondHalfFits(e);
    EntryKeysDistinct();
    JoinHalves(ENTRY_MEMBERS, EntryValues(e), 8);
    RecordFits(ENTRY_MEMBERS, EntryValues(e));
  }

  lemma ReasonKnown(reason: Planner.Reason)
    ensures ReasonText(reason) in REASONS
  {}

  lemma ExclusionFits(x: Exclusion, detail: Exclusion -> string)
    requires TypedExclusion(x) && detail(x) != ""
    ensures Fits(Record(EXCLUSION_MEMBERS), ExclusionValue(detail)(x))
  {
    CountFits(x.outcomeIndex);
    TextsFit(x.candidateIds);
    ReasonKnown(x.reason);
    ExclusionsWellFormed();
    assert AllFit(EXCLUSION_MEMBERS, ExclusionValues(x, detail));
    RecordFits(EXCLUSION_MEMBERS, ExclusionValues(x, detail));
  }

  lemma BatchFits(b: Batch)
    requires b.index <= MAX_SAFE_INTEGER && b.entries != [] && forall e :: e in b.entries ==> TypedEntry(e)
    ensures Fits(Record(BATCH_MEMBERS), BatchValue(b))
  {
    CountFits(b.index);
    forall e | e in b.entries ensures Fits(Record(ENTRY_MEMBERS), EntryValue(e)) {
      EntryFits(e);
    }
    ListFits(b.entries, EntryValue, Record(ENTRY_MEMBERS), true);
    BatchesWellFormed();
    assert AllFit(BATCH_MEMBERS, BatchValues(b));
    RecordFits(BATCH_MEMBERS, BatchValues(b));
  }

  lemma PassedFits(s: F.Simulation)
    requires s.Passed? && s.batchIndex <= MAX_SAFE_INTEGER
    ensures Fits(SIMULATION, SimulationValue(s))
  {
    CountFits(s.batchIndex);
    var values := [Str("passed"), Num(s.batchIndex as real), Big(s.gasEstimate), Big(s.verifiedBlock)];
    SimulationsWellFormed();
    assert DistinctMembers(SIMULATION.cases[0].members);
    assert AllFit(PASSED_MEMBERS, values);
    FieldsConform(PASSED_MEMBERS, values);
    FindsItself(FieldsOf(PASSED_MEMBERS, values), 0);
    assert MembersFor(SIMULATION, SimulationValue(s)) == Some(PASSED_MEMBERS);
  }

  lemma ApprovalFits(draft: Draft)
    requires LowerHexId(draft.binaryModule, 40)
    ensures Fits(Record(APPROVAL_MEMBERS), ApprovalValue(draft))
  {
    PartsWellFormed();
    var values := [Bool(draft.approvalRequired), Str("module-wide"), Str(draft.binaryModule)];
    assert AllFit(APPROVAL_MEMBERS, values);
    RecordFits(APPROVAL_MEMBERS, values);
  }

  lemma PolicyFits(policy: BatchPolicy)
    requires 0 < policy.maxEntries <= MAX_SAFE_INTEGER && policy.name != "" && policy.evidenceReference != ""
    ensures Fits(Record(POLICY_MEMBERS), PolicyValue(policy))
  {
    PartsWellFormed();
    CountFits(policy.maxEntries);
    var values := [Num(policy.maxEntries as real), Str(policy.name), Str(policy.evidenceReference)];
    assert AllFit(POLICY_MEMBERS, values);
    RecordFits(POLICY_MEMBERS, values);
  }

  // ---- the whole plan ----

  /** The scalars of a plan. */
  predicate TypedHeader(draft: Draft) {
    && 0 < draft.chainId <= MAX_SAFE_INTEGER && draft.operatorId <= MAX_SAFE_INTEGER
    && LowerHexId(draft.binaryModule, 40) && LowerHexId(draft.outcomeToken, 40) && LowerHexId(draft.venueId, 64)
    && LowerHexId(draft.owner, 40) && LowerHexId(draft.recipient, 40)
    && draft.createdAt <= MAX_SAFE_INTEGER && 0 < draft.expiresAt <= MAX_SAFE_INTEGER
    && 0 < draft.batchPolicy.maxEntries <= MAX_SAFE_INTEGER
    && draft.batchPolicy.name != "" && draft.batchPolicy.evidenceReference != ""
  }

  lemma HeaderTyped(input: Input, draft: Draft)
    requires TypedInput(input) && PlanOf(input) == Ok(draft)
    ensures TypedHeader(draft)
  {}

  /** The lists of a plan are lists of domain values. */
  ghost predicate ListsFit(draft: Draft, simulations: seq<F.Simulation>, detail: Exclusion -> string) {
    && Fits(List(Record(ENTRY_MEMBERS), true), ListOf(draft.entries, EntryValue))
    && Fits(List(Record(BATCH_MEMBERS), true), ListOf(draft.batches, BatchValue))
    && Fits(List(Record(EXCLUSION_MEMBERS), false), ListOf(draft.exclusions, ExclusionValue(detail)))
    && Fits(List(SIMULATION, false), ListOf(simulations, SimulationValue))
  }

  /** An array index, and so a batch number, is a safe integer in JavaScript. */
  predicate FewBatches(draft: Draft) { |draft.batches| <= MAX_SAFE_INTEGER }

  lemma BatchTyped(input: Input, draft: Draft, b: nat)
    requires TypedInput(input) && PlanOf(input) == Ok(draft) && b < |draft.batches| && FewBatches(draft)
    ensures Fits(Record(BATCH_MEMBERS), BatchValue(draft.batches[b]))
  {
    F.BatchesOfPlan(input, draft);
    R.BatchEntriesIn(draft.batches, b);
    forall e | e in draft.batches[b].entries ensures TypedEntry(e) {
      EntryTyped(input, draft, e);
    }
    BatchFits(draft.batches[b]);
  }

  lemma EntriesFit(input: Input, draft: Draft)
    requires TypedInput(input) && PlanOf(input) == Ok(draft) && draft.entries != []
    ensures Fits(List(Record(ENTRY_MEMBERS), true), ListOf(draft.entries, EntryValue))
  {
    forall e | e in draft.entries ensures Fits(Record(ENTRY_MEMBERS), EntryValue(e)) {
      EntryTyped(input, draft, e);
      EntryFits(e);
    }
    ListFits(draft.entries, EntryValue, Record(ENTRY_MEMBERS), true);
  }

  lemma BatchesFit(input: Input, draft: Draft)
    requires TypedInput(input) && PlanOf(input) == Ok(draft) && draft.entries != [] && FewBatches(draft)
    ensures Fits(List(Record(BATCH_MEMBERS), true), ListOf(draft.batches, BatchValue))
  {
    F.BatchesOfPlan(input, draft);
    assert draft.batches == [] ==> F.Concat(draft.batches) == [];
    forall b | b in draft.batches ensures Fits(Record(BATCH_MEMBERS), BatchValue(b)) {
      var k :| 0 <= k < |draft.batches| && draft.batches[k] == b;
      BatchTyped(input, draft, k);
    }
    ListFits(draft.batches, BatchValue, Record(BATCH_MEMBERS), true);
  }

  lemma ExclusionsFit(input: Input, draft: Draft, detail: Exclusion -> string)
    requires TypedInput(input) && PlanOf(input) == Ok(draft) && forall x :: x in draft.exclusions ==> detail(x) != ""
    ensures Fits(List(Record(EXCLUSION_MEMBERS), false), ListOf(draft.exclusions, ExclusionValue(detail)))
  {
    forall x | x in draft.exclusions ensures Fits(Record(EXCLUSION_MEMBERS), ExclusionValue(detail)(x)) {
      ExclusionTyped(input, draft, x);
      ExclusionFits(x, detail);
    }
    ListFits(draft.exclusions, ExclusionValue(detail), Record(EXCLUSION_MEMBERS), false);
  }

  /** Of the simulations in batch order. */
  lemma SimulationsFit(simulations: seq<F.Simulation>, n: nat, verifiedBlock: nat)
    requires F.Paired(simulations, n) && F.AllFresh(simulations, verifiedBlock) && n <= MAX_SAFE_INTEGER
    ensures Fits(List(SIMULATION, false), ListOf(InOrder(simulations), SimulationValue))
  {
    forall s | s in InOrder(simulations) ensures Fits(SIMULATION, SimulationValue(s)) {
      SortContains(simulations, F.SimulationLeq, s);
      var k :| 0 <= k < |simulations| && simulations[k] == s;
      PassedFits(s);
    }
    ListFits(InOrder(simulations), SimulationValue, SIMULATION, false);
  }

  function InOrder(simulations: seq<F.Simulation>): seq<F.Simulation> {
    SortBy(simulations, F.SimulationLeq)
  }

  lemma FirstPartFits(draft: Draft, simulations: seq<F.Simulation>, detail: Exclusion -> string)
    requires TypedHeader(draft)
    ensures FitFrom(PLAN_MEMBERS[..19], PayloadValues(draft, simulations, detail), 0, 9)
  {
    CountFits(draft.chainId);
    CountFits(draft.operatorId);
    ApprovalFits(draft);
  }

  lemma SecondPartFits(draft: Draft, simulations: seq<F.Simulation>, detail: Exclusion -> string)
    requires TypedHeader(draft) && ListsFit(draft, simulations, detail)
    ensures FitFrom(PLAN_MEMBERS[..19], PayloadValues(draft, simulations, detail), 9, 19)
  {
    CountFits(draft.createdAt);
    CountFits(draft.expiresAt);
    PolicyFits(draft.batchPolicy);
  }

  lemma PayloadFits(
    input: Input, draft: Draft, simulations: seq<F.Simulation>, detail: Exclusion -> string)
    requires TypedInput(input) && PlanOf(input) == Ok(draft) && FewBatches(draft)
    requires F.SimulationsProblem(draft, simulations).None?
    requires forall x :: x in draft.exclusions ==> detail(x) != ""
    ensures AllFit(PLAN_MEMBERS[..19], PayloadValues(draft, InOrder(simulations), detail))
  {
    F.FinalizesExactly(input, draft, simulations);
    HeaderTyped(input, draft);
    EntriesFit(input, draft);
    BatchesFit(input, draft);
    ExclusionsFit(input, draft, detail);
    SimulationsFit(simulations, |draft.batches|, draft.verifiedBlock);
    FirstPartFits(draft, InOrder(simulations), detail);
    SecondPartFits(draft, InOrder(simulations), detail);
    JoinHalves(PLAN_MEMBERS[..19], PayloadValues(draft, InOrder(simulations), detail), 9);
  }

  lemma LastMember(members: seq<Member>, values: seq<Value>, v: Value)
    requires |members| == |values| + 1
    requires AllFit(members[..|values|], values) && Fits(members[|values|].schema, v)
    ensures AllFit(members, values + [v])
    ensures FieldsOf(members, values + [v]) == FieldsOf(members[..|values|], values) + [Field(members[|values|].key, v)]
  {
    var front := members[..|values|];
    forall i | 0 <= i < |members| ensures Fits(members[i].schema, (values + [v])[i]) {
      if i < |values| {
        assert Fits(front[i].schema, values[i]);
      }
    }
  }

  // ---- finalization ----

  /** What finalization hashes, for `Finalize.FinalizeClaimPlan`; a payload that cannot be hashed throws. */
  function PlanDigest(detail: Exclusion -> string, digest: Value -> string): (Draft, seq<F.Simulation>) -> string {
    (draft: Draft, simulations: seq<F.Simulation>) => HashOf(Payload(draft, simulations, detail), digest).GetOr("")
  }

  /** The value of a finalized plan. */
  function PlanValue(plan: F.Plan, detail: Exclusion -> string): Value {
    Finalized(Payload(plan.draft, plan.simulations, detail), plan.integrityHash)
  }

  /** The plan that `Finalize.FinalizeClaimPlan` returns for a draft without simulation problems. */
  function FinalPlan(
    draft: Draft, simulations: seq<F.Simulation>, detail: Exclusion -> string, digest: Value -> string): F.Plan {
    F.Plan(draft, InOrder(simulations), PlanDigest(detail, digest)(draft, InOrder(simulations)))
  }

  /** The digest prints 32 bytes in lower-case hex. */
  ghost predicate HexDigest(digest: Value -> string) {
    forall form :: LowerHexId(digest(form), 64)
  }

  lemma FinalPlanConforms(
    input: Input, draft: Draft, simulations: seq<F.Simulation>, detail: Exclusion -> string, digest: Value -> string)
    requires TypedInput(input) && PlanOf(input) == Ok(draft) && FewBatches(draft) && HexDigest(digest)
    requires F.SimulationsProblem(draft, simulations).None?
    requires forall x :: x in draft.exclusions ==> detail(x) != ""
    ensures var plan := FinalPlan(draft, simulations, detail, digest);
            && Fits(CLAIM_PLAN, PlanValue(plan, detail))
            && HashOf(Payload(draft, plan.simulations, detail), digest) == Some(plan.integrityHash)
  {
    var plan := FinalPlan(draft, simulations, detail, digest);
    var values := PayloadValues(draft, plan.simulations, detail);
    PayloadFits(input, draft, simulations, detail);
    PlanKeysDistinct();
    PayloadHashes(values, digest);
    CheckedMembers();
    assert Fits(BYTES32, Str(plan.integrityHash));
    LastMember(PLAN_MEMBERS, values, Str(plan.integrityHash));
    RecordFits(PLAN_MEMBERS, values + [Str(plan.integrityHash)]);
  }

  lemma PayloadHashes(values: seq<Value>, digest: Value -> string)
    requires |values| == 19 && AllFit(PLAN_MEMBERS[..19], values) && DistinctMembers(PLAN_MEMBERS)
    requires HexDigest(digest)
    ensures HashOf(FieldsOf(PLAN_MEMBERS[..19], values), digest).Some?
    ensures LowerHexId(HashOf(FieldsOf(PLAN_MEMBERS[..19], values), digest).value, 64)
  {
    FieldsConform(PLAN_MEMBERS[..19], values);
    MembersStore(PLAN_MEMBERS[..19], FieldsOf(PLAN_MEMBERS[..19], values));
  }

  /**
   * From planner to stored hash: a plan prepared from typed input and finalized is a value of the schema, can be
   * stored, and read back in any order of keys it is a plan with the same normal form whose hash still matches.
   */
  lemma PlannedHashSurvives(
    input: Input, draft: Draft, simulations: seq<F.Simulation>, detail: Exclusion -> string, digest: Value -> string,
    stored: Value)
    requires TypedInput(input) && PlanOf(input) == Ok(draft) && FewBatches(draft) && HexDigest(digest)
    requires F.SimulationsProblem(draft, simulations).None?
    requires forall x :: x in draft.exclusions ==> detail(x) != ""
    ensures var plan := PlanValue(FinalPlan(draft, simulations, detail, digest), detail);
            && ToJsonObject(plan).Ok?
            && (Reordered(ToJsonObject(plan).value, stored) && Plain(stored) ==>
                  && Decode(CLAIM_PLAN, stored).Ok?
                  && var read := Decode(CLAIM_PLAN, stored).value;
                     && Conforms(CLAIM_PLAN, read) && read.Obj? && Typed(read.fields)
                     && Normalize(read) == Normalize(plan)
                     && HashOf(Without(read.fields, HASH_KEY), digest) == Some(At(read.fields, HASH_KEY).s))
  {
    var final := FinalPlan(draft, simulations, detail, digest);
    var plan := PlanValue(final, detail);
    FinalPlanConforms(input, draft, simulations, detail, digest);
    ConformsStores(CLAIM_PLAN, plan);
    if Reordered(ToJsonObject(plan).value, stored) && Plain(stored) {
      HashSurvivesStorage(Payload(draft, final.simulations, detail), final.integrityHash, digest, stored);
    }
  }
}
