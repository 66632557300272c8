/** What the value of a plan says: every field of the plan, under the key the wire format has for it. */
module PlanContent {
  import opened Canonical
  import opened Planner
  import opened PlanIntegrity
  import opened PlanStorage
  import opened PlanValues
  import F = Finalize

  /** The key holds exactly this value. */
  predicate Says(fields: seq<Field>, key: string, v: Value) {
    Present(fields, key) && At(fields, key) == v
  }

  /** The key holds a list of these texts. */
  predicate SaysTexts(fields: seq<Field>, key: string, texts: seq<string>) {
    && Present(fields, key) && At(fields, key).Arr? && |At(fields, key).items| == |texts|
    && forall i :: 0 <= i < |texts| ==> At(fields, key).items[i] == Str(texts[i])
  }

  /** The key holds a list of objects. */
  predicate ObjectsAt(fields: seq<Field>, key: string, n: nat) {
    && Present(fields, key) && At(fields, key).Arr? && |At(fields, key).items| == n
    && forall i :: 0 <= i < n ==> At(fields, key).items[i].Obj?
  }

  /** The fields of the i-th object under the key. */
  function ItemAt(fields: seq<Field>, key: string, n: nat, i: nat): seq<Field>
    requires ObjectsAt(fields, key, n) && i < n
  {
    At(fields, key).items[i].fields
  }

  lemma MemberSays(members: seq<Member>, values: seq<Value>, m: nat, key: string)
    requires |values| == |members| && DistinctMembers(members) && m < |members|
    requires members[m].key == key && !values[m].Undefined?
    ensures Says(FieldsOf(members, values), key, values[m])
  {
    var fields := FieldsOf(members, values);
    assert forall i, j :: 0 <= i < j < |fields| ==> fields[i].key != fields[j].key;
    FindsItself(fields, m);
  }

  // ---- entries ----

  predicate EntrySaid(e: Entry, f: seq<Field>) {
    && Says(f, "positionIdentity", Str(e.positionIdentity))
    && Says(f, "marketId", Str(e.marketId))
    && Says(f, "outcomeIndex", Num(e.outcomeIndex as real))
    && Says(f, "tokenId", Str(Decimal(e.tokenId)))
    && Says(f, "amount", Big(e.amount))
    && Says(f, "verifiedBalance", Big(e.verifiedBalance))
    && Says(f, "pool", Str(e.pool))
    && Says(f, "marketNonce", Big(e.marketNonce))
    && Says(f, "collateral", Str(e.collateral))
    && Says(f, "settlementBacking", Big(e.settlementBacking))
    && Says(f, "payoutNumerator", Big(e.payoutNumerator))
    && Says(f, "payoutDenominator", Big(e.payoutDenominator))
    && Says(f, "settlementFeeBpsTimes1k", Big(e.settlementFee))
    && Says(f, "expectedPayout", Big(e.expectedPayout))
    && Says(f, "evidenceVersion", Str(e.evidenceVersion))
    && SaysTexts(f, "candidateIds", e.candidateIds)
  }

  /** The values of an entry, in schema order. */
  predicate EntryRow(values: seq<Value>, e: Entry) {
    && |values| == 16
    && values[0] == Str(e.positionIdentity)
    && values[1] == Str(e.marketId)
    && values[2] == Num(e.outcomeIndex as real)
    && values[3] == Str(Decimal(e.tokenId))
    && values[4] == Big(e.amount)
    && values[5] == Big(e.verifiedBalance)
    && values[6] == Str(e.pool)
    && values[7] == Big(e.marketNonce)
    && values[8] == Str(e.collateral)
    && values[9] == Big(e.settlementBacking)
    && values[10] == Big(e.payoutNumerator)
    && values[11] == Big(e.payoutDenominator)
    && values[12] == Big(e.settlementFee)
    && values[13] == Big(e.expectedPayout)
    && values[14] == Str(e.evidenceVersion)
    && values[15].Arr? && |values[15].items| == |e.candidateIds|
    && forall i :: 0 <= i < |e.candidateIds| ==> values[15].items[i] == Str(e.candidateIds[i])
  }

  lemma TextsListed(ids: seq<string>)
    ensures var list := ListOf(ids, TextOf);
            list.Arr? && |list.items| == |ids| && forall i :: 0 <= i < |ids| ==> list.items[i] == Str(ids[i])
  {
    forall i | 0 <= i < |ids| ensures ListOf(ids, TextOf).items[i] == Str(ids[i]) {
      assert ListOf(ids, TextOf).items[i] == TextOf(ids[i]);
    }
  }

  lemma EntryRowIs(e: Entry)
    ensures EntryRow(EntryValues(e), e)
  {
    TextsListed(e.candidateIds);
  }

  lemma EntryNames(members: seq<Member>, values: seq<Value>, e: Entry)
    requires EntryTable(members) && DistinctMembers(members) && EntryRow(values, e)
    ensures Says(FieldsOf(members, values), "positionIdentity", Str(e.positionIdentity))
    ensures Says(FieldsOf(members, values), "marketId", Str(e.marketId))
    ensures Says(FieldsOf(members, values), "outcomeIndex", Num(e.outcomeIndex as real))
    ensures Says(FieldsOf(members, values), "tokenId", Str(Decimal(e.tokenId)))
  {
    MemberSays(members, values, 0, "positionIdentity");
    MemberSays(members, values, 1, "marketId");
    MemberSays(members, values, 2, "outcomeIndex");
    MemberSays(members, values, 3, "tokenId");
  }

  lemma EntryAmountsSaid(members: seq<Member>, values: seq<Value>, e: Entry)
    requires EntryTable(members) && DistinctMembers(members) && EntryRow(values, e)
    ensures Says(FieldsOf(members, values), "amount", Big(e.amount))
    ensures Says(FieldsOf(members, values), "verifiedBalance", Big(e.verifiedBalance))
    ensures Says(FieldsOf(members, values), "pool", Str(e.pool))
    ensures Says(FieldsOf(members, values), "marketNonce", Big(e.marketNonce))
  {
    MemberSays(members, values, 4, "amount");
    MemberSays(members, values, 5, "verifiedBalance");
    MemberSays(members, values, 6, "pool");
    MemberSays(members, values, 7, "marketNonce");
  }

  lemma EntryProof(members: seq<Member>, values: seq<Value>, e: Entry)
    requires EntryTable(members) && DistinctMembers(members) && EntryRow(values, e)
    ensures Says(FieldsOf(members, values), "collateral", Str(e.collateral))
    ensures Says(FieldsOf(members, values), "settlementBacking", Big(e.settlementBacking))
    ensures Says(FieldsOf(members, values), "payoutNumerator", Big(e.payoutNumerator))
    ensures Says(FieldsOf(members, values), "payoutDenominator", Big(e.payoutDenominator))
  {
    MemberSays(members, values, 8, "collateral");
    MemberSays(members, values, 9, "settlementBacking");
    MemberSays(members, values, 10, "payoutNumerator");
    MemberSays(members, values, 11, "payoutDenominator");
  }

  lemma EntryPays(members: seq<Member>, values: seq<Value>, e: Entry)
    requires EntryTable(members) && DistinctMembers(members) && EntryRow(values, e)
    ensures Says(FieldsOf(members, values), "settlementFeeBpsTimes1k", Big(e.settlementFee))
    ensures Says(FieldsOf(members, values), "expectedPayout", Big(e.expectedPayout))
    ensures Says(FieldsOf(members, values), "evidenceVersion", Str(e.evidenceVersion))
    ensures SaysTexts(FieldsOf(members, values), "candidateIds", e.candidateIds)
  {
    MemberSays(members, values, 12, "settlementFeeBpsTimes1k");
    MemberSays(members, values, 13, "expectedPayout");
    MemberSays(members, values, 14, "evidenceVersion");
    MemberSays(members, values, 15, "candidateIds");
  }

  lemma EntrySaysOf(members: seq<Member>, values: seq<Value>, e: Entry)
    requires EntryTable(members) && DistinctMembers(members) && EntryRow(values, e)
    ensures EntrySaid(e, FieldsOf(members, values))
  {
    EntryNames(members, values, e);
    EntryAmountsSaid(members, values, e);
    EntryProof(members, values, e);
    EntryPays(members, values, e);
  }

  /** An entry's value has the entry's own field under every key. */
  lemma EntrySays(e: Entry)
    ensures EntryValue(e).Obj? && EntrySaid(e, EntryValue(e).fields)
  {
    EntryTableIs();
    EntryKeysDistinct();
    EntryRowIs(e);
    EntrySaysOf(ENTRY_MEMBERS, EntryValues(e), e);
  }

  // ---- exclusions, batches and the small parts ----

  predicate ExclusionSaid(x: Exclusion, detail: string, f: seq<Field>) {
    && SaysTexts(f, "candidateIds", x.candidateIds) && Says(f, "positionIdentity", Str(x.positionIdentity))
    && Says(f, "marketId", Str(x.marketId)) && Says(f, "outcomeIndex", Num(x.outcomeIndex as real))
    && Says(f, "reason", Str(ReasonText(x.reason))) && Says(f, "detail", Str(detail))
  }

  predicate ExclusionRow(members: seq<Member>, values: seq<Value>, x: Exclusion, detail: string) {
    && |members| == |values| == 6
    && members[0].key == "candidateIds" && values[0].Arr? && |values[0].items| == |x.candidateIds|
    && (forall i :: 0 <= i < |x.candidateIds| ==> values[0].items[i] == Str(x.candidateIds[i]))
    && members[1].key == "positionIdentity" && values[1] == Str(x.positionIdentity)
    && members[2].key == "marketId" && values[2] == Str(x.marketId)
    && members[3].key == "outcomeIndex" && values[3] == Num(x.outcomeIndex as real)
    && members[4].key == "reason" && values[4] == Str(ReasonText(x.reason))
    && members[5].key == "detail" && values[5] == Str(detail)
  }

  lemma ExclusionSaysOf(members: seq<Member>, values: seq<Value>, x: Exclusion, detail: string)
    requires DistinctMembers(members) && ExclusionRow(members, values, x, detail)
    ensures ExclusionSaid(x, detail, FieldsOf(members, values))
  {
    MemberSays(members, values, 0, "candidateIds");
    MemberSays(members, values, 1, "positionIdentity");
    MemberSays(members, values, 2, "marketId");
    MemberSays(members, values, 3, "outcomeIndex");
    MemberSays(members, values, 4, "reason");
    MemberSays(members, values, 5, "detail");
  }

  lemma ExclusionSays(x: Exclusion, detail: Exclusion -> string)
    ensures ExclusionValue(detail)(x).Obj? && ExclusionSaid(x, detail(x), ExclusionValue(detail)(x).fields)
  {
    ExclusionsWellFormed();
    TextsListed(x.candidateIds);
    ExclusionSaysOf(EXCLUSION_MEMBERS, ExclusionValues(x, detail), x, detail(x));
  }

  predicate BatchSaid(b: Batch, f: seq<Field>) {
    && Says(f, "index", Num(b.index as real)) && Says(f, "expectedPayout", Big(b.expectedPayout))
    && ObjectsAt(f, "entries", |b.entries|)
    && forall i :: 0 <= i < |b.entries| ==> EntrySaid(b.entries[i], ItemAt(f, "entries", |b.entries|, i))
  }

  lemma BatchMembers(b: Batch)
    ensures var f := FieldsOf(BATCH_MEMBERS, BatchValues(b));
            && Says(f, "index", Num(b.index as real)) && Says(f, "entries", ListOf(b.entries, EntryValue))
            && Says(f, "expectedPayout", Big(b.expectedPayout))
  {
    BatchesWellFormed();
    MemberSays(BATCH_MEMBERS, BatchValues(b), 0, "index");
    MemberSays(BATCH_MEMBERS, BatchValues(b), 1, "entries");
    MemberSays(BATCH_MEMBERS, BatchValues(b), 2, "expectedPayout");
  }

  lemma BatchSays(b: Batch)
    ensures BatchValue(b).Obj? && BatchSaid(b, BatchValue(b).fields)
  {
    BatchMembers(b);
    forall i | 0 <= i < |b.entries| ensures EntryValue(b.entries[i]).Obj?
                                            && EntrySaid(b.entries[i], EntryValue(b.entries[i]).fields) {
      EntrySays(b.entries[i]);
    }
  }

  /** A simulation says whether it passed, for which batch, at which block, and its gas or the reason it failed. */
  lemma SimulationSays(s: F.Simulation)
    ensures SimulationValue(s).Obj?
    ensures var f := SimulationValue(s).fields;
            && Says(f, "batchIndex", Num(s.batchIndex as real)) && Says(f, "verifiedBlock", Big(s.verifiedBlock))
            && match s
               case Passed(_, gas, _) => Says(f, "status", Str("passed")) && Says(f, "gasEstimate", Big(gas))
               case FailedSim(_, reason, _) => Says(f, "status", Str("failed")) && Says(f, "reason", Str(reason))
  {
    SimulationsWellFormed();
    assert DistinctMembers(SIMULATION.cases[0].members) && DistinctMembers(SIMULATION.cases[1].members);
    match s
    case Passed(index, gas, block) =>
      var values := [Str("passed"), Num(index as real), Big(gas), Big(block)];
      MemberSays(PASSED_MEMBERS, values, 0, "status");
      MemberSays(PASSED_MEMBERS, values, 1, "batchIndex");
      MemberSays(PASSED_MEMBERS, values, 2, "gasEstimate");
      MemberSays(PASSED_MEMBERS, values, 3, "verifiedBlock");
    case FailedSim(index, reason, block) =>
      var values := [Str("failed"), Num(index as real), Str(reason), Big(block)];
      MemberSays(FAILED_MEMBERS, values, 0, "status");
      MemberSays(FAILED_MEMBERS, values, 1, "batchIndex");
      MemberSays(FAILED_MEMBERS, values, 2, "reason");
      MemberSays(FAILED_MEMBERS, values, 3, "verifiedBlock");
  }

  /** The approval a plan asks for is module-wide and the module's. */
  lemma ApprovalSays(draft: Draft)
    ensures ApprovalValue(draft).Obj?
    ensures var f := ApprovalValue(draft).fields;
            && Says(f, "required", Bool(draft.approvalRequired)) && Says(f, "scope", Str("module-wide"))
            && Says(f, "operator", Str(draft.binaryModule))
  {
    PartsWellFormed();
    var values := [Bool(draft.approvalRequired), Str("module-wide"), Str(draft.binaryModule)];
    MemberSays(APPROVAL_MEMBERS, values, 0, "required");
    MemberSays(APPROVAL_MEMBERS, values, 1, "scope");
    MemberSays(APPROVAL_MEMBERS, values, 2, "operator");
  }

  lemma PolicySays(policy: BatchPolicy)
    ensures PolicyValue(policy).Obj?
    ensures var f := PolicyValue(policy).fields;
            && Says(f, "maxEntries", Num(policy.maxEntries as real)) && Says(f, "name", Str(policy.name))
            && Says(f, "evidenceReference", Str(policy.evidenceReference))
  {
    PartsWellFormed();
    var values := [Num(policy.maxEntries as real), Str(policy.name), Str(policy.evidenceReference)];
    MemberSays(POLICY_MEMBERS, values, 0, "maxEntries");
    MemberSays(POLICY_MEMBERS, values, 1, "name");
    MemberSays(POLICY_MEMBERS, values, 2, "evidenceReference");
  }

  // ---- the plan ----

  /** The keys of a payload, in schema order. */
  predicate KeyedFirst(members: seq<Member>) {
    && |members| == 19
    && members[0].key == "schemaVersion"
    && members[1].key == "chainId"
    && members[2].key == "binaryModule"
    && members[3].key == "outcomeToken"
    && members[4].key == "venueId"
    && members[5].key == "operatorId"
    && members[6].key == "owner"
    && members[7].key == "recipient"
    && members[8].key == "approval"
  }

  predicate KeyedLast(members: seq<Member>) {
    && |members| == 19
    && members[9].key == "entries"
    && members[10].key == "batches"
    && members[11].key == "exclusions"
    && members[12].key == "expectedPayout"
    && members[13].key == "discoveryCompleteness"
    && members[14].key == "verifiedBlock"
    && members[15].key == "createdAt"
    && members[16].key == "expiresAt"
    && members[17].key == "batchPolicy"
    && members[18].key == "simulations"
  }

  lemma PayloadKeys()
    ensures DistinctMembers(PLAN_MEMBERS[..19])
  {
    PlanKeysDistinct();
  }

  lemma FirstKeys()
    ensures KeyedFirst(PLAN_MEMBERS[..19])
  {}

  lemma LastKeys()
    ensures KeyedLast(PLAN_MEMBERS[..19])
  {}

  /** The wire's word for how complete the discovery was. */
  function WireWord(completeness: Completeness): string {
    match completeness case Complete => "complete" case Partial => "partial" case FailedScan => "failed"
  }

  /** The scalars of a payload, under their own keys. */
  predicate HeaderSaid(draft: Draft, f: seq<Field>) {
    && Says(f, "schemaVersion", Str("1"))
    && Says(f, "chainId", Num(draft.chainId as real))
    && Says(f, "binaryModule", Str(draft.binaryModule))
    && Says(f, "outcomeToken", Str(draft.outcomeToken))
    && Says(f, "venueId", Str(draft.venueId))
    && Says(f, "operatorId", Num(draft.operatorId as real))
    && Says(f, "owner", Str(draft.owner))
    && Says(f, "recipient", Str(draft.recipient))
    && Says(f, "expectedPayout", Big(draft.expectedPayout))
    && Says(f, "discoveryCompleteness", Str(WireWord(draft.discoveryCompleteness)))
    && Says(f, "verifiedBlock", Big(draft.verifiedBlock))
    && Says(f, "createdAt", Num(draft.createdAt as real))
    && Says(f, "expiresAt", Num(draft.expiresAt as real))
  }

  predicate FirstRow(values: seq<Value>, draft: Draft) {
    && |values| == 19
    && values[0] == Str("1")
    && values[1] == Num(draft.chainId as real)
    && values[2] == Str(draft.binaryModule)
    && values[3] == Str(draft.outcomeToken)
    && values[4] == Str(draft.venueId)
    && values[5] == Num(draft.operatorId as real)
    && values[6] == Str(draft.owner)
    && values[7] == Str(draft.recipient)
  }

  predicate LastRow(values: seq<Value>, draft: Draft) {
    && |values| == 19
    && values[12] == Big(draft.expectedPayout)
    && values[13] == Str(WireWord(draft.discoveryCompleteness))
    && values[14] == Big(draft.verifiedBlock)
    && values[15] == Num(draft.createdAt as real)
    && values[16] == Num(draft.expiresAt as real)
  }

  lemma WiringSaid(members: seq<Member>, values: seq<Value>, draft: Draft)
    requires KeyedFirst(members) && DistinctMembers(members) && FirstRow(values, draft)
    ensures Says(FieldsOf(members, values), "schemaVersion", Str("1"))
    ensures Says(FieldsOf(members, values), "chainId", Num(draft.chainId as real))
    ensures Says(FieldsOf(members, values), "binaryModule", Str(draft.binaryModule))
    ensures Says(FieldsOf(members, values), "outcomeToken", Str(draft.outcomeToken))
  {
    MemberSays(members, values, 0, "schemaVersion");
    MemberSays(members, values, 1, "chainId");
    MemberSays(members, values, 2, "binaryModule");
    MemberSays(members, values, 3, "outcomeToken");
  }

  lemma PartiesSaid(members: seq<Member>, values: seq<Value>, draft: Draft)
    requires KeyedFirst(members) && DistinctMembers(members) && FirstRow(values, draft)
    ensures Says(FieldsOf(members, values), "venueId", Str(draft.venueId))
    ensures Says(FieldsOf(members, values), "operatorId", Num(draft.operatorId as real))
    ensures Says(FieldsOf(members, values), "owner", Str(draft.owner))
    ensures Says(FieldsOf(members, values), "recipient", Str(draft.recipient))
  {
    MemberSays(members, values, 4, "venueId");
    MemberSays(members, values, 5, "operatorId");
    MemberSays(members, values, 6, "owner");
    MemberSays(members, values, 7, "recipient");
  }

  lemma FiguresSaid(members: seq<Member>, values: seq<Value>, draft: Draft)
    requires KeyedLast(members) && DistinctMembers(members) && LastRow(values, draft)
    ensures Says(FieldsOf(members, values), "expectedPayout", Big(draft.expectedPayout))
    ensures Says(FieldsOf(members, values), "discoveryCompleteness", Str(WireWord(draft.discoveryCompleteness)))
    ensures Says(FieldsOf(members, values), "verifiedBlock", Big(draft.verifiedBlock))
    ensures Says(FieldsOf(members, values), "createdAt", Num(draft.createdAt as real))
    ensures Says(FieldsOf(members, values), "expiresAt", Num(draft.expiresAt as real))
  {
    MemberSays(members, values, 12, "expectedPayout");
    MemberSays(members, values, 13, "discoveryCompleteness");
    MemberSays(members, values, 14, "verifiedBlock");
    MemberSays(members, values, 15, "createdAt");
    MemberSays(members, values, 16, "expiresAt");
  }

  lemma HeaderSaysOf(members: seq<Member>, values: seq<Value>, draft: Draft)
    requires KeyedFirst(members) && KeyedLast(members) && DistinctMembers(members)
    requires FirstRow(values, draft) && LastRow(values, draft)
    ensures HeaderSaid(draft, FieldsOf(members, values))
  {
    WiringSaid(members, values, draft);
    PartiesSaid(members, values, draft);
    FiguresSaid(members, values, draft);
  }

  lemma FirstRowIs(draft: Draft, simulations: seq<F.Simulation>, detail: Exclusion -> string)
    ensures FirstRow(PayloadValues(draft, simulations, detail), draft)
  {}

  lemma LastRowIs(draft: Draft, simulations: seq<F.Simulation>, detail: Exclusion -> string)
    ensures LastRow(PayloadValues(draft, simulations, detail), draft)
  {}

  lemma HeaderSays(draft: Draft, simulations: seq<F.Simulation>, detail: Exclusion -> string)
    ensures HeaderSaid(draft, Payload(draft, simulations, detail))
  {
    PayloadKeys();
    FirstKeys();
    LastKeys();
    FirstRowIs(draft, simulations, detail);
    LastRowIs(draft, simulations, detail);
    HeaderSaysOf(PLAN_MEMBERS[..19], PayloadValues(draft, simulations, detail), draft);
  }

  /** The parts of a payload: approval and policy as objects, the lists item by item. */
  predicate PartsSaid(draft: Draft, simulations: seq<F.Simulation>, detail: Exclusion -> string, f: seq<Field>) {
    && Says(f, "approval", ApprovalValue(draft)) && Says(f, "batchPolicy", PolicyValue(draft.batchPolicy))
    && ObjectsAt(f, "entries", |draft.entries|)
    && (forall i :: 0 <= i < |draft.entries| ==>
          EntrySaid(draft.entries[i], ItemAt(f, "entries", |draft.entries|, i)))
    && ObjectsAt(f, "batches", |draft.batches|)
    && (forall i :: 0 <= i < |draft.batches| ==>
          BatchSaid(draft.batches[i], ItemAt(f, "batches", |draft.batches|, i)))
    && ObjectsAt(f, "exclusions", |draft.exclusions|)
    && (forall i :: 0 <= i < |draft.exclusions| ==>
          ExclusionSaid(draft.exclusions[i], detail(draft.exclusions[i]),
                        ItemAt(f, "exclusions", |draft.exclusions|, i)))
    && ObjectsAt(f, "simulations", |simulations|)
    && (forall i :: 0 <= i < |simulations| ==>
          SimulationValue(simulations[i]) == Obj(ItemAt(f, "simulations", |simulations|, i)))
  }

  lemma PayloadPart(draft: Draft, simulations: seq<F.Simulation>, detail: Exclusion -> string, m: nat, key: string)
    requires m < 19 && PLAN_MEMBERS[..19][m].key == key && !PayloadValues(draft, simulations, detail)[m].Undefined?
    ensures Says(Payload(draft, simulations, detail), key, PayloadValues(draft, simulations, detail)[m])
  {
    PayloadKeys();
    MemberSays(PLAN_MEMBERS[..19], PayloadValues(draft, simulations, detail), m, key);
  }

  lemma EntriesSay(draft: Draft, simulations: seq<F.Simulation>, detail: Exclusion -> string)
    ensures var f := Payload(draft, simulations, detail);
            && ObjectsAt(f, "entries", |draft.entries|)
            && (forall i :: 0 <= i < |draft.entries| ==>
                  EntrySaid(draft.entries[i], ItemAt(f, "entries", |draft.entries|, i)))
  {
    LastKeys();
    PayloadPart(draft, simulations, detail, 9, "entries");
    forall i | 0 <= i < |draft.entries|
      ensures EntryValue(draft.entries[i]).Obj? && EntrySaid(draft.entries[i], EntryValue(draft.entries[i]).fields)
    {
      EntrySays(draft.entries[i]);
    }
  }

  lemma BatchesSay(draft: Draft, simulations: seq<F.Simulation>, detail: Exclusion -> string)
    ensures var f := Payload(draft, simulations, detail);
            && ObjectsAt(f, "batches", |draft.batches|)
            && (forall i :: 0 <= i < |draft.batches| ==>
                  BatchSaid(draft.batches[i], ItemAt(f, "batches", |draft.batches|, i)))
  {
    LastKeys();
    PayloadPart(draft, simulations, detail, 10, "batches");
    forall i | 0 <= i < |draft.batches|
      ensures BatchValue(draft.batches[i]).Obj? && BatchSaid(draft.batches[i], BatchValue(draft.batches[i]).fields)
    {
      BatchSays(draft.batches[i]);
    }
  }

  lemma ExclusionsSay(draft: Draft, simulations: seq<F.Simulation>, detail: Exclusion -> string)
    ensures var f := Payload(draft, simulations, detail);
            && ObjectsAt(f, "exclusions", |draft.exclusions|)
            && (forall i :: 0 <= i < |draft.exclusions| ==>
                  ExclusionSaid(draft.exclusions[i], detail(draft.exclusions[i]),
                                ItemAt(f, "exclusions", |draft.exclusions|, i)))
  {
    LastKeys();
    PayloadPart(draft, simulations, detail, 11, "exclusions");
    forall i | 0 <= i < |draft.exclusions|
      ensures ExclusionValue(detail)(draft.exclusions[i]).Obj?
              && ExclusionSaid(draft.exclusions[i], detail(draft.exclusions[i]),
                               ExclusionValue(detail)(draft.exclusions[i]).fields)
    {
      ExclusionSays(draft.exclusions[i], detail);
    }
  }

  lemma SimulationsSay(draft: Draft, simulations: seq<F.Simulation>, detail: Exclusion -> string)
    ensures var f := Payload(draft, simulations, detail);
            && ObjectsAt(f, "simulations", |simulations|)
            && (forall i :: 0 <= i < |simulations| ==>
                  SimulationValue(simulations[i]) == Obj(ItemAt(f, "simulations", |simulations|, i)))
  {
    LastKeys();
    PayloadPart(draft, simulations, detail, 18, "simulations");
    forall i | 0 <= i < |simulations| ensures SimulationValue(simulations[i]).Obj? {
      SimulationSays(simulations[i]);
    }
  }

  lemma SmallPartsSay(draft: Draft, simulations: seq<F.Simulation>, detail: Exclusion -> string)
    ensures Says(Payload(draft, simulations, detail), "approval", ApprovalValue(draft))
    ensures Says(Payload(draft, simulations, detail), "batchPolicy", PolicyValue(draft.batchPolicy))
  {
    FirstKeys();
    LastKeys();
    PayloadPart(draft, simulations, detail, 8, "approval");
    PayloadPart(draft, simulations, detail, 17, "batchPolicy");
  }

  /** What is hashed and stored of a plan: each of its fields under its own key, list by list and item by item. */
  lemma PayloadSays(draft: Draft, simulations: seq<F.Simulation>, detail: Exclusion -> string)
    ensures HeaderSaid(draft, Payload(draft, simulations, detail))
    ensures PartsSaid(draft, simulations, detail, Payload(draft, simulations, detail))
  {
    HeaderSays(draft, simulations, detail);
    SmallPartsSay(draft, simulations, detail);
    EntriesSay(draft, simulations, detail);
    BatchesSay(draft, simulations, detail);
    ExclusionsSay(draft, simulations, detail);
    SimulationsSay(draft, simulations, detail);
  }
}
