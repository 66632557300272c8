/** A finalized plan survives storage, reordering of its keys and decoding, and still passes its integrity check. */
module PlanIntegrity {
  import opened Canonical
  import opened Planner
  import opened PlanStorage
  import opened Wrappers

  // ---- the schema of a claim plan ----

  const ADDRESS := Hex(40)
  const BYTES32 := Hex(64)
  const OUTCOME := Whole(0, 1)
  const COUNT := Whole(0, MAX_SAFE_INTEGER)
  const POSITIVE := Whole(1, MAX_SAFE_INTEGER)

  const ENTRY_MEMBERS: seq<Member> := [
    Member("positionIdentity", Text, false), Member("marketId", BYTES32, false), Member("outcomeIndex", OUTCOME, false),
    Member("tokenId", DecimalText, false), Member("amount", Amount, false), Member("verifiedBalance", Amount, false),
    Member("pool", ADDRESS, false), Member("marketNonce", Amount, false), Member("collateral", ADDRESS, false),
    Member("settlementBacking", Amount, false), Member("payoutNumerator", Amount, false),
    Member("payoutDenominator", Amount, false), Member("settlementFeeBpsTimes1k", Amount, false),
    Member("expectedPayout", Amount, false), Member("evidenceVersion", Text, false),
    Member("candidateIds", List(Text, true), false)]

  const EXCLUSION_MEMBERS: seq<Member> := [
    Member("candidateIds", List(Text, true), false), Member("positionIdentity", Text, true),
    Member("marketId", BYTES32, false), Member("outcomeIndex", OUTCOME, false),
    Member("reason", OneOf(REASONS), false), Member("detail", Text, false)]

  const REASONS: seq<string> := [
    "identity_mismatch", "already_redeemed", "stale_evidence", "evidence_conflict", "non_terminal", "non_finalized",
    "zero_balance", "zero_amount", "invalid_payout_vector", "zero_payout", "insufficient_backing",
    "duplicate_over_balance"]

  const BATCH_MEMBERS: seq<Member> := [
    Member("index", COUNT, false), Member("entries", List(Record(ENTRY_MEMBERS), true), false),
    Member("expectedPayout", Amount, false)]

  const APPROVAL_MEMBERS: seq<Member> := [
    Member("required", Flag, false), Member("scope", OneOf(["module-wide"]), false), Member("operator", ADDRESS, false)]

  const POLICY_MEMBERS: seq<Member> := [
    Member("maxEntries", POSITIVE, false), Member("name", Text, false), Member("evidenceReference", Text, false)]

  const PASSED_MEMBERS: seq<Member> := [
    Member("status", OneOf(["passed"]), false), Member("batchIndex", COUNT, false),
    Member("gasEstimate", Amount, false), Member("verifiedBlock", Amount, false)]

  const FAILED_MEMBERS: seq<Member> := [
    Member("status", OneOf(["failed"]), false), Member("batchIndex", COUNT, false),
    Member("reason", Text, false), Member("verifiedBlock", Amount, false)]

  const SIMULATION := Tagged("status", [Case("passed", PASSED_MEMBERS), Case("failed", FAILED_MEMBERS)])

  const PLAN_MEMBERS: seq<Member> := [
    Member("schemaVersion", OneOf(["1"]), false), Member("chainId", POSITIVE, false),
    Member("binaryModule", ADDRESS, false),
    Member("outcomeToken", ADDRESS, false), Member("venueId", BYTES32, false), Member("operatorId", COUNT, false),
    Member("owner", ADDRESS, false), Member("recipient", ADDRESS, false),
    Member("approval", Record(APPROVAL_MEMBERS), false),
    Member("entries", List(Record(ENTRY_MEMBERS), true), false),
    Member("batches", List(Record(BATCH_MEMBERS), true), false),
    Member("exclusions", List(Record(EXCLUSION_MEMBERS), false), false), Member("expectedPayout", Amount, false),
    Member("discoveryCompleteness", OneOf(["complete", "partial", "failed"]), false),
    Member("verifiedBlock", Amount, false),
    Member("createdAt", COUNT, false), Member("expiresAt", POSITIVE, false),
    Member("batchPolicy", Record(POLICY_MEMBERS), false),
    Member("simulations", List(SIMULATION, false), false), Member("integrityHash", BYTES32, false)]

  const CLAIM_PLAN := Record(PLAN_MEMBERS)

  lemma EntryKeysDistinct()
    ensures DistinctMembers(ENTRY_MEMBERS)
  {}

  lemma EntriesWellFormed()
    ensures WellFormed(Record(ENTRY_MEMBERS))
  {
    EntryKeysDistinct();
  }

  lemma ExclusionsWellFormed()
    ensures WellFormed(Record(EXCLUSION_MEMBERS))
  {}

  lemma PartsWellFormed()
    ensures WellFormed(Record(APPROVAL_MEMBERS)) && WellFormed(Record(POLICY_MEMBERS))
  {}

  lemma SimulationsWellFormed()
    ensures WellFormed(SIMULATION)
  {
    assert PASSED_MEMBERS[0] == Member("status", OneOf(["passed"]), false);
    assert FAILED_MEMBERS[0] == Member("status", OneOf(["failed"]), false);
  }

  lemma BatchesWellFormed()
    ensures WellFormed(Record(BATCH_MEMBERS))
  {
    EntriesWellFormed();
  }

  lemma PlanKeysDistinct()
    ensures DistinctMembers(PLAN_MEMBERS)
  {}

  lemma PlanWellFormed()
    ensures WellFormed(CLAIM_PLAN)
  {
    EntriesWellFormed();
    ExclusionsWellFormed();
    PartsWellFormed();
    SimulationsWellFormed();
    BatchesWellFormed();
    PlanKeysDistinct();
  }

  // ---- what a stored plan must have ----

  /** A safe integer of at least this much. */
  ghost predicate WholeAt(fields: seq<Field>, key: string, min: int) {
    && Present(fields, key) && At(fields, key).Num?
    && exists k :: Is(At(fields, key).n, k) && min <= k <= 9007199254740991
  }

  predicate HexAt(fields: seq<Field>, key: string, digits: nat) {
    Present(fields, key) && At(fields, key).Str? && HexText(At(fields, key).s, digits)
  }

  predicate DigitsAt(fields: seq<Field>, key: string) {
    Present(fields, key) && At(fields, key).Str? && DigitsOnly(At(fields, key).s)
  }

  predicate TextAt(fields: seq<Field>, key: string) {
    Present(fields, key) && At(fields, key).Str? && At(fields, key).s != ""
  }

  predicate ItemsAt(fields: seq<Field>, key: string) {
    Present(fields, key) && At(fields, key).Arr? && At(fields, key).items != []
  }

  /** A member that is not optional was there and was read. */
  lemma ReadMember(members: seq<Member>, fields: seq<Field>, m: nat, key: string, schema: Schema)
    requires DecodeMembers(members, fields).Ok? && m < |members| && members[m] == Member(key, schema, false)
    ensures Present(fields, key) && Decode(schema, At(fields, key)).Ok?
    ensures schema.Text? ==> TextAt(fields, key)
    ensures schema.Amount? || schema.DecimalText? ==> DigitsAt(fields, key)
    ensures schema.Hex? ==> HexAt(fields, key, schema.digits)
    ensures schema.Whole? && schema.max == MAX_SAFE_INTEGER ==> WholeAt(fields, key, schema.min)
    ensures schema.Whole? ==> At(fields, key).Num?
                              && exists k :: Is(At(fields, key).n, k) && schema.min <= k <= schema.max
    ensures schema.OneOf? ==> At(fields, key).Str? && At(fields, key).s in schema.values
    ensures schema.List? && schema.nonEmpty ==> ItemsAt(fields, key)
  {
    DecodedMembers(members, fields);
    assert MemberOk(members[m], fields);
    match schema
    case Hex(digits) => HexLeafInFields(At(fields, key), digits);
    case Amount => DecimalLeavesInFields(At(fields, key));
    case DecimalText => DecimalLeavesInFields(At(fields, key));
    case OneOf(values) => LeavesInFields(At(fields, key), values, 0, 0);
    case Whole(min, max) => LeavesInFields(At(fields, key), [], min, max);
    case _ =>
  }

  /** What the schema asks of an entry. */
  ghost predicate EntryText(fields: seq<Field>) {
    && TextAt(fields, "positionIdentity") && HexAt(fields, "marketId", 64)
    && Present(fields, "outcomeIndex")
    && (At(fields, "outcomeIndex") == Num(0.0) || At(fields, "outcomeIndex") == Num(1.0))
    && DigitsAt(fields, "tokenId") && DigitsAt(fields, "amount") && DigitsAt(fields, "verifiedBalance")
    && HexAt(fields, "pool", 40) && DigitsAt(fields, "marketNonce") && HexAt(fields, "collateral", 40)
    && DigitsAt(fields, "settlementBacking") && DigitsAt(fields, "payoutNumerator")
    && DigitsAt(fields, "payoutDenominator") && DigitsAt(fields, "settlementFeeBpsTimes1k")
    && DigitsAt(fields, "expectedPayout") && TextAt(fields, "evidenceVersion") && ItemsAt(fields, "candidateIds")
  }

  /** The members of an entry, in schema order. */
  predicate EntryTable(members: seq<Member>) {
    && |members| == 16
    && members[0] == Member("positionIdentity", Text, false)
    && members[1] == Member("marketId", BYTES32, false)
    && members[2] == Member("outcomeIndex", OUTCOME, false)
    && members[3] == Member("tokenId", DecimalText, false)
    && members[4] == Member("amount", Amount, false)
    && members[5] == Member("verifiedBalance", Amount, false)
    && members[6] == Member("pool", ADDRESS, false)
    && members[7] == Member("marketNonce", Amount, false)
    && members[8] == Member("collateral", ADDRESS, false)
    && members[9] == Member("settlementBacking", Amount, false)
    && members[10] == Member("payoutNumerator", Amount, false)
    && members[11] == Member("payoutDenominator", Amount, false)
    && members[12] == Member("settlementFeeBpsTimes1k", Amount, false)
    && members[13] == Member("expectedPayout", Amount, false)
    && members[14] == Member("evidenceVersion", Text, false)
    && members[15] == Member("candidateIds", List(Text, true), false)
  }

  lemma EntryIdentity(members: seq<Member>, fields: seq<Field>)
    requires DecodeMembers(members, fields).Ok? && EntryTable(members)
    ensures TextAt(fields, "positionIdentity") && HexAt(fields, "marketId", 64)
    ensures Present(fields, "outcomeIndex")
    ensures At(fields, "outcomeIndex") == Num(0.0) || At(fields, "outcomeIndex") == Num(1.0)
  {
    ReadMember(members, fields, 0, "positionIdentity", Text);
    ReadMember(members, fields, 1, "marketId", BYTES32);
    ReadMember(members, fields, 2, "outcomeIndex", OUTCOME);
  }

  lemma EntryAmounts(members: seq<Member>, fields: seq<Field>)
    requires DecodeMembers(members, fields).Ok? && EntryTable(members)
    ensures DigitsAt(fields, "tokenId") && DigitsAt(fields, "amount") && DigitsAt(fields, "verifiedBalance")
  {
    ReadMember(members, fields, 3, "tokenId", DecimalText);
    ReadMember(members, fields, 4, "amount", Amount);
    ReadMember(members, fields, 5, "verifiedBalance", Amount);
  }

  lemma EntryBacking(members: seq<Member>, fields: seq<Field>)
    requires DecodeMembers(members, fields).Ok? && EntryTable(members)
    ensures HexAt(fields, "pool", 40)
    ensures DigitsAt(fields, "marketNonce")
    ensures HexAt(fields, "collateral", 40)
    ensures DigitsAt(fields, "settlementBacking")
    ensures DigitsAt(fields, "payoutNumerator")
  {
    ReadMember(members, fields, 6, "pool", ADDRESS);
    ReadMember(members, fields, 7, "marketNonce", Amount);
    ReadMember(members, fields, 8, "collateral", ADDRESS);
    ReadMember(members, fields, 9, "settlementBacking", Amount);
    ReadMember(members, fields, 10, "payoutNumerator", Amount);
  }

  lemma EntryPayout(members: seq<Member>, fields: seq<Field>)
    requires DecodeMembers(members, fields).Ok? && EntryTable(members)
    ensures DigitsAt(fields, "payoutDenominator")
    ensures DigitsAt(fields, "settlementFeeBpsTimes1k")
    ensures DigitsAt(fields, "expectedPayout")
    ensures TextAt(fields, "evidenceVersion")
    ensures ItemsAt(fields, "candidateIds")
  {
    ReadMember(members, fields, 11, "payoutDenominator", Amount);
    ReadMember(members, fields, 12, "settlementFeeBpsTimes1k", Amount);
    ReadMember(members, fields, 13, "expectedPayout", Amount);
    ReadMember(members, fields, 14, "evidenceVersion", Text);
    ReadMember(members, fields, 15, "candidateIds", List(Text, true));
  }

  lemma EntryReadsOf(members: seq<Member>, fields: seq<Field>)
    requires DecodeMembers(members, fields).Ok? && EntryTable(members)
    ensures EntryText(fields)
  {
    EntryIdentity(members, fields);
    EntryAmounts(members, fields);
    EntryBacking(members, fields);
    EntryPayout(members, fields);
  }

  lemma EntryTableIs()
    ensures EntryTable(ENTRY_MEMBERS)
  {}

  lemma EntryReads(v: Value)
    requires Decode(Record(ENTRY_MEMBERS), v).Ok?
    ensures v.Obj? && EntryText(v.fields)
  {
    EntryTableIs();
    EntryReadsOf(ENTRY_MEMBERS, v.fields);
  }

  /** What the schema asks of a plan itself. */
  ghost predicate PlanText(fields: seq<Field>) {
    && Present(fields, "schemaVersion") && At(fields, "schemaVersion") == Str("1")
    && WholeAt(fields, "chainId", 1) && HexAt(fields, "binaryModule", 40) && HexAt(fields, "outcomeToken", 40)
    && HexAt(fields, "venueId", 64) && WholeAt(fields, "operatorId", 0) && HexAt(fields, "owner", 40)
    && HexAt(fields, "recipient", 40) && ItemsAt(fields, "entries") && ItemsAt(fields, "batches")
    && DigitsAt(fields, "expectedPayout") && Present(fields, "discoveryCompleteness")
    && At(fields, "discoveryCompleteness") in [Str("complete"), Str("partial"), Str("failed")]
    && DigitsAt(fields, "verifiedBlock") && WholeAt(fields, "createdAt", 0) && WholeAt(fields, "expiresAt", 1)
    && HexAt(fields, "integrityHash", 64)
    && forall i :: 0 <= i < |At(fields, "entries").items| ==>
         At(fields, "entries").items[i].Obj? && EntryText(At(fields, "entries").items[i].fields)
  }

  /** The members of a plan that are checked here, in schema order. */
  predicate PlanHead(members: seq<Member>) {
    && |members| == 20
    && members[0] == Member("schemaVersion", OneOf(["1"]), false)
    && members[1] == Member("chainId", POSITIVE, false)
    && members[2] == Member("binaryModule", ADDRESS, false)
    && members[3] == Member("outcomeToken", ADDRESS, false)
    && members[4] == Member("venueId", BYTES32, false)
    && members[5] == Member("operatorId", COUNT, false)
    && members[6] == Member("owner", ADDRESS, false)
    && members[7] == Member("recipient", ADDRESS, false)
  }

  predicate PlanTail(members: seq<Member>) {
    && |members| == 20
    && members[9] == Member("entries", List(Record(ENTRY_MEMBERS), true), false)
    && members[10] == Member("batches", List(Record(BATCH_MEMBERS), true), false)
    && members[12] == Member("expectedPayout", Amount, false)
    && members[13] == Member("discoveryCompleteness", OneOf(["complete", "partial", "failed"]), false)
    && members[14] == Member("verifiedBlock", Amount, false)
    && members[15] == Member("createdAt", COUNT, false)
    && members[16] == Member("expiresAt", POSITIVE, false)
    && members[19] == Member("integrityHash", BYTES32, false)
  }

  lemma PlanWiring(members: seq<Member>, fields: seq<Field>)
    requires DecodeMembers(members, fields).Ok? && PlanHead(members)
    ensures Present(fields, "schemaVersion") && At(fields, "schemaVersion") == Str("1")
    ensures WholeAt(fields, "chainId", 1)
    ensures HexAt(fields, "binaryModule", 40)
    ensures HexAt(fields, "outcomeToken", 40)
    ensures HexAt(fields, "venueId", 64)
  {
    ReadMember(members, fields, 0, "schemaVersion", OneOf(["1"]));
    ReadMember(members, fields, 1, "chainId", POSITIVE);
    ReadMember(members, fields, 2, "binaryModule", ADDRESS);
    ReadMember(members, fields, 3, "outcomeToken", ADDRESS);
    ReadMember(members, fields, 4, "venueId", BYTES32);
  }

  lemma PlanParties(members: seq<Member>, fields: seq<Field>)
    requires DecodeMembers(members, fields).Ok? && PlanHead(members) && PlanTail(members)
    ensures WholeAt(fields, "operatorId", 0)
    ensures HexAt(fields, "owner", 40)
    ensures HexAt(fields, "recipient", 40)
    ensures ItemsAt(fields, "batches")
  {
    ReadMember(members, fields, 5, "operatorId", COUNT);
    ReadMember(members, fields, 6, "owner", ADDRESS);
    ReadMember(members, fields, 7, "recipient", ADDRESS);
    ReadMember(members, fields, 10, "batches", List(Record(BATCH_MEMBERS), true));
  }

  lemma PlanFigures(members: seq<Member>, fields: seq<Field>)
    requires DecodeMembers(members, fields).Ok? && PlanTail(members)
    ensures DigitsAt(fields, "expectedPayout")
    ensures Present(fields, "discoveryCompleteness")
    ensures At(fields, "discoveryCompleteness") in [Str("complete"), Str("partial"), Str("failed")]
    ensures DigitsAt(fields, "verifiedBlock")
  {
    ReadMember(members, fields, 12, "expectedPayout", Amount);
    ReadMember(members, fields, 13, "discoveryCompleteness", OneOf(["complete", "partial", "failed"]));
    ReadMember(members, fields, 14, "verifiedBlock", Amount);
  }

  lemma PlanTimes(members: seq<Member>, fields: seq<Field>)
    requires DecodeMembers(members, fields).Ok? && PlanTail(members)
    ensures WholeAt(fields, "createdAt", 0)
    ensures WholeAt(fields, "expiresAt", 1)
    ensures HexAt(fields, "integrityHash", 64)
  {
    ReadMember(members, fields, 15, "createdAt", COUNT);
    ReadMember(members, fields, 16, "expiresAt", POSITIVE);
    ReadMember(members, fields, 19, "integrityHash", BYTES32);
  }

  lemma PlanEntries(members: seq<Member>, fields: seq<Field>)
    requires DecodeMembers(members, fields).Ok? && PlanTail(members)
    ensures ItemsAt(fields, "entries") && Decode(List(Record(ENTRY_MEMBERS), true), At(fields, "entries")).Ok?
  {
    ReadMember(members, fields, 9, "entries", List(Record(ENTRY_MEMBERS), true));
  }

  lemma EntriesRead(v: Value)
    requires Decode(List(Record(ENTRY_MEMBERS), true), v).Ok?
    ensures v.Arr? && forall i :: 0 <= i < |v.items| ==> v.items[i].Obj? && EntryText(v.items[i].fields)
  {
    DecodedAll(Record(ENTRY_MEMBERS), v.items);
    forall i | 0 <= i < |v.items| ensures v.items[i].Obj? && EntryText(v.items[i].fields) {
      EntryReads(v.items[i]);
    }
  }

  lemma PlanReadsOf(members: seq<Member>, fields: seq<Field>)
    requires DecodeMembers(members, fields).Ok? && PlanHead(members) && PlanTail(members)
    ensures PlanText(fields)
  {
    PlanWiring(members, fields);
    PlanParties(members, fields);
    PlanFigures(members, fields);
    PlanTimes(members, fields);
    PlanEntries(members, fields);
    EntriesRead(At(fields, "entries"));
  }

  lemma PlanHeadIs()
    ensures PlanHead(PLAN_MEMBERS)
  {}

  lemma PlanTailIs()
    ensures PlanTail(PLAN_MEMBERS)
  {}

  /** A stored value that parses has every part of a plan, entry by entry, in the ranges the schema asks for. */
  lemma PlanReads(v: Value)
    requires Decode(CLAIM_PLAN, v).Ok?
    ensures v.Obj? && PlanText(v.fields)
  {
    PlanHeadIs();
    PlanTailIs();
    PlanReadsOf(PLAN_MEMBERS, v.fields);
  }

  // ---- domain values ----

  /**
   * What the domain types promise of a value: bigints where the schema has amounts, lower-case ids, known keys only.
   */
  ghost predicate Conforms(schema: Schema, v: Value)
    decreases schema, 0
  {
    match schema
    case Text => v.Str? && v.s != ""
    case OneOf(values) => v.Str? && v.s in values
    case Hex(digits) => v.Str? && IsHex(v.s, digits) && Lower(v.s) == v.s
    case DecimalText => v.Str? && IsDecimal(v.s)
    case Amount => v.Big? && v.i >= 0
    case Whole(min, max) => v.Num? && IsWhole(v.n, min, max)
    case Flag => v.Bool?
    case List(item, nonEmpty) =>
      v.Arr? && (nonEmpty ==> v.items != []) && forall i :: 0 <= i < |v.items| ==> Conforms(item, v.items[i])
    case Record(_) => MembersFor(schema, v).Some? && ConformMembers(MembersFor(schema, v).value, v.fields)
    case Tagged(_, _) => MembersFor(schema, v).Some? && ConformMembers(MembersFor(schema, v).value, v.fields)
  }

  ghost predicate ConformMembers(members: seq<Member>, fields: seq<Field>)
    decreases members
  {
    && (forall i :: 0 <= i < |fields| && !fields[i].value.Undefined? ==> Known(fields[i].key, members))
    && (forall m :: 0 <= m < |members| ==>
                      if Present(fields, members[m].key) then Conforms(members[m].schema, At(fields, members[m].key))
                      else members[m].optional)
  }

  // ---- storing a domain value ----

  /** A key of the stored and reordered object holds the stored form of what the original holds. */
  lemma StoredAt(fields: seq<Field>, stored: seq<Field>, key: string)
    requires DistinctKeys(fields) && SafeFields(fields).Ok? && Reordered(Obj(SafeFields(fields).value), Obj(stored))
    ensures Present(stored, key) <==> Present(fields, key)
    ensures Present(fields, key) ==>
              ToJsonSafe(At(fields, key)).Ok? && Reordered(ToJsonSafe(At(fields, key)).value, At(stored, key))
  {
    StoredFields(fields);
    var safe := SafeFields(fields).value;
    if Present(fields, key) {
      var x := Field(key, ToJsonSafe(At(fields, key)).value);
      assert x in safe;
      var k :| 0 <= k < |safe| && safe[k] == x;
      FindsItself(safe, k);
      Storable(At(fields, key));
      StaysDefined(x.value, stored[FindField(stored, key)].value);
    }
    if Present(stored, key) {
      var j := FindField(stored, key);
      var k := FindField(safe, stored[j].key);
      assert safe[k] in safe;
      var i :| 0 <= i < |fields| && !fields[i].value.Undefined? && fields[i].key == safe[k].key
               && ToJsonSafe(fields[i].value) == Ok(safe[k].value);
      FindsItself(fields, i);
    }
  }

  lemma StaysDefined(v: Value, w: Value)
    requires Reordered(v, w) && !v.Undefined?
    ensures !w.Undefined?
  {}

  /** A domain value can be stored and has no date. */
  lemma {:induction false} ConformsStores(schema: Schema, v: Value)
    requires Conforms(schema, v) && Plain(v)
    ensures ToJsonSafe(v).Ok? && DateFree(v)
    decreases schema, 1
  {
    if schema.List? {
      forall i | 0 <= i < |v.items| ensures Normalize(v.items[i]).Ok? && DateFree(v.items[i]) {
        ConformsStores(schema.item, v.items[i]);
        Storable(v.items[i]);
      }
      AllNormal(v.items);
    } else if schema.Record? || schema.Tagged? {
      MembersStore(MembersFor(schema, v).value, v.fields);
    }
    Storable(v);
  }

  lemma {:induction false} MembersStore(members: seq<Member>, fields: seq<Field>)
    requires ConformMembers(members, fields) && Plain(Obj(fields))
    ensures NormalizeFields(fields).Ok? && DateFree(Obj(fields))
    decreases members, 0
  {
    forall i | 0 <= i < |fields|
      ensures (fields[i].value.Undefined? || Normalize(fields[i].value).Ok?) && DateFree(fields[i].value)
    {
      if !fields[i].value.Undefined? {
        FindsItself(fields, i);
        assert Known(fields[i].key, members);
        var m :| 0 <= m < |members| && members[m].key == fields[i].key;
        ConformsStores(members[m].schema, At(fields, fields[i].key));
        Storable(fields[i].value);
      }
    }
    FieldsNormal(fields);
  }

  /** Storage of a domain value, in any order of keys, parses and is clean. */
  lemma {:induction false} StoredParses(schema: Schema, v: Value, w: Value)
    requires Conforms(schema, v) && Plain(v) && Plain(w) && ToJsonSafe(v).Ok? && Reordered(ToJsonSafe(v).value, w)
    ensures Decode(schema, w).Ok? && Clean(schema, w)
    decreases schema, 1
  {
    if schema.List? {
      ItemsParse(schema, v, w);
    } else if schema.Record? || schema.Tagged? {
      SameMembersFor(schema, v, w);
      MembersParse(MembersFor(schema, v).value, v.fields, w.fields);
    } else {
      LeafParses(schema, v, w);
    }
  }

  /** The stored form of a text, a number or a flag is itself, that of a bigint its decimal text. */
  lemma StoredLeaf(v: Value, w: Value)
    requires ToJsonSafe(v).Ok? && Reordered(ToJsonSafe(v).value, w)
    ensures v.Str? || v.Num? || v.Bool? ==> w == v
    ensures v.Big? && v.i >= 0 ==> w == Str(Decimal(v.i))
  {}

  lemma LeafReads(schema: Schema, v: Value)
    requires Conforms(schema, v) && !schema.Amount? && !schema.List? && !schema.Record? && !schema.Tagged?
    ensures (v.Str? || v.Num? || v.Bool?) && Decode(schema, v).Ok? && Clean(schema, v)
  {}

  lemma AmountReads(i: nat)
    ensures Decode(Amount, Str(Decimal(i))).Ok? && Clean(Amount, Str(Decimal(i)))
  {
    ParsedDecimal(i);
  }

  lemma LeafParses(schema: Schema, v: Value, w: Value)
    requires Conforms(schema, v) && ToJsonSafe(v).Ok? && Reordered(ToJsonSafe(v).value, w)
    requires !schema.List? && !schema.Record? && !schema.Tagged?
    ensures Decode(schema, w).Ok? && Clean(schema, w)
  {
    StoredLeaf(v, w);
    if schema.Amount? {
      AmountReads(v.i);
    } else {
      LeafReads(schema, v);
    }
  }

  lemma {:induction false} ItemsParse(schema: Schema, v: Value, w: Value)
    requires schema.List? && Conforms(schema, v) && Plain(v) && Plain(w)
    requires ToJsonSafe(v).Ok? && Reordered(ToJsonSafe(v).value, w)
    ensures Decode(schema, w).Ok? && Clean(schema, w)
    decreases schema, 0
  {
    SafeItems(v.items);
    forall i | 0 <= i < |w.items| ensures Decode(schema.item, w.items[i]).Ok? && Clean(schema.item, w.items[i]) {
      StoredParses(schema.item, v.items[i], w.items[i]);
    }
    DecodedAll(schema.item, w.items);
  }

  lemma SameMembersFor(schema: Schema, v: Value, w: Value)
    requires MembersFor(schema, v).Some? && Plain(v) && ToJsonSafe(v).Ok? && Reordered(ToJsonSafe(v).value, w)
    ensures MembersFor(schema, w) == MembersFor(schema, v)
  {
    if schema.Tagged? {
      StoredAt(v.fields, w.fields, schema.tag);
    }
  }

  lemma {:induction false} MembersParse(members: seq<Member>, fields: seq<Field>, stored: seq<Field>)
    requires ConformMembers(members, fields) && Plain(Obj(fields)) && Plain(Obj(stored))
    requires SafeFields(fields).Ok? && Reordered(Obj(SafeFields(fields).value), Obj(stored))
    ensures DecodeMembers(members, stored).Ok? && CleanMembers(members, stored)
    decreases members, 0
  {
    forall m | 0 <= m < |members|
      ensures MemberOk(members[m], stored)
      ensures Present(stored, members[m].key) ==> Clean(members[m].schema, At(stored, members[m].key))
    {
      StoredAt(fields, stored, members[m].key);
      if Present(fields, members[m].key) {
        StoredParses(members[m].schema, At(fields, members[m].key), At(stored, members[m].key));
      }
    }
    DecodedMembers(members, stored);
    forall j | 0 <= j < |stored| && !stored[j].value.Undefined? ensures Known(stored[j].key, members) {
      FindsItself(stored, j);
      StoredAt(fields, stored, stored[j].key);
      assert fields[FindField(fields, stored[j].key)].key == stored[j].key;
    }
  }

  // ---- decoding restores domain values ----

  /** Whatever parses is decoded to a domain value. */
  lemma {:induction false} DecodedConforms(schema: Schema, w: Value)
    requires WellFormed(schema) && Decode(schema, w).Ok?
    ensures Conforms(schema, Decode(schema, w).value) && Plain(Decode(schema, w).value)
    decreases schema, 1
  {
    if schema.List? {
      ItemsConform(schema, w);
    } else if schema.Record? || schema.Tagged? {
      MembersWellFormed(schema, w);
      MembersConform(MembersFor(schema, w).value, w.fields);
      SameCase(schema, w);
    } else if schema.Hex? {
      LowerHex(w.s, schema.digits);
    }
  }

  lemma {:induction false} ItemsConform(schema: Schema, w: Value)
    requires schema.List? && WellFormed(schema) && Decode(schema, w).Ok?
    ensures Conforms(schema, Decode(schema, w).value) && Plain(Decode(schema, w).value)
    decreases schema, 0
  {
    var d := Decode(schema, w).value;
    DecodedAll(schema.item, w.items);
    forall i | 0 <= i < |d.items| ensures Conforms(schema.item, d.items[i]) && Plain(d.items[i]) {
      DecodedConforms(schema.item, w.items[i]);
    }
  }

  /** A present member's value in the decoded object. */
  lemma DecodedAt(members: seq<Member>, fields: seq<Field>, m: nat)
    requires WellFormedMembers(members) && DecodeMembers(members, fields).Ok?
    requires m < |members| && Present(fields, members[m].key)
    ensures Decode(members[m].schema, At(fields, members[m].key)).Ok?
    ensures var fs := DecodeMembers(members, fields).value;
            var d := Decode(members[m].schema, At(fields, members[m].key)).value;
            !d.Undefined? ==> Present(fs, members[m].key) && At(fs, members[m].key) == d
  {
    var fs := DecodeMembers(members, fields).value;
    DecodedMembers(members, fields);
    DecodedDistinct(members, fields);
    assert MemberOk(members[m], fields);
    ReadIsThere(members, fields, fs, m);
    var k :| 0 <= k < |fs|
      && fs[k] == Field(members[m].key, Decode(members[m].schema, At(fields, members[m].key)).value);
    FindsItself(fs, k);
  }

  /** The decoded object is of the same case. */
  lemma SameCase(schema: Schema, w: Value)
    requires WellFormed(schema) && MembersFor(schema, w).Some? && Decode(schema, w).Ok?
    ensures MembersFor(schema, Decode(schema, w).value) == MembersFor(schema, w)
  {
    if schema.Tagged? {
      var members := MembersFor(schema, w).value;
      var c := FindCase(schema.cases, At(w.fields, schema.tag).s);
      var m :| 0 <= m < |members| && members[m] == Member(schema.tag, OneOf([schema.cases[c].name]), false);
      MembersWellFormed(schema, w);
      DecodedAt(members, w.fields, m);
    }
  }

  lemma {:induction false} MembersConform(members: seq<Member>, fields: seq<Field>)
    requires WellFormedMembers(members) && DecodeMembers(members, fields).Ok?
    ensures var fs := DecodeMembers(members, fields).value; ConformMembers(members, fs) && Plain(Obj(fs))
    decreases members, 0
  {
    var fs := DecodeMembers(members, fields).value;
    DecodedMembers(members, fields);
    DecodedDistinct(members, fields);
    forall k | 0 <= k < |fs| ensures Plain(fs[k].value) && Known(fs[k].key, members) && !fs[k].value.Undefined? {
      assert fs[k] in fs;
      var m :| 0 <= m < |members| && members[m].key == fs[k].key && Present(fields, fs[k].key)
               && Decode(members[m].schema, At(fields, fs[k].key)) == Ok(fs[k].value);
      DecodedConforms(members[m].schema, At(fields, fs[k].key));
    }
    forall key | Present(fs, key) ensures Present(fields, key) {
      assert fs[FindField(fs, key)] in fs;
    }
    forall m | 0 <= m < |members|
      ensures if Present(fs, members[m].key) then Conforms(members[m].schema, At(fs, members[m].key))
              else members[m].optional
    {
      assert MemberOk(members[m], fields);
      if Present(fields, members[m].key) {
        ReadIsThere(members, fields, fs, m);
        var k :| 0 <= k < |fs|
          && fs[k] == Field(members[m].key, Decode(members[m].schema, At(fields, members[m].key)).value);
        FindsItself(fs, k);
        DecodedConforms(members[m].schema, At(fields, members[m].key));
      }
    }
  }

  // ---- the integrity check ----

  /** `{ integrityHash: claimedHash, ...payload } = plan` */
  function Without(fields: seq<Field>, key: string): seq<Field> {
    if fields == [] then []
    else
      var n := |fields| - 1;
      if fields[n].key == key then Without(fields[..n], key) else Without(fields[..n], key) + [fields[n]]
  }

  lemma {:induction false} WithoutHolds(fields: seq<Field>, key: string)
    ensures forall x :: x in Without(fields, key) <==> x in fields && x.key != key
    ensures DistinctKeys(fields) ==> DistinctKeys(Without(fields, key))
  {
    if fields != [] {
      var n := |fields| - 1;
      WithoutHolds(fields[..n], key);
      assert forall x :: x in fields <==> x in fields[..n] || x == fields[n];
      if DistinctKeys(fields) && fields[n].key != key {
        var rest := Without(fields[..n], key);
        forall i | 0 <= i < |rest| ensures rest[i].key != fields[n].key {
          assert rest[i] in rest && rest[i] in fields[..n];
        }
      }
    }
  }

  lemma {:induction false} WithoutAbsent(fields: seq<Field>, key: string)
    requires forall i :: 0 <= i < |fields| ==> fields[i].key != key
    ensures Without(fields, key) == fields
  {
    if fields != [] {
      WithoutAbsent(fields[..|fields| - 1], key);
      assert fields == fields[..|fields| - 1] + [fields[|fields| - 1]];
    }
  }

  lemma WithoutNormal(fields: seq<Field>, key: string, x: Field)
    requires NormalizeFields(fields).Ok?
    ensures NormalizeFields(Without(fields, key)).Ok?
    ensures NormalOf(x, Without(fields, key)) <==> NormalOf(x, fields) && x.key != key
  {
    var rest := Without(fields, key);
    WithoutHolds(fields, key);
    FieldsNormal(fields);
    FieldsNormal(rest);
    forall i | 0 <= i < |rest| ensures exists k :: 0 <= k < |fields| && fields[k] == rest[i] && rest[i].key != key {
      assert rest[i] in rest && rest[i] in fields;
    }
    forall k | 0 <= k < |fields| && fields[k].key != key ensures exists i :: 0 <= i < |rest| && rest[i] == fields[k] {
      assert fields[k] in fields && fields[k] in rest;
    }
  }

  /** Objects of one normal form keep it when the same key is taken out of both. */
  lemma SamePayload(a: seq<Field>, b: seq<Field>, key: string)
    requires DistinctKeys(a) && DistinctKeys(b) && NormalizeFields(a).Ok? && NormalizeFields(b).Ok?
    requires Normalize(Obj(a)) == Normalize(Obj(b))
    ensures Normalize(Obj(Without(a, key))).Ok?
    ensures Normalize(Obj(Without(a, key))) == Normalize(Obj(Without(b, key)))
  {
    SameFieldsSameForm(a, b);
    WithoutHolds(a, key);
    WithoutHolds(b, key);
    WithoutNormal(a, key, Field("", Null));
    WithoutNormal(b, key, Field("", Null));
    forall x ensures NormalOf(x, Without(a, key)) <==> NormalOf(x, Without(b, key)) {
      WithoutNormal(a, key, x);
      WithoutNormal(b, key, x);
    }
    SameFieldsSameForm(Without(a, key), Without(b, key));
  }

  const HASH_KEY := "integrityHash"

  /** The plan's hash, or None when its payload cannot be hashed. */
  function HashOf(fields: seq<Field>, digest: Value -> string): Option<string> {
    match Normalize(Obj(fields))
    case Ok(form) => Some(digest(form))
    case Err(_) => None
  }

  datatype Reason = Expired | WrongWallet | StaleChainState | HashMismatch

  /** The fields the check looks at have their domain types. */
  predicate Typed(fields: seq<Field>) {
    && Present(fields, "expiresAt") && At(fields, "expiresAt").Num? && Present(fields, "owner")
       && At(fields, "owner").Str?
    && Present(fields, "verifiedBlock") && At(fields, "verifiedBlock").Big?
    && Present(fields, HASH_KEY) && At(fields, HASH_KEY).Str?
  }

  lemma RequiredMember(members: seq<Member>, fields: seq<Field>, m: nat, key: string, schema: Schema)
    requires ConformMembers(members, fields) && m < |members| && members[m] == Member(key, schema, false)
    ensures Present(fields, key) && Conforms(schema, At(fields, key))
  {}

  lemma CheckedMembers()
    ensures |PLAN_MEMBERS| == 20
    ensures PLAN_MEMBERS[6] == Member("owner", ADDRESS, false)
    ensures PLAN_MEMBERS[14] == Member("verifiedBlock", Amount, false)
    ensures PLAN_MEMBERS[16] == Member("expiresAt", POSITIVE, false)
    ensures PLAN_MEMBERS[19] == Member(HASH_KEY, BYTES32, false)
  {}

  lemma TypedOf(members: seq<Member>, fields: seq<Field>)
    requires ConformMembers(members, fields) && |members| == 20
    requires members[6] == Member("owner", ADDRESS, false) && members[14] == Member("verifiedBlock", Amount, false)
    requires members[16] == Member("expiresAt", POSITIVE, false) && members[19] == Member(HASH_KEY, BYTES32, false)
    ensures Typed(fields)
  {
    RequiredMember(members, fields, 16, "expiresAt", POSITIVE);
    RequiredMember(members, fields, 6, "owner", ADDRESS);
    RequiredMember(members, fields, 14, "verifiedBlock", Amount);
    RequiredMember(members, fields, 19, HASH_KEY, BYTES32);
  }

  lemma ConformingIsTyped(v: Value)
    requires Conforms(CLAIM_PLAN, v)
    ensures v.Obj? && Typed(v.fields)
  {
    CheckedMembers();
    TypedOf(PLAN_MEMBERS, v.fields);
  }

  method ValidateClaimPlan(fields: seq<Field>, now: int, wallet: string, minimum: Option<int>, digest: Value -> string)
    returns (reasons: seq<Reason>)
    requires Typed(fields)
    ensures Expired in reasons <==> now as real >= At(fields, "expiresAt").n
    ensures WrongWallet in reasons <==> wallet != At(fields, "owner").s
    ensures StaleChainState in reasons <==> minimum.Some? && At(fields, "verifiedBlock").i < minimum.value
    ensures HashMismatch in reasons <==> HashOf(Without(fields, HASH_KEY), digest) != Some(At(fields, HASH_KEY).s)
    ensures |reasons| <= 4
  {
    reasons := [];
    if now as real >= At(fields, "expiresAt").n {
      reasons := reasons + [Expired];
    }
    if wallet != At(fields, "owner").s {
      reasons := reasons + [WrongWallet];
    }
    if minimum.Some? && At(fields, "verifiedBlock").i < minimum.value {
      reasons := reasons + [StaleChainState];
    }
    var payload := Without(fields, HASH_KEY);
    var claimed := At(fields, HASH_KEY).s;
    var actual := HashOf(payload, digest);
    if actual != Some(claimed) {
      reasons := reasons + [HashMismatch];
    }
  }

  /** `{ ...payload, integrityHash }` */
  function Finalized(payload: seq<Field>, hash: string): Value {
    Obj(payload + [Field(HASH_KEY, Str(hash))])
  }

  /**
   * The hash survives storage: finalize a plan of domain values, store it as JSON, let the database reorder its keys
   * and decode it. The result is again a plan of domain values, with the same normal form, and its hash still matches.
   */
  lemma HashSurvivesStorage(payload: seq<Field>, hash: string, digest: Value -> string, stored: Value)
    requires Some(hash) == HashOf(payload, digest)
    requires var plan := Finalized(payload, hash);
             && Plain(plan) && Conforms(CLAIM_PLAN, plan)
             && ToJsonObject(plan).Ok? && Reordered(ToJsonObject(plan).value, stored) && Plain(stored)
    ensures Decode(CLAIM_PLAN, stored).Ok?
    ensures var plan, read := Finalized(payload, hash), Decode(CLAIM_PLAN, stored).value;
            && Conforms(CLAIM_PLAN, read) && read.Obj? && Typed(read.fields)
            && Normalize(read) == Normalize(plan)
            && HashOf(Without(read.fields, HASH_KEY), digest) == Some(At(read.fields, HASH_KEY).s) == Some(hash)
  {
    var plan := Finalized(payload, hash);
    StoredParses(CLAIM_PLAN, plan, stored);
    ConformsStores(CLAIM_PLAN, plan);
    StoredKeepsForm(plan, stored);
    PlanWellFormed();
    DecodeIsExact(CLAIM_PLAN, stored);
    DecodedConforms(CLAIM_PLAN, stored);
    var read := Decode(CLAIM_PLAN, stored).value;
    ConformingIsTyped(read);
    ReadPayload(payload, hash, read);
  }

  lemma StoredKeepsForm(plan: Value, stored: Value)
    requires ToJsonSafe(plan).Ok? && Plain(plan) && DateFree(plan)
    requires Plain(stored) && Reordered(ToJsonSafe(plan).value, stored)
    ensures Normalize(stored) == Normalize(plan) && Normalize(stored).Ok?
  {
    Storable(plan);
    StorageKeepsForm(plan);
    SafeIsPlain(plan);
    KeyOrderIsIrrelevant(ToJsonSafe(plan).value, stored);
  }

  lemma {:induction false} SafeIsPlain(v: Value)
    requires Plain(v) && ToJsonSafe(v).Ok?
    ensures Plain(ToJsonSafe(v).value)
  {
    match v
    case Arr(items) =>
      SafeItems(items);
      forall i | 0 <= i < |items| ensures Plain(SafeAll(items).value[i]) {
        SafeIsPlain(items[i]);
      }
    case Obj(fields) =>
      StoredFields(fields);
      var safe := SafeFields(fields).value;
      forall k | 0 <= k < |safe| ensures Plain(safe[k].value) {
        assert safe[k] in safe;
        var i :| 0 <= i < |fields| && !fields[i].value.Undefined? && fields[i].key == safe[k].key
                 && ToJsonSafe(fields[i].value) == Ok(safe[k].value);
        SafeIsPlain(fields[i].value);
      }
    case _ =>
  }

  lemma ReadPayload(payload: seq<Field>, hash: string, read: Value)
    requires Plain(Finalized(payload, hash)) && Plain(read) && read.Obj? && Typed(read.fields)
    requires Normalize(Finalized(payload, hash)).Ok? && Normalize(read) == Normalize(Finalized(payload, hash))
    ensures Normalize(Obj(Without(read.fields, HASH_KEY))) == Normalize(Obj(payload))
    ensures At(read.fields, HASH_KEY) == Str(hash)
  {
    var fields := Finalized(payload, hash).fields;
    var n := |payload|;
    assert fields[n] == Field(HASH_KEY, Str(hash)) && fields[..n] == payload;
    forall i | 0 <= i < n ensures payload[i].key != HASH_KEY {
      assert fields[i] == payload[i];
    }
    WithoutAbsent(payload, HASH_KEY);
    SamePayload(read.fields, fields, HASH_KEY);
    SameFieldsSameForm(read.fields, fields);
    assert NormalOf(Field(HASH_KEY, Str(hash)), fields);
    SameKeySameForm(read.fields, FindField(read.fields, HASH_KEY), Str(hash));
  }
}
