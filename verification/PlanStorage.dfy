/**
 * packages/contracts/src/http/schemas.ts and `validateClaimPlan` in packages/core/src/claims/planner.ts: reading a
 * stored plan back. The parser drops keys it does not know, keeps the rest in schema order and restores domain types.
 */
module PlanStorage {
  import opened Canonical
  import opened Ordering
  import opened Planner
  import opened Wrappers

  datatype Schema =
    | Text
    | OneOf(values: seq<string>)
    | Hex(digits: nat)
    | DecimalText
    | Amount
    | Whole(min: int, max: int)
    | Flag
    | List(item: Schema, nonEmpty: bool)
    | Record(members: seq<Member>)
    | Tagged(tag: string, cases: seq<Case>)

  datatype Member = Member(key: string, schema: Schema, optional: bool)

  datatype Case = Case(name: string, members: seq<Member>)

  datatype ParseError = Invalid

  // ---- strings ----

  /** `^(0|[1-9][0-9]*)$` */
  predicate IsDecimal(s: string) {
    s != "" && (forall i :: 0 <= i < |s| ==> IsDigit(s[i])) && (s[0] == '0' ==> |s| == 1)
  }

  function DigitValue(c: char): nat { if IsDigit(c) then c as int - '0' as int else 0 }

  function ParseDecimal(s: string): nat {
    if s == "" then 0 else 10 * ParseDecimal(s[..|s| - 1]) + DigitValue(s[|s| - 1])
  }

  lemma DigitText(c: char)
    requires IsDigit(c)
    ensures DigitValue(c) < 10 && ("0123456789")[DigitValue(c)] == c
  {}

  lemma DecimalStep(front: nat, digit: nat)
    requires digit < 10
    ensures Decimal(10 * front + digit) == (if front == 0 then "" else Decimal(front)) + [("0123456789")[digit]]
  {
    var n := 10 * front + digit;
    assert n / 10 == front && n % 10 == digit;
  }

  lemma {:induction false} DecimalOfParsed(s: string)
    requires IsDecimal(s)
    ensures Decimal(ParseDecimal(s)) == s && (s[0] != '0' ==> ParseDecimal(s) > 0)
  {
    var n := |s| - 1;
    var front := s[..n];
    DigitText(s[n]);
    assert s == front + [s[n]];
    if n > 0 {
      assert front[0] == s[0] && IsDecimal(front);
      DecimalOfParsed(front);
    } else {
      assert front == "" && ParseDecimal(front) == 0;
    }
    DecimalStep(ParseDecimal(front), DigitValue(s[n]));
  }

  lemma {:induction false} ParsedDecimal(n: nat)
    ensures IsDecimal(Decimal(n)) && ParseDecimal(Decimal(n)) == n && (n > 0 ==> Decimal(n)[0] != '0')
  {
    var s := Decimal(n);
    var last := ("0123456789")[n % 10];
    assert s[|s| - 1] == last && IsDigit(last) && DigitValue(last) == n % 10;
    if n < 10 {
      assert s[..0] == "";
    } else {
      ParsedDecimal(n / 10);
      assert s[..|s| - 1] == Decimal(n / 10);
    }
  }

  lemma LowerHex(s: string, digits: nat)
    requires IsHex(s, digits)
    ensures IsHex(Lower(s), digits) && Lower(Lower(s)) == Lower(s)
  {}

  // ---- decoding ----

  predicate Present(fields: seq<Field>, key: string) {
    var i := FindField(fields, key);
    i < |fields| && !fields[i].value.Undefined?
  }

  function At(fields: seq<Field>, key: string): Value
    requires Present(fields, key)
  {
    fields[FindField(fields, key)].value
  }

  function FindCase(cases: seq<Case>, name: string): (i: nat)
    ensures i <= |cases|
    ensures i < |cases| ==> cases[i].name == name
  {
    IndexOf(cases, (c: Case) => c.name == name)
  }

  /** The members that apply to an object: its case is the one its tag names. */
  function MembersFor(schema: Schema, v: Value): (members: Option<seq<Member>>)
    ensures members.Some? ==> (schema decreases to members.value)
  {
    if !v.Obj? then None
    else
      match schema
      case Record(members) => Some(members)
      case Tagged(tag, cases) =>
        if Present(v.fields, tag) && At(v.fields, tag).Str? && FindCase(cases, At(v.fields, tag).s) < |cases|
        then Some(cases[FindCase(cases, At(v.fields, tag).s)].members)
        else None
      case _ => None
  }

  predicate IsWhole(n: real, min: int, max: int) {
    n == n.Floor as real && min <= n.Floor <= max
  }

  function Leaf(schema: Schema, v: Value): Result<Value, ParseError> {
    match (schema, v)
    case (Text, Str(s)) => if s != "" then Ok(v) else Err(Invalid)
    case (OneOf(values), Str(s)) => if s in values then Ok(v) else Err(Invalid)
    case (Hex(digits), Str(s)) => if IsHex(s, digits) then Ok(Str(Lower(s))) else Err(Invalid)
    case (DecimalText, Str(s)) => if IsDecimal(s) then Ok(v) else Err(Invalid)
    case (Amount, Str(s)) => if IsDecimal(s) then Ok(Big(ParseDecimal(s))) else Err(Invalid)
    case (Whole(min, max), Num(n)) => if IsWhole(n, min, max) then Ok(v) else Err(Invalid)
    case (Flag, Bool(_)) => Ok(v)
    case _ => Err(Invalid)
  }

  function Decode(schema: Schema, v: Value): Result<Value, ParseError>
    decreases schema, 0
  {
    if schema.List? then
      if v.Arr? && (schema.nonEmpty ==> v.items != []) then
        match DecodeAll(schema.item, v.items) case Ok(xs) => Ok(Arr(xs)) case Err(e) => Err(e)
      else Err(Invalid)
    else if schema.Record? || schema.Tagged? then
      match MembersFor(schema, v)
      case None => Err(Invalid)
      case Some(members) => (match DecodeMembers(members, v.fields) case Ok(fs) => Ok(Obj(fs)) case Err(e) => Err(e))
    else Leaf(schema, v)
  }

  function DecodeAll(item: Schema, items: seq<Value>): Result<seq<Value>, ParseError>
    decreases item, 1, |items|
  {
    if items == [] then Ok([])
    else
      var n := |items| - 1;
      match (DecodeAll(item, items[..n]), Decode(item, items[n]))
      case (Ok(xs), Ok(x)) => Ok(xs + [x])
      case _ => Err(Invalid)
  }

  function DecodeMembers(members: seq<Member>, fields: seq<Field>): Result<seq<Field>, ParseError>
    decreases members
  {
    if members == [] then Ok([])
    else
      var n := |members| - 1;
      var rest, m := DecodeMembers(members[..n], fields), members[n];
      if !Present(fields, m.key) then (if m.optional then rest else Err(Invalid))
      else
        match (rest, Decode(m.schema, At(fields, m.key)))
        case (Ok(fs), Ok(x)) => Ok(fs + [Field(m.key, x)])
        case _ => Err(Invalid)
  }

  // ---- what a leaf reads ----

  /** Ten digits, no sign, and no leading zero except in "0". */
  predicate DigitsOnly(s: string) {
    s != "" && (s[0] == '0' ==> s == "0") && forall i :: 0 <= i < |s| ==> '0' <= s[i] <= '9'
  }

  /** 0x and this many hexadecimal digits of either case. */
  predicate HexText(s: string, digits: nat) {
    && |s| == 2 + digits && s[..2] == "0x"
    && forall i :: 2 <= i < |s| ==> '0' <= s[i] <= '9' || 'a' <= s[i] <= 'f' || 'A' <= s[i] <= 'F'
  }

  /** t is s with every capital letter replaced by its small one. */
  predicate SmallLetters(s: string, t: string) {
    |t| == |s| && forall i :: 0 <= i < |s| ==>
      if 'A' <= s[i] <= 'Z' then 'a' <= t[i] <= 'z' && t[i] - 'a' == s[i] - 'A' else t[i] == s[i]
  }

  predicate Is(n: real, k: int) { n == k as real }

  /** Exactly which texts, flags and numbers the plain leaves of a schema read, and as what. */
  lemma LeavesInFields(v: Value, values: seq<string>, min: int, max: int)
    ensures Decode(Text, v) == (if v.Str? && v.s != "" then Ok(v) else Err(Invalid))
    ensures Decode(OneOf(values), v) == (if v.Str? && v.s in values then Ok(v) else Err(Invalid))
    ensures Decode(Flag, v) == (if v.Bool? then Ok(v) else Err(Invalid))
    ensures Decode(Whole(min, max), v).Ok? <==> v.Num? && exists k :: Is(v.n, k) && min <= k <= max
    ensures Decode(Whole(min, max), v).Ok? ==> Decode(Whole(min, max), v).value == v
  {
    if v.Num? {
      WholeInFields(v.n, min, max);
    }
  }

  /** Exactly which texts the leaves for unsigned decimals read. */
  lemma DecimalLeavesInFields(v: Value)
    ensures Decode(DecimalText, v) == (if v.Str? && DigitsOnly(v.s) then Ok(v) else Err(Invalid))
    ensures Decode(Amount, v).Ok? <==> v.Str? && DigitsOnly(v.s)
  {
    if v.Str? {
      DecimalInFields(v.s);
    }
  }

  /** An amount is read as the number whose text it was. */
  lemma AmountIsItsText(v: Value)
    requires Decode(Amount, v).Ok?
    ensures Decode(Amount, v).value.Big? && Decode(Amount, v).value.i >= 0
    ensures v.Str? && Decimal(Decode(Amount, v).value.i) == v.s
  {
    DecimalOfParsed(v.s);
  }

  /** Exactly which texts a leaf for hexadecimals reads, and as what. */
  lemma HexLeafInFields(v: Value, digits: nat)
    ensures Decode(Hex(digits), v).Ok? <==> v.Str? && HexText(v.s, digits)
    ensures Decode(Hex(digits), v).Ok? ==>
              Decode(Hex(digits), v).value.Str? && SmallLetters(v.s, Decode(Hex(digits), v).value.s)
  {
    if v.Str? {
      HexInFields(v.s, digits);
      LowerInFields(v.s);
    }
  }

  lemma WholeInFields(n: real, min: int, max: int)
    ensures n == n.Floor as real && min <= n.Floor <= max <==> exists k :: Is(n, k) && min <= k <= max
  {
    if n == n.Floor as real {
      assert Is(n, n.Floor);
    }
    if k :| Is(n, k) && min <= k <= max {
      assert (k as real).Floor == k;
    }
  }

  lemma DecimalInFields(s: string)
    ensures IsDecimal(s) <==> DigitsOnly(s)
  {
    if s != "" && s[0] == '0' && |s| == 1 {
      assert s == "0";
    }
  }

  lemma HexInFields(s: string, digits: nat)
    ensures IsHex(s, digits) <==> HexText(s, digits)
  {
    if |s| >= 2 {
      assert s[..2] == [s[0], s[1]];
    }
  }

  lemma LowerInFields(s: string)
    ensures SmallLetters(s, Lower(s))
  {}

  // ---- what decoding a list or an object yields ----

  lemma {:induction false} DecodedAll(item: Schema, items: seq<Value>)
    ensures DecodeAll(item, items).Ok? <==> forall i :: 0 <= i < |items| ==> Decode(item, items[i]).Ok?
    ensures DecodeAll(item, items).Ok? ==>
              var xs := DecodeAll(item, items).value;
              |xs| == |items| && forall i :: 0 <= i < |items| ==> Decode(item, items[i]) == Ok(xs[i])
  {
    if items != [] {
      var n := |items| - 1;
      var front := items[..n];
      DecodedAll(item, front);
      assert forall i :: 0 <= i < n ==> front[i] == items[i];
      if DecodeAll(item, items).Ok? {
        var xs, ys := DecodeAll(item, items).value, DecodeAll(item, front).value;
        assert xs == ys + [xs[n]];
        forall i | 0 <= i < |items| ensures Decode(item, items[i]) == Ok(xs[i]) {
          if i < n {
            assert Decode(item, front[i]) == Ok(ys[i]);
          }
        }
      }
    }
  }

  predicate MemberOk(m: Member, fields: seq<Field>) {
    if Present(fields, m.key) then Decode(m.schema, At(fields, m.key)).Ok? else m.optional
  }

  /** The field is what some member reads from the object. */
  ghost predicate ReadBy(x: Field, members: seq<Member>, fields: seq<Field>) {
    exists m :: 0 <= m < |members| && members[m].key == x.key && Present(fields, x.key)
                && Decode(members[m].schema, At(fields, x.key)) == Ok(x.value)
  }

  lemma {:induction false} DecodedMembers(members: seq<Member>, fields: seq<Field>)
    ensures DecodeMembers(members, fields).Ok? <==> forall m :: 0 <= m < |members| ==> MemberOk(members[m], fields)
    ensures DecodeMembers(members, fields).Ok? ==>
              forall x :: x in DecodeMembers(members, fields).value <==> ReadBy(x, members, fields)
  {
    if members != [] {
      var n := |members| - 1;
      DecodedMembers(members[..n], fields);
      assert forall m :: 0 <= m < n ==> members[..n][m] == members[m];
      if DecodeMembers(members, fields).Ok? {
        forall x ensures x in DecodeMembers(members, fields).value <==> ReadBy(x, members, fields) {
          OneMoreMember(x, members, fields);
        }
      }
    }
  }

  lemma OneMoreMember(x: Field, members: seq<Member>, fields: seq<Field>)
    requires members != []
    ensures var m := members[|members| - 1];
            ReadBy(x, members, fields) <==>
            ReadBy(x, members[..|members| - 1], fields)
            || (m.key == x.key && Present(fields, x.key) && Decode(m.schema, At(fields, x.key)) == Ok(x.value))
  {
    var n := |members| - 1;
    assert forall m :: 0 <= m < n ==> members[..n][m] == members[m];
  }

  ghost predicate DistinctMembers(members: seq<Member>) {
    forall i, j :: 0 <= i < j < |members| ==> members[i].key != members[j].key
  }

  lemma {:induction false} DecodedDistinct(members: seq<Member>, fields: seq<Field>)
    requires DistinctMembers(members) && DecodeMembers(members, fields).Ok?
    ensures DistinctKeys(DecodeMembers(members, fields).value)
  {
    if members != [] {
      var n := |members| - 1;
      assert DistinctMembers(members[..n]);
      DecodedDistinct(members[..n], fields);
      if Present(fields, members[n].key) {
        DecodedMembers(members[..n], fields);
        var fs := DecodeMembers(members[..n], fields).value;
        forall i | 0 <= i < |fs| ensures fs[i].key != members[n].key {
          assert ReadBy(fs[i], members[..n], fields);
        }
      }
    }
  }

  /** No object of the schema lists a key twice, and every case pins its tag. */
  ghost predicate WellFormed(schema: Schema) {
    match schema
    case List(item, _) => WellFormed(item)
    case Record(members) => DistinctMembers(members) && forall m :: 0 <= m < |members| ==> WellFormed(members[m].schema)
    case Tagged(tag, cases) =>
      forall c :: 0 <= c < |cases| ==>
                    DistinctMembers(cases[c].members)
                    && Member(tag, OneOf([cases[c].name]), false) in cases[c].members
                    && forall m :: 0 <= m < |cases[c].members| ==> WellFormed(cases[c].members[m].schema)
    case _ => true
  }

  ghost predicate WellFormedMembers(members: seq<Member>) {
    DistinctMembers(members) && forall m :: 0 <= m < |members| ==> WellFormed(members[m].schema)
  }

  lemma MembersWellFormed(schema: Schema, v: Value)
    requires WellFormed(schema) && MembersFor(schema, v).Some?
    ensures WellFormedMembers(MembersFor(schema, v).value)
  {}

  // ---- exactly when the hash survives ----

  predicate Known(key: string, members: seq<Member>) {
    exists m :: 0 <= m < |members| && members[m].key == key
  }

  /** The value has no key the schema does not know, and its hex identifiers are lower case. */
  ghost predicate Clean(schema: Schema, v: Value)
    decreases schema
  {
    match schema
    case Hex(_) => v.Str? && Lower(v.s) == v.s
    case List(item, _) => v.Arr? && forall i :: 0 <= i < |v.items| ==> Clean(item, v.items[i])
    case Record(_) => MembersFor(schema, v).Some? && CleanMembers(MembersFor(schema, v).value, v.fields)
    case Tagged(_, _) => MembersFor(schema, v).Some? && CleanMembers(MembersFor(schema, v).value, v.fields)
    case _ => true
  }

  ghost predicate CleanMembers(members: seq<Member>, fields: seq<Field>)
    decreases members
  {
    && (forall i :: 0 <= i < |fields| && !fields[i].value.Undefined? ==> Known(fields[i].key, members))
    && (forall m :: 0 <= m < |members| && Present(fields, members[m].key) ==>
                      Clean(members[m].schema, At(fields, members[m].key)))
  }

  /** For a value that parses, decoding keeps the normal form if and only if the value is clean. */
  ghost predicate KeepsExactly(schema: Schema, v: Value)
    requires Decode(schema, v).Ok?
  {
    var d := Decode(schema, v).value;
    Normalize(d).Ok? && !d.Undefined? && (Normalize(d) == Normalize(v) <==> Clean(schema, v))
  }

  lemma AmountExact(v: Value)
    requires Decode(Amount, v).Ok?
    ensures KeepsExactly(Amount, v)
  {
    DecimalOfParsed(v.s);
    assert Decode(Amount, v) == Ok(Big(ParseDecimal(v.s)));
  }

  lemma HexExact(digits: nat, v: Value)
    requires Decode(Hex(digits), v).Ok?
    ensures KeepsExactly(Hex(digits), v)
  {
    assert Decode(Hex(digits), v) == Ok(Str(Lower(v.s)));
  }

  /** The other leaves are decoded to themselves. */
  lemma LeafKept(schema: Schema, v: Value)
    requires !schema.List? && !schema.Record? && !schema.Tagged? && !schema.Amount? && !schema.Hex?
    requires Decode(schema, v).Ok?
    ensures Decode(schema, v) == Ok(v) && (v.Str? || v.Num? || v.Bool?)
  {}

  lemma LeafExact(schema: Schema, v: Value)
    requires !schema.List? && !schema.Record? && !schema.Tagged? && Decode(schema, v).Ok?
    ensures KeepsExactly(schema, v)
  {
    if schema.Amount? {
      AmountExact(v);
    } else if schema.Hex? {
      HexExact(schema.digits, v);
    } else {
      LeafKept(schema, v);
    }
  }

  /**
   * The exact condition of hash survival: of every value that parses, the decoded value has the same normal form,
   * and so the same hash, if and only if it had no unknown key and its addresses and ids were lower case.
   */
  lemma {:induction false} DecodeIsExact(schema: Schema, v: Value)
    requires WellFormed(schema) && Plain(v) && Decode(schema, v).Ok? && Normalize(v).Ok?
    ensures KeepsExactly(schema, v)
    decreases schema, 1
  {
    if schema.List? {
      DecodedAll(schema.item, v.items);
      AllNormal(v.items);
      forall i | 0 <= i < |v.items| ensures KeepsExactly(schema.item, v.items[i]) {
        DecodeIsExact(schema.item, v.items[i]);
      }
      ListExact(schema.item, v.items);
    } else if schema.Record? || schema.Tagged? {
      MembersWellFormed(schema, v);
      MembersExact(MembersFor(schema, v).value, v.fields);
    } else {
      LeafExact(schema, v);
    }
  }

  lemma ListExact(item: Schema, items: seq<Value>)
    requires DecodeAll(item, items).Ok? && NormalizeAll(items).Ok?
    requires forall i :: 0 <= i < |items| ==> Decode(item, items[i]).Ok? && KeepsExactly(item, items[i])
    ensures var xs := DecodeAll(item, items).value;
            && NormalizeAll(xs).Ok?
            && (NormalizeAll(xs) == NormalizeAll(items) <==> forall i :: 0 <= i < |items| ==> Clean(item, items[i]))
  {
    var xs := DecodeAll(item, items).value;
    DecodedAll(item, items);
    AllNormal(items);
    AllNormal(xs);
    forall i | 0 <= i < |items|
      ensures Normalize(xs[i]).Ok? && (Normalize(xs[i]) == Normalize(items[i]) <==> Clean(item, items[i]))
    {
      assert KeepsExactly(item, items[i]);
    }
    var p, q := NormalizeAll(xs).value, NormalizeAll(items).value;
    assert p == q <==> forall i :: 0 <= i < |items| ==> p[i] == q[i];
  }

  /** What a member reads is kept exactly. */
  ghost predicate MemberExact(m: Member, fields: seq<Field>) {
    Present(fields, m.key) ==> Decode(m.schema, At(fields, m.key)).Ok? && KeepsExactly(m.schema, At(fields, m.key))
  }

  lemma {:induction false} MembersExact(members: seq<Member>, fields: seq<Field>)
    requires WellFormedMembers(members) && Plain(Obj(fields))
    requires NormalizeFields(fields).Ok? && DecodeMembers(members, fields).Ok?
    ensures var fs := DecodeMembers(members, fields).value;
            NormalizeFields(fs).Ok? && (Normalize(Obj(fs)) == Normalize(Obj(fields)) <==> CleanMembers(members, fields))
    decreases members, 0
  {
    var fs := DecodeMembers(members, fields).value;
    DecodedMembers(members, fields);
    DecodedDistinct(members, fields);
    FieldsNormal(fields);
    forall m | 0 <= m < |members| ensures MemberExact(members[m], fields) {
      assert MemberOk(members[m], fields);
      if Present(fields, members[m].key) {
        DecodeIsExact(members[m].schema, At(fields, members[m].key));
      }
    }
    ReadNormal(members, fields, fs);
    SameFieldsSameForm(fs, fields);
    if CleanMembers(members, fields) {
      CleanIsKept(members, fields, fs);
    }
    if forall x :: NormalOf(x, fs) <==> NormalOf(x, fields) {
      KeptIsClean(members, fields, fs);
    }
  }

  lemma ReadNormal(members: seq<Member>, fields: seq<Field>, fs: seq<Field>)
    requires forall x :: x in fs <==> ReadBy(x, members, fields)
    requires forall m :: 0 <= m < |members| ==> MemberExact(members[m], fields)
    ensures NormalizeFields(fs).Ok?
  {
    FieldsNormal(fs);
    forall i | 0 <= i < |fs| ensures Normalize(fs[i].value).Ok? {
      assert fs[i] in fs;
      var m :| 0 <= m < |members| && members[m].key == fs[i].key && Present(fields, fs[i].key)
               && Decode(members[m].schema, At(fields, fs[i].key)) == Ok(fs[i].value);
      assert MemberExact(members[m], fields);
    }
  }

  lemma CleanIsKept(members: seq<Member>, fields: seq<Field>, fs: seq<Field>)
    requires DistinctKeys(fields) && CleanMembers(members, fields)
    requires forall x :: x in fs <==> ReadBy(x, members, fields)
    requires forall m :: 0 <= m < |members| ==> MemberExact(members[m], fields)
    ensures forall x :: NormalOf(x, fs) <==> NormalOf(x, fields)
  {
    forall x | NormalOf(x, fs) ensures NormalOf(x, fields) {
      var k :| 0 <= k < |fs| && !fs[k].value.Undefined? && fs[k].key == x.key && Normalize(fs[k].value) == Ok(x.value);
      assert fs[k] in fs;
      var m :| 0 <= m < |members| && members[m].key == x.key && Present(fields, x.key)
               && Decode(members[m].schema, At(fields, x.key)) == Ok(fs[k].value);
      assert MemberExact(members[m], fields);
      var i := FindField(fields, x.key);
      assert Normalize(fields[i].value) == Ok(x.value);
    }
    forall x | NormalOf(x, fields) ensures NormalOf(x, fs) {
      var i :| 0 <= i < |fields| && !fields[i].value.Undefined? && fields[i].key == x.key
        && Normalize(fields[i].value) == Ok(x.value);
      FindsItself(fields, i);
      assert Known(fields[i].key, members);
      var m :| 0 <= m < |members| && members[m].key == x.key;
      assert MemberExact(members[m], fields);
      ReadIsThere(members, fields, fs, m);
    }
  }

  /** A present member's decoded field is among the decoded fields. */
  lemma ReadIsThere(members: seq<Member>, fields: seq<Field>, fs: seq<Field>, m: nat)
    requires m < |members| && Present(fields, members[m].key)
    requires Decode(members[m].schema, At(fields, members[m].key)).Ok?
    requires forall x :: x in fs <==> ReadBy(x, members, fields)
    ensures var x := Field(members[m].key, Decode(members[m].schema, At(fields, members[m].key)).value);
            exists k :: 0 <= k < |fs| && fs[k] == x
  {
    assert ReadBy(Field(members[m].key, Decode(members[m].schema, At(fields, members[m].key)).value), members, fields);
  }

  lemma KeptIsClean(members: seq<Member>, fields: seq<Field>, fs: seq<Field>)
    requires DistinctKeys(fields) && DistinctKeys(fs) && DistinctMembers(members) && NormalizeFields(fields).Ok?
    requires forall x :: x in fs <==> ReadBy(x, members, fields)
    requires forall m :: 0 <= m < |members| ==> MemberExact(members[m], fields)
    requires forall x :: NormalOf(x, fs) <==> NormalOf(x, fields)
    ensures CleanMembers(members, fields)
  {
    FieldsNormal(fields);
    forall i | 0 <= i < |fields| && !fields[i].value.Undefined? ensures Known(fields[i].key, members) {
      var x := Field(fields[i].key, Normalize(fields[i].value).value);
      assert NormalOf(x, fields);
      var k :| 0 <= k < |fs| && !fs[k].value.Undefined? && fs[k].key == x.key && Normalize(fs[k].value) == Ok(x.value);
      assert fs[k] in fs;
    }
    forall m | 0 <= m < |members| && Present(fields, members[m].key)
      ensures Clean(members[m].schema, At(fields, members[m].key))
    {
      assert MemberExact(members[m], fields);
      ReadIsThere(members, fields, fs, m);
      var d := Decode(members[m].schema, At(fields, members[m].key)).value;
      var k :| 0 <= k < |fs| && fs[k] == Field(members[m].key, d);
      var i := FindField(fields, members[m].key);
      assert NormalOf(Field(members[m].key, Normalize(d).value), fs);
      SameKeySameForm(fields, i, Normalize(d).value);
    }
  }
}
