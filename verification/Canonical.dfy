/**
 * packages/core/src/claims/canonical.ts and packages/db/src/json.ts: the normal form that the integrity hash is
 * taken of, and the form in which a plan is stored. Numbers are reals; a date is its ISO text. Objects keep their
 * keys in insertion order, which holds in JavaScript for keys that do not look like array indices.
 */
module Canonical {
  import opened Ordering
  import opened Planner
  import opened Wrappers

  datatype Value =
    | Null
    | Undefined
    | Bool(b: bool)
    | Num(n: real)
    | NonFinite
    | Big(i: int)
    | Str(s: string)
    | Date(iso: string)
    | Arr(items: seq<Value>)
    | Obj(fields: seq<Field>)
    | Unserializable

  datatype Field = Field(key: string, value: Value)

  datatype TypeError = Unsupported

  function BigText(i: int): string {
    if i < 0 then "-" + Decimal(-i) else Decimal(i)
  }

  predicate KeyLeq(a: Field, b: Field) { Leq(a.key, b.key) }

  // ---- normal form ----

  /** A date has no keys of its own, so it is hashed as an empty object. */
  function Normalize(v: Value): Result<Value, TypeError> {
    match v
    case Null => Ok(v)
    case Bool(_) => Ok(v)
    case Num(_) => Ok(v)
    case Str(_) => Ok(v)
    case Big(i) => Ok(Str(BigText(i)))
    case Date(_) => Ok(Obj([]))
    case Arr(items) => (match NormalizeAll(items) case Ok(xs) => Ok(Arr(xs)) case Err(e) => Err(e))
    case Obj(fields) => (match NormalizeFields(fields) case Ok(fs) => Ok(Obj(SortBy(fs, KeyLeq))) case Err(e) => Err(e))
    case _ => Err(Unsupported)
  }

  function NormalizeAll(items: seq<Value>): Result<seq<Value>, TypeError> {
    if items == [] then Ok([])
    else
      var n := |items| - 1;
      match (NormalizeAll(items[..n]), Normalize(items[n]))
      case (Ok(xs), Ok(x)) => Ok(xs + [x])
      case _ => Err(Unsupported)
  }

  /** Undefined fields are dropped. */
  function NormalizeFields(fields: seq<Field>): Result<seq<Field>, TypeError> {
    if fields == [] then Ok([])
    else
      var n := |fields| - 1;
      if fields[n].value.Undefined? then NormalizeFields(fields[..n])
      else
        match (NormalizeFields(fields[..n]), Normalize(fields[n].value))
        case (Ok(fs), Ok(x)) => Ok(fs + [Field(fields[n].key, x)])
        case _ => Err(Unsupported)
  }

  // ---- stored form ----

  function ToJsonSafe(v: Value): Result<Value, TypeError> {
    match v
    case Null => Ok(v)
    case Bool(_) => Ok(v)
    case Num(_) => Ok(v)
    case Str(_) => Ok(v)
    case Big(i) => Ok(Str(BigText(i)))
    case Date(iso) => Ok(Str(iso))
    case Arr(items) => (match SafeAll(items) case Ok(xs) => Ok(Arr(xs)) case Err(e) => Err(e))
    case Obj(fields) => (match SafeFields(fields) case Ok(fs) => Ok(Obj(fs)) case Err(e) => Err(e))
    case _ => Err(Unsupported)
  }

  function SafeAll(items: seq<Value>): Result<seq<Value>, TypeError> {
    if items == [] then Ok([])
    else
      var n := |items| - 1;
      match (SafeAll(items[..n]), ToJsonSafe(items[n]))
      case (Ok(xs), Ok(x)) => Ok(xs + [x])
      case _ => Err(Unsupported)
  }

  function SafeFields(fields: seq<Field>): Result<seq<Field>, TypeError> {
    if fields == [] then Ok([])
    else
      var n := |fields| - 1;
      if fields[n].value.Undefined? then SafeFields(fields[..n])
      else
        match (SafeFields(fields[..n]), ToJsonSafe(fields[n].value))
        case (Ok(fs), Ok(x)) => Ok(fs + [Field(fields[n].key, x)])
        case _ => Err(Unsupported)
  }

  /** The storage of a plan: the same, but the value must be an object. */
  function ToJsonObject(v: Value): Result<Value, TypeError> {
    match ToJsonSafe(v)
    case Ok(safe) => if safe.Obj? then Ok(safe) else Err(Unsupported)
    case Err(e) => Err(e)
  }

  // ---- objects as JavaScript has them ----

  ghost predicate DistinctKeys(fields: seq<Field>) {
    forall i, j :: 0 <= i < j < |fields| ==> fields[i].key != fields[j].key
  }

  /** No object anywhere in the value repeats a key. */
  ghost predicate Plain(v: Value) {
    match v
    case Arr(items) => forall i :: 0 <= i < |items| ==> Plain(items[i])
    case Obj(fields) => DistinctKeys(fields) && forall i :: 0 <= i < |fields| ==> Plain(fields[i].value)
    case _ => true
  }

  function FindField(fields: seq<Field>, key: string): (i: nat)
    ensures i <= |fields|
    ensures i < |fields| ==> fields[i].key == key
    ensures forall k :: 0 <= k < i ==> fields[k].key != key
  {
    IndexOf(fields, (f: Field) => f.key == key)
  }

  ghost predicate HasKeysOf(fields: seq<Field>, others: seq<Field>) {
    forall j :: 0 <= j < |others| ==> FindField(fields, others[j].key) < |fields|
  }

  /** The same value up to the order of keys in its objects. */
  ghost predicate Reordered(v: Value, w: Value) {
    match v
    case Arr(items) =>
      w.Arr? && |items| == |w.items| && forall i :: 0 <= i < |items| ==> Reordered(items[i], w.items[i])
    case Obj(fields) =>
      && w.Obj? && HasKeysOf(fields, w.fields)
      && (forall i :: 0 <= i < |fields| ==>
                        var j := FindField(w.fields, fields[i].key);
                        j < |w.fields| && Reordered(fields[i].value, w.fields[j].value))
    case _ => v == w
  }

  // ---- what the normal form of a list of values or fields is made of ----

  lemma {:induction false} AllNormal(items: seq<Value>)
    ensures NormalizeAll(items).Ok? <==> forall i :: 0 <= i < |items| ==> Normalize(items[i]).Ok?
    ensures NormalizeAll(items).Ok? ==>
              var xs := NormalizeAll(items).value;
              |xs| == |items| && forall i :: 0 <= i < |items| ==> Normalize(items[i]) == Ok(xs[i])
  {
    if items != [] {
      var n := |items| - 1;
      AllNormal(items[..n]);
      assert forall i :: 0 <= i < n ==> items[..n][i] == items[i];
    }
  }

  /** The field is one of the fields, defined, in its normal form. */
  ghost predicate NormalOf(x: Field, fields: seq<Field>) {
    exists i :: 0 <= i < |fields| && !fields[i].value.Undefined? && fields[i].key == x.key
      && Normalize(fields[i].value) == Ok(x.value)
  }

  lemma {:induction false} FieldsNormal(fields: seq<Field>)
    ensures NormalizeFields(fields).Ok? <==>
            forall i :: 0 <= i < |fields| ==> fields[i].value.Undefined? || Normalize(fields[i].value).Ok?
    ensures NormalizeFields(fields).Ok? ==> forall x :: x in NormalizeFields(fields).value <==> NormalOf(x, fields)
  {
    if fields != [] {
      var n := |fields| - 1;
      FieldsNormal(fields[..n]);
      assert forall i :: 0 <= i < n ==> fields[..n][i] == fields[i];
      if NormalizeFields(fields).Ok? {
        forall x ensures x in NormalizeFields(fields).value <==> NormalOf(x, fields) {
          OneMoreNormal(x, fields);
        }
      }
    }
  }

  lemma OneMoreNormal(x: Field, fields: seq<Field>)
    requires fields != []
    ensures var n := |fields| - 1;
            NormalOf(x, fields) <==>
            NormalOf(x, fields[..n])
            || (!fields[n].value.Undefined? && fields[n].key == x.key && Normalize(fields[n].value) == Ok(x.value))
  {
    var n := |fields| - 1;
    assert forall i :: 0 <= i < n ==> fields[..n][i] == fields[i];
  }

  lemma {:induction false} DistinctNormal(fields: seq<Field>)
    requires DistinctKeys(fields) && NormalizeFields(fields).Ok?
    ensures DistinctKeys(NormalizeFields(fields).value)
  {
    if fields != [] {
      var n := |fields| - 1;
      assert DistinctKeys(fields[..n]);
      DistinctNormal(fields[..n]);
      if !fields[n].value.Undefined? {
        FieldsNormal(fields[..n]);
        var fs := NormalizeFields(fields[..n]).value;
        forall i | 0 <= i < |fs| ensures fs[i].key != fields[n].key {
          assert NormalOf(fs[i], fields[..n]);
        }
      }
    }
  }

  // ---- sorting by key ----

  lemma KeysTotal()
    ensures TotalPreorder(KeyLeq)
  {
    forall a: Field, b: Field ensures KeyLeq(a, b) || KeyLeq(b, a) {
      LeqTotal(a.key, b.key);
    }
    forall a: Field, b: Field, c: Field | KeyLeq(a, b) && KeyLeq(b, c) ensures KeyLeq(a, c) {
      LeqTransitive(a.key, b.key, c.key);
    }
  }

  lemma SortedStrict(fields: seq<Field>)
    requires DistinctKeys(fields)
    ensures Strict(SortBy(fields, KeyLeq), KeyLeq)
  {
    var sorted := SortBy(fields, KeyLeq);
    KeysTotal();
    SortSorted(fields, KeyLeq);
    SortedFieldsDistinct(fields);
    forall i, j | 0 <= i < j < |sorted| ensures KeyLeq(sorted[i], sorted[j]) && !KeyLeq(sorted[j], sorted[i]) {
      if KeyLeq(sorted[j], sorted[i]) {
        LeqAntisymmetric(sorted[i].key, sorted[j].key);
      }
    }
  }

  function KeyOf(f: Field): string { f.key }

  lemma SortedFieldsDistinct(fields: seq<Field>)
    requires DistinctKeys(fields)
    ensures DistinctKeys(SortBy(fields, KeyLeq))
  {
    assert Distinct(fields, KeyOf);
    SortDistinct(fields, KeyLeq, KeyOf);
    var sorted := SortBy(fields, KeyLeq);
    forall i, j | 0 <= i < j < |sorted| ensures sorted[i].key != sorted[j].key {
      assert KeyOf(sorted[i]) != KeyOf(sorted[j]);
    }
  }

  lemma {:induction false} SortedStays<T(!new)>(s: seq<T>, leq: (T, T) -> bool)
    requires Sorted(s, leq)
    ensures SortBy(s, leq) == s
  {
    if s != [] {
      SortedStays(s[..|s| - 1], leq);
      assert s == s[..|s| - 1] + [s[|s| - 1]];
      if |s| > 1 {
        assert leq(s[|s| - 2], s[|s| - 1]);
      }
    }
  }

  /** Two objects without repeated keys have one normal form exactly when their fields have the same normal forms. */
  lemma SameFieldsSameForm(a: seq<Field>, b: seq<Field>)
    requires DistinctKeys(a) && DistinctKeys(b)
    requires NormalizeFields(a).Ok? && NormalizeFields(b).Ok?
    ensures Normalize(Obj(a)) == Normalize(Obj(b)) <==> forall x :: NormalOf(x, a) <==> NormalOf(x, b)
  {
    var p, q := NormalizeFields(a).value, NormalizeFields(b).value;
    FieldsNormal(a);
    FieldsNormal(b);
    forall x ensures (x in SortBy(p, KeyLeq) <==> NormalOf(x, a)) && (x in SortBy(q, KeyLeq) <==> NormalOf(x, b)) {
      SortContains(p, KeyLeq, x);
      SortContains(q, KeyLeq, x);
    }
    DistinctNormal(a);
    DistinctNormal(b);
    SortedStrict(p);
    SortedStrict(q);
    if forall x :: NormalOf(x, a) <==> NormalOf(x, b) {
      StrictIsUnique(SortBy(p, KeyLeq), SortBy(q, KeyLeq), KeyLeq);
    }
  }

  // ---- idempotence ----

  /** Normalizing a normal form changes nothing. */
  lemma {:induction false} Idempotent(v: Value)
    requires Normalize(v).Ok?
    ensures Normalize(Normalize(v).value) == Normalize(v)
    decreases v, 1
  {
    match v
    case Arr(items) =>
      AllNormal(items);
      var xs := NormalizeAll(items).value;
      forall i | 0 <= i < |xs| ensures Normalize(xs[i]) == Ok(xs[i]) {
        Idempotent(items[i]);
      }
      AllFixed(xs);
    case Obj(fields) =>
      FieldsNormal(fields);
      var fs := NormalizeFields(fields).value;
      var sorted := SortBy(fs, KeyLeq);
      forall x | x in sorted ensures Normalize(x.value) == Ok(x.value) && !x.value.Undefined? {
        SortContains(fs, KeyLeq, x);
        var i :| 0 <= i < |fields| && !fields[i].value.Undefined? && fields[i].key == x.key
          && Normalize(fields[i].value) == Ok(x.value);
        Idempotent(fields[i].value);
        NeverUndefined(fields[i].value);
      }
      FieldsFixed(sorted);
      KeysTotal();
      SortSorted(fs, KeyLeq);
      SortedStays(sorted, KeyLeq);
    case _ =>
  }

  lemma NeverUndefined(v: Value)
    requires Normalize(v).Ok?
    ensures !Normalize(v).value.Undefined?
  {}

  lemma {:induction false} AllFixed(xs: seq<Value>)
    requires forall i :: 0 <= i < |xs| ==> Normalize(xs[i]) == Ok(xs[i])
    ensures NormalizeAll(xs) == Ok(xs)
  {
    if xs != [] {
      AllFixed(xs[..|xs| - 1]);
      assert xs == xs[..|xs| - 1] + [xs[|xs| - 1]];
    }
  }

  lemma {:induction false} FieldsFixed(fs: seq<Field>)
    requires forall x :: x in fs ==> Normalize(x.value) == Ok(x.value) && !x.value.Undefined?
    ensures NormalizeFields(fs) == Ok(fs)
  {
    if fs != [] {
      var n := |fs| - 1;
      assert forall x :: x in fs[..n] ==> x in fs;
      assert fs[n] in fs;
      FieldsFixed(fs[..n]);
      assert fs == fs[..n] + [Field(fs[n].key, fs[n].value)];
    }
  }

  // ---- key order ----

  /** The normal form, and so the hash, does not depend on the order of keys. */
  lemma {:induction false} KeyOrderIsIrrelevant(v: Value, w: Value)
    requires Plain(v) && Plain(w) && Reordered(v, w)
    ensures Normalize(v) == Normalize(w)
  {
    match v
    case Arr(items) =>
      forall i | 0 <= i < |items| ensures Normalize(items[i]) == Normalize(w.items[i]) {
        KeyOrderIsIrrelevant(items[i], w.items[i]);
      }
      SameAll(items, w.items);
    case Obj(fields) =>
      forall i | 0 <= i < |fields| ensures AlikeIn(fields[i], w.fields) {
        var j := FindField(w.fields, fields[i].key);
        KeyOrderIsIrrelevant(fields[i].value, w.fields[j].value);
        assert fields[i].value.Undefined? <==> w.fields[j].value.Undefined?;
      }
      BothAlike(fields, w.fields);
      SameFields(fields, w.fields);
    case _ =>
  }

  lemma SameAll(items: seq<Value>, others: seq<Value>)
    requires |items| == |others| && forall i :: 0 <= i < |items| ==> Normalize(items[i]) == Normalize(others[i])
    ensures NormalizeAll(items) == NormalizeAll(others)
  {
    AllNormal(items);
    AllNormal(others);
    if NormalizeAll(items).Ok? {
      assert NormalizeAll(items).value == NormalizeAll(others).value;
    } else {
      AllErr(items);
      AllErr(others);
    }
  }

  lemma {:induction false} AllErr(items: seq<Value>)
    requires NormalizeAll(items).Err?
    ensures NormalizeAll(items) == Err(Unsupported)
  {}

  /** The fields have one of that key, with the same normal form. */
  ghost predicate AlikeIn(f: Field, fields: seq<Field>) {
    var j := FindField(fields, f.key);
    && j < |fields| && Normalize(f.value) == Normalize(fields[j].value)
    && (f.value.Undefined? <==> fields[j].value.Undefined?)
  }

  ghost predicate AllAlike(a: seq<Field>, b: seq<Field>) {
    forall i :: 0 <= i < |a| ==> AlikeIn(a[i], b)
  }

  lemma FindsItself(fields: seq<Field>, i: nat)
    requires DistinctKeys(fields) && i < |fields|
    ensures FindField(fields, fields[i].key) == i
  {}

  lemma BothAlike(a: seq<Field>, b: seq<Field>)
    requires DistinctKeys(b) && HasKeysOf(a, b) && AllAlike(a, b)
    ensures AllAlike(b, a)
  {
    forall j | 0 <= j < |b| ensures AlikeIn(b[j], a) {
      var i := FindField(a, b[j].key);
      assert AlikeIn(a[i], b);
      FindsItself(b, j);
    }
  }

  lemma AlikeNormal(x: Field, a: seq<Field>, b: seq<Field>)
    requires NormalOf(x, a) && AllAlike(a, b)
    ensures NormalOf(x, b)
  {
    var i :| 0 <= i < |a| && !a[i].value.Undefined? && a[i].key == x.key && Normalize(a[i].value) == Ok(x.value);
    assert AlikeIn(a[i], b);
  }

  lemma AlikeOk(a: seq<Field>, b: seq<Field>)
    requires AllAlike(a, b) && NormalizeFields(b).Ok?
    ensures NormalizeFields(a).Ok?
  {
    FieldsNormal(a);
    FieldsNormal(b);
    forall i | 0 <= i < |a| ensures a[i].value.Undefined? || Normalize(a[i].value).Ok? {
      assert AlikeIn(a[i], b);
    }
  }

  lemma SameFields(a: seq<Field>, b: seq<Field>)
    requires DistinctKeys(a) && DistinctKeys(b) && AllAlike(a, b) && AllAlike(b, a)
    ensures Normalize(Obj(a)) == Normalize(Obj(b))
  {
    if NormalizeFields(a).Ok? || NormalizeFields(b).Ok? {
      if NormalizeFields(a).Ok? {
        AlikeOk(b, a);
      } else {
        AlikeOk(a, b);
      }
      forall x ensures NormalOf(x, a) <==> NormalOf(x, b) {
        if NormalOf(x, a) {
          AlikeNormal(x, a, b);
        }
        if NormalOf(x, b) {
          AlikeNormal(x, b, a);
        }
      }
      SameFieldsSameForm(a, b);
    } else {
      assert NormalizeFields(a).error == Unsupported == NormalizeFields(b).error;
    }
  }

  // ---- storage ----

  /** Storing fails exactly when hashing does. */
  lemma {:induction false} Storable(v: Value)
    ensures ToJsonSafe(v).Ok? <==> Normalize(v).Ok?
    ensures ToJsonSafe(v).Ok? ==> !ToJsonSafe(v).value.Undefined?
  {
    match v
    case Arr(items) => StorableAll(items);
    case Obj(fields) => StorableFields(fields);
    case _ =>
  }

  lemma {:induction false} StorableAll(items: seq<Value>)
    ensures SafeAll(items).Ok? <==> NormalizeAll(items).Ok?
  {
    if items != [] {
      var n := |items| - 1;
      StorableAll(items[..n]);
      Storable(items[n]);
    }
  }

  lemma {:induction false} StorableFields(fields: seq<Field>)
    ensures SafeFields(fields).Ok? <==> NormalizeFields(fields).Ok?
  {
    if fields != [] {
      var n := |fields| - 1;
      StorableFields(fields[..n]);
      Storable(fields[n].value);
    }
  }

  lemma {:induction false} SafeItems(items: seq<Value>)
    requires SafeAll(items).Ok?
    ensures |SafeAll(items).value| == |items|
    ensures forall i :: 0 <= i < |items| ==> ToJsonSafe(items[i]) == Ok(SafeAll(items).value[i])
  {
    if items != [] {
      SafeItems(items[..|items| - 1]);
    }
  }

  /** The field is one of the fields, defined, as it is stored. */
  ghost predicate StoredOf(x: Field, fields: seq<Field>) {
    exists i :: 0 <= i < |fields| && !fields[i].value.Undefined? && fields[i].key == x.key
                && ToJsonSafe(fields[i].value) == Ok(x.value)
  }

  /** What is stored of a field. */
  function StoredField(f: Field): Field
    requires ToJsonSafe(f.value).Ok?
  {
    Field(f.key, ToJsonSafe(f.value).value)
  }

  lemma {:induction false} StoredFields(fields: seq<Field>)
    requires DistinctKeys(fields) && SafeFields(fields).Ok?
    ensures forall x :: x in SafeFields(fields).value ==> StoredOf(x, fields) && !x.value.Undefined?
    ensures forall i :: 0 <= i < |fields| && !fields[i].value.Undefined? ==>
                          ToJsonSafe(fields[i].value).Ok? && StoredField(fields[i]) in SafeFields(fields).value
    ensures DistinctKeys(SafeFields(fields).value)
  {
    if fields != [] {
      var n := |fields| - 1;
      assert DistinctKeys(fields[..n]);
      StoredFields(fields[..n]);
      assert forall i :: 0 <= i < n ==> fields[..n][i] == fields[i];
      var front := SafeFields(fields[..n]).value;
      forall x | x in front ensures StoredOf(x, fields) && x.key != fields[n].key {
        assert StoredOf(x, fields[..n]);
      }
      if !fields[n].value.Undefined? {
        Storable(fields[n].value);
        assert forall i :: 0 <= i < |front| ==> front[i] in front;
      }
    }
  }

  /** No date anywhere in the value. */
  ghost predicate DateFree(v: Value) {
    match v
    case Date(_) => false
    case Arr(items) => forall i :: 0 <= i < |items| ==> DateFree(items[i])
    case Obj(fields) => forall i :: 0 <= i < |fields| ==> DateFree(fields[i].value)
    case _ => true
  }

  /** The value is stored, and its stored form hashes like it if and only if no date is in it. */
  ghost predicate StoresExactly(v: Value) {
    && ToJsonSafe(v).Ok? && Normalize(v).Ok? && Normalize(ToJsonSafe(v).value).Ok?
    && (Normalize(ToJsonSafe(v).value) == Normalize(v) <==> DateFree(v))
  }

  /**
   * What is stored of a value that can be hashed has the value's normal form if and only if it has no date: a date is
   * stored as its text and hashed as an empty object.
   */
  lemma {:induction false} StorageKeepsForm(v: Value)
    requires Plain(v) && Normalize(v).Ok?
    ensures StoresExactly(v)
  {
    Storable(v);
    match v
    case Arr(items) =>
      AllNormal(items);
      forall i | 0 <= i < |items| ensures StoresExactly(items[i]) {
        StorageKeepsForm(items[i]);
      }
      StorageKeepsItems(items);
    case Obj(fields) =>
      FieldsNormal(fields);
      forall i | 0 <= i < |fields| && !fields[i].value.Undefined? ensures StoresExactly(fields[i].value) {
        StorageKeepsForm(fields[i].value);
      }
      StorageKeepsFields(fields);
    case _ =>
  }

  lemma StorageKeepsItems(items: seq<Value>)
    requires SafeAll(items).Ok? && NormalizeAll(items).Ok?
    requires forall i :: 0 <= i < |items| ==> StoresExactly(items[i])
    ensures NormalizeAll(SafeAll(items).value).Ok?
    ensures NormalizeAll(SafeAll(items).value) == NormalizeAll(items)
            <==> forall i :: 0 <= i < |items| ==> DateFree(items[i])
  {
    var xs := SafeAll(items).value;
    SafeItems(items);
    AllNormal(items);
    AllNormal(xs);
    forall i | 0 <= i < |items|
      ensures Normalize(xs[i]).Ok? && (Normalize(xs[i]) == Normalize(items[i]) <==> DateFree(items[i]))
    {
      assert StoresExactly(items[i]);
    }
    var p, q := NormalizeAll(xs).value, NormalizeAll(items).value;
    assert p == q <==> forall i :: 0 <= i < |items| ==> p[i] == q[i];
  }

  /** Every defined field is stored exactly. */
  ghost predicate AllStoreExactly(fields: seq<Field>) {
    forall i :: 0 <= i < |fields| && !fields[i].value.Undefined? ==> StoresExactly(fields[i].value)
  }

  lemma StorageKeepsFields(fields: seq<Field>)
    requires DistinctKeys(fields) && SafeFields(fields).Ok? && NormalizeFields(fields).Ok? && AllStoreExactly(fields)
    ensures NormalizeFields(SafeFields(fields).value).Ok?
    ensures Normalize(Obj(SafeFields(fields).value)) == Normalize(Obj(fields)) <==> DateFree(Obj(fields))
  {
    var safe := SafeFields(fields).value;
    StoredFields(fields);
    SafeFieldsNormal(fields);
    SameFieldsSameForm(safe, fields);
    if DateFree(Obj(fields)) {
      forall x ensures NormalOf(x, safe) <==> NormalOf(x, fields) {
        if NormalOf(x, safe) {
          StoredIsNormal(fields, x);
        }
        if NormalOf(x, fields) {
          NormalIsStored(fields, x);
        }
      }
    }
    if forall x :: NormalOf(x, safe) <==> NormalOf(x, fields) {
      forall i | 0 <= i < |fields| ensures DateFree(fields[i].value) {
        if !fields[i].value.Undefined? {
          SameFormDateFree(fields, i);
        }
      }
    }
  }

  lemma SafeFieldsNormal(fields: seq<Field>)
    requires DistinctKeys(fields) && SafeFields(fields).Ok? && AllStoreExactly(fields)
    ensures NormalizeFields(SafeFields(fields).value).Ok?
  {
    var safe := SafeFields(fields).value;
    StoredFields(fields);
    forall k | 0 <= k < |safe| ensures Normalize(safe[k].value).Ok? {
      assert StoredOf(safe[k], fields);
    }
    FieldsNormal(safe);
  }

  lemma StoredIsNormal(fields: seq<Field>, x: Field)
    requires DistinctKeys(fields) && SafeFields(fields).Ok? && AllStoreExactly(fields) && DateFree(Obj(fields))
    requires NormalOf(x, SafeFields(fields).value)
    ensures NormalOf(x, fields)
  {
    var safe := SafeFields(fields).value;
    StoredFields(fields);
    var k :| 0 <= k < |safe| && safe[k].key == x.key && Normalize(safe[k].value) == Ok(x.value);
    assert StoredOf(safe[k], fields);
    var i :| 0 <= i < |fields| && !fields[i].value.Undefined? && fields[i].key == x.key
             && ToJsonSafe(fields[i].value) == Ok(safe[k].value);
    assert StoresExactly(fields[i].value) && DateFree(fields[i].value);
  }

  lemma NormalIsStored(fields: seq<Field>, x: Field)
    requires DistinctKeys(fields) && SafeFields(fields).Ok? && AllStoreExactly(fields) && DateFree(Obj(fields))
    requires NormalOf(x, fields)
    ensures NormalOf(x, SafeFields(fields).value)
  {
    var safe := SafeFields(fields).value;
    StoredFields(fields);
    var i :| 0 <= i < |fields| && !fields[i].value.Undefined? && fields[i].key == x.key
             && Normalize(fields[i].value) == Ok(x.value);
    assert StoresExactly(fields[i].value) && DateFree(fields[i].value);
    var k :| 0 <= k < |safe| && safe[k] == StoredField(fields[i]);
    assert safe[k] in safe;
  }

  lemma SameFormDateFree(fields: seq<Field>, i: nat)
    requires DistinctKeys(fields) && SafeFields(fields).Ok? && AllStoreExactly(fields)
    requires i < |fields| && !fields[i].value.Undefined?
    requires forall x :: NormalOf(x, SafeFields(fields).value) ==> NormalOf(x, fields)
    ensures DateFree(fields[i].value)
  {
    var safe := SafeFields(fields).value;
    StoredFields(fields);
    assert StoresExactly(fields[i].value);
    var k :| 0 <= k < |safe| && safe[k] == StoredField(fields[i]);
    assert safe[k] in safe;
    var form := Normalize(safe[k].value).value;
    assert NormalOf(Field(fields[i].key, form), safe);
    SameKeySameForm(fields, i, form);
  }

  lemma SameKeySameForm(fields: seq<Field>, i: nat, form: Value)
    requires DistinctKeys(fields) && i < |fields| && NormalOf(Field(fields[i].key, form), fields)
    ensures Normalize(fields[i].value) == Ok(form)
  {}

  // ---- the source's loops ----

  lemma {:induction false} NormalFieldsSorted(fields: seq<Field>)
    requires Sorted(fields, KeyLeq) && NormalizeFields(fields).Ok?
    ensures Sorted(NormalizeFields(fields).value, KeyLeq)
    ensures forall x :: x in NormalizeFields(fields).value ==> exists i :: 0 <= i < |fields| && fields[i].key == x.key
  {
    if fields != [] {
      var n := |fields| - 1;
      var front := fields[..n];
      NormalFieldsSorted(front);
      assert forall i :: 0 <= i < n ==> front[i] == fields[i];
      if !fields[n].value.Undefined? {
        var fs := NormalizeFields(front).value;
        forall i | 0 <= i < |fs| ensures Leq(fs[i].key, fields[n].key) {
          assert fs[i] in fs;
          var k :| 0 <= k < n && front[k].key == fs[i].key;
          assert KeyLeq(fields[k], fields[n]);
        }
        KeysTotal();
        assert KeyLeq(fields[n], fields[n]);
      }
    }
  }

  /** Normalizing the fields in key order is normalizing them and sorting. */
  lemma SortFirst(fields: seq<Field>)
    requires DistinctKeys(fields)
    ensures var sorted := SortBy(fields, KeyLeq);
            && (NormalizeFields(sorted).Ok? <==> NormalizeFields(fields).Ok?)
            && (NormalizeFields(fields).Ok? ==> Normalize(Obj(fields)) == Ok(Obj(NormalizeFields(sorted).value)))
  {
    var sorted := SortBy(fields, KeyLeq);
    SortMultiset(fields, KeyLeq);
    SameElements(sorted, fields);
    SameMembers(sorted, fields);
    SameMembers(fields, sorted);
    SortedFieldsDistinct(fields);
    if NormalizeFields(fields).Ok? {
      SameFieldsSameForm(fields, sorted);
      SortedForm(fields);
    }
  }

  lemma SortedForm(fields: seq<Field>)
    requires NormalizeFields(SortBy(fields, KeyLeq)).Ok?
    ensures var fs := NormalizeFields(SortBy(fields, KeyLeq)).value; SortBy(fs, KeyLeq) == fs
  {
    KeysTotal();
    SortSorted(fields, KeyLeq);
    NormalFieldsSorted(SortBy(fields, KeyLeq));
    SortedStays(NormalizeFields(SortBy(fields, KeyLeq)).value, KeyLeq);
  }

  lemma SameMembers(a: seq<Field>, b: seq<Field>)
    requires forall x :: x in a ==> x in b
    ensures NormalizeFields(b).Ok? ==> NormalizeFields(a).Ok?
    ensures forall x :: NormalOf(x, a) ==> NormalOf(x, b)
  {
    FieldsNormal(a);
    FieldsNormal(b);
    forall i | 0 <= i < |a| ensures exists j :: 0 <= j < |b| && b[j] == a[i] {
      assert a[i] in b;
    }
  }

  lemma {:induction false} NormalStopsAt(fields: seq<Field>, n: nat)
    requires n <= |fields| && NormalizeFields(fields[..n]).Err?
    ensures NormalizeFields(fields).Err?
  {
    FieldsNormal(fields);
    FieldsNormal(fields[..n]);
  }

  method NormalizeCanonical(v: Value) returns (r: Result<Value, TypeError>)
    requires Plain(v)
    ensures r == Normalize(v)
    decreases v
  {
    match v {
      case Null => r := Ok(v);
      case Bool(_) => r := Ok(v);
      case Num(_) => r := Ok(v);
      case Str(_) => r := Ok(v);
      case Big(i) => r := Ok(Str(BigText(i)));
      case Date(_) => r := Ok(Obj([]));
      case Arr(items) => r := NormalizeArray(items);
      case Obj(fields) => r := NormalizeObject(fields);
      case _ => r := Err(Unsupported);
    }
  }

  method NormalizeArray(items: seq<Value>) returns (r: Result<Value, TypeError>)
    requires forall i :: 0 <= i < |items| ==> Plain(items[i])
    ensures r == Normalize(Arr(items))
    decreases items
  {
    var xs := [];
    for i := 0 to |items|
      invariant NormalizeAll(items[..i]) == Ok(xs)
    {
      assert items[..i + 1][..i] == items[..i];
      var x := NormalizeCanonical(items[i]);
      if x.Err? {
        AllNormal(items);
        assert NormalizeAll(items).error == Unsupported;
        return Err(Unsupported);
      }
      xs := xs + [x.value];
    }
    assert items[..|items|] == items;
    return Ok(Arr(xs));
  }

  lemma NextField(fields: seq<Field>, i: nat, done: seq<Field>)
    requires i < |fields| && NormalizeFields(fields[..i]) == Ok(done)
    ensures var f, next := fields[i], NormalizeFields(fields[..i + 1]);
            && (f.value.Undefined? ==> next == Ok(done))
            && (!f.value.Undefined? && Normalize(f.value).Ok? ==>
               next == Ok(done + [Field(f.key, Normalize(f.value).value)]))
            && (!f.value.Undefined? && Normalize(f.value).Err? ==> NormalizeFields(fields).Err?)
  {
    assert fields[..i + 1][..i] == fields[..i];
    if !fields[i].value.Undefined? && Normalize(fields[i].value).Err? {
      NormalStopsAt(fields, i + 1);
    }
  }

  lemma ObjectForm(fields: seq<Field>, sorted: seq<Field>, form: Result<seq<Field>, TypeError>)
    requires DistinctKeys(fields) && sorted == SortBy(fields, KeyLeq) && NormalizeFields(sorted) == form
    ensures Normalize(Obj(fields)) == match form case Ok(output) => Ok(Obj(output)) case Err(_) => Err(Unsupported)
  {
    SortFirst(fields);
    if form.Err? {
      assert NormalizeFields(fields).error == Unsupported;
    }
  }

  /** The keys are sorted first and the output filled in that order. */
  method NormalizeObject(fields: seq<Field>) returns (r: Result<Value, TypeError>)
    requires DistinctKeys(fields) && forall i :: 0 <= i < |fields| ==> Plain(fields[i].value)
    ensures r == Normalize(Obj(fields))
    decreases fields
  {
    var sorted := SortBy(fields, KeyLeq);
    var output := [];
    for i := 0 to |sorted|
      invariant NormalizeFields(sorted[..i]) == Ok(output)
    {
      NextField(sorted, i, output);
      SortContains(fields, KeyLeq, sorted[i]);
      var k :| 0 <= k < |fields| && fields[k] == sorted[i];
      var nested := fields[k].value;
      if !nested.Undefined? {
        var x := NormalizeCanonical(nested);
        if x.Err? {
          ObjectForm(fields, sorted, NormalizeFields(sorted));
          return Err(Unsupported);
        }
        output := output + [Field(sorted[i].key, x.value)];
      }
    }
    assert sorted[..|sorted|] == sorted;
    ObjectForm(fields, sorted, Ok(output));
    return Ok(Obj(output));
  }

  method StoreValue(v: Value) returns (r: Result<Value, TypeError>)
    ensures r == ToJsonSafe(v)
    decreases v
  {
    match v {
      case Null => r := Ok(v);
      case Bool(_) => r := Ok(v);
      case Num(_) => r := Ok(v);
      case Str(_) => r := Ok(v);
      case Big(i) => r := Ok(Str(BigText(i)));
      case Date(iso) => r := Ok(Str(iso));
      case Arr(items) => r := StoreArray(items);
      case Obj(fields) => r := StoreObject(fields);
      case _ => r := Err(Unsupported);
    }
  }

  method StoreArray(items: seq<Value>) returns (r: Result<Value, TypeError>)
    ensures r == ToJsonSafe(Arr(items))
    decreases items
  {
    var xs := [];
    for i := 0 to |items|
      invariant SafeAll(items[..i]) == Ok(xs)
    {
      assert items[..i + 1][..i] == items[..i];
      var x := StoreValue(items[i]);
      if x.Err? {
        Storable(items[i]);
        AllNormal(items);
        StorableAll(items);
        assert SafeAll(items).error == Unsupported;
        return Err(Unsupported);
      }
      xs := xs + [x.value];
    }
    assert items[..|items|] == items;
    return Ok(Arr(xs));
  }

  /** The output keeps the order of the keys. */
  method StoreObject(fields: seq<Field>) returns (r: Result<Value, TypeError>)
    ensures r == ToJsonSafe(Obj(fields))
    decreases fields
  {
    var output := [];
    for i := 0 to |fields|
      invariant SafeFields(fields[..i]) == Ok(output)
    {
      assert fields[..i + 1][..i] == fields[..i];
      var child := fields[i].value;
      if !child.Undefined? {
        var x := StoreValue(child);
        if x.Err? {
          Storable(child);
          FieldsNormal(fields);
          StorableFields(fields);
          assert SafeFields(fields).error == Unsupported;
          return Err(Unsupported);
        }
        output := output + [Field(fields[i].key, x.value)];
      }
    }
    assert fields[..|fields|] == fields;
    return Ok(Obj(output));
  }
}
