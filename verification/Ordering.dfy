/**
 * Order on identifiers and the stable sort. Identifiers are lower-case ASCII, on which `localeCompare` and the
 * default sort agree with comparison by code unit.
 */
module Ordering {
  predicate Leq(a: string, b: string) {
    if a == "" then true
    else if b == "" then false
    else a[0] < b[0] || (a[0] == b[0] && Leq(a[1..], b[1..]))
  }

  lemma {:induction false} LeqTotal(a: string, b: string)
    ensures Leq(a, b) || Leq(b, a)
  {
    if a != "" && b != "" {
      LeqTotal(a[1..], b[1..]);
    }
  }

  lemma {:induction false} LeqAntisymmetric(a: string, b: string)
    requires Leq(a, b) && Leq(b, a)
    ensures a == b
  {
    if a != "" && b != "" {
      LeqAntisymmetric(a[1..], b[1..]);
      assert a == [a[0]] + a[1..] && b == [b[0]] + b[1..];
    }
  }

  lemma {:induction false} LeqTransitive(a: string, b: string, c: string)
    requires Leq(a, b) && Leq(b, c)
    ensures Leq(a, c)
  {
    if a != "" && b != "" && c != "" && a[0] == b[0] && b[0] == c[0] {
      LeqTransitive(a[1..], b[1..], c[1..]);
    }
  }

  // ---- search ----

  /** The first index whose element satisfies p, or the length, as `find` and `findIndex` search. */
  function IndexOf<T>(s: seq<T>, p: T -> bool): (i: nat)
    ensures i <= |s|
    ensures i < |s| ==> p(s[i])
    ensures forall k :: 0 <= k < i ==> !p(s[k])
  {
    if s == [] then 0 else if p(s[0]) then 0 else 1 + IndexOf(s[1..], p)
  }

  // ---- the first of a set ----

  ghost predicate First<T>(s: set<T>, leq: (T, T) -> bool, x: T) {
    x in s && forall y :: y in s ==> leq(x, y)
  }

  /** What `order by ... limit 1` returns exists. */
  lemma {:induction false} SomeFirst<T(!new)>(s: set<T>, leq: (T, T) -> bool)
    requires s != {} && TotalPreorder(leq)
    ensures exists x :: First(s, leq, x)
    decreases |s|
  {
    var c :| c in s;
    var rest := s - {c};
    if rest == {} {
      assert s == {c};
      assert First(s, leq, c);
    } else {
      SomeFirst(rest, leq);
      var r :| First(rest, leq, r);
      assert forall x :: x in s ==> x == c || x in rest;
      assert First(s, leq, if leq(r, c) then r else c);
    }
  }

  // ---- stable sort ----

  ghost predicate TotalPreorder<T(!new)>(leq: (T, T) -> bool) {
    && (forall a, b :: leq(a, b) || leq(b, a))
    && (forall a, b, c :: leq(a, b) && leq(b, c) ==> leq(a, c))
  }

  /** Puts x behind everything that is not after it. */
  function Insert<T>(s: seq<T>, x: T, leq: (T, T) -> bool): seq<T> {
    if s == [] then [x]
    else if leq(s[|s| - 1], x) then s + [x]
    else Insert(s[..|s| - 1], x, leq) + [s[|s| - 1]]
  }

  function SortBy<T>(s: seq<T>, leq: (T, T) -> bool): seq<T> {
    if s == [] then [] else Insert(SortBy(s[..|s| - 1], leq), s[|s| - 1], leq)
  }

  ghost predicate Sorted<T>(s: seq<T>, leq: (T, T) -> bool) {
    forall i, j :: 0 <= i <= j < |s| ==> leq(s[i], s[j])
  }

  lemma LastCounts<T>(s: seq<T>)
    requires s != []
    ensures multiset(s) == multiset(s[..|s| - 1]) + multiset{s[|s| - 1]}
  {
    assert s == s[..|s| - 1] + [s[|s| - 1]];
  }

  lemma {:induction false} InsertMultiset<T>(s: seq<T>, x: T, leq: (T, T) -> bool)
    ensures multiset(Insert(s, x, leq)) == multiset(s) + multiset{x}
  {
    if s != [] && !leq(s[|s| - 1], x) {
      InsertMultiset(s[..|s| - 1], x, leq);
      LastCounts(s);
    }
  }

  lemma {:induction false} InsertLength<T>(s: seq<T>, x: T, leq: (T, T) -> bool)
    ensures |Insert(s, x, leq)| == |s| + 1
  {
    if s != [] && !leq(s[|s| - 1], x) {
      InsertLength(s[..|s| - 1], x, leq);
    }
  }

  lemma {:induction false} SortLength<T>(s: seq<T>, leq: (T, T) -> bool)
    ensures |SortBy(s, leq)| == |s|
  {
    if s != [] {
      SortLength(s[..|s| - 1], leq);
      InsertLength(SortBy(s[..|s| - 1], leq), s[|s| - 1], leq);
    }
  }

  lemma {:induction false} SortMultiset<T>(s: seq<T>, leq: (T, T) -> bool)
    ensures multiset(SortBy(s, leq)) == multiset(s) && |SortBy(s, leq)| == |s|
  {
    SortLength(s, leq);
    if s != [] {
      var front, last := s[..|s| - 1], s[|s| - 1];
      SortMultiset(front, leq);
      InsertMultiset(SortBy(front, leq), last, leq);
      LastCounts(s);
    }
  }

  lemma SameElements<T>(a: seq<T>, b: seq<T>)
    requires multiset(a) == multiset(b)
    ensures forall x :: x in a <==> x in b
  {
    assert forall x :: x in a <==> x in multiset(a);
    assert forall x :: x in b <==> x in multiset(b);
  }

  lemma SortContains<T>(s: seq<T>, leq: (T, T) -> bool, x: T)
    ensures x in SortBy(s, leq) <==> x in s
  {
    SortMultiset(s, leq);
    assert x in SortBy(s, leq) <==> x in multiset(SortBy(s, leq));
    assert x in s <==> x in multiset(s);
  }

  lemma AppendSorted<T>(s: seq<T>, last: T, leq: (T, T) -> bool)
    requires Sorted(s, leq) && leq(last, last) && forall x :: x in s ==> leq(x, last)
    ensures Sorted(s + [last], leq)
  {}

  lemma InsertMembers<T>(s: seq<T>, x: T, leq: (T, T) -> bool, y: T)
    ensures y in Insert(s, x, leq) <==> y in s || y == x
  {
    InsertMultiset(s, x, leq);
    assert y in Insert(s, x, leq) <==> y in multiset(Insert(s, x, leq));
    assert y in s <==> y in multiset(s);
  }

  lemma {:induction false} InsertSorted<T(!new)>(s: seq<T>, x: T, leq: (T, T) -> bool)
    requires TotalPreorder(leq) && Sorted(s, leq)
    ensures Sorted(Insert(s, x, leq), leq)
  {
    if s == [] {
    } else if leq(s[|s| - 1], x) {
      forall y | y in s ensures leq(y, x) {
        var i :| 0 <= i < |s| && s[i] == y;
        assert leq(s[i], s[|s| - 1]);
      }
      AppendSorted(s, x, leq);
    } else {
      var front, last := s[..|s| - 1], s[|s| - 1];
      InsertSorted(front, x, leq);
      forall y | y in Insert(front, x, leq) ensures leq(y, last) {
        InsertMembers(front, x, leq, y);
        if y in front {
          var i :| 0 <= i < |front| && front[i] == y;
          assert leq(s[i], s[|s| - 1]);
        }
      }
      AppendSorted(Insert(front, x, leq), last, leq);
    }
  }

  lemma {:induction false} SortSorted<T(!new)>(s: seq<T>, leq: (T, T) -> bool)
    requires TotalPreorder(leq)
    ensures Sorted(SortBy(s, leq), leq)
  {
    if s != [] {
      SortSorted(s[..|s| - 1], leq);
      InsertSorted(SortBy(s[..|s| - 1], leq), s[|s| - 1], leq);
    }
  }

  /** No two elements tie. */
  ghost predicate Strict<T>(s: seq<T>, leq: (T, T) -> bool) {
    forall i, j :: 0 <= i < j < |s| ==> leq(s[i], s[j]) && !leq(s[j], s[i])
  }

  /** A strictly sorted sequence is determined by the set of its elements. */
  lemma {:induction false} StrictIsUnique<T(!new)>(a: seq<T>, b: seq<T>, leq: (T, T) -> bool)
    requires Strict(a, leq) && Strict(b, leq)
    requires forall x :: x in a <==> x in b
    ensures a == b
  {
    assert a != [] ==> a[0] in a && a[0] in b;
    assert b != [] ==> b[0] in b && b[0] in a;
    if a != [] && b != [] {
      assert a[0] == b[0];
      var a', b' := a[1..], b[1..];
      forall x ensures x in a' <==> x in b' {
        assert x in a <==> x == a[0] || x in a';
        assert x in b <==> x == b[0] || x in b';
        if x in a' { assert x != a[0]; }
        if x in b' { assert x != b[0]; }
      }
      StrictIsUnique(a', b', leq);
      assert a == [a[0]] + a' && b == [b[0]] + b';
    }
  }

  // ---- the sort is stable: what leads its ties keeps leading them ----

  /** Everything in front of some place of x is strictly smaller than x. */
  ghost predicate Leads<T>(s: seq<T>, x: T, leq: (T, T) -> bool) {
    exists i :: LeadsAt(s, x, leq, i)
  }

  ghost predicate LeadsAt<T>(s: seq<T>, x: T, leq: (T, T) -> bool, i: int) {
    0 <= i < |s| && s[i] == x && forall y :: y in s[..i] ==> !leq(x, y)
  }

  lemma {:induction false} InsertLeads<T>(s: seq<T>, x: T, leq: (T, T) -> bool, y: T, i: nat) returns (k: nat)
    requires LeadsAt(s, y, leq, i)
    ensures LeadsAt(Insert(s, x, leq), y, leq, k)
  {
    var n := |s| - 1;
    if leq(s[n], x) {
      k := i;
      assert (s + [x])[..i] == s[..i];
    } else if i == n {
      InsertLength(s[..n], x, leq);
      k := |s|;
      assert Insert(s, x, leq)[..k] == Insert(s[..n], x, leq);
      forall z | z in Insert(s[..n], x, leq) ensures !leq(y, z) {
        InsertMembers(s[..n], x, leq, z);
      }
    } else {
      assert s[..n][..i] == s[..i];
      k := InsertLeads(s[..n], x, leq, y, i);
      assert Insert(s, x, leq)[..k] == Insert(s[..n], x, leq)[..k];
    }
  }

  /** An item listed first leads its ties in the sorted list. */
  lemma {:induction false} FirstLeads<T>(s: seq<T>, leq: (T, T) -> bool)
    requires s != []
    ensures Leads(SortBy(s, leq), s[0], leq)
  {
    var n := |s| - 1;
    if n == 0 {
      assert s[..0] == [];
      assert LeadsAt(SortBy(s, leq), s[0], leq, 0);
    } else {
      FirstLeads(s[..n], leq);
      var i :| LeadsAt(SortBy(s[..n], leq), s[0], leq, i);
      var k := InsertLeads(SortBy(s[..n], leq), s[n], leq, s[0], i);
    }
  }

  // ---- sorting keeps keys distinct ----

  ghost predicate Distinct<T>(s: seq<T>, key: T -> string) {
    forall i, j :: 0 <= i < j < |s| ==> key(s[i]) != key(s[j])
  }

  lemma {:induction false} InsertDistinct<T>(s: seq<T>, x: T, leq: (T, T) -> bool, key: T -> string)
    requires Distinct(s, key) && forall y :: y in s ==> key(y) != key(x)
    ensures Distinct(Insert(s, x, leq), key)
  {
    if s != [] && !leq(s[|s| - 1], x) {
      var front, last := s[..|s| - 1], s[|s| - 1];
      InsertDistinct(front, x, leq, key);
      forall y | y in Insert(front, x, leq) ensures key(y) != key(last) {
        InsertMembers(front, x, leq, y);
        assert last in s;
      }
    }
  }

  lemma {:induction false} SortDistinct<T>(s: seq<T>, leq: (T, T) -> bool, key: T -> string)
    requires Distinct(s, key)
    ensures Distinct(SortBy(s, leq), key)
  {
    if s != [] {
      var front, last := s[..|s| - 1], s[|s| - 1];
      SortDistinct(front, leq, key);
      forall y | y in SortBy(front, leq) ensures key(y) != key(last) {
        SortContains(front, leq, y);
        var i :| 0 <= i < |front| && front[i] == y;
        assert key(s[i]) != key(s[|s| - 1]);
      }
      InsertDistinct(SortBy(front, leq), last, leq, key);
    }
  }

  // ---- totals over a sequence ----

  function Sum<T>(s: seq<T>, f: T -> nat): nat {
    if s == [] then 0 else Sum(s[..|s| - 1], f) + f(s[|s| - 1])
  }

  ghost function Gather<T>(s: seq<T>, f: T -> multiset<string>): multiset<string> {
    if s == [] then multiset{} else Gather(s[..|s| - 1], f) + f(s[|s| - 1])
  }

  lemma {:induction false} SumConcat<T>(a: seq<T>, b: seq<T>, f: T -> nat)
    ensures Sum(a + b, f) == Sum(a, f) + Sum(b, f)
  {
    if b == [] {
      assert a + b == a;
    } else {
      SumConcat(a, b[..|b| - 1], f);
      assert (a + b)[..|a + b| - 1] == a + b[..|b| - 1];
    }
  }

  lemma {:induction false} GatherConcat<T>(a: seq<T>, b: seq<T>, f: T -> multiset<string>)
    ensures Gather(a + b, f) == Gather(a, f) + Gather(b, f)
  {
    if b == [] {
      assert a + b == a;
    } else {
      GatherConcat(a, b[..|b| - 1], f);
      assert (a + b)[..|a + b| - 1] == a + b[..|b| - 1];
    }
  }

  lemma {:induction false} GatherInsert<T>(s: seq<T>, x: T, leq: (T, T) -> bool, f: T -> multiset<string>)
    ensures Gather(Insert(s, x, leq), f) == Gather(s, f) + f(x)
  {
    if s != [] && !leq(s[|s| - 1], x) {
      GatherInsert(s[..|s| - 1], x, leq, f);
      assert Insert(s, x, leq)[..|Insert(s, x, leq)| - 1] == Insert(s[..|s| - 1], x, leq);
    } else if s != [] {
      assert (s + [x])[..|s|] == s;
    }
  }

  lemma {:induction false} GatherSort<T>(s: seq<T>, leq: (T, T) -> bool, f: T -> multiset<string>)
    ensures Gather(SortBy(s, leq), f) == Gather(s, f)
  {
    if s != [] {
      GatherSort(s[..|s| - 1], leq, f);
      GatherInsert(SortBy(s[..|s| - 1], leq), s[|s| - 1], leq, f);
    }
  }

  lemma {:induction false} SumInsert<T>(s: seq<T>, x: T, leq: (T, T) -> bool, f: T -> nat)
    ensures Sum(Insert(s, x, leq), f) == Sum(s, f) + f(x)
  {
    if s != [] && !leq(s[|s| - 1], x) {
      SumInsert(s[..|s| - 1], x, leq, f);
      assert Insert(s, x, leq)[..|Insert(s, x, leq)| - 1] == Insert(s[..|s| - 1], x, leq);
    } else if s != [] {
      assert (s + [x])[..|s|] == s;
    }
  }

  lemma {:induction false} SumSort<T>(s: seq<T>, leq: (T, T) -> bool, f: T -> nat)
    ensures Sum(SortBy(s, leq), f) == Sum(s, f)
  {
    if s != [] {
      SumSort(s[..|s| - 1], leq, f);
      SumInsert(SortBy(s[..|s| - 1], leq), s[|s| - 1], leq, f);
    }
  }

  // ---- grouping by key, in order of first appearance, as a JavaScript Map fills ----

  datatype Bucket<T> = Bucket(key: string, items: seq<T>)

  function FindKey<T>(buckets: seq<Bucket<T>>, key: string): (i: nat)
    ensures i <= |buckets|
    ensures i < |buckets| ==> buckets[i].key == key
    ensures forall k :: 0 <= k < i ==> buckets[k].key != key
  {
    if buckets == [] then 0
    else
      var i := FindKey(buckets[..|buckets| - 1], key);
      assert forall k :: 0 <= k < |buckets| - 1 ==> buckets[..|buckets| - 1][k] == buckets[k];
      if i < |buckets| - 1 then i else if buckets[i].key == key then i else i + 1
  }

  function Put<T>(buckets: seq<Bucket<T>>, key: string, item: T): seq<Bucket<T>> {
    var i := FindKey(buckets, key);
    if i < |buckets| then buckets[i := Bucket(key, buckets[i].items + [item])]
    else buckets + [Bucket(key, [item])]
  }

  function GroupBy<T>(s: seq<T>, key: T -> string): seq<Bucket<T>> {
    if s == [] then [] else Put(GroupBy(s[..|s| - 1], key), key(s[|s| - 1]), s[|s| - 1])
  }

  /** Keys are distinct and every bucket is non-empty and holds items of its key only. */
  ghost predicate Grouped<T>(buckets: seq<Bucket<T>>, key: T -> string) {
    && (forall i, j :: 0 <= i < j < |buckets| ==> buckets[i].key != buckets[j].key)
    && (forall i :: 0 <= i < |buckets| ==> buckets[i].items != [] && forall x :: x in buckets[i].items ==>
       key(x) == buckets[i].key)
  }

  lemma PutGrouped<T>(buckets: seq<Bucket<T>>, key: T -> string, item: T)
    requires Grouped(buckets, key)
    ensures Grouped(Put(buckets, key(item), item), key)
  {}

  lemma {:induction false} GroupByGrouped<T>(s: seq<T>, key: T -> string)
    ensures Grouped(GroupBy(s, key), key)
  {
    if s != [] {
      GroupByGrouped(s[..|s| - 1], key);
      PutGrouped(GroupBy(s[..|s| - 1], key), key, s[|s| - 1]);
    }
  }

  /** What a bucket holds, gathered by `f`. */
  ghost function Held<T>(f: T -> multiset<string>): Bucket<T> -> multiset<string> {
    (b: Bucket<T>) => Gather(b.items, f)
  }

  lemma {:induction false} GatherUpdate<T>(s: seq<T>, i: nat, x: T, f: T -> multiset<string>, more: multiset<string>)
    requires i < |s| && f(x) == f(s[i]) + more
    ensures Gather(s[i := x], f) == Gather(s, f) + more
  {
    var n := |s| - 1;
    if i < n {
      assert s[i := x][..n] == s[..n][i := x];
      GatherUpdate(s[..n], i, x, f, more);
    } else {
      assert s[i := x][..n] == s[..n];
    }
  }

  lemma GatherOne<T>(items: seq<T>, item: T, f: T -> multiset<string>)
    ensures Gather(items + [item], f) == Gather(items, f) + f(item)
  {
    assert (items + [item])[..|items|] == items;
  }

  lemma GatherPut<T>(buckets: seq<Bucket<T>>, key: string, item: T, f: T -> multiset<string>)
    ensures Gather(Put(buckets, key, item), Held(f)) == Gather(buckets, Held(f)) + f(item)
  {
    var i := FindKey(buckets, key);
    if i < |buckets| {
      GatherOne(buckets[i].items, item, f);
      GatherUpdate(buckets, i, Bucket(key, buckets[i].items + [item]), Held(f), f(item));
    } else {
      GatherOne([], item, f);
      assert [] + [item] == [item];
      GatherOne(buckets, Bucket(key, [item]), Held(f));
    }
  }

  /** Grouping neither loses nor repeats an item. */
  lemma {:induction false} GroupByGather<T>(s: seq<T>, key: T -> string, f: T -> multiset<string>)
    ensures Gather(GroupBy(s, key), Held(f)) == Gather(s, f)
  {
    if s != [] {
      GroupByGather(s[..|s| - 1], key, f);
      GatherPut(GroupBy(s[..|s| - 1], key), key(s[|s| - 1]), s[|s| - 1], f);
    }
  }

  // ---- what a bucket holds ----

  /** The items of one key, in order. */
  function OfKey<T>(s: seq<T>, key: T -> string, k: string): seq<T> {
    if s == [] then []
    else
      var front, last := s[..|s| - 1], s[|s| - 1];
      if key(last) == k then OfKey(front, key, k) + [last] else OfKey(front, key, k)
  }

  lemma {:induction false} OfKeyMembers<T>(s: seq<T>, key: T -> string, k: string, x: T)
    ensures x in OfKey(s, key, k) <==> x in s && key(x) == k
  {
    if s != [] {
      var front, last := s[..|s| - 1], s[|s| - 1];
      OfKeyMembers(front, key, k, x);
      assert x in s <==> x in front || x == last;
    }
  }

  /** Every item has a bucket. */
  lemma {:induction false} GroupByCovers<T>(s: seq<T>, key: T -> string, x: T)
    requires x in s
    ensures FindKey(GroupBy(s, key), key(x)) < |GroupBy(s, key)|
  {
    var front, last := s[..|s| - 1], s[|s| - 1];
    var buckets := GroupBy(front, key);
    var put := Put(buckets, key(last), last);
    var i := FindKey(buckets, key(last));
    assert put[i].key == key(last);
    if x in front {
      GroupByCovers(front, key, x);
      assert put[FindKey(buckets, key(x))].key == key(x);
    }
  }

  /** A bucket holds all the items of its key, in their order. */
  lemma {:induction false} GroupByItems<T>(s: seq<T>, key: T -> string, i: nat)
    requires i < |GroupBy(s, key)|
    ensures GroupBy(s, key)[i].items == OfKey(s, key, GroupBy(s, key)[i].key)
  {
    var front, last := s[..|s| - 1], s[|s| - 1];
    var buckets := GroupBy(front, key);
    GroupByGrouped(front, key);
    if i < |buckets| {
      GroupByItems(front, key, i);
    } else {
      NoItems(front, key, key(last));
    }
  }

  lemma {:induction false} NoItems<T>(s: seq<T>, key: T -> string, k: string)
    requires FindKey(GroupBy(s, key), k) == |GroupBy(s, key)|
    ensures OfKey(s, key, k) == []
  {
    if OfKey(s, key, k) != [] {
      var x := OfKey(s, key, k)[0];
      OfKeyMembers(s, key, k, x);
      GroupByCovers(s, key, x);
    }
  }

  /** The bucket of an item's key is there and holds all the items of that key. */
  lemma OwnBucket<T>(s: seq<T>, key: T -> string, x: T)
    requires x in s
    ensures Bucket(key(x), OfKey(s, key, key(x))) in GroupBy(s, key)
  {
    GroupByCovers(s, key, x);
    GroupByItems(s, key, FindKey(GroupBy(s, key), key(x)));
  }

  lemma {:induction false} GatherCounts<T>(s: seq<T>, f: T -> multiset<string>, id: string, i: nat)
    requires i < |s|
    ensures Gather(s, f)[id] >= f(s[i])[id]
  {
    if i < |s| - 1 {
      GatherCounts(s[..|s| - 1], f, id, i);
    }
  }

  /** Two different items that both yield an id yield it at least twice. */
  lemma {:induction false} GatherCountsTwo<T>(s: seq<T>, f: T -> multiset<string>, id: string, i: nat, j: nat)
    requires i < j < |s|
    ensures Gather(s, f)[id] >= f(s[i])[id] + f(s[j])[id]
  {
    var front := s[..|s| - 1];
    if j < |s| - 1 {
      GatherCountsTwo(front, f, id, i, j);
    } else {
      GatherCounts(front, f, id, i);
    }
  }
}
