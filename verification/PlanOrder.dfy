/** The plan is a function of the set of candidates, not of the order or repetition in which they arrive. */
module PlanOrder {
  import opened Wrappers
  import opened Ordering
  import opened Payout
  import opened Planner
  import A = PlanAccounting
  import Fates = PlanReasons
  import Safety = PlanSafety

  /** Candidates that the source's comparator cannot tell apart. */
  predicate Tie(a: Candidate, b: Candidate) {
    a.market.marketId == b.market.marketId && a.outcomeIndex == b.outcomeIndex && a.candidateId == b.candidateId
  }

  lemma CandidateLeqTransitive(a: Candidate, b: Candidate, c: Candidate)
    requires CandidateLeq(a, b) && CandidateLeq(b, c)
    ensures CandidateLeq(a, c)
  {
    var x, y, z := a.market.marketId, b.market.marketId, c.market.marketId;
    if x != y && y != z {
      LeqTransitive(x, y, z);
      if x == z {
        LeqAntisymmetric(x, y);
      }
    } else if x == y == z && a.outcomeIndex == b.outcomeIndex == c.outcomeIndex {
      LeqTransitive(a.candidateId, b.candidateId, c.candidateId);
    }
  }

  lemma CandidateOrder()
    ensures TotalPreorder(CandidateLeq)
  {
    forall a, b ensures CandidateLeq(a, b) || CandidateLeq(b, a) {
      LeqTotal(a.market.marketId, b.market.marketId);
      LeqTotal(a.candidateId, b.candidateId);
    }
    forall a, b, c | CandidateLeq(a, b) && CandidateLeq(b, c) ensures CandidateLeq(a, c) {
      CandidateLeqTransitive(a, b, c);
    }
  }

  lemma BothWaysTie(a: Candidate, b: Candidate)
    requires CandidateLeq(a, b) && CandidateLeq(b, a)
    ensures Tie(a, b)
  {
    if a.market.marketId != b.market.marketId {
      LeqAntisymmetric(a.market.marketId, b.market.marketId);
    }
    if a.outcomeIndex == b.outcomeIndex {
      LeqAntisymmetric(a.candidateId, b.candidateId);
    }
  }

  /** No candidate of the same id comes before it. */
  ghost predicate Least(candidates: seq<Candidate>, c: Candidate) {
    c in candidates && forall d :: d in candidates && d.candidateId == c.candidateId ==> CandidateLeq(c, d)
  }

  /** No two different candidates share the first place among those of their id. */
  ghost predicate LeastAgree(candidates: seq<Candidate>) {
    forall a, b :: Least(candidates, a) && Least(candidates, b) && a.candidateId == b.candidateId ==> a == b
  }

  lemma CandidateLeqReflexive(c: Candidate)
    ensures CandidateLeq(c, c)
  {
    LeqTotal(c.candidateId, c.candidateId);
  }

  // ---- who survives ----

  /** In a sorted list only a least candidate of its id survives. */
  lemma {:induction false} SurvivorIsFirst(s: seq<Candidate>, c: Candidate)
    requires Sorted(s, CandidateLeq) && c in Unique(s)
    ensures Least(s, c)
  {
    var front, last := s[..|s| - 1], s[|s| - 1];
    assert s == front + [last];
    CandidateLeqReflexive(last);
    A.UniqueKeepsIds(front, last.candidateId);
    if c in Unique(front) {
      SurvivorIsFirst(front, c);
      var k :| 0 <= k < |front| && front[k] == c;
      assert CandidateLeq(s[k], s[|s| - 1]);
    } else {
      forall d | d in front ensures d.candidateId != c.candidateId {
        var k :| 0 <= k < |front| && front[k] == d;
      }
    }
  }

  lemma {:induction false} OnePerId(s: seq<Candidate>, a: Candidate, b: Candidate)
    requires a in Unique(s) && b in Unique(s) && a.candidateId == b.candidateId
    ensures a == b
  {
    var front := s[..|s| - 1];
    var earlier := Unique(front);
    forall c | c in earlier ensures HasId(earlier, c.candidateId) {
      var k :| 0 <= k < |earlier| && earlier[k] == c;
    }
    if a in earlier && b in earlier {
      OnePerId(front, a, b);
    }
  }

  lemma SurvivorOfId(s: seq<Candidate>, c: Candidate) returns (d: Candidate)
    requires c in s
    ensures d in Unique(s) && d.candidateId == c.candidateId
  {
    var i :| 0 <= i < |s| && s[i] == c;
    A.UniqueKeepsIds(s, c.candidateId);
    var k :| 0 <= k < |Unique(s)| && Unique(s)[k].candidateId == c.candidateId;
    d := Unique(s)[k];
  }

  /** If the first places are not shared, the survivors of a sorted list are exactly its least candidates. */
  lemma SurvivorIsLeast(s: seq<Candidate>, c: Candidate)
    requires Sorted(s, CandidateLeq)
    ensures c in Unique(s) ==> Least(s, c)
    ensures LeastAgree(s) ==> (c in Unique(s) <==> Least(s, c))
  {
    if c in Unique(s) {
      SurvivorIsFirst(s, c);
    }
    if LeastAgree(s) && Least(s, c) {
      var d := SurvivorOfId(s, c);
      SurvivorIsFirst(s, d);
    }
  }

  /** Survivors have distinct ids and keep the sorted order, so no two of them tie. */
  lemma {:induction false} SurvivorsStrict(s: seq<Candidate>)
    requires Sorted(s, CandidateLeq)
    ensures Strict(Unique(s), CandidateLeq)
    ensures forall c :: c in Unique(s) ==> c in s
  {
    if s != [] {
      var front, last := s[..|s| - 1], s[|s| - 1];
      var earlier := Unique(front);
      SurvivorsStrict(front);
      assert forall c :: c in front ==> c in s;
      if !HasId(earlier, last.candidateId) {
        forall i | 0 <= i < |earlier| ensures CandidateLeq(earlier[i], last) && !CandidateLeq(last, earlier[i]) {
          assert earlier[i] in front;
          var k :| 0 <= k < |front| && front[k] == earlier[i];
          assert CandidateLeq(s[k], s[|s| - 1]);
          if CandidateLeq(last, earlier[i]) {
            BothWaysTie(last, earlier[i]);
          }
        }
      }
    }
  }

  lemma SameLeast(a: seq<Candidate>, b: seq<Candidate>)
    requires forall c :: c in a <==> c in b
    ensures forall c :: Least(a, c) <==> Least(b, c)
    ensures LeastAgree(a) <==> LeastAgree(b)
  {}

  lemma SortedSurvivor(s: seq<Candidate>, c: Candidate)
    ensures c in Unique(SortBy(s, CandidateLeq)) ==> Least(s, c)
    ensures LeastAgree(s) ==> (c in Unique(SortBy(s, CandidateLeq)) <==> Least(s, c))
  {
    var sorted := SortBy(s, CandidateLeq);
    CandidateOrder();
    SortSorted(s, CandidateLeq);
    forall d ensures d in sorted <==> d in s {
      SortContains(s, CandidateLeq, d);
    }
    SameLeast(sorted, s);
    SurvivorIsLeast(sorted, c);
  }

  lemma SurvivorsAscend(s: seq<Candidate>)
    ensures Strict(Unique(SortBy(s, CandidateLeq)), CandidateLeq)
  {
    CandidateOrder();
    SortSorted(s, CandidateLeq);
    SurvivorsStrict(SortBy(s, CandidateLeq));
  }

  lemma SameSurvivors(a: seq<Candidate>, b: seq<Candidate>)
    requires LeastAgree(a) && forall c :: c in a <==> c in b
    ensures Unique(SortBy(a, CandidateLeq)) == Unique(SortBy(b, CandidateLeq))
  {
    SameLeast(a, b);
    forall c ensures c in Unique(SortBy(a, CandidateLeq)) <==> c in Unique(SortBy(b, CandidateLeq)) {
      SortedSurvivor(a, c);
      SortedSurvivor(b, c);
    }
    SurvivorsAscend(a);
    SurvivorsAscend(b);
    StrictIsUnique(Unique(SortBy(a, CandidateLeq)), Unique(SortBy(b, CandidateLeq)), CandidateLeq);
  }

  // ---- exactly when the order does not matter ----

  lemma {:induction false} FirstOfIdSurvives(s: seq<Candidate>, i: nat)
    requires i < |s| && forall k :: 0 <= k < i ==> s[k].candidateId != s[i].candidateId
    ensures s[i] in Unique(s)
  {
    var front := s[..|s| - 1];
    if i < |s| - 1 {
      FirstOfIdSurvives(front, i);
    } else {
      A.UniqueKeepsIds(front, s[i].candidateId);
    }
  }

  /** A least candidate that is listed first survives. */
  lemma ListedFirstSurvives(s: seq<Candidate>)
    requires s != [] && Least(s, s[0])
    ensures s[0] in Unique(SortBy(s, CandidateLeq))
  {
    var sorted := SortBy(s, CandidateLeq);
    FirstLeads(s, CandidateLeq);
    var i :| LeadsAt(sorted, s[0], CandidateLeq, i);
    forall k | 0 <= k < i ensures sorted[k].candidateId != s[0].candidateId {
      assert sorted[k] in sorted[..i] && sorted[k] in sorted;
      SortContains(s, CandidateLeq, sorted[k]);
    }
    FirstOfIdSurvives(sorted, i);
  }

  /** The list with one of its candidates moved to the front. */
  lemma MovedToFront(s: seq<Candidate>, a: Candidate) returns (t: seq<Candidate>)
    requires a in s
    ensures t != [] && t[0] == a && multiset(t) == multiset(s) && forall c :: c in t <==> c in s
  {
    var p :| 0 <= p < |s| && s[p] == a;
    t := [a] + s[..p] + s[p + 1..];
    assert s == s[..p] + [a] + s[p + 1..];
    SameElements(t, s);
  }

  /** Every order of the candidates has the same survivors. */
  ghost predicate OrderIsIrrelevant(s: seq<Candidate>) {
    forall t: seq<Candidate> ::
      multiset(t) == multiset(s) ==> Unique(SortBy(t, CandidateLeq)) == Unique(SortBy(s, CandidateLeq))
  }

  lemma MovedSurvives(s: seq<Candidate>, a: Candidate)
    requires OrderIsIrrelevant(s) && Least(s, a)
    ensures a in Unique(SortBy(s, CandidateLeq))
  {
    var t := MovedToFront(s, a);
    SameLeast(s, t);
    ListedFirstSurvives(t);
  }

  /**
   * The exact condition: the survivors of deduplication are the same for every order of the candidates if and only if
   * no two different candidates share the first place among those of their id. A tie behind a smaller candidate of the
   * same id changes nothing. The plan is then the same as well; it can also be when two tied candidates meet the same
   * fate.
   */
  lemma OrderIsIrrelevantExactly(s: seq<Candidate>)
    ensures OrderIsIrrelevant(s) <==> LeastAgree(s)
  {
    if LeastAgree(s) {
      forall t: seq<Candidate> | multiset(t) == multiset(s)
        ensures Unique(SortBy(t, CandidateLeq)) == Unique(SortBy(s, CandidateLeq))
      {
        SameElements(s, t);
        SameSurvivors(s, t);
      }
    }
    if OrderIsIrrelevant(s) {
      forall a, b | Least(s, a) && Least(s, b) && a.candidateId == b.candidateId ensures a == b {
        MovedSurvives(s, a);
        MovedSurvives(s, b);
        OnePerId(SortBy(s, CandidateLeq), a, b);
      }
    }
  }

  // ---- the plan ----

  /**
   * Order independence: two inputs that differ only in the order or repetition of their candidates give the
   * same plan or the same error, provided no two different candidates share the first place of their id.
   */
  lemma PlanIgnoresOrder(input: Input, candidates: seq<Candidate>)
    requires LeastAgree(input.candidates)
    requires forall c :: c in input.candidates <==> c in candidates
    ensures PlanOf(input.(candidates := candidates)) == PlanOf(input)
  {
    SameSurvivors(input.candidates, candidates);
    SamePlan(input, candidates);
  }

  lemma {:induction false} GateIgnoresList(unique: seq<Candidate>, input: Input, candidates: seq<Candidate>)
    ensures Gated(unique, input.(candidates := candidates)) == Gated(unique, input)
    ensures Passed(unique, input.(candidates := candidates)) == Passed(unique, input)
  {
    if unique != [] {
      GateIgnoresList(unique[..|unique| - 1], input, candidates);
    }
  }

  lemma SameGroups(unique: seq<Candidate>, input: Input, other: Input)
    requires Passed(unique, other) == Passed(unique, input)
    ensures SortedGroups(unique, other) == SortedGroups(unique, input)
  {}

  lemma SamePlan(input: Input, candidates: seq<Candidate>)
    requires Deduplicated(input) == Deduplicated(input.(candidates := candidates))
    ensures PlanOf(input.(candidates := candidates)) == PlanOf(input)
  {
    if InputError(input).None? {
      var other, unique := input.(candidates := candidates), Deduplicated(input);
      GateIgnoresList(unique, input, candidates);
      SameGroups(unique, input, other);
      SameFinish(input, candidates, Gated(unique, input), Build(SortedGroups(unique, input)));
    }
  }

  lemma SameFinish(input: Input, candidates: seq<Candidate>, gated: seq<Exclusion>,
                   built: Result<(seq<Entry>, seq<Exclusion>), Error>)
    requires InputError(input).None?
    ensures InputError(input.(candidates := candidates)).None?
    ensures Finish(input.(candidates := candidates), gated, built) == Finish(input, gated, built)
  {}

  // ---- and when it does ----

  /** Of two candidates that tie the one listed first survives. */
  lemma TiesDecide(a: Candidate, b: Candidate)
    requires Tie(a, b)
    ensures Unique(SortBy([a, b], CandidateLeq)) == [a]
    ensures Unique(SortBy([b, a], CandidateLeq)) == [b]
  {
    FirstOfTie(a, b);
    FirstOfTie(b, a);
  }

  lemma FirstOfTie(a: Candidate, b: Candidate)
    requires Tie(a, b)
    ensures Unique(SortBy([a, b], CandidateLeq)) == [a]
  {
    CandidateLeqReflexive(a);
    assert [a, b][..1] == [a] && [a][..0] == [];
    assert SortBy([a], CandidateLeq) == Insert([], a, CandidateLeq) == [a];
    assert SortBy([a, b], CandidateLeq) == Insert([a], b, CandidateLeq) == [a, b];
    assert Unique([a]) == [a];
    assert HasId([a], b.candidateId);
  }

  lemma PassedOne(a: Candidate, input: Input)
    requires Gate(a, input).None?
    ensures Passed([a], input) == [a]
  {
    assert [a][..0] == [];
  }

  lemma OfKeyOne(a: Candidate, k: string)
    ensures OfKey([a], IdentityOf, k) == if IdentityOf(a) == k then [a] else []
  {
    assert [a][..0] == [];
  }

  lemma AmountOfOne(a: Candidate)
    ensures Amount([a]) == a.amount
  {
    Fates.SumOfTwo(a, a, (c: Candidate) => c.amount);
  }

  lemma AloneInPosition(a: Candidate, input: Input)
    requires Deduplicated(input) == [a] && Gate(a, input).None?
    ensures Fates.Survivors(input, IdentityOf(a)) == [a]
    ensures Fates.Survivors(input, Fates.OtherPosition(a)) == []
  {
    PassedOne(a, input);
    OfKeyOne(a, IdentityOf(a));
    OfKeyOne(a, Fates.OtherPosition(a));
    Fates.PositionsDiffer(a, input);
  }

  /** Whatever a plan of two tied candidates redeems, it redeems the amount of the one listed first. */
  lemma FirstOfTieIsRedeemed(input: Input, a: Candidate, b: Candidate, draft: Draft, e: Entry)
    requires Tie(a, b) && input.candidates == [a, b] && PlanOf(input) == Ok(draft) && e in draft.entries
    ensures e.amount == a.amount
  {
    TiesDecide(a, b);
    var (built, rejected) := Build(SortedGroups(Deduplicated(input), input)).value;
    SortContains(Backed(Markets(built)), EntryLeq, e);
    var k := Safety.BackedFrom(Markets(built), e);
    BucketItems(built, MarketOf);
    var c := Fates.BuiltPosition(input, built, rejected, e);
    AloneInPosition(a, input);
    AmountOfOne(a);
    MadeAmount(Fates.OwnGroup(a, input), e);
  }

  lemma MadeAmount(g: Bucket<Candidate>, e: Entry)
    requires g.items != [] && ValidVector(g.items[0].payoutVector) && CreateEntry(g) == Accept(e)
    ensures e.amount == Amount(g.items)
  {}

  // ---- a plan that depends on the order ----

  function ExampleCandidate(amount: nat): Candidate {
    Candidate("c", Market(1, "m", "k"), "w", "v", 0, 0, 7, "t", amount, 2, "p", 0, "u", Resolved, true, false, true, 2,
              PayoutVector([1, 0], 1), 0, false, Fresh, [], "e")
  }

  function ExampleInput(first: nat, second: nat): Input {
    Input(1, "m", "t", "v", 0, "w", "w", true, [ExampleCandidate(first), ExampleCandidate(second)], Complete, 0, 0, 1,
          BatchPolicy(1, "n", "r"))
  }

  lemma ExamplePassesGate(first: nat, second: nat)
    requires 0 < first <= 2
    ensures Gate(ExampleCandidate(first), ExampleInput(first, second)).None?
  {
    var v := PayoutVector([1, 0], 1);
    assert v.numerators[..1] == [1] && [1][..0] == [];
    assert Total([1]) == 1 && Total(v.numerators) == 1;
    assert InRange(v);
  }

  lemma ExamplePays(first: nat)
    requires 0 < first <= 2 && ValidVector(ExampleCandidate(first).payoutVector)
    ensures Fates.PositionFault([ExampleCandidate(first)]).None? && Fates.PayoutOf([ExampleCandidate(first)]) == first
    ensures Fates.Burned([ExampleCandidate(first)]) == first
  {
    var a := ExampleCandidate(first);
    assert [a][..0] == [] && [first][..0] == [];
    assert Safety.Amounts([a]) == [first];
    assert SumAmounts([first]) == first;
    assert SameEvidence([a]);
  }

  lemma ExampleAlone(first: nat, second: nat)
    requires 0 < first <= 2
    ensures Deduplicated(ExampleInput(first, second)) == [ExampleCandidate(first)]
    ensures Fates.Fate(ExampleCandidate(first), ExampleInput(first, second)).None?
    ensures !Fates.SomeOvercharged(ExampleInput(first, second))
  {
    var a, input := ExampleCandidate(first), ExampleInput(first, second);
    ExamplePassesGate(first, second);
    TiesDecide(a, ExampleCandidate(second));
    AloneInPosition(a, input);
    ExamplePays(first);
    forall c | c in Deduplicated(input) ensures !Fates.Overcharged(c, input) {
      assert c == a;
    }
  }

  lemma ExampleIsPlanned(first: nat, second: nat)
    requires 0 < first <= 2
    ensures PlanOf(ExampleInput(first, second)).Ok? && PlanOf(ExampleInput(first, second)).value.entries != []
  {
    var a, input := ExampleCandidate(first), ExampleInput(first, second);
    ExampleAlone(first, second);
    Fates.PlanFailsExactly(input);
    Fates.FateIsExact(input, PlanOf(input).value, a);
  }

  /** Swapping two tied candidates of one id can change the plan: here it redeems one unit or two. */
  lemma SwapChangesPlan()
    ensures exists input: Input, a: Candidate, b: Candidate ::
              && Tie(a, b) && input.candidates == [a, b]
              && PlanOf(input).Ok? && PlanOf(input.(candidates := [b, a])).Ok?
              && PlanOf(input) != PlanOf(input.(candidates := [b, a]))
  {
    var a, b, input, swapped := ExampleCandidate(1), ExampleCandidate(2), ExampleInput(1, 2), ExampleInput(2, 1);
    assert swapped == input.(candidates := [b, a]);
    ExampleIsPlanned(1, 2);
    ExampleIsPlanned(2, 1);
    FirstOfTieIsRedeemed(input, a, b, PlanOf(input).value, PlanOf(input).value.entries[0]);
    FirstOfTieIsRedeemed(swapped, b, a, PlanOf(swapped).value, PlanOf(swapped).value.entries[0]);
    assert Tie(a, b) && input.candidates == [a, b];
  }
}
