/** Every candidate a plan is prepared from ends in exactly one entry or exclusion. */
module PlanAccounting {
  import opened Wrappers
  import opened Ordering
  import opened Payout
  import opened Planner

  function IdOfCandidate(c: Candidate): multiset<string> { multiset{c.candidateId} }
  function IdsOfEntry(e: Entry): multiset<string> { multiset(e.candidateIds) }
  function IdsOfExclusion(x: Exclusion): multiset<string> { multiset(x.candidateIds) }

  lemma {:induction false} GateSplits(candidates: seq<Candidate>, input: Input)
    ensures Gather(candidates, IdOfCandidate)
            == Gather(Gated(candidates, input), IdsOfExclusion) + Gather(Passed(candidates, input), IdOfCandidate)
  {
    if candidates != [] {
      var front, c := candidates[..|candidates| - 1], candidates[|candidates| - 1];
      GateSplits(front, input);
      assert Gather(candidates, IdOfCandidate) == Gather(front, IdOfCandidate) + IdOfCandidate(c);
      match Gate(c, input)
      case None =>
        assert Passed(candidates, input) == Passed(front, input) + [c]
               && Gated(candidates, input) == Gated(front, input);
        GatherOne(Passed(front, input), c, IdOfCandidate);
      case Some(reason) =>
        var x := Excluded(c, reason);
        assert Gated(candidates, input) == Gated(front, input) + [x]
               && Passed(candidates, input) == Passed(front, input);
        GatherOne(Gated(front, input), x, IdsOfExclusion);
    }
  }

  lemma {:induction false} CandidateIdsGather(items: seq<Candidate>)
    ensures multiset(CandidateIds(items)) == Gather(items, IdOfCandidate)
  {
    if items != [] {
      CandidateIdsGather(items[..|items| - 1]);
    }
  }

  lemma SortedIdsGather(items: seq<Candidate>)
    ensures multiset(SortedIds(items)) == Gather(items, IdOfCandidate)
  {
    SortMultiset(CandidateIds(items), Leq);
    CandidateIdsGather(items);
  }

  /** Whatever a group becomes lists the ids of all its candidates. */
  lemma CreateEntryLists(g: Bucket<Candidate>)
    requires g.items != [] && ValidVector(g.items[0].payoutVector)
    ensures match CreateEntry(g)
            case Accept(entry) => entry.candidateIds == SortedIds(g.items)
            case Reject(exclusion) => exclusion.candidateIds == SortedIds(g.items)
            case Throw => true
  {}

  lemma CreateEntryIds(g: Bucket<Candidate>)
    requires g.items != [] && ValidVector(g.items[0].payoutVector)
    ensures match CreateEntry(g)
            case Accept(entry) => IdsOfEntry(entry) == Gather(g.items, IdOfCandidate)
            case Reject(exclusion) => IdsOfExclusion(exclusion) == Gather(g.items, IdOfCandidate)
            case Throw => true
  {
    CreateEntryLists(g);
    SortedIdsGather(g.items);
  }

  lemma {:induction false} BuildSplits(groups: seq<Bucket<Candidate>>, entries: seq<Entry>, exclusions: seq<Exclusion>)
    requires Buildable(groups) && Build(groups) == Ok((entries, exclusions))
    ensures Gather(groups, Held(IdOfCandidate)) == Gather(entries, IdsOfEntry) + Gather(exclusions, IdsOfExclusion)
  {
    if groups != [] {
      var front, g := groups[..|groups| - 1], groups[|groups| - 1];
      var (entries0, exclusions0) := Build(front).value;
      BuildSplits(front, entries0, exclusions0);
      CreateEntryIds(g);
      var ids := Gather(g.items, IdOfCandidate);
      assert Gather(groups, Held(IdOfCandidate)) == Gather(front, Held(IdOfCandidate)) + ids;
      match CreateEntry(g)
      case Accept(entry) => GatherOne(entries0, entry, IdsOfEntry);
      case Reject(exclusion) => GatherOne(exclusions0, exclusion, IdsOfExclusion);
    }
  }

  lemma {:induction false} AllExcludedGather(entries: seq<Entry>, reason: Reason)
    ensures Gather(AllExcluded(entries, reason), IdsOfExclusion) == Gather(entries, IdsOfEntry)
  {
    if entries != [] {
      var front, e := entries[..|entries| - 1], entries[|entries| - 1];
      AllExcludedGather(front, reason);
      GatherOne(AllExcluded(front, reason), BackingExcluded(e, reason), IdsOfExclusion);
    }
  }

  lemma MarketSplits(m: seq<Entry>, kept: seq<Entry>, dropped: seq<Exclusion>)
    requires m != []
    ensures Gather(kept + if MarketProblem(m).None? then m else [], IdsOfEntry)
            + Gather(
                dropped + match MarketProblem(m) case None => [] case Some(reason) => AllExcluded(m, reason),
                IdsOfExclusion)
            == Gather(kept, IdsOfEntry) + Gather(dropped, IdsOfExclusion) + Gather(m, IdsOfEntry)
  {
    match MarketProblem(m)
    case None =>
      GatherConcat(kept, m, IdsOfEntry);
      assert dropped + [] == dropped;
    case Some(reason) =>
      AllExcludedGather(m, reason);
      GatherConcat(dropped, AllExcluded(m, reason), IdsOfExclusion);
      assert kept + [] == kept;
  }

  lemma {:induction false} BackingSplits(markets: seq<Bucket<Entry>>)
    requires NonEmpty(markets)
    ensures Gather(markets, Held(IdsOfEntry))
            == Gather(Backed(markets), IdsOfEntry) + Gather(Unbacked(markets), IdsOfExclusion)
  {
    if markets != [] {
      var front, m := markets[..|markets| - 1], markets[|markets| - 1];
      BackingSplits(front);
      MarketSplits(m.items, Backed(front), Unbacked(front));
      assert Gather(markets, Held(IdsOfEntry)) == Gather(front, Held(IdsOfEntry)) + Gather(m.items, IdsOfEntry);
    }
  }

  lemma {:induction false} UniqueKeepsIds(candidates: seq<Candidate>, id: string)
    ensures HasId(Unique(candidates), id) <==> HasId(candidates, id)
  {
    if candidates != [] {
      var front, c := candidates[..|candidates| - 1], candidates[|candidates| - 1];
      UniqueKeepsIds(front, id);
      var earlier := Unique(front);
      assert candidates == front + [c];
      assert HasId(candidates, id) <==> HasId(front, id) || c.candidateId == id by { HasIdAppend(front, c, id); }
      HasIdAppend(earlier, c, id);
    }
  }

  lemma HasIdAppend(s: seq<Candidate>, c: Candidate, id: string)
    ensures HasId(s + [c], id) <==> HasId(s, id) || c.candidateId == id
  {
    if HasId(s, id) {
      var i :| 0 <= i < |s| && s[i].candidateId == id;
      assert (s + [c])[i].candidateId == id;
    }
    assert (s + [c])[|s|] == c;
  }

  /** After deduplication every id of the input occurs once. */
  lemma {:induction false} UniqueCounts(candidates: seq<Candidate>, id: string)
    ensures Gather(Unique(candidates), IdOfCandidate)[id] == if HasId(candidates, id) then 1 else 0
  {
    UniqueKeepsIds(candidates, id);
    if candidates != [] {
      var front, c := candidates[..|candidates| - 1], candidates[|candidates| - 1];
      UniqueCounts(front, id);
      UniqueKeepsIds(front, id);
      var earlier := Unique(front);
      HasIdAppend(earlier, c, id);
      GatherOne(earlier, c, IdOfCandidate);
    }
  }

  lemma SortKeepsIds(candidates: seq<Candidate>, id: string)
    ensures HasId(SortBy(candidates, CandidateLeq), id) <==> HasId(candidates, id)
  {
    var sorted := SortBy(candidates, CandidateLeq);
    if HasId(candidates, id) {
      var i :| 0 <= i < |candidates| && candidates[i].candidateId == id;
      SortContains(candidates, CandidateLeq, candidates[i]);
      var k :| 0 <= k < |sorted| && sorted[k] == candidates[i];
    }
    if HasId(sorted, id) {
      var i :| 0 <= i < |sorted| && sorted[i].candidateId == id;
      SortContains(candidates, CandidateLeq, sorted[i]);
      var k :| 0 <= k < |candidates| && candidates[k] == sorted[i];
    }
  }

  /** The pipeline from deduplicated candidates to entries and exclusions conserves ids. */
  lemma StagesConserve(unique: seq<Candidate>, input: Input)
    requires Build(SortedGroups(unique, input)).Ok?
    ensures var (built, rejected) := Build(SortedGroups(unique, input)).value;
            Gather(unique, IdOfCandidate)
            == Gather(SortedEntries(built), IdsOfEntry)
               + Gather(SortedExclusions(Gated(unique, input), rejected, Unbacked(Markets(built))), IdsOfExclusion)
  {
    var (built, rejected) := Build(SortedGroups(unique, input)).value;
    var gated, unbacked := Gated(unique, input), Unbacked(Markets(built));
    GateSplits(unique, input);
    GroupByGather(Passed(unique, input), IdentityOf, IdOfCandidate);
    GatherSort(Groups(unique, input), GroupLeq, Held(IdOfCandidate));
    BuildSplits(SortedGroups(unique, input), built, rejected);
    GroupByGather(built, MarketOf, IdsOfEntry);
    BackingSplits(Markets(built));
    GatherSort(Backed(Markets(built)), EntryLeq, IdsOfEntry);
    GatherConcat(gated, rejected, IdsOfExclusion);
    GatherConcat(gated + rejected, unbacked, IdsOfExclusion);
    GatherSort(gated + rejected + unbacked, ExclusionLeq, IdsOfExclusion);
  }

  /**
   * Exact accounting: over all entries and exclusions of a prepared plan, the id of every input candidate is
   * listed exactly once and no other id is listed at all.
   */
  lemma ExactAccounting(input: Input, draft: Draft, id: string)
    requires PlanOf(input) == Ok(draft)
    ensures (Gather(draft.entries, IdsOfEntry) + Gather(draft.exclusions, IdsOfExclusion))[id]
            == if HasId(input.candidates, id) then 1 else 0
  {
    StagesConserve(Deduplicated(input), input);
    UniqueCounts(SortBy(input.candidates, CandidateLeq), id);
    SortKeepsIds(input.candidates, id);
  }
}
