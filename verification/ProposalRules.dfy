/** What one sighting, one transition and the ranking of the queue do, in the fields of a proposal. */
module ProposalRules {
  import opened Sequences
  import opened ProposalAccumulator
  import opened ProposalHistory

  // ------------------------------------------------------------------ sightings

  /** The fields a proposal takes over from a rec. */
  predicate TakenOver(f: string) {
    || f == "title" || f == "category" || f == "severity" || f == "tier" || f == "confidence" || f == "competitor"
    || f == "rationale" || f == "expected_impact" || f == "user_story" || f == "blueprint" || f == "success_metrics"
    || f == "implementation_outline" || f == "evidence" || f == "fix_suggestion"
  }

  /** now is was with the rec's fields of these names on top, and its title. */
  ghost predicate Overlaid(was: map<string, string>, rec: Rec, now: map<string, string>) {
    && (forall f :: f in now <==> f in was || f == "title" || (f in rec.fields && TakenOver(f)))
    && forall f :: f in now ==>
         now[f] == if f == "title" then rec.title
                   else if f in rec.fields && TakenOver(f) then rec.fields[f]
                   else if f in was then was[f] else ""
  }

  lemma FieldsAre()
    ensures forall f :: f in PROPOSAL_FIELDS <==> TakenOver(f)
  {}

  lemma CopiedIs(was: map<string, string>, rec: Rec)
    ensures Overlaid(was, rec, was + Copied(rec))
  {
    hide PROPOSAL_FIELDS, TakenOver;
    FieldsAre();
  }

  /** One sighting of a proposal, by its title. A new one is added; a known one is counted, and an open one takes over
      the fields of the rec. Only a backfill marks proposals as implemented: those whose rec was shipped. */
  lemma SightingIs(pid: string -> string, ps: seq<Entry>, it: Item, id: string, backfill: bool)
    ensures var was, after := Lookup(ps, id), Lookup(MergeAll(pid, ps, [it], backfill), id);
            if it.rec.title == "" || pid(it.rec.title) != id then after == was
            else
              && after.Some? && after.value.id == id && after.value.last == it.stamp
              && var e, shipped := after.value, backfill && it.rec.shipped;
                 if was.None? then
                   && e.times == 1 && e.first == it.stamp && Overlaid(map[], it.rec, e.fields)
                   && e.state == (if shipped then "implemented" else "open")
                   && e.changed == (if shipped then Some((it.stamp.at, "backfill-derived")) else None)
                 else
                   && e.times == was.value.times + 1 && e.first == was.value.first
                   && (if was.value.state != "open" then
                         e.state == was.value.state && e.changed == was.value.changed && e.fields == was.value.fields
                       else if shipped then
                         && e.state == "implemented" && e.changed == Some((it.stamp.at, "backfill-derived"))
                         && e.fields == was.value.fields
                       else
                         && e.state == "open" && e.changed == was.value.changed
                         && Overlaid(was.value.fields, it.rec, e.fields))
  {
    hide Step, Copied, Overlaid;
    assert [it][..0] == [];
    StepAt(pid, ps, it, id, backfill);
    CopiedIs(map[], it.rec);
    assert map[] + Copied(it.rec) == Copied(it.rec);
    if Lookup(ps, id).Some? {
      CopiedIs(Lookup(ps, id).value.fields, it.rec);
    }
  }

  // ------------------------------------------------------------------ transitions

  /** Closing acts on the first entry with the id, writes its new state, the time and the reason, and nothing else. */
  lemma TransitionIs(ps: seq<Entry>, id: string, state: string, at: string, reason: string, i: nat)
    requires i < |ps|
    ensures |Transitioned(ps, id, state, at, reason)| == |ps|
    ensures Transitioned(ps, id, state, at, reason)[i] ==
            if ps[i].id == id && ps[i].state != state && forall j :: 0 <= j < i ==> ps[j].id != id
            then ps[i].(state := state, changed := Some((at, reason))) else ps[i]
  {}

  // ------------------------------------------------------------------ ranking

  /** critical, high, medium and low, in this order, and any other word after them; none counts as low. */
  function Severity(e: Entry): string { if "severity" in e.fields then e.fields["severity"] else "low" }

  predicate AsSevere(a: string, b: string) {
    || a == "critical"
    || (a == "high" && b != "critical")
    || (a == "medium" && b != "critical" && b != "high")
    || (a == "low" && b != "critical" && b != "high" && b != "medium")
    || (b != "critical" && b != "high" && b != "medium" && b != "low")
  }

  /** auto, review and experimental, in this order, and any other word after them; none counts as review. */
  function Tier(e: Entry): string { if "tier" in e.fields then e.fields["tier"] else "review" }

  predicate AsReady(a: string, b: string) {
    || a == "auto"
    || (a == "review" && b != "auto")
    || (a == "experimental" && b != "auto" && b != "review")
    || (b != "auto" && b != "review" && b != "experimental")
  }

  lemma SeverityIs(a: Entry, b: Entry)
    ensures SeverityRank(a) <= SeverityRank(b) <==> AsSevere(Severity(a), Severity(b))
    ensures TierRank(a) <= TierRank(b) <==> AsReady(Tier(a), Tier(b))
  {}

  /** The queue is ordered by severity, then by tier, then by confidence, then newest first. */
  lemma BestComeFirst(ps: seq<Entry>, r: Reading, cap: Option<int>, i: nat, j: nat)
    requires i < j < |OpenQueue(ps, r, cap)|
    ensures var a, b := OpenQueue(ps, r, cap)[i], OpenQueue(ps, r, cap)[j];
            var x := if "confidence" in a.fields then r.confidence(a.fields["confidence"]) else 0.0;
            var y := if "confidence" in b.fields then r.confidence(b.fields["confidence"]) else 0.0;
            && AsSevere(Severity(a), Severity(b))
            && (AsSevere(Severity(b), Severity(a)) ==>
                  && AsReady(Tier(a), Tier(b))
                  && (AsReady(Tier(b), Tier(a)) ==>
                        x >= y && (x == y ==> r.digits(a.first.at) >= r.digits(b.first.at))))
  {
    hide SeverityRank, TierRank, AsSevere, AsReady, StablySorted, OpenQueue, Ranked, Severity, Tier;
    QueueIsRankedPrefix(ps, r, cap);
    RankedInOrder(ps, r, i, j);
    var a, b := Ranked(ps, r)[i], Ranked(ps, r)[j];
    SeverityIs(a, b);
    SeverityIs(b, a);
  }

  lemma RankedInOrder(ps: seq<Entry>, r: Reading, i: nat, j: nat)
    requires i < j < |Ranked(ps, r)|
    ensures RanksBefore(r, Ranked(ps, r)[i], Ranked(ps, r)[j])
  {
    hide RanksBefore, StableSort, Filter, TotalPreorder;
    RankingIsOrder(r);
    SortSorted(Filter(ps, IsOpen), Ranking(r));
    assert Ranking(r)(Ranked(ps, r)[i], Ranked(ps, r)[j]);
  }
}
