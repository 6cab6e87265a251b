/** Which recs the dispatcher hands out, in the fields of the recs and the text of the keys. */
module DispatchRules {
  import opened Sequences
  import opened BacklogDispatcher
  import opened DispatchHistory

  /** The name a rec goes by: the first of its id, rec id and uid that is not empty. */
  predicate Named(r: Rec, name: string) {
    && name != ""
    && (name == r.id || (r.id == "" && (name == r.recId || (r.recId == "" && name == r.recUid))))
  }

  /** The key of a title: it names the page too, where the rec has one. */
  predicate TitleKeyed(agent: string, r: Rec, key: string) {
    && r.title != ""
    && key == "title:" + agent + ":" + r.title + if r.pageUrl == "" then "" else ":" + r.pageUrl
  }

  predicate Keyed(agent: string, runTs: string, r: Rec, key: string) {
    (exists name :: name in [r.id, r.recId, r.recUid] && Named(r, name) && key == runTs + ":" + name)
    || TitleKeyed(agent, r, key)
  }

  lemma KeyIs(agent: string, runTs: string, r: Rec, key: string)
    requires r.id != "" || r.recId != "" || r.recUid != ""
    ensures key in RecKeys(agent, runTs, r) <==> Keyed(agent, runTs, r, key)
  {
    assert Rid(r) in [r.id, r.recId, r.recUid] && Named(r, Rid(r));
    assert r.pageUrl == "" ==> "title:" + agent + ":" + r.title + "" == "title:" + agent + ":" + r.title;
    assert "title:" + agent + ":" + r.title + (":" + r.pageUrl) == "title:" + agent + ":" + r.title + ":" + r.pageUrl;
    forall name | Named(r, name) ensures name == Rid(r) {}
  }

  /** What holds a rec back or lets it through, apart from its place in the scan. */
  ghost predicate Wanted(agent: string, runTs: string, r: Rec, queued: set<string>, ledger: set<string>) {
    && !r.shipped && !r.implemented && !r.deferred && !r.duplicate && !r.skipped && !r.held
    && (r.reviewRequired ==> r.confirmed)
    && (r.id != "" || r.recId != "" || r.recUid != "")
    && (forall key :: key in queued ==> !Keyed(agent, runTs, r, key))
    && forall name :: Named(r, name) ==> runTs + ":" + name !in ledger
  }

  lemma DueIff(agent: string, runTs: string, r: Rec, queued: set<string>, ledger: set<string>)
    ensures Due(agent, runTs, r, queued, ledger) <==> Wanted(agent, runTs, r, queued, ledger)
  {
    hide Keyed, Named;
    if r.id != "" || r.recId != "" || r.recUid != "" {
      forall key ensures key in RecKeys(agent, runTs, r) <==> Keyed(agent, runTs, r, key) {
        KeyIs(agent, runTs, r, key);
      }
      NameIsRid(r);
    }
  }

  lemma NameIsRid(r: Rec)
    requires r.id != "" || r.recId != "" || r.recUid != ""
    ensures forall name :: Named(r, name) <==> name == Rid(r)
  {}

  /** A rec is handed out only if none of its flags holds it back, a review it requires is confirmed, it has a name,
      none of its keys is in the window, its run and name are not in the producer's ledger, scopes are free at the
      start of the tick, and it stands in a scanned run-dir of a producer whose dispatch goes through. */
  lemma DispatchedRecIs(cfg: Config, t: Tick, queued: seq<string>, agent: string, runTs: string, r: Rec)
    requires Dispatches(TickOutcome(cfg, t, queued).batches, agent, runTs, r)
    ensures t.inflight < t.claudeCap + t.copilotCap
    ensures !r.shipped && !r.implemented && !r.deferred && !r.duplicate && !r.skipped && !r.held
    ensures r.reviewRequired ==> r.confirmed
    ensures r.id != "" || r.recId != "" || r.recUid != ""
    ensures forall key :: key in queued ==> !Keyed(agent, runTs, r, key)
    ensures exists n: nat, i: nat ::
              n < |t.visits| && t.visits[n].agent == agent && t.visits[n].accepted && !t.visits[n].listFails
              && i < |t.visits[n].runs| && i < cfg.scanBudget && t.visits[n].runs[i].runTs == runTs
              && r in t.visits[n].runs[i].recs
              && forall name :: Named(r, name) ==> runTs + ":" + name !in t.visits[n].ledger
  {
    hide TickOutcome, Dispatches, Due, Keyed, Named, FirstDue, TickServed;
    DispatchedIff(cfg, t, queued, agent, runTs, r);
    var n: nat, i: nat, j: nat :| GoesAs(cfg, t, queued, n, i, j, agent, runTs, r);
    DueIff(agent, runTs, r, ToSet(queued), t.visits[n].ledger);
    ServedIs(cfg, t, queued, n);
    assert r in t.visits[n].runs[i].recs;
  }

  lemma ServedIs(cfg: Config, t: Tick, queued: seq<string>, n: nat)
    requires n in TickServed(cfg, t, queued)
    ensures t.inflight < t.claudeCap + t.copilotCap && n < |t.visits| && t.visits[n].accepted
  {
    ServedAccepted(cfg, TotalCap(t), t.visits, 0, ToSet(queued), 0, t.inflight);
  }

  lemma {:induction false} ServedAccepted(cfg: Config, cap: nat, visits: seq<Visit>, i: nat, already: set<string>,
                                          touched: nat, scopes: nat)
    ensures forall n :: n in Served(cfg, cap, visits, i, already, touched, scopes) ==>
              n < |visits| && visits[n].accepted
    decreases |visits| - i
  {
    hide VisitBatch;
    if i < |visits| && touched < cfg.maxProducers {
      var now := AfterEnded(scopes, visits[i].ended);
      ServedAccepted(cfg, cap, visits, i + 1, already, touched, now);
      ServedAccepted(cfg, cap, visits, i + 1, already, touched + 1, now + Started(visits[i]));
    }
  }

  /** How many recs before place j of a run-dir could go out too. */
  ghost function WantedBefore(agent: string, d: RunDir, j: nat, queued: set<string>, ledger: set<string>): nat
    requires j <= |d.recs|
  {
    if j == 0 then 0
    else
      WantedBefore(agent, d, j - 1, queued, ledger)
      + if Wanted(agent, d.runTs, d.recs[j - 1], queued, ledger) then 1 else 0
  }

  lemma {:induction false} DueBefore(v: Visit, d: RunDir, j: nat, queued: set<string>)
    requires j <= |d.recs|
    ensures |Filter(d.recs[..j], IsDue(v, d.runTs, queued))| == WantedBefore(v.agent, d, j, queued, v.ledger)
  {
    hide Wanted, Due;
    if j > 0 {
      DueBefore(v, d, j - 1, queued);
      var r, p := d.recs[j - 1], IsDue(v, d.runTs, queued);
      assert d.recs[..j] == d.recs[..j - 1] + [r];
      FilterConcat(d.recs[..j - 1], [r], p);
      FilterCons(r, [], p);
      DueIff(v.agent, d.runTs, r, queued, v.ledger);
    }
  }

  /** The j-th rec of the i-th run-dir goes out with the batch of the visit: it is wanted, the earlier run-dirs hold
      none that is, and fewer than the limit stand before it. A limit of 0 lets one rec through. */
  ghost predicate Chosen(cfg: Config, v: Visit, queued: set<string>, i: nat, j: nat) {
    && i < |v.runs| && i < cfg.scanBudget && !v.listFails && j < |v.runs[i].recs|
    && Wanted(v.agent, v.runs[i].runTs, v.runs[i].recs[j], queued, v.ledger)
    && (forall e, r :: 0 <= e < i && r in v.runs[e].recs ==> !Wanted(v.agent, v.runs[e].runTs, r, queued, v.ledger))
    && (j == 0 || WantedBefore(v.agent, v.runs[i], j, queued, v.ledger) < if cfg.maxRecs == 0 then 1 else cfg.maxRecs)
  }

  lemma NoneDue(v: Visit, d: RunDir, queued: set<string>)
    ensures DueRecs(v, d, queued) == [] <==> forall r :: r in d.recs ==> !Wanted(v.agent, d.runTs, r, queued, v.ledger)
  {
    hide Wanted, Due, Filter;
    var p := IsDue(v, d.runTs, queued);
    FilterIn(d.recs, p);
    forall r ensures p(r) <==> Wanted(v.agent, d.runTs, r, queued, v.ledger) {
      DueIff(v.agent, d.runTs, r, queued, v.ledger);
    }
    if DueRecs(v, d, queued) != [] {
      assert DueRecs(v, d, queued)[0] in d.recs;
    }
  }

  lemma ChosenIff(cfg: Config, v: Visit, queued: set<string>, i: nat, j: nat)
    ensures Goes(cfg, v, queued, i, j) <==> Chosen(cfg, v, queued, i, j)
  {
    hide Wanted, Due, DueRecs, Filter, WantedBefore;
    if i < |v.runs| && j < |v.runs[i].recs| {
      var d := v.runs[i];
      DueIff(v.agent, d.runTs, d.recs[j], queued, v.ledger);
      DueBefore(v, d, j, queued);
      NothingBeforeFirst(v.agent, d, queued, v.ledger);
      NoneDue(v, d, queued);
      assert d.recs[j] in d.recs;
      forall e | 0 <= e < i
        ensures DueRecs(v, v.runs[e], queued) == [] <==>
                forall r :: r in v.runs[e].recs ==> !Wanted(v.agent, v.runs[e].runTs, r, queued, v.ledger)
      {
        NoneDue(v, v.runs[e], queued);
      }
    }
  }

  lemma NothingBeforeFirst(agent: string, d: RunDir, queued: set<string>, ledger: set<string>)
    ensures WantedBefore(agent, d, 0, queued, ledger) == 0
  {}

  /** A rec goes out exactly when it is chosen at a visit the walk serves. */
  lemma DispatchedExactly(cfg: Config, t: Tick, queued: seq<string>, agent: string, runTs: string, r: Rec)
    ensures Dispatches(TickOutcome(cfg, t, queued).batches, agent, runTs, r) <==>
            exists n: nat, i: nat, j: nat ::
              && n in TickServed(cfg, t, queued) && n < |t.visits| && Chosen(cfg, t.visits[n], ToSet(queued), i, j)
              && t.visits[n].agent == agent && t.visits[n].runs[i].runTs == runTs && t.visits[n].runs[i].recs[j] == r
  {
    hide TickOutcome, Dispatches, Goes, Wanted, WantedBefore, TickServed;
    DispatchedIff(cfg, t, queued, agent, runTs, r);
    forall n: nat, i: nat, j: nat | n < |t.visits|
      ensures Goes(cfg, t.visits[n], ToSet(queued), i, j) <==> Chosen(cfg, t.visits[n], ToSet(queued), i, j)
    {
      ChosenIff(cfg, t.visits[n], ToSet(queued), i, j);
    }
    if n: nat, i: nat, j: nat :| GoesAs(cfg, t, queued, n, i, j, agent, runTs, r) {
      assert Chosen(cfg, t.visits[n], ToSet(queued), i, j);
    }
    if n: nat, i: nat, j: nat :| n in TickServed(cfg, t, queued) && n < |t.visits|
                                 && Chosen(cfg, t.visits[n], ToSet(queued), i, j)
                                 && t.visits[n].agent == agent && t.visits[n].runs[i].runTs == runTs
                                 && t.visits[n].runs[i].recs[j] == r {
      assert GoesAs(cfg, t, queued, n, i, j, agent, runTs, r);
    }
  }

  /** A wanted rec alone in the newest run-dir of the first producer goes out, whatever follows, if scopes are free and
      the dispatch goes through. */
  lemma FirstWantedGoes(cfg: Config, t: Tick, queued: seq<string>, r: Rec)
    requires t.visits != [] && t.inflight < t.claudeCap + t.copilotCap && cfg.maxProducers > 0 && cfg.scanBudget > 0
    requires var v := t.visits[0];
             v.accepted && !v.listFails && v.runs != [] && v.runs[0].recs != [] && v.runs[0].recs[0] == r
             && Wanted(v.agent, v.runs[0].runTs, r, ToSet(queued), v.ledger)
    ensures Dispatches(TickOutcome(cfg, t, queued).batches, t.visits[0].agent, t.visits[0].runs[0].runTs, r)
  {
    hide TickOutcome, Dispatches, Wanted, VisitBatch;
    var v, already := t.visits[0], ToSet(queued);
    assert Chosen(cfg, v, already, 0, 0);
    ChosenIff(cfg, v, already, 0, 0);
    VisitSends(cfg, v, already, 0, 0, v.runs[0].runTs, r);
    assert 0 in TickServed(cfg, t, queued);
    DispatchedExactly(cfg, t, queued, v.agent, v.runs[0].runTs, r);
  }

  /** The backlog that the ticks drain is the set of the wanted recs. */
  lemma BacklogIs(world: seq<Producer>, queued: seq<string>, agent: string, runTs: string, r: Rec)
    ensures (agent, runTs, r) in Backlog(world, queued) <==>
            && Wanted(agent, runTs, r, ToSet(queued), {})
            && exists p, d :: p in world && p.agent == agent && d in p.runs && d.runTs == runTs && r in d.recs
  {
    hide Wanted, Eligible, Suppressed;
    DueIff(agent, runTs, r, ToSet(queued), {});
  }

  // ------------------------------------------------------------------ order and size of a batch

  /** critical, high, medium and low, in this order; any other severity comes after them. */
  predicate AtLeast(severity: string, than: string) {
    || severity == "critical"
    || (severity == "high" && than != "critical")
    || (severity == "medium" && than != "critical" && than != "high")
    || (severity == "low" && than != "critical" && than != "high" && than != "medium")
    || (than != "critical" && than != "high" && than != "medium" && than != "low")
  }

  /** Each batch holds between one and the limit of recs, the severest first, and among equally severe ones those of
      the auto tier first. */
  lemma BatchOrder(cfg: Config, t: Tick, queued: seq<string>, b: Batch)
    requires b in TickOutcome(cfg, t, queued).batches
    ensures 0 < |b.recs| <= if cfg.maxRecs == 0 then 1 else cfg.maxRecs
    ensures forall i, j :: 0 <= i < j < |b.recs| ==>
              && AtLeast(b.recs[i].severity, b.recs[j].severity)
              && (AtLeast(b.recs[j].severity, b.recs[i].severity) && b.recs[j].tier == "auto" ==>
                    b.recs[i].tier == "auto")
  {
    hide TickOutcome, FirstDue, DueRecs;
    BatchIsStablePrefix(cfg, t, queued, b);
    forall i, j | 0 <= i < j < |b.recs| ensures PriorityLe(b.recs[i], b.recs[j]) {}
  }

  // ------------------------------------------------------------------ the window

  /** A tick queues exactly the keys of what it hands out that are not in the window yet. */
  lemma QueuedKeysAre(cfg: Config, t: Tick, queued: seq<string>, key: string)
    ensures key in NewKeys(cfg, t, queued) <==>
            && key !in queued
            && exists agent, runTs, r :: Dispatches(TickOutcome(cfg, t, queued).batches, agent, runTs, r)
                                         && Keyed(agent, runTs, r, key)
  {
    hide TickOutcome, Keyed, KeysOf;
    var batches := TickOutcome(cfg, t, queued).batches;
    FreshKeysAreNew(KeysOf(batches), ToSet(queued));
    if key in KeysOf(batches) {
      KeysOfFrom(batches, key);
      var b, r :| b in batches && r in b.recs && key in RecKeys(b.agent, b.runTs, r);
      assert Dispatches(batches, b.agent, b.runTs, r);
      DispatchedRecIs(cfg, t, queued, b.agent, b.runTs, r);
      KeyIs(b.agent, b.runTs, r, key);
    }
    if agent, runTs, r :| Dispatches(batches, agent, runTs, r) && Keyed(agent, runTs, r, key) {
      DispatchedRecIs(cfg, t, queued, agent, runTs, r);
      KeyIs(agent, runTs, r, key);
      var b :| b in batches && b.agent == agent && b.runTs == runTs && r in b.recs;
      KeysOfHave(batches, b, r);
    }
  }
}
