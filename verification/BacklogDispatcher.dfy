/** The backlog dispatcher's tick: one pass over the producers that hands at most one
    batch per producer to an implementer, and the bounded window of dedup keys that
    keeps a dispatched rec from being dispatched again. */
module BacklogDispatcher {
  import opened Sequences

  const WINDOW: nat := 2000

  datatype Config = Config(maxRecs: nat, maxProducers: nat, scanBudget: nat)

  /** A rec as the scan reads it. Title and page URL are already trimmed, lower-cased and
      space-normalised; `held` is the answer of the handler, dispatch-kind and backoff gates. */
  datatype Rec = Rec(
    id: string, recId: string, recUid: string,
    shipped: bool, implemented: bool, deferred: bool, duplicate: bool, skipped: bool,
    reviewRequired: bool, confirmed: bool, held: bool,
    title: string, pageUrl: string, severity: string, tier: string)

  datatype RunDir = RunDir(runTs: string, recs: seq<Rec>)

  /** What the dispatcher meets at one producer during one tick: how many scopes have ended
      since the previous look, whether listing fails, the newest-first run-dirs, the
      producer's own dispatch ledger, and whether the dispatch attempt goes through. */
  datatype Visit = Visit(
    agent: string, ended: nat, listFails: bool, runs: seq<RunDir>, ledger: set<string>,
    accepted: bool, startsScope: bool)

  datatype Tick = Tick(inflight: nat, claudeCap: nat, copilotCap: nat, visits: seq<Visit>)

  datatype Batch = Batch(agent: string, runTs: string, recs: seq<Rec>)

  datatype Outcome = Outcome(batches: seq<Batch>, scopes: nat)

  // ------------------------------------------------------------------ keys

  function Rid(r: Rec): string {
    if r.id != "" then r.id else if r.recId != "" then r.recId else r.recUid
  }

  function DedupKey(runTs: string, r: Rec): string {
    runTs + ":" + Rid(r)
  }

  /** The empty string stands for "no title key". */
  function TitleKey(agent: string, r: Rec): string {
    if r.title == "" then ""
    else if r.pageUrl != "" then "title:" + agent + ":" + r.title + ":" + r.pageUrl
    else "title:" + agent + ":" + r.title
  }

  function RecKeys(agent: string, runTs: string, r: Rec): seq<string> {
    [DedupKey(runTs, r)] + if TitleKey(agent, r) != "" then [TitleKey(agent, r)] else []
  }

  // ------------------------------------------------------------------ which recs are due

  predicate Eligible(r: Rec) {
    && !(r.shipped || r.implemented || r.deferred || r.duplicate || r.skipped)
    && !(r.reviewRequired && !r.confirmed)
    && !r.held
    && Rid(r) != ""
  }

  predicate Suppressed(agent: string, runTs: string, r: Rec, already: set<string>) {
    DedupKey(runTs, r) in already || (TitleKey(agent, r) != "" && TitleKey(agent, r) in already)
  }

  predicate Due(agent: string, runTs: string, r: Rec, already: set<string>, ledger: set<string>) {
    Eligible(r) && !Suppressed(agent, runTs, r, already) && DedupKey(runTs, r) !in ledger
  }

  function SeverityScore(severity: string): nat {
    if severity == "critical" then 0 else if severity == "high" then 1
    else if severity == "medium" then 2 else if severity == "low" then 3 else 9
  }

  function TierScore(tier: string): nat { if tier == "auto" then 0 else 1 }

  predicate PriorityLe(a: Rec, b: Rec) {
    || SeverityScore(a.severity) < SeverityScore(b.severity)
    || (SeverityScore(a.severity) == SeverityScore(b.severity) && TierScore(a.tier) <= TierScore(b.tier))
  }

  // The cap is tested after appending, so a configured 0 still lets one rec through.
  function BatchCap(cfg: Config): nat { if cfg.maxRecs == 0 then 1 else cfg.maxRecs }

  function IsDue(v: Visit, runTs: string, already: set<string>): Rec -> bool {
    (r: Rec) => Due(v.agent, runTs, r, already, v.ledger)
  }

  function DueRecs(v: Visit, d: RunDir, already: set<string>): seq<Rec> {
    Filter(d.recs, IsDue(v, d.runTs, already))
  }

  /** The batch one run-dir yields: its first due recs, put in priority order. */
  function RunBatch(cfg: Config, v: Visit, d: RunDir, already: set<string>): Batch {
    Batch(v.agent, d.runTs, StableSort(Take(DueRecs(v, d, already), BatchCap(cfg)), PriorityLe))
  }

  /** The first run-dir with a due rec wins; an empty batch means none has one. */
  function Pick(cfg: Config, v: Visit, runs: seq<RunDir>, already: set<string>): Batch {
    if runs == [] then Batch(v.agent, "", [])
    else if DueRecs(v, runs[0], already) != [] then RunBatch(cfg, v, runs[0], already)
    else Pick(cfg, v, runs[1..], already)
  }

  function VisitBatch(cfg: Config, v: Visit, already: set<string>): Batch {
    if v.listFails then Batch(v.agent, "", []) else Pick(cfg, v, Take(v.runs, cfg.scanBudget), already)
  }

  // ------------------------------------------------------------------ one tick

  function AfterEnded(scopes: nat, ended: nat): (now: nat)
    ensures ended <= scopes ==> now + ended == scopes
    ensures ended > scopes ==> now == 0
  {
    if ended >= scopes then 0 else scopes - ended
  }

  function Started(v: Visit): (n: nat)
    ensures n <= 1 && (n == 1 <==> v.startsScope)
  {
    if v.startsScope then 1 else 0
  }

  /** The rest of a tick from producer i on. */
  function Walk(cfg: Config, cap: nat, visits: seq<Visit>, i: nat, already: set<string>,
                touched: nat, scopes: nat): Outcome
    decreases |visits| - i
  {
    if i >= |visits| || touched >= cfg.maxProducers then Outcome([], scopes)
    else
      var v := visits[i];
      var now := AfterEnded(scopes, v.ended);
      if now >= cap then Outcome([], now)
      else
        var batch := VisitBatch(cfg, v, already);
        if batch.recs == [] || !v.accepted then Walk(cfg, cap, visits, i + 1, already, touched, now)
        else
          var rest := Walk(cfg, cap, visits, i + 1, already, touched + 1, now + Started(v));
          Outcome([batch] + rest.batches, rest.scopes)
  }

  function TotalCap(t: Tick): nat { t.claudeCap + t.copilotCap }

  predicate Throttled(t: Tick) { t.inflight >= TotalCap(t) }

  function TickOutcome(cfg: Config, t: Tick, queued: seq<string>): Outcome {
    if Throttled(t) then Outcome([], t.inflight)
    else Walk(cfg, TotalCap(t), t.visits, 0, ToSet(queued), 0, t.inflight)
  }

  function KeysOfRecs(agent: string, runTs: string, recs: seq<Rec>): seq<string> {
    if recs == [] then [] else RecKeys(agent, runTs, recs[0]) + KeysOfRecs(agent, runTs, recs[1..])
  }

  function KeysOf(batches: seq<Batch>): seq<string> {
    if batches == [] then []
    else KeysOfRecs(batches[0].agent, batches[0].runTs, batches[0].recs) + KeysOf(batches[1..])
  }

  /** The keys of `keys` outside `seen`, each once, in order of first appearance. */
  function Fresh(keys: seq<string>, seen: set<string>): seq<string> {
    if keys == [] then []
    else if keys[0] in seen then Fresh(keys[1..], seen)
    else [keys[0]] + Fresh(keys[1..], seen + {keys[0]})
  }

  function NewKeys(cfg: Config, t: Tick, queued: seq<string>): seq<string> {
    Fresh(KeysOf(TickOutcome(cfg, t, queued).batches), ToSet(queued))
  }

  /** The persisted window after a tick; a throttled tick keeps it. */
  function NextQueued(cfg: Config, t: Tick, queued: seq<string>): seq<string> {
    if Throttled(t) then queued else LastN(queued + NewKeys(cfg, t, queued), WINDOW)
  }

  class Dispatcher {
    var queuedIds: seq<string>

    constructor ()
      ensures queuedIds == []
    {
      queuedIds := [];
    }

    /** Scans one run-dir the way the source does, stopping once the batch is full. */
    method ScanRunDir(cfg: Config, v: Visit, d: RunDir, already: set<string>) returns (cands: seq<Rec>)
      ensures cands == Take(DueRecs(v, d, already), BatchCap(cfg))
    {
      cands := [];
      var due := IsDue(v, d.runTs, already);
      for i := 0 to |d.recs|
        invariant |cands| < BatchCap(cfg)
        invariant cands == Filter(d.recs[..i], due)
      {
        var r := d.recs[i];
        assert d.recs[..i + 1] == d.recs[..i] + [r];
        FilterConcat(d.recs[..i], [r], due);
        if Due(v.agent, d.runTs, r, already, v.ledger) {
          cands := cands + [r];
          if |cands| >= BatchCap(cfg) {
            assert d.recs == d.recs[..i + 1] + d.recs[i + 1..];
            FilterConcat(d.recs[..i + 1], d.recs[i + 1..], due);
            return;
          }
        }
      }
      assert d.recs[..|d.recs|] == d.recs;
    }

    method PickRunDir(cfg: Config, v: Visit, already: set<string>) returns (batch: Batch)
      ensures batch == Pick(cfg, v, Take(v.runs, cfg.scanBudget), already)
    {
      var runs := Take(v.runs, cfg.scanBudget);
      for i := 0 to |runs|
        invariant Pick(cfg, v, runs, already) == Pick(cfg, v, runs[i..], already)
      {
        assert runs[i..][1..] == runs[i + 1..];
        var cands := ScanRunDir(cfg, v, runs[i], already);
        if cands != [] {
          return Batch(v.agent, runs[i].runTs, StableSort(cands, PriorityLe));
        }
      }
      return Batch(v.agent, "", []);
    }

    method PickBatch(cfg: Config, v: Visit, already: set<string>) returns (batch: Batch)
      ensures batch == VisitBatch(cfg, v, already)
    {
      if v.listFails {
        return Batch(v.agent, "", []);
      }
      batch := PickRunDir(cfg, v, already);
    }

    /** The producer loop. */
    method WalkProducers(cfg: Config, cap: nat, visits: seq<Visit>, already: set<string>, inflight: nat)
      returns (outcome: Outcome)
      ensures outcome == Walk(cfg, cap, visits, 0, already, 0, inflight)
    {
      hide VisitBatch;
      var batches: seq<Batch> := [];
      var touched: nat, scopes: nat, i := 0, inflight, 0;
      ghost var todo := Walk(cfg, cap, visits, 0, already, 0, inflight);
      while i < |visits| && touched < cfg.maxProducers
        invariant 0 <= i <= |visits|
        invariant todo == Walk(cfg, cap, visits, i, already, touched, scopes)
        invariant Walk(cfg, cap, visits, 0, already, 0, inflight) == Outcome(batches + todo.batches, todo.scopes)
      {
        var v := visits[i];
        scopes := AfterEnded(scopes, v.ended);
        if scopes >= cap {
          break;
        }
        i := i + 1;
        var batch := PickBatch(cfg, v, already);
        if batch.recs != [] && v.accepted {
          batches := batches + [batch];
          touched := touched + 1;
          scopes := scopes + Started(v);
          todo := Walk(cfg, cap, visits, i, already, touched, scopes);
        }
      }
      outcome := Outcome(batches, scopes);
    }

    /** Both keys of every rec handed out, in dispatch order. */
    method CollectKeys(batches: seq<Batch>) returns (queuedNow: seq<string>)
      ensures queuedNow == KeysOf(batches)
    {
      queuedNow := [];
      for i := 0 to |batches|
        invariant queuedNow == KeysOf(batches[..i])
      {
        assert batches[..i + 1] == batches[..i] + [batches[i]];
        KeysOfAppend(batches[..i], batches[i]);
        queuedNow := queuedNow + KeysOfRecs(batches[i].agent, batches[i].runTs, batches[i].recs);
      }
      assert batches[..|batches|] == batches;
    }

    method Run(cfg: Config, t: Tick) returns (outcome: Outcome)
      modifies this
      ensures outcome == TickOutcome(cfg, t, old(queuedIds))
      ensures queuedIds == NextQueued(cfg, t, old(queuedIds))
    {
      if t.inflight >= t.claudeCap + t.copilotCap {
        return Outcome([], t.inflight);
      }
      var already := ToSet(queuedIds);
      outcome := WalkProducers(cfg, TotalCap(t), t.visits, already, t.inflight);
      var queuedNow := CollectKeys(outcome.batches);
      var novel := FreshKeys(queuedNow, already);
      queuedIds := LastN(queuedIds + novel, WINDOW);
    }
  }

  method FreshKeys(keys: seq<string>, already: set<string>) returns (novel: seq<string>)
    ensures novel == Fresh(keys, already)
  {
    novel := [];
    var seen: set<string> := {};
    assert already + seen == already;
    for i := 0 to |keys|
      invariant Fresh(keys, already) == novel + Fresh(keys[i..], already + seen)
    {
      assert keys[i..][1..] == keys[i + 1..];
      if keys[i] !in already && keys[i] !in seen {
        assert already + seen + {keys[i]} == already + (seen + {keys[i]});
        seen := seen + {keys[i]};
        novel := novel + [keys[i]];
      }
    }
  }

  lemma {:induction false} KeysOfAppend(batches: seq<Batch>, b: Batch)
    ensures KeysOf(batches + [b]) == KeysOf(batches) + KeysOfRecs(b.agent, b.runTs, b.recs)
  {
    if batches == [] {
      assert [b][1..] == [];
    } else {
      assert (batches + [b])[1..] == batches[1..] + [b];
      KeysOfAppend(batches[1..], b);
    }
  }
}
