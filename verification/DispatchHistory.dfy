/** What the dispatcher's window guarantees over every sequence of ticks. */
module DispatchHistory {
  import opened Sequences
  import opened BacklogDispatcher

  /** The persisted window together with every key ever queued, oldest first. */
  datatype State = State(queued: seq<string>, history: seq<string>)

  function Step(cfg: Config, t: Tick, st: State): State {
    State(NextQueued(cfg, t, st.queued),
          if Throttled(t) then st.history else st.history + NewKeys(cfg, t, st.queued))
  }

  function Run(cfg: Config, ticks: seq<Tick>, st: State): State {
    if ticks == [] then st
    else Step(cfg, ticks[|ticks| - 1], Run(cfg, ticks[..|ticks| - 1], st))
  }

  /** Two queuings of one key are more than a whole window apart. */
  predicate Spaced(h: seq<string>) {
    forall i, j :: 0 <= i < j < |h| && h[i] == h[j] ==> j - i > WINDOW
  }

  predicate Consistent(st: State) {
    && st.queued == LastN(st.history, WINDOW)
    && |st.queued| <= WINDOW
    && NoDup(st.queued)
    && Spaced(st.history)
  }

  lemma {:induction false} FreshKeysAreNew(keys: seq<string>, seen: set<string>)
    ensures NoDup(Fresh(keys, seen))
    ensures forall k :: k in Fresh(keys, seen) <==> k in keys && k !in seen
  {
    if keys == [] {
    } else if keys[0] in seen {
      FreshKeysAreNew(keys[1..], seen);
    } else {
      FreshKeysAreNew(keys[1..], seen + {keys[0]});
    }
  }

  lemma StepKeepsConsistent(cfg: Config, t: Tick, st: State)
    requires Consistent(st)
    ensures Consistent(Step(cfg, t, st))
  {
    if !Throttled(t) {
      var keys := NewKeys(cfg, t, st.queued);
      FreshKeysAreNew(KeysOf(TickOutcome(cfg, t, st.queued).batches), ToSet(st.queued));
      var h := st.history + keys;
      NoDupConcat(st.queued, keys);
      assert LastN(h, WINDOW) == LastN(st.queued + keys, WINDOW);
      forall i, j | 0 <= i < j < |h| && h[i] == h[j] ensures j - i > WINDOW {
        if i < |st.history| && |st.history| - i <= WINDOW {
          LastNHas(st.history, WINDOW, i);
        }
      }
    }
  }

  /** Over every sequence of ticks, throttled or not: the window is duplicate-free, the most recent 2000 keys of
      everything ever queued, and one key is never queued twice within that distance. */
  lemma {:induction false} WindowOverRuns(cfg: Config, ticks: seq<Tick>, st: State)
    requires Consistent(st)
    ensures Consistent(Run(cfg, ticks, st))
    ensures var now := Run(cfg, ticks, st);
            var h := now.history;
            && NoDup(now.queued)
            && now.queued == (if |h| <= 2000 then h else h[|h| - 2000..])
            && forall i, j :: 0 <= i < j < |h| && h[i] == h[j] ==> j - i > 2000
  {
    hide NextQueued, NewKeys;
    if ticks != [] {
      WindowOverRuns(cfg, ticks[..|ticks| - 1], st);
      StepKeepsConsistent(cfg, ticks[|ticks| - 1], Run(cfg, ticks[..|ticks| - 1], st));
    }
  }

  lemma {:induction false} HistoryGrows(cfg: Config, ticks: seq<Tick>, k: nat, st: State)
    requires k <= |ticks|
    ensures Run(cfg, ticks[..k], st).history <= Run(cfg, ticks, st).history
  {
    if k < |ticks| {
      var init := ticks[..|ticks| - 1];
      assert init[..k] == ticks[..k];
      HistoryGrows(cfg, init, k, st);
    } else {
      assert ticks[..k] == ticks;
    }
  }

  // ------------------------------------------------------------------ what one tick dispatches

  predicate Dispatches(batches: seq<Batch>, agent: string, runTs: string, r: Rec) {
    exists b :: b in batches && b.agent == agent && b.runTs == runTs && r in b.recs
  }

  /** runs[i] is the first of the run-dirs with a due rec. */
  predicate FirstDue(v: Visit, runs: seq<RunDir>, i: nat, already: set<string>) {
    i < |runs| && DueRecs(v, runs[i], already) != [] && forall j :: 0 <= j < i ==> DueRecs(v, runs[j], already) == []
  }

  /** b is what the first of the run-dirs with a due rec yields. */
  predicate FirstBatch(cfg: Config, v: Visit, runs: seq<RunDir>, b: Batch, already: set<string>) {
    exists i :: 0 <= i < |runs| && FirstDue(v, runs, i, already) && b == RunBatch(cfg, v, runs[i], already)
  }

  /** A batch comes from the first scanned run-dir with a due rec. */
  predicate BatchOf(cfg: Config, v: Visit, b: Batch, already: set<string>) {
    FirstBatch(cfg, v, Take(v.runs, cfg.scanBudget), b, already)
  }

  lemma {:induction false} PickIsBatch(cfg: Config, v: Visit, runs: seq<RunDir>, already: set<string>)
    ensures var b := Pick(cfg, v, runs, already);
            if forall d :: d in runs ==> DueRecs(v, d, already) == [] then b.recs == []
            else b.recs != [] && FirstBatch(cfg, v, runs, b, already)
  {
    if runs == [] {
    } else if DueRecs(v, runs[0], already) != [] {
      SortElements(Take(DueRecs(v, runs[0], already), BatchCap(cfg)), PriorityLe);
      assert runs[0] in runs && FirstDue(v, runs, 0, already);
    } else {
      var rest, b := runs[1..], Pick(cfg, v, runs, already);
      PickIsBatch(cfg, v, rest, already);
      if FirstBatch(cfg, v, rest, b, already) {
        var i :| 0 <= i < |rest| && FirstDue(v, rest, i, already) && b == RunBatch(cfg, v, rest[i], already);
        assert FirstDue(v, runs, i + 1, already) && runs[i + 1] == rest[i];
        assert runs[i + 1] in runs;
      }
    }
  }

  lemma RunBatchDue(cfg: Config, v: Visit, d: RunDir, already: set<string>)
    ensures forall r :: r in RunBatch(cfg, v, d, already).recs ==>
              r in d.recs && Due(v.agent, d.runTs, r, already, v.ledger)
  {
    FilterIn(d.recs, IsDue(v, d.runTs, already));
    TakeIn(DueRecs(v, d, already), BatchCap(cfg));
    SortElements(Take(DueRecs(v, d, already), BatchCap(cfg)), PriorityLe);
  }

  lemma VisitBatchIs(cfg: Config, v: Visit, already: set<string>)
    requires VisitBatch(cfg, v, already).recs != []
    ensures var b := VisitBatch(cfg, v, already);
            b.agent == v.agent && BatchOf(cfg, v, b, already)
            && forall r :: r in b.recs ==> Eligible(r) && !Suppressed(b.agent, b.runTs, r, already)
  {
    hide Eligible, Suppressed, DueRecs, RunBatch, FirstDue;
    var runs := Take(v.runs, cfg.scanBudget);
    PickIsBatch(cfg, v, runs, already);
    var b := VisitBatch(cfg, v, already);
    var i :| 0 <= i < |runs| && FirstDue(v, runs, i, already) && b == RunBatch(cfg, v, runs[i], already);
    RunBatchDue(cfg, v, runs[i], already);
    BatchNames(cfg, v, runs[i], already);
  }

  lemma BatchNames(cfg: Config, v: Visit, d: RunDir, already: set<string>)
    ensures RunBatch(cfg, v, d, already).agent == v.agent && RunBatch(cfg, v, d, already).runTs == d.runTs
  {}

  lemma {:induction false} WalkBatches(cfg: Config, cap: nat, visits: seq<Visit>, i: nat, already: set<string>,
                                       touched: nat, scopes: nat, b: Batch)
    requires b in Walk(cfg, cap, visits, i, already, touched, scopes).batches
    ensures b.recs != []
    ensures exists v :: v in visits && v.agent == b.agent && BatchOf(cfg, v, b, already)
    ensures forall r :: r in b.recs ==> Eligible(r) && !Suppressed(b.agent, b.runTs, r, already)
    decreases |visits| - i
  {
    hide VisitBatch, BatchOf, Eligible, Suppressed;
    var v := visits[i];
    var now := AfterEnded(scopes, v.ended);
    var batch := VisitBatch(cfg, v, already);
    if batch.recs == [] || !v.accepted {
      WalkBatches(cfg, cap, visits, i + 1, already, touched, now, b);
    } else if b == batch {
      VisitBatchIs(cfg, v, already);
      assert v in visits;
    } else {
      WalkBatches(cfg, cap, visits, i + 1, already, touched + 1, now + Started(v), b);
    }
  }

  lemma PriorityIsPreorder()
    ensures TotalPreorder(PriorityLe)
  {}

  lemma RunBatchIsStable(cfg: Config, v: Visit, d: RunDir, already: set<string>)
    ensures StablySorted(Take(DueRecs(v, d, already), BatchCap(cfg)), RunBatch(cfg, v, d, already).recs, PriorityLe)
  {
    PriorityIsPreorder();
    SortIsStable(Take(DueRecs(v, d, already), BatchCap(cfg)), PriorityLe);
  }

  /** Every batch is the priority sort of the first due recs of the newest scanned run-dir that has
      one: it is ordered, it permutes that prefix, recs of equal priority keep their order of
      appearance, and it respects the limit. */
  lemma BatchIsStablePrefix(cfg: Config, t: Tick, queued: seq<string>, b: Batch)
    requires b in TickOutcome(cfg, t, queued).batches
    ensures 0 < |b.recs| <= BatchCap(cfg)
    ensures exists v, i :: v in t.visits && 0 <= i < |Take(v.runs, cfg.scanBudget)|
              && FirstDue(v, Take(v.runs, cfg.scanBudget), i, ToSet(queued))
              && b.agent == v.agent && b.runTs == v.runs[i].runTs
              && StablySorted(Take(DueRecs(v, v.runs[i], ToSet(queued)), BatchCap(cfg)), b.recs, PriorityLe)
  {
    hide StablySorted, Walk, FirstDue, DueRecs, Eligible, Suppressed;
    var already := ToSet(queued);
    WalkBatches(cfg, TotalCap(t), t.visits, 0, already, 0, t.inflight, b);
    var v :| v in t.visits && v.agent == b.agent && BatchOf(cfg, v, b, already);
    var runs := Take(v.runs, cfg.scanBudget);
    var i :| 0 <= i < |runs| && FirstDue(v, runs, i, already) && b == RunBatch(cfg, v, runs[i], already);
    RunBatchIsStable(cfg, v, runs[i], already);
    SortElements(Take(DueRecs(v, runs[i], already), BatchCap(cfg)), PriorityLe);
    assert runs[i] == v.runs[i];
  }

  /** One tick hands out at most one batch for each of the producers it may touch. */
  lemma {:induction false} BatchesBounded(cfg: Config, cap: nat, visits: seq<Visit>, i: nat, already: set<string>,
                                          touched: nat, scopes: nat)
    requires touched <= cfg.maxProducers
    ensures touched + |Walk(cfg, cap, visits, i, already, touched, scopes).batches| <= cfg.maxProducers
    decreases |visits| - i
  {
    hide VisitBatch;
    if i < |visits| && touched < cfg.maxProducers {
      var now := AfterEnded(scopes, visits[i].ended);
      BatchesBounded(cfg, cap, visits, i + 1, already, touched, now);
      BatchesBounded(cfg, cap, visits, i + 1, already, touched + 1, now + Started(visits[i]));
    }
  }

  lemma {:induction false} KeysOfRecsHave(agent: string, runTs: string, recs: seq<Rec>, r: Rec)
    requires r in recs
    ensures DedupKey(runTs, r) in KeysOfRecs(agent, runTs, recs)
    ensures TitleKey(agent, r) != "" ==> TitleKey(agent, r) in KeysOfRecs(agent, runTs, recs)
  {
    if r != recs[0] {
      KeysOfRecsHave(agent, runTs, recs[1..], r);
    }
  }

  lemma {:induction false} KeysOfHave(batches: seq<Batch>, b: Batch, r: Rec)
    requires b in batches && r in b.recs
    ensures DedupKey(b.runTs, r) in KeysOf(batches)
    ensures TitleKey(b.agent, r) != "" ==> TitleKey(b.agent, r) in KeysOf(batches)
  {
    KeysOfRecsHave(b.agent, b.runTs, b.recs, r);
    if b != batches[0] {
      KeysOfHave(batches[1..], b, r);
    }
  }

  /** Both keys of a dispatched rec are new to the window and are queued by that tick. */
  lemma DispatchQueuesKeys(cfg: Config, t: Tick, queued: seq<string>, agent: string, runTs: string, r: Rec)
    requires Dispatches(TickOutcome(cfg, t, queued).batches, agent, runTs, r)
    ensures !Throttled(t)
    ensures Eligible(r) && !Suppressed(agent, runTs, r, ToSet(queued))
    ensures DedupKey(runTs, r) in NewKeys(cfg, t, queued)
    ensures TitleKey(agent, r) != "" ==> TitleKey(agent, r) in NewKeys(cfg, t, queued)
  {
    var batches := TickOutcome(cfg, t, queued).batches;
    var b :| b in batches && b.agent == agent && b.runTs == runTs && r in b.recs;
    WalkBatches(cfg, TotalCap(t), t.visits, 0, ToSet(queued), 0, t.inflight, b);
    KeysOfHave(batches, b, r);
    FreshKeysAreNew(KeysOf(batches), ToSet(queued));
  }

  /** At the given history, `at` is a place where the key was queued, and the last WINDOW keys, all queued after it,
      are other keys. */
  predicate Forgotten(history: seq<string>, at: nat, key: string) {
    at + WINDOW < |history| && history[at] == key && key !in history[|history| - WINDOW..]
  }

  function SharedKey(agent: string, runTs: string, r: Rec, runTs': string, r': Rec): string {
    if DedupKey(runTs, r) == DedupKey(runTs', r') then DedupKey(runTs, r) else TitleKey(agent, r)
  }

  /** A rec that is dispatched again in a later tick, or whose page-and-title twin is, has had its key queued by the
      first of the two ticks and at least WINDOW other keys queued since. */
  lemma RedispatchNeedsFullWindow(cfg: Config, ticks: seq<Tick>, st: State, i: nat, j: nat,
                                  agent: string, runTs: string, r: Rec, agent': string, runTs': string, r': Rec)
    requires Consistent(st) && i < j < |ticks|
    requires Dispatches(TickOutcome(cfg, ticks[i], Run(cfg, ticks[..i], st).queued).batches, agent, runTs, r)
    requires Dispatches(TickOutcome(cfg, ticks[j], Run(cfg, ticks[..j], st).queued).batches, agent', runTs', r')
    requires DedupKey(runTs, r) == DedupKey(runTs', r')
          || (TitleKey(agent, r) != "" && TitleKey(agent, r) == TitleKey(agent', r'))
    ensures |Run(cfg, ticks[..j], st).history| > |Run(cfg, ticks[..i], st).history| + WINDOW
    ensures exists at: nat ::
              && |Run(cfg, ticks[..i], st).history| <= at < |Run(cfg, ticks[..i + 1], st).history|
              && Forgotten(Run(cfg, ticks[..j], st).history, at, SharedKey(agent, runTs, r, runTs', r'))
  {
    hide NewKeys, TickOutcome, Dispatches, DedupKey, TitleKey, NextQueued;
    var before, after := Run(cfg, ticks[..i], st), Run(cfg, ticks[..j], st);
    DispatchQueuesKeys(cfg, ticks[i], before.queued, agent, runTs, r);
    DispatchQueuesKeys(cfg, ticks[j], after.queued, agent', runTs', r');
    var key := SharedKey(agent, runTs, r, runTs', r');
    assert key in NewKeys(cfg, ticks[i], before.queued) && key in NewKeys(cfg, ticks[j], after.queued);
    WindowOverRuns(cfg, ticks[..j], st);
    NewKeysAreNew(cfg, ticks[j], after.queued, key);
    var at := QueuedAt(cfg, ticks, st, i, j, key);
    if |after.history| - at <= WINDOW {
      LastNHas(after.history, WINDOW, at);
    }
    assert after.queued == after.history[|after.history| - WINDOW..];
    assert Forgotten(after.history, at, key);
  }

  lemma NewKeysAreNew(cfg: Config, t: Tick, queued: seq<string>, key: string)
    requires key in NewKeys(cfg, t, queued)
    ensures key !in queued
  {
    FreshKeysAreNew(KeysOf(TickOutcome(cfg, t, queued).batches), ToSet(queued));
  }

  /** A key queued by tick i is still in the history before any later tick j, at a place no earlier than before. */
  lemma QueuedAt(cfg: Config, ticks: seq<Tick>, st: State, i: nat, j: nat, key: string) returns (at: nat)
    requires i < j < |ticks| && !Throttled(ticks[i])
    requires key in NewKeys(cfg, ticks[i], Run(cfg, ticks[..i], st).queued)
    ensures |Run(cfg, ticks[..i], st).history| <= at < |Run(cfg, ticks[..i + 1], st).history|
    ensures |Run(cfg, ticks[..i + 1], st).history| <= |Run(cfg, ticks[..j], st).history|
    ensures Run(cfg, ticks[..j], st).history[at] == key
  {
    hide NewKeys, NextQueued;
    var before := Run(cfg, ticks[..i], st);
    var keys := NewKeys(cfg, ticks[i], before.queued);
    assert ticks[..i + 1][..i] == ticks[..i];
    var k :| 0 <= k < |keys| && keys[k] == key;
    at := |before.history| + k;
    assert Run(cfg, ticks[..i + 1], st).history == before.history + keys;
    assert ticks[..j][..i + 1] == ticks[..i + 1];
    HistoryGrows(cfg, ticks[..j], i + 1, st);
  }

  // ------------------------------------------------------------------ which recs share a key

  lemma {:induction false} SplitAtFirst(a: string, b: string, a': string, b': string, c: char)
    requires c !in a && c !in a' && a + [c] + b == a' + [c] + b'
    ensures a == a' && b == b'
  {
    var s := a + [c] + b;
    if a == [] || a' == [] {
      assert s[0] == (a + [c])[0] == (a' + [c])[0];
      assert b == s[1..] && b' == s[1..];
    } else {
      assert s[0] == a[0] == a'[0];
      assert s[1..] == a[1..] + [c] + b == a'[1..] + [c] + b';
      SplitAtFirst(a[1..], b, a'[1..], b', c);
    }
  }

  /** The dedup key leaves the producer out: for colon-free run stamps two recs share one
      exactly when run stamp and rec id agree, whichever producers emitted them. So a
      queued key suppresses an equally stamped, equally numbered rec of every producer. */
  lemma DedupKeyShared(runTs: string, r: Rec, agent': string, runTs': string, r': Rec, queued: set<string>,
                       ledger: set<string>)
    requires ':' !in runTs && ':' !in runTs'
    ensures DedupKey(runTs, r) == DedupKey(runTs', r') <==> runTs == runTs' && Rid(r) == Rid(r')
    ensures DedupKey(runTs, r) in queued && runTs == runTs' && Rid(r) == Rid(r') ==>
            !Due(agent', runTs', r', queued, ledger)
  {
    if DedupKey(runTs, r) == DedupKey(runTs', r') {
      SplitAtFirst(runTs, Rid(r), runTs', Rid(r'), ':');
    }
  }

  // ------------------------------------------------------------------ scopes

  /** The number of running scopes at every point of the walk: at its start, after each recount and after each
      dispatch. */
  function Counts(cfg: Config, cap: nat, visits: seq<Visit>, i: nat, already: set<string>, touched: nat,
                  scopes: nat): seq<nat>
    decreases |visits| - i
  {
    if i >= |visits| || touched >= cfg.maxProducers then [scopes]
    else
      var v := visits[i];
      var now := AfterEnded(scopes, v.ended);
      if now >= cap then [scopes, now]
      else if VisitBatch(cfg, v, already).recs == [] || !v.accepted then
        [scopes] + Counts(cfg, cap, visits, i + 1, already, touched, now)
      else [scopes, now] + Counts(cfg, cap, visits, i + 1, already, touched + 1, now + Started(v))
  }

  /** Counting the scopes again before every producer keeps the number running, at every point of the walk, at or
      below the larger of the starting count and the total cap. */
  lemma {:induction false} ScopesBounded(cfg: Config, cap: nat, visits: seq<Visit>, i: nat, already: set<string>,
                                         touched: nat, scopes: nat)
    ensures var counts := Counts(cfg, cap, visits, i, already, touched, scopes);
            && (forall n :: n in counts ==> n <= if scopes > cap then scopes else cap)
            && |counts| > 0 && counts[0] == scopes
            && counts[|counts| - 1] == Walk(cfg, cap, visits, i, already, touched, scopes).scopes
    decreases |visits| - i
  {
    hide VisitBatch;
    if i < |visits| && touched < cfg.maxProducers {
      var v := visits[i];
      var now := AfterEnded(scopes, v.ended);
      if now < cap {
        ScopesBounded(cfg, cap, visits, i + 1, already, touched, now);
        ScopesBounded(cfg, cap, visits, i + 1, already, touched + 1, now + Started(v));
      }
    }
  }

  // ------------------------------------------------------------------ within one tick

  /** The visits that dispatch, in order. */
  function Served(cfg: Config, cap: nat, visits: seq<Visit>, i: nat, already: set<string>, touched: nat,
                  scopes: nat): seq<nat>
    decreases |visits| - i
  {
    if i >= |visits| || touched >= cfg.maxProducers then []
    else
      var v := visits[i];
      var now := AfterEnded(scopes, v.ended);
      if now >= cap then []
      else if VisitBatch(cfg, v, already).recs == [] || !v.accepted
        then Served(cfg, cap, visits, i + 1, already, touched, now)
      else [i] + Served(cfg, cap, visits, i + 1, already, touched + 1, now + Started(v))
  }

  function TickServed(cfg: Config, t: Tick, queued: seq<string>): seq<nat> {
    if Throttled(t) then [] else Served(cfg, TotalCap(t), t.visits, 0, ToSet(queued), 0, t.inflight)
  }

  lemma {:induction false} ServedBatches(cfg: Config, cap: nat, visits: seq<Visit>, i: nat, already: set<string>,
                                         touched: nat, scopes: nat)
    ensures var served := Served(cfg, cap, visits, i, already, touched, scopes);
            var batches := Walk(cfg, cap, visits, i, already, touched, scopes).batches;
            && |batches| == |served|
            && (forall k :: 0 <= k < |served| ==>
               i <= served[k] < |visits| && batches[k] == VisitBatch(cfg, visits[served[k]], already))
            && (forall k :: 0 <= k < |served| ==> batches[k].recs != [])
            && (forall k, m :: 0 <= k < m < |served| ==> served[k] < served[m])
    decreases |visits| - i
  {
    hide VisitBatch, AfterEnded, Started;
    if i < |visits| && touched < cfg.maxProducers {
      var v := visits[i];
      var now := AfterEnded(scopes, v.ended);
      if now < cap {
        if VisitBatch(cfg, v, already).recs == [] || !v.accepted {
          ServedBatches(cfg, cap, visits, i + 1, already, touched, now);
        } else {
          ServedBatches(cfg, cap, visits, i + 1, already, touched + 1, now + Started(v));
        }
      }
    }
  }

  /** The j-th rec of the i-th run-dir of visit v goes out with the visit's batch: its run-dir is the first with a due
      rec, it is due itself, and fewer due recs than the limit stand before it. */
  predicate Goes(cfg: Config, v: Visit, already: set<string>, i: nat, j: nat) {
    && i < |v.runs| && i < cfg.scanBudget && !v.listFails && FirstDue(v, v.runs, i, already)
    && j < |v.runs[i].recs| && Due(v.agent, v.runs[i].runTs, v.runs[i].recs[j], already, v.ledger)
    && |Filter(v.runs[i].recs[..j], IsDue(v, v.runs[i].runTs, already))| < BatchCap(cfg)
  }

  lemma BatchPlace(cfg: Config, v: Visit, d: RunDir, already: set<string>, r: Rec) returns (j: nat)
    requires r in RunBatch(cfg, v, d, already).recs
    ensures j < |d.recs| && d.recs[j] == r && Due(v.agent, d.runTs, r, already, v.ledger)
    ensures |Filter(d.recs[..j], IsDue(v, d.runTs, already))| < BatchCap(cfg)
  {
    hide Due, Filter;
    var front := Take(DueRecs(v, d, already), BatchCap(cfg));
    SortElements(front, PriorityLe);
    var k :| 0 <= k < |front| && front[k] == r;
    j := FilterFrom(d.recs, IsDue(v, d.runTs, already), k);
  }

  lemma BatchSends(cfg: Config, v: Visit, d: RunDir, already: set<string>, j: nat)
    requires j < |d.recs| && Due(v.agent, d.runTs, d.recs[j], already, v.ledger)
    requires |Filter(d.recs[..j], IsDue(v, d.runTs, already))| < BatchCap(cfg)
    ensures d.recs[j] in RunBatch(cfg, v, d, already).recs
  {
    hide Due, Filter;
    var front := Take(DueRecs(v, d, already), BatchCap(cfg));
    SortElements(front, PriorityLe);
    FilterAt(d.recs, IsDue(v, d.runTs, already), j);
    assert front[|Filter(d.recs[..j], IsDue(v, d.runTs, already))|] == d.recs[j];
  }

  predicate GoesFrom(cfg: Config, v: Visit, already: set<string>, i: nat, j: nat, runTs: string, r: Rec) {
    Goes(cfg, v, already, i, j) && v.runs[i].runTs == runTs && v.runs[i].recs[j] == r
  }

  lemma VisitPlace(cfg: Config, v: Visit, already: set<string>, runTs: string, r: Rec) returns (i: nat, j: nat)
    requires r in VisitBatch(cfg, v, already).recs && VisitBatch(cfg, v, already).runTs == runTs
    ensures GoesFrom(cfg, v, already, i, j, runTs, r)
  {
    hide Due, Filter, RunBatch, DueRecs, Pick, FirstDue;
    var runs, b := Take(v.runs, cfg.scanBudget), VisitBatch(cfg, v, already);
    PickIsBatch(cfg, v, runs, already);
    i :| 0 <= i < |runs| && FirstDue(v, runs, i, already) && b == RunBatch(cfg, v, runs[i], already);
    SameFirstDue(v, runs, i, already);
    BatchNames(cfg, v, runs[i], already);
    j := BatchPlace(cfg, v, runs[i], already, r);
    assert runs[i] == v.runs[i];
  }

  lemma VisitSends(cfg: Config, v: Visit, already: set<string>, i: nat, j: nat, runTs: string, r: Rec)
    requires GoesFrom(cfg, v, already, i, j, runTs, r)
    ensures r in VisitBatch(cfg, v, already).recs && VisitBatch(cfg, v, already).runTs == runTs
  {
    hide Due, Filter, RunBatch, DueRecs, Pick, FirstDue;
    var runs := Take(v.runs, cfg.scanBudget);
    assert runs[i] == v.runs[i];
    SameFirstDue(v, runs, i, already);
    PickIsFirst(cfg, v, runs, i, already);
    BatchNames(cfg, v, runs[i], already);
    BatchSends(cfg, v, runs[i], already, j);
  }

  lemma SameFirstDue(v: Visit, runs: seq<RunDir>, i: nat, already: set<string>)
    requires runs <= v.runs && i < |runs|
    ensures FirstDue(v, runs, i, already) <==> FirstDue(v, v.runs, i, already)
  {
    hide DueRecs;
  }

  lemma {:induction false} PickIsFirst(cfg: Config, v: Visit, runs: seq<RunDir>, i: nat, already: set<string>)
    requires i < |runs| && FirstDue(v, runs, i, already)
    ensures Pick(cfg, v, runs, already) == RunBatch(cfg, v, runs[i], already)
  {
    hide DueRecs, RunBatch;
    if i > 0 {
      assert runs[1..][i - 1] == runs[i];
      assert FirstDue(v, runs[1..], i - 1, already);
      PickIsFirst(cfg, v, runs[1..], i - 1, already);
    }
  }

  /** The j-th rec of the i-th run-dir of the n-th visit is r, stands under the given agent and run stamp, and goes out
      with that visit's batch. */
  predicate GoesAs(cfg: Config, t: Tick, queued: seq<string>, n: nat, i: nat, j: nat, agent: string, runTs: string,
                   r: Rec) {
    && n in TickServed(cfg, t, queued) && n < |t.visits| && t.visits[n].agent == agent
    && Goes(cfg, t.visits[n], ToSet(queued), i, j)
    && t.visits[n].runs[i].runTs == runTs && t.visits[n].runs[i].recs[j] == r
  }

  /** Which recs one tick dispatches depends on the window before the tick, on their own run-dir and on the visits the
      walk serves, and on no other key queued in the tick. So recs that share a key go out together exactly when each
      goes out by itself: nothing is deduplicated within a tick. */
  lemma DispatchedIff(cfg: Config, t: Tick, queued: seq<string>, agent: string, runTs: string, r: Rec)
    ensures Dispatches(TickOutcome(cfg, t, queued).batches, agent, runTs, r) <==>
            exists n: nat, i: nat, j: nat :: GoesAs(cfg, t, queued, n, i, j, agent, runTs, r)
  {
    hide Goes, VisitBatch, Walk, Served;
    var already, served, batches := ToSet(queued), TickServed(cfg, t, queued), TickOutcome(cfg, t, queued).batches;
    if !Throttled(t) {
      ServedBatches(cfg, TotalCap(t), t.visits, 0, already, 0, t.inflight);
      forall k | 0 <= k < |served| ensures batches[k].agent == t.visits[served[k]].agent {
        VisitBatchIs(cfg, t.visits[served[k]], already);
      }
    }
    if Dispatches(batches, agent, runTs, r) {
      var b :| b in batches && b.agent == agent && b.runTs == runTs && r in b.recs;
      var k :| 0 <= k < |batches| && batches[k] == b;
      var i, j := VisitPlace(cfg, t.visits[served[k]], already, runTs, r);
      assert GoesAs(cfg, t, queued, served[k], i, j, agent, runTs, r);
    }
    if n: nat, i: nat, j: nat :| GoesAs(cfg, t, queued, n, i, j, agent, runTs, r) {
      var k :| 0 <= k < |served| && served[k] == n;
      VisitSends(cfg, t.visits[n], already, i, j, runTs, r);
      assert batches[k] in batches;
    }
  }

  /** Producer n offers one run-dir whose only recs are the given ones. */
  function Offer(agent: string, runTs: string, recs: seq<Rec>): Visit {
    Visit(agent, 0, false, [RunDir(runTs, recs)], {}, true, true)
  }

  lemma OfferGoes(cfg: Config, agent: string, runTs: string, recs: seq<Rec>, already: set<string>)
    requires cfg.scanBudget > 0 && 0 < |recs| <= BatchCap(cfg)
    requires forall r :: r in recs ==> Eligible(r) && !Suppressed(agent, runTs, r, already)
    ensures forall j :: 0 <= j < |recs| ==> GoesFrom(cfg, Offer(agent, runTs, recs), already, 0, j, runTs, recs[j])
  {
    hide Eligible, Suppressed;
    var v := Offer(agent, runTs, recs);
    var p := IsDue(v, runTs, already);
    assert p(recs[0]) && DedupKey(runTs, recs[0]) !in v.ledger;
    FilterAll(recs, p);
    forall j | 0 <= j < |recs| ensures GoesFrom(cfg, v, already, 0, j, runTs, recs[j]) {
      FilterAt(recs, p, j);
    }
  }

  lemma OfferDispatched(cfg: Config, t: Tick, queued: seq<string>, n: nat, agent: string, runTs: string,
                        recs: seq<Rec>, r: Rec)
    requires n in TickServed(cfg, t, queued) && n < |t.visits| && t.visits[n] == Offer(agent, runTs, recs)
    requires cfg.scanBudget > 0 && 0 < |recs| <= BatchCap(cfg) && r in recs
    requires forall x :: x in recs ==> Eligible(x) && !Suppressed(agent, runTs, x, ToSet(queued))
    ensures Dispatches(TickOutcome(cfg, t, queued).batches, agent, runTs, r)
  {
    hide Eligible, Suppressed, Goes, TickOutcome, TickServed, Dispatches;
    OfferGoes(cfg, agent, runTs, recs, ToSet(queued));
    var j :| 0 <= j < |recs| && recs[j] == r;
    assert GoesAs(cfg, t, queued, n, 0, j, agent, runTs, r);
    DispatchedIff(cfg, t, queued, agent, runTs, r);
  }

  lemma OfferServes(cfg: Config, agent: string, runTs: string, recs: seq<Rec>, already: set<string>)
    requires cfg.scanBudget > 0 && 0 < |recs| <= BatchCap(cfg)
    requires forall x :: x in recs ==> Eligible(x) && !Suppressed(agent, runTs, x, already)
    ensures VisitBatch(cfg, Offer(agent, runTs, recs), already).recs != []
  {
    OfferGoes(cfg, agent, runTs, recs, already);
    VisitSends(cfg, Offer(agent, runTs, recs), already, 0, 0, runTs, recs[0]);
  }

  /** Any two eligible recs the window does not suppress, of two producers with one run stamp, are both dispatched by
      one tick: also when they carry one id, hence one dedup key. */
  lemma TwinProducers(cfg: Config, agent: string, agent': string, runTs: string, r: Rec, r': Rec, queued: seq<string>)
    requires cfg.maxProducers >= 2 && cfg.scanBudget > 0
    requires Eligible(r) && !Suppressed(agent, runTs, r, ToSet(queued))
    requires Eligible(r') && !Suppressed(agent', runTs, r', ToSet(queued))
    ensures var t := Tick(0, 3, 0, [Offer(agent, runTs, [r]), Offer(agent', runTs, [r'])]);
            Dispatches(TickOutcome(cfg, t, queued).batches, agent, runTs, r)
            && Dispatches(TickOutcome(cfg, t, queued).batches, agent', runTs, r')
  {
    hide Eligible, Suppressed, VisitBatch, Dispatches, TickOutcome;
    var t := Tick(0, 3, 0, [Offer(agent, runTs, [r]), Offer(agent', runTs, [r'])]);
    var already := ToSet(queued);
    OfferServes(cfg, agent, runTs, [r], already);
    OfferServes(cfg, agent', runTs, [r'], already);
    assert Served(cfg, 3, t.visits, 2, already, 2, 2) == [];
    assert Served(cfg, 3, t.visits, 1, already, 1, 1) == [1];
    assert TickServed(cfg, t, queued) == [0, 1];
    OfferDispatched(cfg, t, queued, 0, agent, runTs, [r], r);
    OfferDispatched(cfg, t, queued, 1, agent', runTs, [r'], r');
  }

  /** And so are any two of one run-dir, also when page and title agree, if the batch limit leaves room for both. */
  lemma TwinRecs(cfg: Config, agent: string, runTs: string, r: Rec, r': Rec, queued: seq<string>)
    requires cfg.maxProducers >= 1 && cfg.scanBudget > 0 && cfg.maxRecs >= 2
    requires Eligible(r) && !Suppressed(agent, runTs, r, ToSet(queued))
    requires Eligible(r') && !Suppressed(agent, runTs, r', ToSet(queued))
    ensures var t := Tick(0, 3, 0, [Offer(agent, runTs, [r, r'])]);
            Dispatches(TickOutcome(cfg, t, queued).batches, agent, runTs, r)
            && Dispatches(TickOutcome(cfg, t, queued).batches, agent, runTs, r')
  {
    hide Eligible, Suppressed, VisitBatch, Dispatches, TickOutcome;
    var t := Tick(0, 3, 0, [Offer(agent, runTs, [r, r'])]);
    OfferServes(cfg, agent, runTs, [r, r'], ToSet(queued));
    assert Served(cfg, 3, t.visits, 1, ToSet(queued), 1, 1) == [];
    assert TickServed(cfg, t, queued) == [0];
    OfferDispatched(cfg, t, queued, 0, agent, runTs, [r, r'], r);
    OfferDispatched(cfg, t, queued, 0, agent, runTs, [r, r'], r');
  }

  // ------------------------------------------------------------------ quiescence

  /** Producers whose run-dirs and eligibility stay fixed while ticks go by. */
  datatype Producer = Producer(agent: string, runs: seq<RunDir>)

  predicate Faces(t: Tick, world: seq<Producer>) {
    |t.visits| == |world| && forall i :: 0 <= i < |world| ==>
      t.visits[i].agent == world[i].agent && t.visits[i].runs == world[i].runs
  }

  /** The eligible recs the window does not suppress. */
  function Backlog(world: seq<Producer>, queued: seq<string>): set<(string, string, Rec)> {
    set p, d, r | p in world && d in p.runs && r in d.recs && Eligible(r)
        && !Suppressed(p.agent, d.runTs, r, ToSet(queued))
      :: (p.agent, d.runTs, r)
  }

  /** Every key any rec of the world can put in the window is one of `keys`. */
  predicate KeysWithin(world: seq<Producer>, keys: set<string>) {
    forall p, d, r :: p in world && d in p.runs && r in d.recs ==> ToSet(RecKeys(p.agent, d.runTs, r)) <= keys
  }

  lemma {:induction false} KeysOfRecsFrom(agent: string, runTs: string, recs: seq<Rec>, k: string)
    requires k in KeysOfRecs(agent, runTs, recs)
    ensures exists r :: r in recs && k in RecKeys(agent, runTs, r)
  {
    if k in RecKeys(agent, runTs, recs[0]) {
      assert recs[0] in recs;
    } else {
      KeysOfRecsFrom(agent, runTs, recs[1..], k);
    }
  }

  lemma {:induction false} KeysOfFrom(batches: seq<Batch>, k: string)
    requires k in KeysOf(batches)
    ensures exists b, r :: b in batches && r in b.recs && k in RecKeys(b.agent, b.runTs, r)
  {
    var b := batches[0];
    if k in KeysOfRecs(b.agent, b.runTs, b.recs) {
      KeysOfRecsFrom(b.agent, b.runTs, b.recs, k);
      assert b in batches;
    } else {
      KeysOfFrom(batches[1..], k);
    }
  }

  lemma DispatchedFromWorld(cfg: Config, t: Tick, world: seq<Producer>, queued: seq<string>, b: Batch, r: Rec)
    requires Faces(t, world) && b in TickOutcome(cfg, t, queued).batches && r in b.recs
    ensures exists p, d :: p in world && d in p.runs && r in d.recs && b.agent == p.agent && b.runTs == d.runTs
    ensures (b.agent, b.runTs, r) in Backlog(world, queued)
  {
    WalkBatches(cfg, TotalCap(t), t.visits, 0, ToSet(queued), 0, t.inflight, b);
    var v :| v in t.visits && v.agent == b.agent && BatchOf(cfg, v, b, ToSet(queued));
    var runs := Take(v.runs, cfg.scanBudget);
    var k :| 0 <= k < |runs| && b == RunBatch(cfg, v, runs[k], ToSet(queued));
    var d := runs[k];
    assert d == v.runs[k];
    RunBatchDue(cfg, v, d, ToSet(queued));
    var i :| 0 <= i < |world| && t.visits[i] == v;
    assert world[i] in world && d in world[i].runs && r in d.recs;
  }

  lemma NewKeysFromWorld(cfg: Config, t: Tick, world: seq<Producer>, queued: seq<string>, keys: set<string>)
    requires Faces(t, world) && KeysWithin(world, keys)
    ensures ToSet(NewKeys(cfg, t, queued)) <= keys
  {
    var batches := TickOutcome(cfg, t, queued).batches;
    FreshKeysAreNew(KeysOf(batches), ToSet(queued));
    forall k | k in NewKeys(cfg, t, queued) ensures k in keys {
      KeysOfFrom(batches, k);
      var b, r :| b in batches && r in b.recs && k in RecKeys(b.agent, b.runTs, r);
      DispatchedFromWorld(cfg, t, world, queued, b, r);
      assert k in ToSet(RecKeys(b.agent, b.runTs, r));
    }
  }

  /** While all keys fit in the window, a tick forgets none. */
  lemma TickForgetsNothing(cfg: Config, t: Tick, world: seq<Producer>, queued: seq<string>, keys: set<string>)
    requires Faces(t, world) && KeysWithin(world, keys) && |keys| <= WINDOW
    requires NoDup(queued) && ToSet(queued) <= keys
    ensures var next := NextQueued(cfg, t, queued);
            && next == queued + (if Throttled(t) then [] else NewKeys(cfg, t, queued))
            && NoDup(next)
            && ToSet(queued) <= ToSet(next) <= keys
  {
    var novel := NewKeys(cfg, t, queued);
    NewKeysFromWorld(cfg, t, world, queued, keys);
    FreshKeysAreNew(KeysOf(TickOutcome(cfg, t, queued).batches), ToSet(queued));
    NoDupConcat(queued, novel);
    NoDupCard(queued + novel);
    SubsetCard(ToSet(queued + novel), keys);
  }

  /** And then dispatching anything strictly shrinks the backlog. */
  lemma DispatchShrinksBacklog(cfg: Config, t: Tick, world: seq<Producer>, queued: seq<string>, keys: set<string>)
    requires Faces(t, world) && KeysWithin(world, keys) && |keys| <= WINDOW
    requires NoDup(queued) && ToSet(queued) <= keys
    ensures var next := NextQueued(cfg, t, queued);
            && Backlog(world, next) <= Backlog(world, queued)
            && (TickOutcome(cfg, t, queued).batches != [] ==> |Backlog(world, next)| < |Backlog(world, queued)|)
  {
    var next := NextQueued(cfg, t, queued);
    TickForgetsNothing(cfg, t, world, queued, keys);
    BacklogShrinks(world, queued, next);
    var batches := TickOutcome(cfg, t, queued).batches;
    if batches != [] {
      var b := batches[0];
      WalkBatches(cfg, TotalCap(t), t.visits, 0, ToSet(queued), 0, t.inflight, b);
      var r := b.recs[0];
      DispatchedFromWorld(cfg, t, world, queued, b, r);
      DispatchQueuesKeys(cfg, t, queued, b.agent, b.runTs, r);
      assert DedupKey(b.runTs, r) in ToSet(next);
      assert (b.agent, b.runTs, r) !in Backlog(world, next);
      SubsetCard(Backlog(world, next), Backlog(world, queued));
    }
  }

  lemma BacklogShrinks(world: seq<Producer>, queued: seq<string>, next: seq<string>)
    requires ToSet(queued) <= ToSet(next)
    ensures Backlog(world, next) <= Backlog(world, queued)
  {}

  function DispatchingTicks(cfg: Config, ticks: seq<Tick>, queued: seq<string>): nat {
    if ticks == [] then 0
    else
      var rest := DispatchingTicks(cfg, ticks[1..], NextQueued(cfg, ticks[0], queued));
      if TickOutcome(cfg, ticks[0], queued).batches == [] then rest else rest + 1
  }

  function Queue(cfg: Config, ticks: seq<Tick>, queued: seq<string>): seq<string> {
    if ticks == [] then queued else Queue(cfg, ticks[1..], NextQueued(cfg, ticks[0], queued))
  }

  /** However many ticks go by, and whichever of them are throttled or fail to dispatch, no
      more of them dispatch anything than there were recs in the backlog at the start. */
  lemma {:induction false} DispatchingIsBounded(cfg: Config, ticks: seq<Tick>, world: seq<Producer>,
                                                queued: seq<string>, keys: set<string>)
    requires forall t :: t in ticks ==> Faces(t, world)
    requires KeysWithin(world, keys) && |keys| <= WINDOW
    requires NoDup(queued) && ToSet(queued) <= keys
    ensures DispatchingTicks(cfg, ticks, queued)
            + |Backlog(world, Queue(cfg, ticks, queued))| <= |Backlog(world, queued)|
  {
    if ticks != [] {
      var next := NextQueued(cfg, ticks[0], queued);
      TickForgetsNothing(cfg, ticks[0], world, queued, keys);
      DispatchShrinksBacklog(cfg, ticks[0], world, queued, keys);
      SubsetCard(Backlog(world, next), Backlog(world, queued));
      DispatchingIsBounded(cfg, ticks[1..], world, next, keys);
    }
  }

  /** A tick on which nothing outside the recs themselves stands in the way. */
  predicate Unhindered(cfg: Config, t: Tick) {
    && !Throttled(t) && cfg.maxProducers > 0
    && forall v :: v in t.visits ==> v.accepted && !v.listFails && v.ledger == {} && |v.runs| <= cfg.scanBudget
  }

  lemma {:induction false} WalkFindsDue(cfg: Config, cap: nat, visits: seq<Visit>, i: nat, already: set<string>,
                                        scopes: nat)
    requires scopes < cap && cfg.maxProducers > 0
    requires forall v :: v in visits ==> v.accepted && !v.listFails && |v.runs| <= cfg.scanBudget
    requires Walk(cfg, cap, visits, i, already, 0, scopes).batches == []
    ensures forall k, d :: i <= k < |visits| && d in visits[k].runs ==> DueRecs(visits[k], d, already) == []
    decreases |visits| - i
  {
    if i < |visits| {
      var v := visits[i];
      PickIsBatch(cfg, v, Take(v.runs, cfg.scanBudget), already);
      WalkFindsDue(cfg, cap, visits, i + 1, already, AfterEnded(scopes, v.ended));
    }
  }

  lemma NotDue(v: Visit, d: RunDir, r: Rec, already: set<string>)
    requires DueRecs(v, d, already) == [] && r in d.recs
    ensures !Due(v.agent, d.runTs, r, already, v.ledger)
  {
    FilterIn(d.recs, IsDue(v, d.runTs, already));
  }

  /** An unhindered tick dispatches nothing exactly when the backlog is empty. */
  lemma IdleIffDrained(cfg: Config, t: Tick, world: seq<Producer>, queued: seq<string>)
    requires Faces(t, world) && Unhindered(cfg, t)
    ensures TickOutcome(cfg, t, queued).batches == [] <==> Backlog(world, queued) == {}
  {
    hide VisitBatch, Walk, Eligible, Suppressed, DedupKey;
    var already, batches := ToSet(queued), TickOutcome(cfg, t, queued).batches;
    if batches != [] {
      WalkBatches(cfg, TotalCap(t), t.visits, 0, already, 0, t.inflight, batches[0]);
      DispatchedFromWorld(cfg, t, world, queued, batches[0], batches[0].recs[0]);
    } else if Backlog(world, queued) != {} {
      WalkFindsDue(cfg, TotalCap(t), t.visits, 0, already, t.inflight);
      var p, d, r :| p in world && d in p.runs && r in d.recs && Eligible(r)
          && !Suppressed(p.agent, d.runTs, r, already);
      var i :| 0 <= i < |world| && world[i] == p;
      NotDue(t.visits[i], d, r, already);
    }
  }

  /** Unhindered ticks drain: as many of them as there are backlog recs leave none. */
  lemma {:induction false} UnhinderedTicksDrain(cfg: Config, ticks: seq<Tick>, world: seq<Producer>,
                                                queued: seq<string>, keys: set<string>)
    requires forall t :: t in ticks ==> Faces(t, world) && Unhindered(cfg, t)
    requires KeysWithin(world, keys) && |keys| <= WINDOW
    requires NoDup(queued) && ToSet(queued) <= keys
    requires |ticks| >= |Backlog(world, queued)|
    ensures Backlog(world, Queue(cfg, ticks, queued)) == {}
  {
    if ticks != [] {
      var next := NextQueued(cfg, ticks[0], queued);
      TickForgetsNothing(cfg, ticks[0], world, queued, keys);
      DispatchShrinksBacklog(cfg, ticks[0], world, queued, keys);
      IdleIffDrained(cfg, ticks[0], world, queued);
      SubsetCard(Backlog(world, next), Backlog(world, queued));
      UnhinderedTicksDrain(cfg, ticks[1..], world, next, keys);
    }
  }
}
