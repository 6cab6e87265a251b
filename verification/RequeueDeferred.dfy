/** Requeueing deferred recs: the scan that keeps the newest rec per canonical key, and the
    queue files and stamps one run of the script writes. */
module RequeueDeferred {
  import opened Sequences

  /** Title and URL are already normalised and trimmed; type and category are trimmed. */
  datatype Rec = Rec(kind: string, category: string, title: string, url: string)

  /** A deferred-by-allowlist file: its requeued_at stamp and the rec ids it lists. */
  datatype AllowFile = AllowFile(stamped: bool, deferred: seq<string>)

  /** (agent, run_ts): it names an allowlist file, a recommendations file and a dispatch. */
  type RunKey = (string, string)

  datatype Payload = Payload(agent: string, site: string, runTs: string, recIds: seq<string>)

  datatype Entry = Entry(key: string, agent: string, runTs: string, rid: string)

  // ------------------------------------------------------------------ keys

  function EffectiveType(r: Rec): string {
    if r.kind != "" then r.kind else if r.category != "" then r.category else "unclassified"
  }

  function Backfilled(r: Rec): Rec { r.(kind := EffectiveType(r)) }

  function CanonicalKey(agent: string, r: Rec): string {
    agent + "|" + (EffectiveType(r) + "|" + r.url + "|" + r.title)
  }

  predicate KeyLe(a: RunKey, b: RunKey) {
    Less(a.0, b.0) || (a.0 == b.0 && !Less(b.1, a.1))
  }

  function SiteFor(agent: string): string {
    if "aisleprompt-" <= agent then "aisleprompt" else if "specpicks-" <= agent then "specpicks" else "site"
  }

  function RequestId(runTs: string, site: string): string { "r-" + runTs + "-requeue-" + site }

  // ------------------------------------------------------------------ the scan

  /** The entries of one allowlist file whose source rec exists. */
  function EntriesOf(k: RunKey, deferred: seq<string>, recs: map<string, Rec>): seq<Entry> {
    if deferred == [] then []
    else
      var rest := EntriesOf(k, deferred[..|deferred| - 1], recs);
      var rid := deferred[|deferred| - 1];
      if rid == "" || rid !in recs then rest else rest + [Entry(CanonicalKey(k.0, recs[rid]), k.0, k.1, rid)]
  }

  datatype Store = Store(
    files: map<RunKey, AllowFile>, sources: map<RunKey, map<string, Rec>>, queue: map<string, Payload>)

  function SourceOf(s: Store, k: RunKey): map<string, Rec> {
    if k in s.sources then s.sources[k] else map[]
  }

  function LiveEntries(s: Store, k: RunKey): seq<Entry> {
    if k in s.files && !s.files[k].stamped then EntriesOf(k, s.files[k].deferred, SourceOf(s, k)) else []
  }

  function AllEntries(s: Store, listing: seq<RunKey>): seq<Entry> {
    if listing == [] then []
    else AllEntries(s, listing[..|listing| - 1]) + LiveEntries(s, listing[|listing| - 1])
  }

  /** by_key: an insertion-ordered dictionary in which only a newer run replaces an entry. */
  function Put(best: seq<Entry>, e: Entry): seq<Entry> {
    if best == [] then [e]
    else if best[0].key == e.key then (if Less(best[0].runTs, e.runTs) then [e] + best[1..] else best)
    else [best[0]] + Put(best[1..], e)
  }

  function PutAll(best: seq<Entry>, entries: seq<Entry>): seq<Entry> {
    if entries == [] then best else Put(PutAll(best, entries[..|entries| - 1]), entries[|entries| - 1])
  }

  function Best(s: Store, listing: seq<RunKey>): seq<Entry> {
    if listing == [] then []
    else PutAll(Best(s, listing[..|listing| - 1]), LiveEntries(s, listing[|listing| - 1]))
  }

  // ------------------------------------------------------------------ what a run writes

  function EntryRun(e: Entry): RunKey { (e.agent, e.runTs) }

  /** The dispatched runs, each once, in order of first appearance. */
  function Runs(best: seq<Entry>): seq<RunKey> {
    if best == [] then []
    else
      var rest := Runs(best[..|best| - 1]);
      var k := EntryRun(best[|best| - 1]);
      if k in rest then rest else rest + [k]
  }

  function Rids(best: seq<Entry>, k: RunKey): seq<string> {
    if best == [] then []
    else
      var rest := Rids(best[..|best| - 1], k);
      if EntryRun(best[|best| - 1]) == k then rest + [best[|best| - 1].rid] else rest
  }

  function PayloadOf(best: seq<Entry>, k: RunKey): Payload {
    Payload(k.0, SiteFor(k.0), k.1, Rids(best, k))
  }

  function RequestOf(k: RunKey): string { RequestId(k.1, SiteFor(k.0)) }

  function Dispatches(best: seq<Entry>): seq<RunKey> { StableSort(Runs(best), KeyLe) }

  function QueueAll(queue: map<string, Payload>, best: seq<Entry>, runs: seq<RunKey>): map<string, Payload> {
    if runs == [] then queue
    else QueueAll(queue, best, runs[..|runs| - 1])[RequestOf(runs[|runs| - 1]) := PayloadOf(best, runs[|runs| - 1])]
  }

  function StampAll(files: map<RunKey, AllowFile>, runs: set<RunKey>): map<RunKey, AllowFile> {
    map k | k in files :: if k in runs then files[k].(stamped := true) else files[k]
  }

  function BackfillIn(recs: map<string, Rec>, deferred: seq<string>): map<string, Rec> {
    map rid | rid in recs :: if rid != "" && rid in deferred then Backfilled(recs[rid]) else recs[rid]
  }

  /** Source recs that a live entry refers to get their missing type filled in. */
  function BackfillAll(s: Store, listing: seq<RunKey>): map<RunKey, map<string, Rec>> {
    map k | k in s.sources ::
      if k in listing && k in s.files && !s.files[k].stamped
          then BackfillIn(s.sources[k], s.files[k].deferred) else s.sources[k]
  }

  function AfterRun(s: Store, listing: seq<RunKey>): Store {
    var best := Best(s, listing);
    Store(StampAll(s.files, ToSet(Runs(best))), BackfillAll(s, listing), QueueAll(s.queue, best, Dispatches(best)))
  }

  class Requeuer {
    var store: Store

    constructor (store: Store)
      ensures this.store == store
    {
      this.store := store;
    }

    /** Scans one allowlist file, filling in types and keeping the newest entry per key. */
    method ScanFile(k: RunKey, deferred: seq<string>, recs: map<string, Rec>, best: seq<Entry>)
      returns (recs': map<string, Rec>, best': seq<Entry>)
      ensures recs' == BackfillIn(recs, deferred)
      ensures best' == PutAll(best, EntriesOf(k, deferred, recs))
    {
      hide CanonicalKey, Backfilled, BackfillIn, EntriesOf, Put;
      recs', best' := recs, best;
      BackfillNone(recs);
      EntriesNone(k, recs);
      for i := 0 to |deferred|
        invariant recs' == BackfillIn(recs, deferred[..i])
        invariant best' == PutAll(best, EntriesOf(k, deferred[..i], recs))
      {
        var rid := deferred[i];
        assert deferred[..i + 1] == deferred[..i] + [rid];
        BackfillStep(recs, deferred[..i], rid);
        ghost var entries := EntriesOf(k, deferred[..i], recs);
        EntriesStep(k, deferred[..i], rid, recs);
        if rid != "" && rid in recs {
          BackfillKeepsKey(k.0, recs'[rid]);
          var e := Entry(CanonicalKey(k.0, Backfilled(recs'[rid])), k.0, k.1, rid);
          recs' := recs'[rid := Backfilled(recs'[rid])];
          PutAllStep(best, entries, e);
          best' := Put(best', e);
        }
      }
      assert deferred[..|deferred|] == deferred;
    }

    /** One run of the script over the allowlist files in `listing`. */
    method Run(listing: seq<RunKey>) returns (dispatched: seq<RunKey>)
      requires NoDup(listing)
      modifies this
      ensures store == AfterRun(old(store), listing)
      ensures dispatched == Dispatches(Best(old(store), listing))
    {
      var best := Scan(listing);
      dispatched := Dispatches(best);
      WriteQueue(best, dispatched);
      SortElements(Runs(best), KeyLe);
    }

    method Scan(listing: seq<RunKey>) returns (best: seq<Entry>)
      requires NoDup(listing)
      modifies this
      ensures best == Best(old(store), listing)
      ensures store == old(store).(sources := BackfillAll(old(store), listing))
    {
      hide EntriesOf, BackfillIn;
      best := [];
      for i := 0 to |listing|
        invariant best == Best(old(store), listing[..i])
        invariant store == old(store).(sources := BackfillAll(old(store), listing[..i]))
      {
        var k := listing[i];
        assert listing[..i + 1][..i] == listing[..i] && listing[..i + 1] == listing[..i] + [k];
        BackfillAllStep(old(store), listing[..i], k);
        if k in store.files && !store.files[k].stamped {
          var recs;
          recs, best := ScanFile(k, store.files[k].deferred, SourceOf(store, k), best);
          if k in store.sources {
            store := store.(sources := store.sources[k := recs]);
          }
        }
      }
      assert listing[..|listing|] == listing;
    }

    /** Writes one queue file per dispatch and stamps the file it came from. */
    method WriteQueue(best: seq<Entry>, dispatched: seq<RunKey>)
      modifies this
      ensures store == old(store).(queue := QueueAll(old(store).queue, best, dispatched),
                                   files := StampAll(old(store).files, ToSet(dispatched)))
    {
      hide PayloadOf, RequestOf, StampAll, QueueAll;
      NothingWritten(store, best);
      for i := 0 to |dispatched|
        invariant store == old(store).(queue := QueueAll(old(store).queue, best, dispatched[..i]),
                                       files := StampAll(old(store).files, ToSet(dispatched[..i])))
      {
        var k := dispatched[i];
        assert dispatched[..i + 1] == dispatched[..i] + [k];
        WriteStep(old(store), best, dispatched[..i], k);
        store := store.(queue := store.queue[RequestOf(k) := PayloadOf(best, k)]);
        if k in store.files {
          store := store.(files := store.files[k := store.files[k].(stamped := true)]);
        }
      }
      assert dispatched[..|dispatched|] == dispatched;
    }
  }

  lemma NothingWritten(s: Store, best: seq<Entry>)
    ensures QueueAll(s.queue, best, []) == s.queue && StampAll(s.files, ToSet<RunKey>([])) == s.files
  {}

  lemma WriteStep(s: Store, best: seq<Entry>, done: seq<RunKey>, k: RunKey)
    ensures QueueAll(s.queue, best, done + [k]) == QueueAll(s.queue, best, done)[RequestOf(k) := PayloadOf(best, k)]
    ensures StampAll(s.files, ToSet(done)).Keys == s.files.Keys
    ensures StampAll(s.files, ToSet(done + [k])) ==
            if k in s.files
                then StampAll(s.files, ToSet(done))[k := StampAll(s.files, ToSet(done))[k].(stamped := true)]
            else StampAll(s.files, ToSet(done))
  {
    hide PayloadOf, RequestOf;
    assert (done + [k])[..|done|] == done;
    assert ToSet(done + [k]) == ToSet(done) + {k};
  }

  /** Filling in a missing type changes neither the key of a rec nor what a second fill does. */
  lemma BackfillKeepsKey(agent: string, r: Rec)
    ensures CanonicalKey(agent, Backfilled(r)) == CanonicalKey(agent, r)
    ensures Backfilled(Backfilled(r)) == Backfilled(r)
  {}

  lemma BackfillNone(recs: map<string, Rec>)
    ensures BackfillIn(recs, []) == recs
  {}

  lemma EntriesNone(k: RunKey, recs: map<string, Rec>)
    ensures EntriesOf(k, [], recs) == []
  {}

  lemma BackfillStep(recs: map<string, Rec>, deferred: seq<string>, rid: string)
    ensures BackfillIn(recs, []) == recs && BackfillIn(recs, deferred).Keys == recs.Keys
    ensures rid in recs && rid != "" ==>
              (forall agent :: CanonicalKey(agent, BackfillIn(recs, deferred)[rid]) == CanonicalKey(agent, recs[rid]))
              && BackfillIn(recs, deferred + [rid])
                 == BackfillIn(recs, deferred)[rid := Backfilled(BackfillIn(recs, deferred)[rid])]
    ensures !(rid in recs && rid != "") ==> BackfillIn(recs, deferred + [rid]) == BackfillIn(recs, deferred)
  {
    assert forall x :: x in deferred + [rid] <==> x in deferred || x == rid;
  }

  lemma EntriesStep(k: RunKey, deferred: seq<string>, rid: string, recs: map<string, Rec>)
    ensures EntriesOf(k, deferred + [rid], recs) ==
      if rid == "" || rid !in recs then EntriesOf(k, deferred, recs)
      else EntriesOf(k, deferred, recs) + [Entry(CanonicalKey(k.0, recs[rid]), k.0, k.1, rid)]
  {
    assert (deferred + [rid])[..|deferred|] == deferred;
  }

  lemma PutAllStep(best: seq<Entry>, entries: seq<Entry>, e: Entry)
    ensures PutAll(best, entries + [e]) == Put(PutAll(best, entries), e)
  {
    assert (entries + [e])[..|entries|] == entries;
  }

  lemma BackfillAllStep(s: Store, listing: seq<RunKey>, k: RunKey)
    requires k !in listing
    ensures BackfillAll(s, []) == s.sources
    ensures k in s.sources ==> k in BackfillAll(s, listing) && BackfillAll(s, listing)[k] == s.sources[k]
    ensures BackfillAll(s, listing + [k]) ==
      if k in s.sources && k in s.files && !s.files[k].stamped
      then BackfillAll(s, listing)[k := BackfillIn(s.sources[k], s.files[k].deferred)] else BackfillAll(s, listing)
  {
    hide BackfillIn;
    assert forall x :: x in listing + [k] <==> x in listing || x == k;
  }
}
