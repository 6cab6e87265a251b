/** What requeueing guarantees within a run and over many runs, and where it stops. */
module RequeueOverRuns {
  import opened Sequences
  import opened RequeueDeferred

  // ------------------------------------------------------------------ newest entry per key

  predicate DistinctKeys(best: seq<Entry>) {
    forall i, j :: 0 <= i < j < |best| ==> best[i].key != best[j].key
  }

  /** b is the newest of its key's entries, the first of them if several are equally new. */
  predicate FirstNewest(b: Entry, entries: seq<Entry>) {
    && (forall e :: e in entries && e.key == b.key ==> !Less(b.runTs, e.runTs))
    && exists i :: 0 <= i < |entries| && entries[i] == b
         && forall j :: 0 <= j < i && entries[j].key == b.key ==> Less(entries[j].runTs, b.runTs)
  }

  predicate HasKey(best: seq<Entry>, key: string) {
    exists b :: b in best && b.key == key
  }

  predicate NewestPerKey(best: seq<Entry>, entries: seq<Entry>) {
    && DistinctKeys(best)
    && (forall b :: b in best ==> FirstNewest(b, entries))
    && (forall e :: e in entries ==> HasKey(best, e.key))
  }

  lemma {:induction false} PutKeys(best: seq<Entry>, e: Entry)
    requires DistinctKeys(best)
    ensures DistinctKeys(Put(best, e))
    ensures forall k :: HasKey(Put(best, e), k) <==> k == e.key || HasKey(best, k)
  {
    hide Less;
    if best == [] {
      assert Put(best, e) == [e] && e in [e];
    } else if best[0].key == e.key {
      HasKeyCons(e, best[1..]);
      HasKeyCons(best[0], best[1..]);
      assert best == [best[0]] + best[1..];
    } else {
      PutKeys(best[1..], e);
      HasKeyCons(best[0], Put(best[1..], e));
      HasKeyCons(best[0], best[1..]);
      assert best == [best[0]] + best[1..];
      DistinctCons(best[0], best[1..], Put(best[1..], e), e.key);
    }
  }

  lemma DistinctCons(b: Entry, t: seq<Entry>, put: seq<Entry>, key: string)
    requires DistinctKeys([b] + t) && DistinctKeys(put) && b.key != key
    requires forall k :: HasKey(put, k) <==> k == key || HasKey(t, k)
    ensures DistinctKeys([b] + put)
  {
    forall i | 0 <= i < |t| ensures t[i].key != b.key {
      assert ([b] + t)[0] == b && ([b] + t)[i + 1] == t[i];
    }
    assert !HasKey(t, b.key);
    forall j | 0 <= j < |put| ensures put[j].key != b.key {
      assert put[j] in put && HasKey(put, put[j].key);
    }
  }

  lemma HasKeyCons(b: Entry, s: seq<Entry>)
    ensures forall k :: HasKey([b] + s, k) <==> k == b.key || HasKey(s, k)
  {
    forall k ensures HasKey([b] + s, k) <==> k == b.key || HasKey(s, k) {
      assert b in [b] + s;
      if o :| o in s && o.key == k {
        assert o in [b] + s;
      }
    }
  }

  /** An entry is still there only if e is not newer; e is there only if it is new or newer. */
  lemma {:induction false} PutMembers(best: seq<Entry>, e: Entry, b: Entry)
    requires DistinctKeys(best) && b in Put(best, e)
    ensures (b in best && (b.key == e.key ==> !Less(b.runTs, e.runTs)))
            || (b == e && (HasKey(best, e.key) ==> exists o :: o in best && o.key == e.key && Less(o.runTs, e.runTs)))
  {
    hide Less;
    if best != [] {
      if best[0].key == e.key {
        assert best == [best[0]] + best[1..];
        if b in best[1..] {
          var i :| 0 <= i < |best[1..]| && best[1..][i] == b;
          assert best[i + 1] == b;
        }
      } else if b != best[0] {
        PutMembers(best[1..], e, b);
        HasKeyCons(best[0], best[1..]);
        assert best == [best[0]] + best[1..];
      }
    }
  }

  lemma FirstNewestAppend(b: Entry, entries: seq<Entry>, e: Entry)
    requires FirstNewest(b, entries) && (e.key == b.key ==> !Less(b.runTs, e.runTs))
    ensures FirstNewest(b, entries + [e])
  {
    hide Less;
    var i :| 0 <= i < |entries| && entries[i] == b && forall j :: 0 <= j < i && entries[j].key == b.key ==>
        Less(entries[j].runTs, b.runTs);
    assert (entries + [e])[i] == b;
  }

  lemma FirstNewestLast(entries: seq<Entry>, e: Entry)
    requires forall x :: x in entries && x.key == e.key ==> Less(x.runTs, e.runTs)
    ensures FirstNewest(e, entries + [e])
  {
    hide Less;
    var all := entries + [e];
    forall x | x in all && x.key == e.key ensures !Less(e.runTs, x.runTs) {
      LessIsTotal(e.runTs, x.runTs);
      assert x in entries || x == e;
    }
    assert all[|entries|] == e;
    assert forall j :: 0 <= j < |entries| ==> all[j] == entries[j] && entries[j] in entries;
  }

  lemma NewestAfterPut(best: seq<Entry>, init: seq<Entry>, e: Entry, b: Entry)
    requires NewestPerKey(best, init) && b in Put(best, e)
    ensures FirstNewest(b, init + [e])
  {
    hide Less, Put;
    PutMembers(best, e, b);
    if b in best && (b.key == e.key ==> !Less(b.runTs, e.runTs)) {
      FirstNewestAppend(b, init, e);
    } else {
      forall x | x in init && x.key == e.key ensures Less(x.runTs, e.runTs) {
        assert HasKey(best, e.key);
        var o :| o in best && o.key == e.key && Less(o.runTs, e.runTs);
        assert FirstNewest(o, init) && !Less(o.runTs, x.runTs);
        LessIsTotal(o.runTs, x.runTs);
        LessIsTotal(x.runTs, e.runTs);
        if !Less(x.runTs, e.runTs) {
          LessTransitive(o.runTs, e.runTs, x.runTs);
        }
      }
      FirstNewestLast(init, e);
    }
  }

  /** The dictionary built by the scan holds exactly the newest entry of every key. */
  lemma {:induction false} ScanKeepsNewest(entries: seq<Entry>)
    ensures NewestPerKey(PutAll([], entries), entries)
  {
    hide Less, Put, FirstNewest;
    if entries != [] {
      var init, e := entries[..|entries| - 1], entries[|entries| - 1];
      assert entries == init + [e];
      ScanKeepsNewest(init);
      var best := PutAll([], init);
      PutKeys(best, e);
      forall b | b in Put(best, e) ensures FirstNewest(b, entries) {
        NewestAfterPut(best, init, e, b);
      }
      forall x | x in entries ensures HasKey(Put(best, e), x.key) {
        assert x in init || x == e;
      }
    }
  }

  lemma {:induction false} PutAllConcat(best: seq<Entry>, a: seq<Entry>, b: seq<Entry>)
    ensures PutAll(best, a + b) == PutAll(PutAll(best, a), b)
    decreases |b|
  {
    if b == [] {
      assert a + b == a;
    } else {
      assert (a + b)[..|a + b| - 1] == a + b[..|b| - 1];
      PutAllConcat(best, a, b[..|b| - 1]);
    }
  }

  lemma {:induction false} BestIsScan(s: Store, listing: seq<RunKey>)
    ensures Best(s, listing) == PutAll([], AllEntries(s, listing))
  {
    if listing != [] {
      BestIsScan(s, listing[..|listing| - 1]);
      PutAllConcat([], AllEntries(s, listing[..|listing| - 1]), LiveEntries(s, listing[|listing| - 1]));
    }
  }

  // ------------------------------------------------------------------ where entries come from

  /** An entry is determined by its run and rec id. */
  predicate EntryFrom(s: Store, e: Entry) {
    && EntryRun(e) in s.files && !s.files[EntryRun(e)].stamped
    && e.rid != "" && e.rid in s.files[EntryRun(e)].deferred
    && e.rid in SourceOf(s, EntryRun(e))
    && e.key == CanonicalKey(e.agent, SourceOf(s, EntryRun(e))[e.rid])
  }

  lemma {:induction false} EntriesAre(k: RunKey, deferred: seq<string>, recs: map<string, Rec>)
    ensures forall e :: e in EntriesOf(k, deferred, recs) <==>
              e.agent == k.0 && e.runTs == k.1 && e.rid != "" && e.rid in deferred && e.rid in recs
                  && e.key == CanonicalKey(k.0, recs[e.rid])
  {
    hide CanonicalKey;
    if deferred != [] {
      var init, rid := deferred[..|deferred| - 1], deferred[|deferred| - 1];
      EntriesAre(k, init, recs);
      assert forall x :: x in deferred <==> x in init || x == rid;
    }
  }

  lemma LiveEntriesAre(s: Store, k: RunKey)
    ensures forall e :: e in LiveEntries(s, k) <==> EntryRun(e) == k && EntryFrom(s, e)
  {
    hide CanonicalKey;
    if k in s.files {
      EntriesAre(k, s.files[k].deferred, SourceOf(s, k));
    }
  }

  lemma {:induction false} AllEntriesAre(s: Store, listing: seq<RunKey>)
    ensures forall e :: e in AllEntries(s, listing) <==> EntryRun(e) in listing && EntryFrom(s, e)
  {
    if listing != [] {
      var init, k := listing[..|listing| - 1], listing[|listing| - 1];
      AllEntriesAre(s, init);
      LiveEntriesAre(s, k);
      assert forall x :: x in listing <==> x in init || x == k;
    }
  }

  /** What a run queues, as (run, rec id). */
  function Triples(best: seq<Entry>): seq<(RunKey, string)> {
    seq(|best|, i requires 0 <= i < |best| => (EntryRun(best[i]), best[i].rid))
  }

  /** Within one run: exactly the newest live entry of every canonical key is picked, and two
      picked entries never share both run and rec id. */
  lemma RunPicksNewest(s: Store, listing: seq<RunKey>)
    ensures NewestPerKey(Best(s, listing), AllEntries(s, listing))
    ensures forall e :: e in AllEntries(s, listing) <==> EntryRun(e) in listing && EntryFrom(s, e)
    ensures forall b :: b in Best(s, listing) ==> EntryRun(b) in listing && EntryFrom(s, b)
    ensures NoDup(Triples(Best(s, listing)))
  {
    var best := Best(s, listing);
    BestIsScan(s, listing);
    ScanKeepsNewest(AllEntries(s, listing));
    AllEntriesAre(s, listing);
    forall b | b in best ensures EntryFrom(s, b) && EntryRun(b) in listing {
      assert FirstNewest(b, AllEntries(s, listing));
    }
    forall i, j | 0 <= i < j < |best| ensures Triples(best)[i] != Triples(best)[j] {
      assert best[i] in best && best[j] in best;
    }
  }

  /** The payloads of a run carry exactly the picked entries: rec id by rec id, in scan order. */
  lemma {:induction false} RidsAre(best: seq<Entry>, k: RunKey)
    ensures forall rid :: rid in Rids(best, k) <==> exists b :: b in best && EntryRun(b) == k && b.rid == rid
    ensures NoDup(Triples(best)) ==> NoDup(Rids(best, k))
  {
    if best != [] {
      var init, b := best[..|best| - 1], best[|best| - 1];
      RidsAre(init, k);
      assert best == init + [b];
      assert forall x :: x in best <==> x in init || x == b;
      if NoDup(Triples(best)) {
        assert Triples(init) == Triples(best)[..|init|];
        forall i | 0 <= i < |init| ensures (EntryRun(init[i]), init[i].rid) != (EntryRun(b), b.rid) {
          assert Triples(best)[i] != Triples(best)[|init|];
        }
        assert forall i, j :: 0 <= i < j < |init| ==> Triples(init)[i] != Triples(init)[j];
        assert EntryRun(b) == k ==> b.rid !in Rids(init, k);
      }
    }
  }

  lemma {:induction false} RunsAre(best: seq<Entry>)
    ensures forall k :: k in Runs(best) <==> exists b :: b in best && EntryRun(b) == k
    ensures NoDup(Runs(best))
  {
    if best != [] {
      var init, b := best[..|best| - 1], best[|best| - 1];
      RunsAre(init);
      assert best == init + [b];
      assert forall x :: x in best <==> x in init || x == b;
    }
  }

  // ------------------------------------------------------------------ what a run leaves behind

  lemma {:induction false} BackfillKeepsEntries(k: RunKey, deferred: seq<string>, recs: map<string, Rec>,
                                                all: seq<string>)
    ensures EntriesOf(k, deferred, BackfillIn(recs, all)) == EntriesOf(k, deferred, recs)
  {
    if deferred != [] {
      BackfillKeepsEntries(k, deferred[..|deferred| - 1], recs, all);
      var rid := deferred[|deferred| - 1];
      if rid in recs {
        BackfillKeepsKey(k.0, recs[rid]);
      }
    }
  }

  function Winners(s: Store, listing: seq<RunKey>): set<RunKey> { ToSet(Runs(Best(s, listing))) }

  /** The allowlist files that still hold a live entry. */
  function LiveFiles(s: Store, listing: seq<RunKey>): set<RunKey> {
    set k | k in listing && LiveEntries(s, k) != []
  }

  /** A run takes the files it dispatched from out of play and leaves every other file's entries alone. */
  lemma EntriesAfterRun(s: Store, listing: seq<RunKey>, k: RunKey)
    ensures LiveEntries(AfterRun(s, listing), k) == if k in Winners(s, listing) then [] else LiveEntries(s, k)
  {
    hide Best, Runs, QueueAll, Dispatches, EntriesOf, BackfillIn;
    if k in s.files && k !in Winners(s, listing) && k in s.sources {
      BackfillKeepsEntries(k, s.files[k].deferred, s.sources[k], s.files[k].deferred);
    }
    if k in s.files && k !in s.sources {
      assert SourceOf(AfterRun(s, listing), k) == map[];
    }
  }

  lemma WinnersAreLive(s: Store, listing: seq<RunKey>)
    ensures Winners(s, listing) <= LiveFiles(s, listing)
    ensures LiveFiles(s, listing) != {} ==> Winners(s, listing) != {}
    ensures LiveFiles(s, listing) == {} ==> Best(s, listing) == []
  {
    hide Best, LiveEntries, FirstNewest, DistinctKeys;
    var best := Best(s, listing);
    RunPicksNewest(s, listing);
    RunsAre(best);
    forall k | k in Winners(s, listing) ensures k in LiveFiles(s, listing) {
      var b :| b in best && EntryRun(b) == k;
      LiveEntriesAre(s, k);
      assert b in LiveEntries(s, k);
    }
    if k :| k in LiveFiles(s, listing) {
      var e := LiveEntries(s, k)[0];
      LiveEntriesAre(s, k);
      assert e in LiveEntries(s, k);
      assert e in AllEntries(s, listing);
      var b :| b in best && b.key == e.key;
      assert EntryRun(b) in Winners(s, listing);
    } else {
      WinnersEmptyIff(s, listing);
    }
  }

  lemma WinnersEmptyIff(s: Store, listing: seq<RunKey>)
    ensures Winners(s, listing) == {} <==> Best(s, listing) == []
  {
    var best := Best(s, listing);
    RunsAre(best);
    if best != [] {
      assert best[0] in best && EntryRun(best[0]) in Winners(s, listing);
    }
  }

  lemma LiveFilesShrink(s: Store, listing: seq<RunKey>)
    ensures LiveFiles(AfterRun(s, listing), listing) == LiveFiles(s, listing) - Winners(s, listing)
    ensures LiveFiles(s, listing) != {} ==> |LiveFiles(AfterRun(s, listing), listing)| < |LiveFiles(s, listing)|
  {
    hide AfterRun, LiveEntries, Winners;
    var left := LiveFiles(AfterRun(s, listing), listing);
    forall k ensures k in left <==> k in LiveFiles(s, listing) && k !in Winners(s, listing) {
      EntriesAfterRun(s, listing, k);
    }
    WinnersAreLive(s, listing);
    if LiveFiles(s, listing) != {} {
      SubsetCard(left, LiveFiles(s, listing));
    }
  }

  function RunRepeatedly(s: Store, listing: seq<RunKey>, n: nat): Store
    decreases n
  {
    if n == 0 then s else RunRepeatedly(AfterRun(s, listing), listing, n - 1)
  }

  lemma HasEntry(k: RunKey, deferred: seq<string>, recs: map<string, Rec>, rid: string)
    requires rid in recs && rid != "" && rid in deferred
    ensures EntriesOf(k, deferred, recs) != []
  {
    EntriesAre(k, deferred, recs);
    assert Entry(CanonicalKey(k.0, recs[rid]), k.0, k.1, rid) in EntriesOf(k, deferred, recs);
  }

  lemma NothingLeftMeansNoChange(s: Store, listing: seq<RunKey>)
    requires LiveFiles(s, listing) == {}
    ensures AfterRun(s, listing) == s && Best(s, listing) == []
  {
    hide Best;
    WinnersAreLive(s, listing);
    assert Best(s, listing) == [] && Runs([]) == [] && ToSet<RunKey>([]) == {};
    assert StampAll(s.files, {}) == s.files;
    forall k | k in s.sources && k in listing && k in s.files && !s.files[k].stamped
      ensures BackfillIn(s.sources[k], s.files[k].deferred) == s.sources[k]
    {
      assert k !in LiveFiles(s, listing);
      forall rid ensures !(rid in s.sources[k] && rid != "" && rid in s.files[k].deferred) {
        if rid in s.sources[k] && rid != "" && rid in s.files[k].deferred {
          HasEntry(k, s.files[k].deferred, s.sources[k], rid);
        }
      }
    }
    assert BackfillAll(s, listing) == s.sources;
  }

  /** Re-running reaches a fixpoint after at most one run per live file, and then stays there. */
  lemma {:induction false} RunsReachFixpoint(s: Store, listing: seq<RunKey>, n: nat)
    requires n >= |LiveFiles(s, listing)|
    ensures LiveFiles(RunRepeatedly(s, listing, n), listing) == {}
    ensures AfterRun(RunRepeatedly(s, listing, n), listing) == RunRepeatedly(s, listing, n)
    decreases n
  {
    hide AfterRun, LiveFiles;
    if LiveFiles(s, listing) == {} {
      NothingLeftMeansNoChange(s, listing);
      if n > 0 {
        RunsReachFixpoint(s, listing, n - 1);
      }
    } else {
      LiveFilesShrink(s, listing);
      RunsReachFixpoint(AfterRun(s, listing), listing, n - 1);
    }
  }

  // ------------------------------------------------------------------ how often a key is queued

  /** Running again at once queues nothing exactly when every live file held a newest entry. */
  lemma SecondRunQueuesNothingIff(s: Store, listing: seq<RunKey>)
    ensures Best(AfterRun(s, listing), listing) == [] <==> LiveFiles(s, listing) == Winners(s, listing)
  {
    hide AfterRun, Best, Winners, LiveFiles;
    LiveFilesShrink(s, listing);
    WinnersAreLive(s, listing);
    WinnersAreLive(AfterRun(s, listing), listing);
    WinnersEmptyIff(AfterRun(s, listing), listing);
  }

  lemma FirstNewestUnique(b: Entry, o: Entry, entries: seq<Entry>)
    requires FirstNewest(b, entries) && FirstNewest(o, entries) && b.key == o.key
    ensures b == o
  {
    hide Less;
    var i :| (
      0 <= i < |entries| && entries[i] == b
      && forall j :: 0 <= j < i && entries[j].key == b.key ==> Less(entries[j].runTs, b.runTs));
    var i' :| (
      0 <= i' < |entries| && entries[i'] == o
      && forall j :: 0 <= j < i' && entries[j].key == o.key ==> Less(entries[j].runTs, o.runTs));
    assert entries[i] in entries && entries[i'] in entries;
    assert i == i';
  }

  /** The file of run k holds the newest live entry of some canonical key. */
  predicate HoldsNewest(s: Store, listing: seq<RunKey>, k: RunKey) {
    exists b :: b in AllEntries(s, listing) && EntryRun(b) == k && FirstNewest(b, AllEntries(s, listing))
  }

  /** Which files a run dispatches from can be read off the entries before the run. */
  lemma WinnersHoldNewest(s: Store, listing: seq<RunKey>)
    ensures forall k :: k in Winners(s, listing) <==> HoldsNewest(s, listing, k)
  {
    hide Best, LiveEntries, FirstNewest, DistinctKeys, EntryFrom, AllEntries, Triples;
    var best, entries := Best(s, listing), AllEntries(s, listing);
    RunPicksNewest(s, listing);
    RunsAre(best);
    forall b | b in best ensures b in entries {
      FirstNewestIn(b, entries);
    }
    forall e | e in entries && FirstNewest(e, entries) ensures e in best {
      var b :| b in best && b.key == e.key;
      FirstNewestUnique(e, b, entries);
    }
  }

  lemma FirstNewestIn(b: Entry, entries: seq<Entry>)
    requires FirstNewest(b, entries)
    ensures b in entries
  {}

  /** A canonical key queued once comes back on the next run exactly when one of its entries sits in a file that holds
      the newest entry of no key at all, for such a file stays unstamped. */
  lemma KeyRequeuedIff(s: Store, listing: seq<RunKey>, key: string)
    ensures HasKey(Best(AfterRun(s, listing), listing), key)
            <==> exists e :: e in AllEntries(s, listing) && e.key == key && !HoldsNewest(s, listing, EntryRun(e))
  {
    hide AfterRun, Best, Winners, LiveEntries, FirstNewest, DistinctKeys, HoldsNewest, EntryFrom;
    var later := AfterRun(s, listing);
    RunPicksNewest(later, listing);
    RunPicksNewest(s, listing);
    WinnersHoldNewest(s, listing);
    forall e
      ensures e in AllEntries(later, listing) <==> e in AllEntries(s, listing) && EntryRun(e) !in Winners(s, listing)
    {
      EntriesAfterRun(s, listing, EntryRun(e));
      LiveEntriesAre(s, EntryRun(e));
      LiveEntriesAre(later, EntryRun(e));
    }
  }

  /** Two runs of one agent deferred the same rec: one run of the script queues the newer copy,
      the next run queues the older one. */
  lemma KeyQueuedTwice()
    ensures exists s: Store, listing: seq<RunKey>, key: string ::
              NoDup(listing) && HasKey(Best(s, listing), key) && HasKey(Best(AfterRun(s, listing), listing), key)
  {
    hide CanonicalKey, Best, AfterRun;
    var older, newer := ("a", "1"), ("a", "2");
    var recs := map["r" := Rec("t", "", "x", "u")];
    var file := AllowFile(false, ["r"]);
    var s := Store(map[older := file, newer := file], map[older := recs, newer := recs], map[]);
    var key := CanonicalKey("a", recs["r"]);
    OneRec(older, recs, "r");
    OneRec(newer, recs, "r");
    OlderComesBack(s, Entry(key, "a", "1", "r"), Entry(key, "a", "2", "r"));
    assert NoDup([older, newer]);
  }

  lemma OlderComesBack(s: Store, e1: Entry, e2: Entry)
    requires LiveEntries(s, EntryRun(e1)) == [e1] && LiveEntries(s, EntryRun(e2)) == [e2]
    requires e1.key == e2.key && Less(e1.runTs, e2.runTs)
    ensures HasKey(Best(s, [EntryRun(e1), EntryRun(e2)]), e1.key)
    ensures HasKey(Best(AfterRun(s, [EntryRun(e1), EntryRun(e2)]), [EntryRun(e1), EntryRun(e2)]), e1.key)
  {
    hide LiveEntries, AfterRun, Best, PutAll, AllEntries, HoldsNewest;
    var listing := [EntryRun(e1), EntryRun(e2)];
    TwoEntries(s, EntryRun(e1), EntryRun(e2), e1, e2);
    WinnersHoldNewest(s, listing);
    LessIsTotal(e1.runTs, e2.runTs);
    RunsAre([e2]);
    assert e2 in Best(s, listing);
    assert e1 in AllEntries(s, listing) && EntryRun(e1) !in Winners(s, listing);
    KeyRequeuedIff(s, listing, e1.key);
  }

  lemma OneRec(k: RunKey, recs: map<string, Rec>, rid: string)
    requires rid in recs && rid != ""
    ensures EntriesOf(k, [rid], recs) == [Entry(CanonicalKey(k.0, recs[rid]), k.0, k.1, rid)]
  {
    EntriesStep(k, [], rid, recs);
  }

  lemma OneMoreFile(s: Store, listing: seq<RunKey>, k: RunKey, e: Entry)
    requires LiveEntries(s, k) == [e]
    ensures AllEntries(s, []) == [] && Best(s, []) == []
    ensures AllEntries(s, listing + [k]) == AllEntries(s, listing) + [e]
    ensures Best(s, listing + [k]) == Put(Best(s, listing), e)
  {
    hide LiveEntries, Less;
    assert (listing + [k])[..|listing|] == listing;
    PutAllStep(Best(s, listing), [], e);
    assert [] + [e] == [e];
  }

  lemma TwoEntries(s: Store, k1: RunKey, k2: RunKey, e1: Entry, e2: Entry)
    requires LiveEntries(s, k1) == [e1] && LiveEntries(s, k2) == [e2] && e1.key == e2.key && Less(e1.runTs, e2.runTs)
    ensures AllEntries(s, [k1, k2]) == [e1, e2] && Best(s, [k1, k2]) == [e2]
  {
    hide LiveEntries, Less, PutAll, AllEntries, Best;
    OneMoreFile(s, [], k1, e1);
    OneMoreFile(s, [k1], k2, e2);
    assert [] + [k1] == [k1] && [k1] + [k2] == [k1, k2] && [] + [e1] == [e1] && [e1] + [e2] == [e1, e2];
  }

  // ------------------------------------------------------------------ at most once, over all runs

  /** What may happen between two runs: anything, except that a stamped file keeps its stamp. */
  predicate StampsKept(s: Store, t: Store) {
    forall k :: k in s.files && s.files[k].stamped ==> k in t.files && t.files[k].stamped
  }

  datatype Tick = Tick(before: Store, listing: seq<RunKey>)

  predicate Runnable(ticks: seq<Tick>) {
    forall i :: 0 < i < |ticks| ==> StampsKept(AfterRun(ticks[i - 1].before, ticks[i - 1].listing), ticks[i].before)
  }

  /** Everything queued by a sequence of runs. */
  function Queued(ticks: seq<Tick>): seq<(RunKey, string)> {
    if ticks == [] then []
    else Queued(ticks[..|ticks| - 1]) + Triples(Best(ticks[|ticks| - 1].before, ticks[|ticks| - 1].listing))
  }

  predicate AllStamped(h: seq<(RunKey, string)>, s: Store) {
    forall t :: t in h ==> t.0 in s.files && s.files[t.0].stamped
  }

  lemma TriplesAre(best: seq<Entry>)
    ensures forall t :: t in Triples(best) <==> exists b :: b in best && t == (EntryRun(b), b.rid)
  {
    forall b | b in best ensures (EntryRun(b), b.rid) in Triples(best) {
      var i :| 0 <= i < |best| && best[i] == b;
      assert Triples(best)[i] == (EntryRun(b), b.rid);
    }
  }

  lemma RunStampsWhatItQueues(s: Store, listing: seq<RunKey>)
    ensures AllStamped(Triples(Best(s, listing)), AfterRun(s, listing))
    ensures StampsKept(s, AfterRun(s, listing))
    ensures forall t :: t in Triples(Best(s, listing)) ==> t.0 in s.files && !s.files[t.0].stamped
  {
    hide Best, BackfillAll, QueueAll, FirstNewest, DistinctKeys, AllEntries;
    RunPicksNewest(s, listing);
    RunsAre(Best(s, listing));
    TriplesAre(Best(s, listing));
  }

  /** Whatever happens between runs, as long as stamps stay: no rec of a run is ever queued twice. */
  lemma {:induction false} QueuedAtMostOnce(ticks: seq<Tick>)
    requires Runnable(ticks)
    ensures NoDup(Queued(ticks))
    ensures ticks != [] ==> AllStamped(Queued(ticks), AfterRun(ticks[|ticks| - 1].before, ticks[|ticks| - 1].listing))
  {
    hide AfterRun, Best, Triples;
    if ticks != [] {
      var init, last := ticks[..|ticks| - 1], ticks[|ticks| - 1];
      assert forall i :: 0 <= i < |init| ==> init[i] == ticks[i];
      QueuedAtMostOnce(init);
      RunStampsWhatItQueues(last.before, last.listing);
      RunPicksNewest(last.before, last.listing);
      if init != [] {
        assert StampsKept(AfterRun(init[|init| - 1].before, init[|init| - 1].listing), last.before);
        assert AllStamped(Queued(init), last.before);
      }
      NoDupConcat(Queued(init), Triples(Best(last.before, last.listing)));
    }
  }

  // ------------------------------------------------------------------ queue files

  /** The request id of a queue file names its run and site and nothing else. */
  lemma RequestIdNamesRunAndSite(ts1: string, agent1: string, ts2: string, agent2: string)
    ensures RequestId(ts1, SiteFor(agent1)) == RequestId(ts2, SiteFor(agent2))
            <==> ts1 == ts2 && SiteFor(agent1) == SiteFor(agent2)
  {
    var s1, s2 := SiteFor(agent1), SiteFor(agent2);
    var id1, id2 := RequestId(ts1, s1), RequestId(ts2, s2);
    if id1 == id2 {
      assert id1[|id1| - 1] == s1[|s1| - 1] && id2[|id2| - 1] == s2[|s2| - 1];
      assert s1 == s2;
      assert id1[2..2 + |ts1|] == ts1 && id2[2..2 + |ts2|] == ts2;
    }
  }

  /** The queue after a run: each request id holds the payload of the last dispatch with that id. */
  lemma {:induction false} QueueHolds(queue: map<string, Payload>, best: seq<Entry>, runs: seq<RunKey>, i: nat)
    requires i < |runs|
    requires forall j :: i < j < |runs| ==> RequestOf(runs[j]) != RequestOf(runs[i])
    ensures RequestOf(runs[i]) in QueueAll(queue, best, runs)
    ensures QueueAll(queue, best, runs)[RequestOf(runs[i])] == PayloadOf(best, runs[i])
  {
    hide RequestOf, PayloadOf;
    var init := runs[..|runs| - 1];
    if i < |runs| - 1 {
      assert forall j :: 0 <= j < |init| ==> init[j] == runs[j];
      QueueHolds(queue, best, init, i);
    }
  }

  lemma {:induction false} QueueKeeps(queue: map<string, Payload>, best: seq<Entry>, runs: seq<RunKey>, id: string)
    requires forall k :: k in runs ==> RequestOf(k) != id
    ensures id in QueueAll(queue, best, runs) <==> id in queue
    ensures id in queue ==> QueueAll(queue, best, runs)[id] == queue[id]
  {
    hide RequestOf, PayloadOf;
    if runs != [] {
      QueueKeeps(queue, best, runs[..|runs| - 1], id);
    }
  }

  /** The queue file of dispatch k is there and holds the payload the dispatch wrote. */
  predicate Stands(queue: map<string, Payload>, best: seq<Entry>, k: RunKey) {
    RequestOf(k) in queue && queue[RequestOf(k)] == PayloadOf(best, k)
  }

  predicate SameFile(k1: RunKey, k2: RunKey) {
    k1.1 == k2.1 && SiteFor(k1.0) == SiteFor(k2.0)
  }

  lemma SameFileIff(k1: RunKey, k2: RunKey)
    ensures RequestOf(k1) == RequestOf(k2) <==> SameFile(k1, k2)
  {
    RequestIdNamesRunAndSite(k1.1, k1.0, k2.1, k2.0);
  }

  function BestAt(ticks: seq<Tick>, n: nat): seq<Entry>
    requires n < |ticks|
  {
    Best(ticks[n].before, ticks[n].listing)
  }

  function QueueAfter(t: Tick): map<string, Payload> { AfterRun(t.before, t.listing).queue }

  /** No queue file is touched between runs. */
  predicate QueueKept(ticks: seq<Tick>) {
    forall i :: 0 < i < |ticks| ==> ticks[i].before.queue == QueueAfter(ticks[i - 1])
  }

  /** The n-th run dispatches k. */
  predicate DispatchedAt(ticks: seq<Tick>, n: nat, k: RunKey) {
    n < |ticks| && k in Runs(BestAt(ticks, n))
  }

  /** The file of k holds the newest live entry of some key in the store before the n-th run. */
  predicate HoldsAt(ticks: seq<Tick>, n: nat, k: RunKey) {
    n < |ticks| && HoldsNewest(ticks[n].before, ticks[n].listing, k)
  }

  /** A run that was dispatched once has a stamped file from then on. */
  lemma {:induction false} StampedSince(ticks: seq<Tick>, n: nat, m: nat, k: RunKey)
    requires Runnable(ticks) && DispatchedAt(ticks, n, k) && n < m < |ticks|
    ensures k in ticks[m].before.files && ticks[m].before.files[k].stamped
    decreases m
  {
    hide AfterRun, Best, Runs;
    var t := ticks[m - 1];
    RunStampsWhatItQueues(t.before, t.listing);
    if n < m - 1 {
      StampedSince(ticks, n, m - 1, k);
    } else {
      DispatchStamps(t, k);
    }
    assert StampsKept(AfterRun(t.before, t.listing), ticks[m].before);
  }

  lemma DispatchStamps(t: Tick, k: RunKey)
    requires k in Runs(Best(t.before, t.listing))
    ensures k in t.before.files && !t.before.files[k].stamped
    ensures k in AfterRun(t.before, t.listing).files && AfterRun(t.before, t.listing).files[k].stamped
  {
    hide AfterRun, Best;
    var best := Best(t.before, t.listing);
    RunsAre(best);
    var b :| b in best && EntryRun(b) == k;
    TriplesAre(best);
    assert (EntryRun(b), b.rid) in Triples(best);
    RunStampsWhatItQueues(t.before, t.listing);
  }

  /** A dispatch whose file no other dispatch of the same or a later run shares stands after the last run. */
  lemma {:induction false} StandsAtEnd(ticks: seq<Tick>, n: nat, k: RunKey)
    requires Runnable(ticks) && QueueKept(ticks) && DispatchedAt(ticks, n, k)
    requires forall m, o :: DispatchedAt(ticks, m, o) && o != k ==> !SameFile(o, k)
    ensures Stands(QueueAfter(ticks[|ticks| - 1]), BestAt(ticks, n), k)
    decreases |ticks|
  {
    hide AfterRun, Best, Runs, SameFile, PayloadOf, RequestOf, QueueAll;
    var last := |ticks| - 1;
    var best, runs := BestAt(ticks, last), Dispatches(BestAt(ticks, last));
    QueueAfterIs(ticks[last]);
    SortElements(Runs(best), KeyLe);
    forall o | o in runs && o != k ensures RequestOf(o) != RequestOf(k) {
      assert DispatchedAt(ticks, last, o);
      SameFileIff(o, k);
    }
    if n == last {
      RunsAre(best);
      SortKeepsNoDup(Runs(best));
      var i :| 0 <= i < |runs| && runs[i] == k;
      assert forall j :: i < j < |runs| ==> runs[j] in runs && runs[j] != k;
      QueueHolds(ticks[last].before.queue, best, runs, i);
    } else {
      StampedSince(ticks, n, last, k);
      if k in runs {
        DispatchStamps(ticks[last], k);
      }
      var init := ticks[..last];
      assert DispatchedAt(init, n, k) && BestAt(init, n) == BestAt(ticks, n);
      forall m, o | DispatchedAt(init, m, o) && o != k ensures !SameFile(o, k) {
        assert DispatchedAt(ticks, m, o);
      }
      StandsAtEnd(init, n, k);
      QueueKeeps(ticks[last].before.queue, best, runs, RequestOf(k));
    }
  }

  lemma QueueAfterIs(t: Tick)
    ensures var best := Best(t.before, t.listing);
            QueueAfter(t) == QueueAll(t.before.queue, best, Dispatches(best))
  {
    hide Best, Dispatches, QueueAll;
  }

  /** Over any sequence of runs that keeps stamps and queue files: every dispatch of every run has its queue file, with
      its own payload, after the last run exactly when no two of all these dispatches share run stamp and site; that
      is, when no two of the files that hold the newest live entry of some key before a run do. Two agents of one site
      that ran at the same second overwrite each other, within a run and across runs. */
  lemma DispatchesSurviveRunsIff(ticks: seq<Tick>)
    requires Runnable(ticks) && QueueKept(ticks) && ticks != []
    ensures (forall n, k :: DispatchedAt(ticks, n, k) ==> Stands(QueueAfter(ticks[|ticks| - 1]), BestAt(ticks, n), k))
            <==> (forall n, k, m, o :: HoldsAt(ticks, n, k) && HoldsAt(ticks, m, o) && o != k ==> !SameFile(o, k))
    ensures (forall n, k :: DispatchedAt(ticks, n, k) ==> Stands(QueueAfter(ticks[|ticks| - 1]), BestAt(ticks, n), k))
            <==> (forall n, k, m, o :: DispatchedAt(ticks, n, k) && DispatchedAt(ticks, m, o) && o != k ==>
                 !SameFile(o, k))
  {
    hide AfterRun, Best, Runs, SameFile, RequestOf, QueueAfter, HoldsNewest;
    forall n: nat, k ensures HoldsAt(ticks, n, k) <==> DispatchedAt(ticks, n, k) {
      if n < |ticks| {
        WinnersHoldNewest(ticks[n].before, ticks[n].listing);
      }
    }
    if forall n, k, m, o :: DispatchedAt(ticks, n, k) && DispatchedAt(ticks, m, o) && o != k ==> !SameFile(o, k) {
      forall n, k | DispatchedAt(ticks, n, k)
        ensures Stands(QueueAfter(ticks[|ticks| - 1]), BestAt(ticks, n), k)
      {
        StandsAtEnd(ticks, n, k);
      }
    }
    forall k, o ensures RequestOf(k) == RequestOf(o) <==> SameFile(o, k) {
      SameFileIff(o, k);
    }
  }

  /** In particular after a single run. */
  lemma DispatchesSurviveIff(s: Store, listing: seq<RunKey>)
    ensures (forall k :: k in Runs(Best(s, listing)) ==> Stands(AfterRun(s, listing).queue, Best(s, listing), k))
            <==> (forall k, o :: k in Runs(Best(s, listing)) && o in Runs(Best(s, listing)) && o != k ==>
                 !SameFile(o, k))
  {
    hide AfterRun, Best, Runs, SameFile, Stands;
    var ticks := [Tick(s, listing)];
    DispatchesSurviveRunsIff(ticks);
    assert forall k :: k in Runs(Best(s, listing)) <==> DispatchedAt(ticks, 0, k);
    assert forall n, k :: DispatchedAt(ticks, n, k) ==> n == 0;
  }

  lemma SortKeepsNoDup(runs: seq<RunKey>)
    requires NoDup(runs)
    ensures NoDup(StableSort(runs, KeyLe))
  {
    var sorted := StableSort(runs, KeyLe);
    SortElements(runs, KeyLe);
    NoDupCard(runs);
    assert ToSet(sorted) == ToSet(runs);
    CardNoDup(sorted);
  }

  lemma {:induction false} CardNoDup<T>(s: seq<T>)
    ensures |ToSet(s)| <= |s|
    ensures |ToSet(s)| == |s| ==> NoDup(s)
  {
    if s != [] {
      CardNoDup(s[1..]);
      assert ToSet(s) == {s[0]} + ToSet(s[1..]);
      if s[0] in s[1..] {
        assert ToSet(s) == ToSet(s[1..]);
      }
    }
  }

  /** Agent ids carry no bar, so entries of different agents never share a canonical key. */
  lemma {:induction false} KeyNamesAgent(a1: string, r1: Rec, a2: string, r2: Rec)
    requires '|' !in a1 && '|' !in a2
    requires CanonicalKey(a1, r1) == CanonicalKey(a2, r2)
    ensures a1 == a2
  {
    BarSplit(a1, EffectiveType(r1) + "|" + r1.url + "|" + r1.title,
             a2, EffectiveType(r2) + "|" + r2.url + "|" + r2.title);
  }

  lemma {:induction false} BarSplit(a1: string, rest1: string, a2: string, rest2: string)
    requires '|' !in a1 && '|' !in a2
    requires a1 + "|" + rest1 == a2 + "|" + rest2
    ensures a1 == a2
  {
    var t1, t2 := a1 + "|" + rest1, a2 + "|" + rest2;
    assert t1[|a1|] == '|' && t2[|a2|] == '|';
    assert forall i :: 0 <= i < |a1| ==> t1[i] == a1[i] && a1[i] in a1;
    assert forall i :: 0 <= i < |a2| ==> t2[i] == a2[i] && a2[i] in a2;
    assert t1[..|a1|] == a1 && t2[..|a2|] == a2;
  }
}
