/** What a requeue run reads and writes, in the fields of recs and files. */
module RequeueRules {
  import opened Sequences
  import opened RequeueDeferred
  import opened RequeueOverRuns

  // ------------------------------------------------------------------ keys

  /** The type of a rec: its own, else its category, else unclassified. */
  predicate TypeIs(r: Rec, t: string) {
    || (r.kind != "" && t == r.kind)
    || (r.kind == "" && r.category != "" && t == r.category)
    || (r.kind == "" && r.category == "" && t == "unclassified")
  }

  lemma TypeIsUnique(r: Rec, t: string)
    ensures TypeIs(r, t) <==> t == EffectiveType(r)
  {}

  lemma {:induction false} SplitAtBar(a1: string, rest1: string, a2: string, rest2: string)
    requires '|' !in a1 && '|' !in a2
    ensures a1 + "|" + rest1 == a2 + "|" + rest2 <==> a1 == a2 && rest1 == rest2
  {
    var t1, t2 := a1 + "|" + rest1, a2 + "|" + rest2;
    if t1 == t2 {
      BarSplit(a1, rest1, a2, rest2);
      assert t1[|a1| + 1..] == rest1 && t2[|a2| + 1..] == rest2;
    }
  }

  /** Two recs share a canonical key exactly when agent, type, url and title agree. Only the title may hold a bar. */
  lemma SameKeyIff(a1: string, r1: Rec, a2: string, r2: Rec)
    requires '|' !in a1 && '|' !in r1.kind && '|' !in r1.category && '|' !in r1.url
    requires '|' !in a2 && '|' !in r2.kind && '|' !in r2.category && '|' !in r2.url
    ensures CanonicalKey(a1, r1) == CanonicalKey(a2, r2) <==>
            a1 == a2 && r1.url == r2.url && r1.title == r2.title && exists t :: TypeIs(r1, t) && TypeIs(r2, t)
  {
    var t1, t2 := EffectiveType(r1), EffectiveType(r2);
    TypeIsUnique(r1, t1);
    TypeIsUnique(r2, t2);
    forall t ensures TypeIs(r1, t) <==> t == t1 {
      TypeIsUnique(r1, t);
    }
    forall t ensures TypeIs(r2, t) <==> t == t2 {
      TypeIsUnique(r2, t);
    }
    SplitAtBar(r1.url, r1.title, r2.url, r2.title);
    SplitAtBar(t1, r1.url + "|" + r1.title, t2, r2.url + "|" + r2.title);
    SplitAtBar(a1, t1 + "|" + (r1.url + "|" + r1.title), a2, t2 + "|" + (r2.url + "|" + r2.title));
    KeyParts(a1, r1);
    KeyParts(a2, r2);
  }

  lemma KeyParts(a: string, r: Rec)
    ensures CanonicalKey(a, r) == a + "|" + (EffectiveType(r) + "|" + (r.url + "|" + r.title))
  {
    assert EffectiveType(r) + "|" + r.url + "|" + r.title == EffectiveType(r) + "|" + (r.url + "|" + r.title);
  }

  /** The entries a run reads are the recs that a listed file without a stamp defers, by id, and that are still there. */
  lemma EntriesReadAre(s: Store, listing: seq<RunKey>, e: Entry)
    ensures e in AllEntries(s, listing) <==>
            var k := (e.agent, e.runTs);
            && k in listing && k in s.files && !s.files[k].stamped
            && e.rid != "" && e.rid in s.files[k].deferred && k in s.sources && e.rid in s.sources[k]
            && e.key == CanonicalKey(e.agent, s.sources[k][e.rid])
  {
    hide CanonicalKey;
    AllEntriesAre(s, listing);
  }

  // ------------------------------------------------------------------ types

  /** A run gives each rec that a live file lists its type, and changes nothing else in any rec. */
  lemma TypesFilledIn(s: Store, listing: seq<RunKey>, k: RunKey, rid: string)
    requires k in s.sources && rid in s.sources[k]
    ensures var was := s.sources[k][rid];
            && k in AfterRun(s, listing).sources && rid in AfterRun(s, listing).sources[k]
            && var now := AfterRun(s, listing).sources[k][rid];
               now == was.(kind := now.kind)
               && (if k in listing && k in s.files && !s.files[k].stamped && rid != "" && rid in s.files[k].deferred
                   then TypeIs(was, now.kind) else now.kind == was.kind)
  {
    TypeIsUnique(s.sources[k][rid], EffectiveType(s.sources[k][rid]));
  }

  // ------------------------------------------------------------------ queue files

  predicate SiteIs(agent: string, site: string) {
    if "aisleprompt-" <= agent then site == "aisleprompt"
    else if "specpicks-" <= agent then site == "specpicks"
    else site == "site"
  }

  lemma SiteIsUnique(agent: string, site: string)
    ensures SiteIs(agent, site) <==> site == SiteFor(agent)
  {}

  /** A dispatch that shares run stamp and site with no other one leaves a queue file under the id of both, with its
      agent, site, run stamp and the rec ids picked from its run. */
  lemma DispatchWrites(s: Store, listing: seq<RunKey>, k: RunKey, site: string)
    requires k in Runs(Best(s, listing)) && SiteIs(k.0, site)
    requires forall o :: o in Runs(Best(s, listing)) && o != k ==> o.1 != k.1 || !SiteIs(o.0, site)
    ensures var queue, id := AfterRun(s, listing).queue, "r-" + k.1 + "-requeue-" + site;
            id in queue && queue[id] == Payload(k.0, site, k.1, Rids(Best(s, listing), k))
  {
    hide AfterRun, Best, Runs, SiteFor, Rids, SiteIs;
    var ticks := [Tick(s, listing)];
    SiteIsUnique(k.0, site);
    assert DispatchedAt(ticks, 0, k);
    forall m, o | DispatchedAt(ticks, m, o) && o != k ensures !SameFile(o, k) {
      SiteIsUnique(o.0, site);
    }
    StandsAtEnd(ticks, 0, k);
  }

  lemma KeyOrder()
    ensures TotalPreorder(KeyLe)
  {
    forall a, b ensures KeyLe(a, b) || KeyLe(b, a) {
      LessIsTotal(a.0, b.0);
      LessIsTotal(a.1, b.1);
    }
    forall a, b, c | KeyLe(a, b) && KeyLe(b, c) ensures KeyLe(a, c) {
      KeyLeTransitive(a, b, c);
    }
  }

  lemma KeyLeTransitive(a: RunKey, b: RunKey, c: RunKey)
    requires KeyLe(a, b) && KeyLe(b, c)
    ensures KeyLe(a, c)
  {
    hide Less;
    LessIsTotal(b.0, c.0);
    LessIsTotal(a.0, b.0);
    if Less(a.0, b.0) {
      LessTransitive(a.0, b.0, c.0);
    } else if !Less(b.0, c.0) && Less(c.1, a.1) {
      LessIsTotal(a.1, b.1);
      LessTransitive(c.1, a.1, b.1);
      assert false;
    }
  }

  /** Dispatches go out once each, by agent and then by run stamp. */
  lemma DispatchOrder(s: Store, listing: seq<RunKey>)
    ensures var d := Dispatches(Best(s, listing));
            && (forall k :: k in d <==> exists b :: b in Best(s, listing) && EntryRun(b) == k)
            && forall i, j :: 0 <= i < j < |d| ==> Less(d[i].0, d[j].0) || (d[i].0 == d[j].0 && Less(d[i].1, d[j].1))
  {
    hide Best, Less, StableSort;
    var runs := Runs(Best(s, listing));
    RunsAre(Best(s, listing));
    KeyOrder();
    SortSorted(runs, KeyLe);
    SortElements(runs, KeyLe);
    SortKeepsNoDup(runs);
    var d := StableSort(runs, KeyLe);
    forall i, j | 0 <= i < j < |d| ensures Less(d[i].0, d[j].0) || (d[i].0 == d[j].0 && Less(d[i].1, d[j].1)) {
      assert KeyLe(d[i], d[j]) && d[i] != d[j];
      LessIsTotal(d[i].1, d[j].1);
    }
  }
}
