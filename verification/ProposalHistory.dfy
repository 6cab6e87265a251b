/** What merging, closing and backfilling amount to, proposal by proposal, over any history. */
module ProposalHistory {
  import opened Sequences
  import opened ProposalAccumulator

  predicate UniqueIds(ps: seq<Entry>) {
    forall i, j :: 0 <= i < j < |ps| ==> ps[i].id != ps[j].id
  }

  function Lookup(ps: seq<Entry>, id: string): Option<Entry> {
    match IndexOf(ps, id) case None => None case Some(i) => Some(ps[i])
  }

  predicate Concerns(pid: string -> string, it: Item, id: string) {
    it.rec.title != "" && pid(it.rec.title) == id
  }

  /** The life of one proposal: only the recs whose title has its id touch it. */
  function Evolve(pid: string -> string, o: Option<Entry>, items: seq<Item>, id: string,
                  backfill: bool): Option<Entry> {
    if items == [] then o
    else
      var was, it := Evolve(pid, o, items[..|items| - 1], id, backfill), items[|items| - 1];
      if !Concerns(pid, it, id) then was
      else if was.None? then Some(Added(id, it.rec, it.stamp, backfill))
      else Some(Seen(was.value, it.rec, it.stamp, backfill))
  }

  // ------------------------------------------------------------------ the list is a keyed collection

  lemma StepUnique(pid: string -> string, ps: seq<Entry>, it: Item, backfill: bool)
    requires UniqueIds(ps)
    ensures UniqueIds(Step(pid, ps, it, backfill))
    ensures |ps| <= |Step(pid, ps, it, backfill)| && forall i :: 0 <= i < |ps| ==>
            Step(pid, ps, it, backfill)[i].id == ps[i].id
  {}

  /** No history of merges or backfills ever gives two entries one id, or moves an entry. */
  lemma {:induction false} IdsStayUnique(pid: string -> string, ps: seq<Entry>, items: seq<Item>, backfill: bool)
    requires UniqueIds(ps)
    ensures UniqueIds(MergeAll(pid, ps, items, backfill))
    ensures |ps| <= |MergeAll(pid, ps, items, backfill)|
    ensures forall i :: 0 <= i < |ps| ==> MergeAll(pid, ps, items, backfill)[i].id == ps[i].id
  {
    hide Step;
    if items != [] {
      IdsStayUnique(pid, ps, items[..|items| - 1], backfill);
      StepUnique(pid, MergeAll(pid, ps, items[..|items| - 1], backfill), items[|items| - 1], backfill);
    }
  }

  lemma StepAt(pid: string -> string, ps: seq<Entry>, it: Item, id: string, backfill: bool)
    ensures Lookup(Step(pid, ps, it, backfill), id) ==
            if !Concerns(pid, it, id) then Lookup(ps, id)
            else if Lookup(ps, id).None? then Some(Added(id, it.rec, it.stamp, backfill))
            else Some(Seen(Lookup(ps, id).value, it.rec, it.stamp, backfill))
  {
    hide Seen, Added;
    if it.rec.title != "" {
      var key := pid(it.rec.title);
      match IndexOf(ps, key) {
        case None =>
          AddedHasId(key, it, backfill);
          assert (ps + [Added(key, it.rec, it.stamp, backfill)])[..|ps|] == ps;
        case Some(i) =>
          SeenKeepsIndex(ps, i, it, backfill);
      }
    }
  }

  /** Merging a whole history, looked up at one id, is that proposal's own life. */
  lemma {:induction false} MergeAt(pid: string -> string, ps: seq<Entry>, items: seq<Item>, id: string, backfill: bool)
    ensures Lookup(MergeAll(pid, ps, items, backfill), id) == Evolve(pid, Lookup(ps, id), items, id, backfill)
  {
    hide Step, Seen, Added, Lookup;
    if items != [] {
      MergeAt(pid, ps, items[..|items| - 1], id, backfill);
      StepAt(pid, MergeAll(pid, ps, items[..|items| - 1], backfill), items[|items| - 1], id, backfill);
    }
  }

  // ------------------------------------------------------------------ counting, stickiness

  function Occurrences(pid: string -> string, items: seq<Item>, id: string): nat {
    if items == [] then 0
    else Occurrences(pid, items[..|items| - 1], id) + if Concerns(pid, items[|items| - 1], id) then 1 else 0
  }

  function Times(o: Option<Entry>): nat { if o.Some? then o.value.times else 0 }

  lemma {:induction false} LifeCounts(pid: string -> string, o: Option<Entry>, items: seq<Item>, id: string,
                                      backfill: bool)
    ensures Times(Evolve(pid, o, items, id, backfill)) == Times(o) + Occurrences(pid, items, id)
    ensures Evolve(pid, o, items, id, backfill).Some? <==> o.Some? || Occurrences(pid, items, id) > 0
  {
    hide Copied;
    if items != [] {
      LifeCounts(pid, o, items[..|items| - 1], id, backfill);
    }
  }

  /** times_seen is the number of titled recs with that id ever merged, and an entry exists once there was one. */
  lemma TimesSeenCounts(pid: string -> string, ps: seq<Entry>, items: seq<Item>, id: string, backfill: bool)
    ensures Times(Lookup(MergeAll(pid, ps, items, backfill), id)) == Times(Lookup(ps, id)) + Occurrences(pid, items, id)
    ensures Lookup(MergeAll(pid, ps, items, backfill), id).Some?
            <==> Lookup(ps, id).Some? || Occurrences(pid, items, id) > 0
  {
    MergeAt(pid, ps, items, id, backfill);
    LifeCounts(pid, Lookup(ps, id), items, id, backfill);
  }

  /** Once closed, an entry's state, fields and closing record are never touched again, by merges or by backfills. */
  lemma {:induction false} ClosedIsSticky(pid: string -> string, ps: seq<Entry>, items: seq<Item>, id: string,
                                          backfill: bool)
    requires Lookup(ps, id).Some? && Lookup(ps, id).value.state != "open"
    ensures var was, now := Lookup(ps, id).value, Lookup(MergeAll(pid, ps, items, backfill), id);
            now.Some? && now.value.state == was.state && now.value.fields == was.fields
                && now.value.changed == was.changed
  {
    hide Copied, Step, Lookup;
    if items != [] {
      ClosedIsSticky(pid, ps, items[..|items| - 1], id, backfill);
      StepAt(pid, MergeAll(pid, ps, items[..|items| - 1], backfill), items[|items| - 1], id, backfill);
    }
  }

  /** A merge never moves an entry to another state: new ones are open, the rest keep theirs. */
  lemma {:induction false} MergeKeepsStates(pid: string -> string, ps: seq<Entry>, items: seq<Item>, id: string)
    ensures var now := Lookup(MergeAll(pid, ps, items, false), id);
            now.Some? ==> now.value.state == if Lookup(ps, id).Some? then Lookup(ps, id).value.state else "open"
    ensures Lookup(ps, id).Some? ==> Lookup(MergeAll(pid, ps, items, false), id).Some?
  {
    hide Copied, Step, Lookup;
    if items != [] {
      MergeKeepsStates(pid, ps, items[..|items| - 1], id);
      StepAt(pid, MergeAll(pid, ps, items[..|items| - 1], false), items[|items| - 1], id, false);
    }
  }

  // ------------------------------------------------------------------ splitting a run in two

  /** An entry without its clock readings and run names. */
  function Timeless(e: Entry): Entry {
    var none := Stamp("", "");
    e.(first := none, last := none, changed := if e.changed.Some? then Some(("", e.changed.value.1)) else None)
  }

  function AllTimeless(ps: seq<Entry>): seq<Entry> {
    seq(|ps|, i requires 0 <= i < |ps| => Timeless(ps[i]))
  }

  lemma TimelessStep(pid: string -> string, a: seq<Entry>, b: seq<Entry>, rec: Rec, s: Stamp, t: Stamp, backfill: bool)
    requires AllTimeless(a) == AllTimeless(b)
    ensures AllTimeless(Step(pid, a, Item(rec, s), backfill)) == AllTimeless(Step(pid, b, Item(rec, t), backfill))
  {
    hide Copied;
    assert |a| == |AllTimeless(a)| == |b|;
    forall i | 0 <= i < |a| ensures a[i].id == b[i].id && Timeless(a[i]) == Timeless(b[i]) {
      assert AllTimeless(a)[i] == AllTimeless(b)[i];
    }
    if rec.title != "" {
      SameIdsSameIndex(a, b, pid(rec.title));
    }
  }

  lemma {:induction false} TimelessMerge(pid: string -> string, a: seq<Entry>, b: seq<Entry>, x: seq<Item>,
                                         y: seq<Item>, backfill: bool)
    requires AllTimeless(a) == AllTimeless(b)
    requires |x| == |y| && forall i :: 0 <= i < |x| ==> x[i].rec == y[i].rec
    ensures AllTimeless(MergeAll(pid, a, x, backfill)) == AllTimeless(MergeAll(pid, b, y, backfill))
  {
    hide Step, AllTimeless;
    if x != [] {
      var n := |x| - 1;
      TimelessMerge(pid, a, b, x[..n], y[..n], backfill);
      TimelessStep(pid, MergeAll(pid, a, x[..n], backfill), MergeAll(pid, b, y[..n], backfill), x[n].rec, x[n].stamp,
          y[n].stamp, backfill);
    }
  }

  lemma {:induction false} MergeConcat(pid: string -> string, ps: seq<Entry>, a: seq<Item>, b: seq<Item>,
                                       backfill: bool)
    ensures MergeAll(pid, ps, a + b, backfill) == MergeAll(pid, MergeAll(pid, ps, a, backfill), b, backfill)
    decreases |b|
  {
    hide Step;
    if b == [] {
      assert a + b == a;
    } else {
      assert (a + b)[..|a + b| - 1] == a + b[..|b| - 1];
      MergeConcat(pid, ps, a, b[..|b| - 1], backfill);
    }
  }

  /** Two runs merged one after the other leave what one run with all their recs leaves, but for the stamps. */
  lemma RunsCompose(pid: string -> string, ps: seq<Entry>, a: seq<Rec>, b: seq<Rec>, s: Stamp, t: Stamp, u: Stamp)
    ensures AllTimeless(MergeAll(pid, MergeAll(pid, ps, Stamped(a, s), false), Stamped(b, t), false))
            == AllTimeless(MergeAll(pid, ps, Stamped(a + b, u), false))
  {
    hide MergeAll, AllTimeless;
    MergeConcat(pid, ps, Stamped(a, s), Stamped(b, t), false);
    TimelessMerge(pid, ps, ps, Stamped(a, s) + Stamped(b, t), Stamped(a + b, u), false);
  }

  // ------------------------------------------------------------------ backfill

  predicate ShippedSomewhere(pid: string -> string, items: seq<Item>, id: string) {
    exists it :: it in items && Concerns(pid, it, id) && it.rec.shipped
  }

  lemma ShippedSnoc(pid: string -> string, items: seq<Item>, id: string)
    requires items != []
    ensures var init, it := items[..|items| - 1], items[|items| - 1];
            ShippedSomewhere(pid, items, id)
            <==> ShippedSomewhere(pid, init, id) || (Concerns(pid, it, id) && it.rec.shipped)
  {
    hide Concerns;
    assert items == items[..|items| - 1] + [items[|items| - 1]];
  }

  predicate Implemented(o: Option<Entry>) { o.Some? && o.value.state == "implemented" }

  predicate Reachable(o: Option<Entry>) { o.None? || o.value.state == "open" }

  lemma {:induction false} LifeImplements(pid: string -> string, o: Option<Entry>, items: seq<Item>, id: string)
    ensures Implemented(Evolve(pid, o, items, id, true))
            <==> Implemented(o) || (Reachable(o) && ShippedSomewhere(pid, items, id))
    ensures Reachable(Evolve(pid, o, items, id, true)) <==> Reachable(o) && !ShippedSomewhere(pid, items, id)
  {
    hide Copied, Concerns, ShippedSomewhere;
    if items == [] {
      assert !ShippedSomewhere(pid, items, id) by { NothingShipped(pid, id); }
    } else {
      LifeImplements(pid, o, items[..|items| - 1], id);
      ShippedSnoc(pid, items, id);
    }
  }

  lemma NothingShipped(pid: string -> string, id: string)
    ensures !ShippedSomewhere(pid, [], id)
  {}

  /** After a backfill a proposal is implemented exactly when it already was, or it was open or unknown and
      some snapshot shows it shipped. */
  lemma BackfillImplementsIff(pid: string -> string, ps: seq<Entry>, items: seq<Item>, id: string)
    ensures Implemented(Lookup(MergeAll(pid, ps, items, true), id))
            <==> Implemented(Lookup(ps, id)) || (Reachable(Lookup(ps, id)) && ShippedSomewhere(pid, items, id))
  {
    MergeAt(pid, ps, items, id, true);
    LifeImplements(pid, Lookup(ps, id), items, id);
  }

  /** All fields the recs of one proposal carry, later recs winning. */
  function Carried(pid: string -> string, items: seq<Item>, id: string): map<string, string> {
    if items == [] then map[]
    else
      var rest, it := Carried(pid, items[..|items| - 1], id), items[|items| - 1];
      if Concerns(pid, it, id) then rest + Copied(it.rec) else rest
  }

  function FieldsOf(o: Option<Entry>): map<string, string> { if o.Some? then o.value.fields else map[] }

  /** An open proposal's fields are the stored ones overlaid with everything its recs carried. */
  lemma {:induction false} OpenFields(pid: string -> string, o: Option<Entry>, items: seq<Item>, id: string,
                                      backfill: bool)
    requires Reachable(o) && (backfill ==> !ShippedSomewhere(pid, items, id))
    ensures Reachable(Evolve(pid, o, items, id, backfill))
    ensures FieldsOf(Evolve(pid, o, items, id, backfill)) == FieldsOf(o) + Carried(pid, items, id)
  {
    hide Copied, Concerns, ShippedSomewhere, Added, Seen;
    if items != [] {
      var init, it := items[..|items| - 1], items[|items| - 1];
      ShippedSnoc(pid, items, id);
      OpenFields(pid, o, init, id, backfill);
      if Concerns(pid, it, id) {
        OpenStep(Evolve(pid, o, init, id, backfill), id, it, backfill);
        Overlay(FieldsOf(o), Carried(pid, init, id), Copied(it.rec));
      }
    }
  }

  lemma OpenStep(was: Option<Entry>, id: string, it: Item, backfill: bool)
    requires Reachable(was) && (backfill ==> !it.rec.shipped)
    ensures var now := if was.None? then Added(id, it.rec, it.stamp, backfill)
                       else Seen(was.value, it.rec, it.stamp, backfill);
            Reachable(Some(now)) && now.fields == FieldsOf(was) + Copied(it.rec)
  {
    hide Copied;
  }

  lemma Overlay(a: map<string, string>, b: map<string, string>, c: map<string, string>)
    ensures a + (b + c) == (a + b) + c
  {}

  lemma {:induction false} SameCarried(pid: string -> string, a: seq<Item>, b: seq<Item>, id: string)
    requires |a| == |b| && forall i :: 0 <= i < |a| ==> a[i].rec == b[i].rec
    ensures Carried(pid, a, id) == Carried(pid, b, id)
    ensures Occurrences(pid, a, id) == Occurrences(pid, b, id)
    ensures ShippedSomewhere(pid, a, id) ==> ShippedSomewhere(pid, b, id)
  {
    hide Copied, Concerns, ShippedSomewhere;
    if a == [] {
      assert a == b;
    } else {
      var n := |a| - 1;
      assert a[n].rec == b[n].rec;
      SameConcerns(pid, a[n], b[n], id);
      SameCarried(pid, a[..n], b[..n], id);
      ShippedSnoc(pid, a, id);
      ShippedSnoc(pid, b, id);
    }
  }

  lemma SameConcerns(pid: string -> string, a: Item, b: Item, id: string)
    requires a.rec == b.rec
    ensures Concerns(pid, a, id) == Concerns(pid, b, id)
  {}

  /** Once no longer reachable, the state, fields and closing record stand still. */
  lemma {:induction false} SettledLife(pid: string -> string, o: Option<Entry>, items: seq<Item>, id: string,
                                       backfill: bool)
    requires !Reachable(o)
    ensures var now := Evolve(pid, o, items, id, backfill);
            now.Some? && now.value.state == o.value.state && now.value.fields == o.value.fields
            && now.value.changed == o.value.changed && now.value.first == o.value.first
  {
    hide Copied;
    if items != [] {
      SettledLife(pid, o, items[..|items| - 1], id, backfill);
    }
  }

  lemma {:induction false} OpenLife(pid: string -> string, o: Option<Entry>, items: seq<Item>, id: string)
    requires o.Some? && o.value.state == "open" && !ShippedSomewhere(pid, items, id)
    ensures var now := Evolve(pid, o, items, id, true);
            now.Some? && now.value.state == "open" && now.value.changed == o.value.changed
                && now.value.first == o.value.first
  {
    hide Copied, Concerns, ShippedSomewhere;
    if items != [] {
      ShippedSnoc(pid, items, id);
      OpenLife(pid, o, items[..|items| - 1], id);
    }
  }

  /** Backfilling the same snapshots again, at whatever later times, changes no state, no field and no
      closing record, and counts every titled rec once more. */
  lemma BackfillAgain(pid: string -> string, ps: seq<Entry>, items: seq<Item>, again: seq<Item>, id: string)
    requires |again| == |items| && forall i :: 0 <= i < |items| ==> again[i].rec == items[i].rec
    ensures var once := MergeAll(pid, ps, items, true);
            var twice := MergeAll(pid, once, again, true);
            && (Lookup(twice, id).Some? <==> Lookup(once, id).Some?)
            && Times(Lookup(twice, id)) == Times(Lookup(once, id)) + Occurrences(pid, items, id)
            && (Lookup(once, id).Some? ==>
                  var a, b := Lookup(once, id).value, Lookup(twice, id).value;
                  b.state == a.state && b.fields == a.fields && b.changed == a.changed && b.first == a.first)
  {
    hide MergeAll, Lookup, Evolve, ShippedSomewhere, Carried, Occurrences, Concerns;
    var once := MergeAll(pid, ps, items, true);
    var o := Lookup(once, id);
    MergeAt(pid, ps, items, id, true);
    MergeAt(pid, once, again, id, true);
    LifeCounts(pid, Lookup(ps, id), items, id, true);
    LifeCounts(pid, o, again, id, true);
    SameCarried(pid, again, items, id);
    LifeImplements(pid, Lookup(ps, id), items, id);
    if o.Some? {
      if Reachable(o) {
        OpenFields(pid, Lookup(ps, id), items, id, true);
        OpenFields(pid, o, again, id, true);
        OpenLife(pid, o, again, id);
      } else {
        SettledLife(pid, o, again, id, true);
      }
    }
  }

  // ------------------------------------------------------------------ the capped queue

  lemma RankingIsOrder(r: Reading)
    ensures TotalPreorder(Ranking(r))
  {
    hide SeverityRank, TierRank, Confidence;
  }

  /** The queue is a prefix of the ranked open proposals, which hold every open proposal and nothing else,
      in ranking order with ties in list order. */
  lemma QueueIsRankedPrefix(ps: seq<Entry>, r: Reading, cap: Option<int>)
    ensures OpenQueue(ps, r, cap) <= Ranked(ps, r)
    ensures |OpenQueue(ps, r, cap)| == if cap.Some? && 0 < cap.value < |Ranked(ps, r)|
            then cap.value else |Ranked(ps, r)|
    ensures StablySorted(Filter(ps, IsOpen), Ranked(ps, r), Ranking(r))
    ensures forall p :: p in Ranked(ps, r) <==> p in ps && p.state == "open"
  {
    hide Ranking, TotalPreorder;
    RankingIsOrder(r);
    SortIsStable(Filter(ps, IsOpen), Ranking(r));
    SortElements(Filter(ps, IsOpen), Ranking(r));
    FilterIn(ps, IsOpen);
  }

  function OtherThan(id: string): Entry -> bool {
    (e: Entry) => e.id != id
  }

  lemma ClosingFiltersRanked(ps: seq<Entry>, r: Reading, id: string, state: string, at: string, reason: string)
    requires UniqueIds(ps) && state != "open"
    requires FirstIndex(ps, id).Some?
    ensures Ranked(Transitioned(ps, id, state, at, reason), r) == Filter(Ranked(ps, r), OtherThan(id))
  {
    hide Ranking, TotalPreorder;
    var i := FirstIndex(ps, id).value;
    if ps[i].state == state {
      assert ps[i := ps[i]] == ps;
      FilterWithout(ps, i, ps[i], IsOpen, OtherThan(id));
    } else {
      FilterWithout(ps, i, Moved(ps[i], state, at, reason), IsOpen, OtherThan(id));
    }
    RankingIsOrder(r);
    SortFilter(Filter(ps, IsOpen), Ranking(r), OtherThan(id));
  }

  /** Closing a proposal shown among the top n leaves the others in place and shows the one that was next:
      the new top n is the old top n + 1 without it. */
  lemma ClosingBackfillsTheQueue(ps: seq<Entry>, r: Reading, n: nat, k: nat, state: string, at: string, reason: string)
    requires UniqueIds(ps) && state != "open" && k < n && k < |Ranked(ps, r)|
    ensures OpenQueue(Transitioned(ps, Ranked(ps, r)[k].id, state, at, reason), r, Some(n))
            == OpenQueue(ps, r, Some(n + 1))[..k] + OpenQueue(ps, r, Some(n + 1))[k + 1..]
  {
    hide Ranking, TotalPreorder, Transitioned, Ranked, Filter, FirstIndex, StablySorted, UniqueIds;
    var s := Ranked(ps, r);
    var id := s[k].id;
    QueueIsRankedPrefix(ps, r, None);
    assert s[k] in ps;
    assert FirstIndex(ps, id).Some?;
    ClosingFiltersRanked(ps, r, id, state, at, reason);
    RankedUnique(ps, r);
    OnlyOneDropped(s, k);
    TakeBackfill(s, n, k, OtherThan(id));
  }

  lemma OnlyOneDropped(s: seq<Entry>, k: nat)
    requires UniqueIds(s) && k < |s|
    ensures forall i :: 0 <= i < |s| ==> (OtherThan(s[k].id)(s[i]) <==> i != k)
  {}

  lemma RankedUnique(ps: seq<Entry>, r: Reading)
    requires UniqueIds(ps)
    ensures UniqueIds(Ranked(ps, r))
  {
    hide Ranking;
    var s := Ranked(ps, r);
    var f := Filter(ps, IsOpen);
    FilterNoDup(ps, IsOpen);
    FilterIn(ps, IsOpen);
    SortElements(f, Ranking(r));
    forall i, j | 0 <= i < j < |s| ensures s[i].id != s[j].id {
      if s[i] == s[j] {
        TwiceInBag(s, i, j);
        OnceInBag(f, s[i]);
      }
      assert s[i] in ps && s[j] in ps;
    }
  }

  lemma TwiceInBag(s: seq<Entry>, i: nat, j: nat)
    requires i < j < |s| && s[i] == s[j]
    ensures multiset(s)[s[i]] >= 2
  {
    assert s == s[..j] + [s[j]] + s[j + 1..];
    assert s[..j][i] == s[i];
  }

  lemma {:induction false} OnceInBag(s: seq<Entry>, e: Entry)
    requires NoDup(s)
    ensures multiset(s)[e] <= 1
  {
    if s != [] {
      OnceInBag(s[1..], e);
      assert s == [s[0]] + s[1..];
      if e in s[1..] {
        assert s[0] != e;
      }
    }
  }
}
