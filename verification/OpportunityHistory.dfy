/** What whole runs of replies, merge and cap keep, over any number of runs. */
module OpportunityHistory {
  import opened Sequences
  import opened OpportunityAccumulator

  function Lookup(ps: seq<Opp>, id: string): Option<Opp> {
    match Find(ps, id) case None => None case Some(i) => Some(ps[i])
  }

  /** An opportunity is never lost, keeps its baseline and first sighting, and once closed stays closed. */
  predicate Kept(was: Option<Opp>, now: Option<Opp>) {
    was.Some? ==>
      now.Some? && now.value.baseline == was.value.baseline && now.value.firstSeen == was.value.firstSeen
      && (was.value.state != "open" ==> now.value.state != "open")
  }

  // ------------------------------------------------------------------ single updates

  lemma {:induction false} PutAt(ps: seq<Opp>, i: nat, o: Opp, id: string)
    requires i < |ps| && Find(ps, o.id) == Some(i)
    ensures Lookup(ps[i := o], id) == if id == o.id then Some(o) else Lookup(ps, id)
  {
    if i == 0 {
      assert ps[i := o][1..] == ps[1..];
    } else {
      assert ps[i := o][1..] == ps[1..][i - 1 := o];
      PutAt(ps[1..], i - 1, o, id);
    }
  }

  lemma {:induction false} AppendAt(ps: seq<Opp>, o: Opp, id: string)
    requires Find(ps, o.id) == None
    ensures Lookup(ps + [o], id) == if id == o.id then Some(o) else Lookup(ps, id)
  {
    if ps == [] {
      assert [o][1..] == [];
    } else {
      assert (ps + [o])[1..] == ps[1..] + [o];
      AppendAt(ps[1..], o, id);
    }
  }

  lemma TransitionAt(ps: seq<Opp>, id0: string, state: string, reason: string, id: string)
    ensures Lookup(Transitioned(ps, id0, state, reason), id) ==
            if id == id0 && Lookup(ps, id).Some? && Lookup(ps, id).value.state != state
            then Some(Lookup(ps, id).value.(state := state, reason := reason)) else Lookup(ps, id)
    ensures UniqueIds(ps) ==> UniqueIds(Transitioned(ps, id0, state, reason))
  {
    var at := Find(ps, id0);
    if at.Some? && ps[at.value].state != state {
      PutAt(ps, at.value, ps[at.value].(state := state, reason := reason), id);
    }
  }

  lemma StepAt(oid: (string, string) -> string, ps: seq<Opp>, app: App, now: string, id: string)
    ensures Lookup(Step(oid, ps, app, now), id) ==
            if app.store == "" || app.storeId == "" || oid(app.store, app.storeId) != id then Lookup(ps, id)
            else if Lookup(ps, id).None? then Some(Added(id, app, now))
            else Some(Seen(Lookup(ps, id).value, app, now))
    ensures UniqueIds(ps) ==> UniqueIds(Step(oid, ps, app, now))
  {
    hide IsObsolete;
    if app.store != "" && app.storeId != "" {
      var key := oid(app.store, app.storeId);
      var at := Find(ps, key);
      if at.Some? {
        PutAt(ps, at.value, Seen(ps[at.value], app, now), id);
      } else {
        AppendAt(ps, Added(key, app, now), id);
      }
    }
  }

  // ------------------------------------------------------------------ the stages of a run

  lemma {:induction false} RepliesKeep(ps: seq<Opp>, rs: seq<Reply>, ids: map<string, string>, id: string)
    requires UniqueIds(ps)
    ensures UniqueIds(ApplyReplies(ps, rs, ids)) && Kept(Lookup(ps, id), Lookup(ApplyReplies(ps, rs, ids), id))
  {
    hide Transitioned, Lookup, UniqueIds;
    if rs != [] {
      var init, r := rs[..|rs| - 1], rs[|rs| - 1];
      RepliesKeep(ps, init, ids, id);
      if r.action in ACTIONS && r.rid in ids {
        assert ACTIONS[r.action] != "open";
        TransitionAt(ApplyReplies(ps, init, ids), ids[r.rid], ACTIONS[r.action], "operator-reply: " + r.action, id);
      }
    }
  }

  lemma {:induction false} MergeKeeps(oid: (string, string) -> string, ps: seq<Opp>, apps: seq<App>, now: string,
                                      id: string)
    requires UniqueIds(ps)
    ensures UniqueIds(MergeAll(oid, ps, apps, now)) && Kept(Lookup(ps, id), Lookup(MergeAll(oid, ps, apps, now), id))
  {
    hide Step, Lookup, UniqueIds, IsObsolete, ObsoleteReason;
    if apps != [] {
      var init, app := apps[..|apps| - 1], apps[|apps| - 1];
      MergeKeeps(oid, ps, init, now, id);
      StepAt(oid, MergeAll(oid, ps, init, now), app, now, id);
    }
  }

  lemma {:induction false} PassKeeps(ps: seq<Opp>, tail: seq<Opp>, reason: string, id: string)
    requires UniqueIds(ps)
    ensures UniqueIds(PassAll(ps, tail, reason)) && Kept(Lookup(ps, id), Lookup(PassAll(ps, tail, reason), id))
  {
    hide Transitioned, Lookup, UniqueIds;
    if tail != [] {
      PassKeeps(ps, tail[..|tail| - 1], reason, id);
      TransitionAt(PassAll(ps, tail[..|tail| - 1], reason), tail[|tail| - 1].id, "passed", reason, id);
    }
  }

  // ------------------------------------------------------------------ obsolescence

  predicate Improved(oid: (string, string) -> string, apps: seq<App>, id: string, base: Baseline) {
    exists a :: a in apps && a.store != "" && a.storeId != "" && oid(a.store, a.storeId) == id
        && IsObsolete(base, a.now)
  }

  lemma ImprovedSnoc(oid: (string, string) -> string, apps: seq<App>, id: string, base: Baseline)
    requires apps != []
    ensures var a := apps[|apps| - 1];
            Improved(oid, apps, id, base) <==>
            Improved(oid, apps[..|apps| - 1], id, base)
            || (a.store != "" && a.storeId != "" && oid(a.store, a.storeId) == id && IsObsolete(base, a.now))
  {
    hide IsObsolete;
    assert apps == apps[..|apps| - 1] + [apps[|apps| - 1]];
  }

  /** A merge closes an open opportunity exactly when one of its sightings has improved on the baseline of its
      first sighting, and then as obsolete; it moves no other opportunity between states. */
  lemma {:induction false} ObsoleteIff(oid: (string, string) -> string, ps: seq<Opp>, apps: seq<App>, now: string,
                                       id: string)
    requires Lookup(ps, id).Some?
    ensures var was, after := Lookup(ps, id).value, Lookup(MergeAll(oid, ps, apps, now), id);
            && after.Some? && after.value.baseline == was.baseline
            && after.value.state == if was.state == "open" && Improved(oid, apps, id, was.baseline)
               then "obsolete" else was.state
  {
    hide Step, Lookup, IsObsolete, ObsoleteReason, Improved;
    var base := Lookup(ps, id).value.baseline;
    if apps == [] {
      assert !Improved(oid, apps, id, base) by { NoneImproved(oid, id, base); }
    } else {
      var init, app := apps[..|apps| - 1], apps[|apps| - 1];
      ObsoleteIff(oid, ps, init, now, id);
      StepAt(oid, MergeAll(oid, ps, init, now), app, now, id);
      ImprovedSnoc(oid, apps, id, base);
    }
  }

  lemma NoneImproved(oid: (string, string) -> string, id: string, base: Baseline)
    ensures !Improved(oid, [], id, base)
  {}

  // ------------------------------------------------------------------ the cap

  lemma RankingIsOrder(r: Reading)
    ensures TotalPreorder(Ranking(r))
  {
    hide Roi;
  }

  function OtherThan(id: string): Opp -> bool {
    (o: Opp) => o.id != id
  }

  /** Passing one open opportunity drops it from the ranked list and reorders nothing. */
  lemma PassingDrops(ps: seq<Opp>, r: Reading, k: nat, reason: string)
    requires UniqueIds(ps) && k < |Ranked(ps, r)|
    ensures Ranked(Transitioned(ps, Ranked(ps, r)[k].id, "passed", reason), r)
            == Ranked(ps, r)[..k] + Ranked(ps, r)[k + 1..]
  {
    hide Ranking, TotalPreorder, StableSort, Filter;
    var s := Ranked(ps, r);
    var id := s[k].id;
    RankedAre(ps, r);
    assert s[k] in s;
    var i := Find(ps, id).value;
    OpenAt(ps, s[k]);
    FilterWithout(ps, i, ps[i].(state := "passed", reason := reason), IsOpen, OtherThan(id));
    RankingIsOrder(r);
    SortFilter(Filter(ps, IsOpen), Ranking(r), OtherThan(id));
    FilterSkipOne(s, k, OtherThan(id));
  }

  lemma OpenAt(ps: seq<Opp>, o: Opp)
    requires UniqueIds(ps) && o in ps
    ensures Find(ps, o.id).Some? && ps[Find(ps, o.id).value] == o
  {}

  lemma RankedAre(ps: seq<Opp>, r: Reading)
    requires UniqueIds(ps)
    ensures UniqueIds(Ranked(ps, r))
    ensures forall o :: o in Ranked(ps, r) <==> o in ps && o.state == "open"
    ensures Sorted(Ranked(ps, r), Ranking(r))
  {
    hide Ranking, TotalPreorder;
    var f := Filter(ps, IsOpen);
    FilterIn(ps, IsOpen);
    FilterUnique(ps);
    RankingIsOrder(r);
    SortSorted(f, Ranking(r));
    SortElements(f, Ranking(r));
    SortUnique(f, r);
  }

  lemma {:induction false} FilterUnique(ps: seq<Opp>)
    requires UniqueIds(ps)
    ensures UniqueIds(Filter(ps, IsOpen))
  {
    if ps != [] {
      FilterUnique(ps[1..]);
      FilterIn(ps[1..], IsOpen);
      var rest := Filter(ps[1..], IsOpen);
      forall j | 0 <= j < |rest| ensures rest[j].id != ps[0].id {
        assert rest[j] in rest && rest[j] in ps[1..];
      }
    }
  }

  lemma {:induction false} SortUnique(s: seq<Opp>, r: Reading)
    requires UniqueIds(s)
    ensures UniqueIds(StableSort(s, Ranking(r)))
  {
    hide Ranking;
    if s != [] {
      SortUnique(s[1..], r);
      SortElements(s[1..], Ranking(r));
      InsertUnique(s[0], StableSort(s[1..], Ranking(r)), r);
    }
  }

  lemma {:induction false} InsertUnique(x: Opp, s: seq<Opp>, r: Reading)
    requires UniqueIds(s) && forall y :: y in s ==> y.id != x.id
    ensures UniqueIds(Insert(x, s, Ranking(r)))
  {
    hide Ranking;
    if s != [] && !Ranking(r)(x, s[0]) {
      InsertUnique(x, s[1..], r);
      InsertElements(x, s[1..], Ranking(r));
      var rest := Insert(x, s[1..], Ranking(r));
      forall j | 0 <= j < |rest| ensures rest[j].id != s[0].id {
        assert rest[j] in rest;
        assert rest[j] == x || rest[j] in s[1..];
      }
    }
  }

  /** Passing the entries from k on leaves the first k, in order. */
  lemma {:induction false} PassTail(ps: seq<Opp>, r: Reading, k: nat, n: nat, reason: string)
    requires UniqueIds(ps) && k + n <= |Ranked(ps, r)|
    ensures UniqueIds(PassAll(ps, Ranked(ps, r)[k..k + n], reason))
    ensures Ranked(PassAll(ps, Ranked(ps, r)[k..k + n], reason), r) == Ranked(ps, r)[..k] + Ranked(ps, r)[k + n..]
  {
    hide Ranked, Transitioned, UniqueIds;
    var s := Ranked(ps, r);
    if n == 0 {
      assert s[k..k] == [] && s[..k] + s[k..] == s;
    } else {
      PassTail(ps, r, k, n - 1, reason);
      var tail := s[k..k + n];
      assert tail[..n - 1] == s[k..k + n - 1] && tail[n - 1] == s[k + n - 1];
      var was := PassAll(ps, tail[..n - 1], reason);
      assert Ranked(was, r)[k] == s[k + n - 1];
      PassingDrops(was, r, k, reason);
      TransitionAt(was, tail[n - 1].id, "passed", reason, "");
      assert Ranked(was, r)[..k] == s[..k] && Ranked(was, r)[k + 1..] == s[k + n..];
    }
  }

  /** After the cap the open opportunities are the best of the ranked list, as many as the slice keeps. */
  lemma CapKeepsTheBest(ps: seq<Opp>, r: Reading, max: int)
    requires UniqueIds(ps)
    ensures UniqueIds(Capped(ps, r, max))
    ensures var open := Ranked(ps, r);
            var keep := if max >= 0 then max else |open| + max;
            Ranked(Capped(ps, r, max), r) == open[..if keep > |open| then |open| else if keep >= 0 then keep else 0]
    ensures |Ranked(Capped(ps, r, max), r)| <= max <==> max >= 0
    ensures Sorted(Ranked(ps, r), Ranking(r)) && forall o :: o in Ranked(ps, r) <==> o in ps && o.state == "open"
  {
    hide Ranked, UniqueIds, PassAll, Ranking;
    RankedAre(ps, r);
    var s := Ranked(ps, r);
    if |s| > max {
      var k := SliceStart(|s|, max);
      PassTail(ps, r, k, |s| - k, CAP_REASON);
      assert s[k..k + (|s| - k)] == s[k..] && s[..k] + s[|s|..] == s[..k];
    } else {
      assert s[..|s|] == s;
    }
  }

  // ------------------------------------------------------------------ whole runs

  function AfterRuns(oid: (string, string) -> string, r: Reading, ps: seq<Opp>, inputs: seq<Input>): seq<Opp> {
    if inputs == [] then ps
    else AfterRun(oid, r, AfterRuns(oid, r, ps, inputs[..|inputs| - 1]), inputs[|inputs| - 1])
  }

  lemma RunKeeps(oid: (string, string) -> string, r: Reading, ps: seq<Opp>, inp: Input, id: string)
    requires UniqueIds(ps)
    ensures UniqueIds(AfterRun(oid, r, ps, inp))
    ensures Kept(Lookup(ps, id), Lookup(AfterRun(oid, r, ps, inp), id))
    ensures inp.max >= 0 ==> |Filter(AfterRun(oid, r, ps, inp), IsOpen)| <= inp.max
  {
    hide MergeAll, ApplyReplies, PassAll, UniqueIds, Lookup, Filter, StableSort, Ranking;
    var a := ApplyReplies(ps, inp.replies, inp.ids);
    RepliesKeep(ps, inp.replies, inp.ids, id);
    var b := MergeAll(oid, a, inp.apps, inp.now);
    MergeKeeps(oid, a, inp.apps, inp.now, id);
    var open := Ranked(b, r);
    PassKeeps(b, open[SliceStart(|open|, inp.max)..], CAP_REASON, id);
    CapKeepsTheBest(b, r, inp.max);
    SortElements(Filter(AfterRun(oid, r, ps, inp), IsOpen), Ranking(r));
  }

  /** Over any sequence of runs no opportunity ever returns to open or loses its baseline, and after each run
      whose cap is not negative at most that many are open. */
  lemma {:induction false} RunsKeep(oid: (string, string) -> string, r: Reading, ps: seq<Opp>, inputs: seq<Input>,
                                    id: string)
    requires UniqueIds(ps)
    ensures UniqueIds(AfterRuns(oid, r, ps, inputs))
    ensures Kept(Lookup(ps, id), Lookup(AfterRuns(oid, r, ps, inputs), id))
    ensures inputs != [] && inputs[|inputs| - 1].max >= 0 ==>
              |Filter(AfterRuns(oid, r, ps, inputs), IsOpen)| <= inputs[|inputs| - 1].max
  {
    hide AfterRun, UniqueIds, Lookup;
    if inputs != [] {
      RunsKeep(oid, r, ps, inputs[..|inputs| - 1], id);
      RunKeeps(oid, r, AfterRuns(oid, r, ps, inputs[..|inputs| - 1]), inputs[|inputs| - 1], id);
    }
  }
}
