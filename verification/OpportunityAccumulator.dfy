/** The app-store opportunity accumulator: one run applies replies, merges discovered apps,
    detects obsolete opportunities and caps the open list by return on investment. */
module OpportunityAccumulator {
  import opened Sequences
  import opened Decimals

  datatype Option<T> = None | Some(value: T)

  /** What an app looked like when it was first seen. */
  datatype Baseline = Baseline(version: string, rating: real, reviews: int, updated: string)

  /** A discovered app: what it looks like now, and its non-null snapshot and analysis fields. */
  datatype App = App(store: string, storeId: string, now: Baseline, fields: map<string, string>)

  datatype Opp = Opp(id: string, state: string, reason: string, fields: map<string, string>, baseline: Baseline,
                     times: nat, firstSeen: string, lastSeen: string)

  datatype Reply = Reply(action: string, rid: string)

  // ------------------------------------------------------------------ obsolescence

  predicate IsSpace(c: char) { c == ' ' || '\t' <= c <= '\r' }

  function SkipSpaces(s: string): string {
    if s != "" && IsSpace(s[0]) then SkipSpaces(s[1..]) else s
  }

  function TrimEnd(s: string): string {
    if s != "" && IsSpace(s[|s| - 1]) then TrimEnd(s[..|s| - 1]) else s
  }

  function LeadingDigits(s: string): (d: string)
    ensures AllDigits(d)
  {
    if s != "" && IsDigit(s[0]) then [s[0]] + LeadingDigits(s[1..]) else ""
  }

  /** The digits a version starts with, or all of it when it starts with none. */
  function MajorVersion(v: string): string {
    var d := LeadingDigits(SkipSpaces(v));
    if d != "" then d else TrimEnd(SkipSpaces(v))
  }

  /** int(s): an optional sign and digits; anything else raises. */
  function IntOf(s: string): Option<int> {
    if s != "" && AllDigits(s) then Some(Value(s))
    else if |s| > 1 && s[0] == '+' && AllDigits(s[1..]) then Some(Value(s[1..]))
    else if |s| > 1 && s[0] == '-' && AllDigits(s[1..]) then Some(0 - Value(s[1..]) as int)
    else None
  }

  predicate MajorBump(base: string, cur: string) {
    var b, c := MajorVersion(base), MajorVersion(cur);
    b != "" && c != "" && b != c && IntOf(b).Some? && IntOf(c).Some? && IntOf(c).value > IntOf(b).value
  }

  predicate RatingRecovered(base: real, cur: real) {
    base != 0.0 && cur >= 4.2 && cur - base >= 0.5
  }

  predicate IsObsolete(base: Baseline, cur: Baseline) {
    MajorBump(base.version, cur.version) || RatingRecovered(base.rating, cur.rating)
  }

  function ObsoleteReason(base: Baseline, cur: Baseline): string {
    if MajorBump(base.version, cur.version) then "major-version-bump" else "rating-recovered"
  }

  // ------------------------------------------------------------------ one app, one transition

  function Find(ps: seq<Opp>, id: string): Option<nat>
    ensures Find(ps, id).Some? ==> Find(ps, id).value < |ps| && ps[Find(ps, id).value].id == id
    ensures Find(ps, id).None? ==> forall i :: 0 <= i < |ps| ==> ps[i].id != id
  {
    if ps == [] then None
    else if ps[0].id == id then Some(0)
    else match Find(ps[1..], id) case None => None case Some(i) => Some(i + 1)
  }

  predicate UniqueIds(ps: seq<Opp>) {
    forall i, j :: 0 <= i < j < |ps| ==> ps[i].id != ps[j].id
  }

  function Added(id: string, app: App, now: string): Opp {
    Opp(id, "open", "", app.fields, app.now, 1, now, now)
  }

  function Seen(o: Opp, app: App, now: string): Opp {
    var s := o.(times := o.times + 1, lastSeen := now);
    if o.state != "open" then s
    else if IsObsolete(o.baseline, app.now) then s.(state := "obsolete", reason := ObsoleteReason(o.baseline, app.now))
    else s.(fields := o.fields + app.fields)
  }

  function Step(oid: (string, string) -> string, ps: seq<Opp>, app: App, now: string): seq<Opp> {
    if app.store == "" || app.storeId == "" then ps
    else
      var id := oid(app.store, app.storeId);
      match Find(ps, id)
      case None => ps + [Added(id, app, now)]
      case Some(i) => ps[i := Seen(ps[i], app, now)]
  }

  function MergeAll(oid: (string, string) -> string, ps: seq<Opp>, apps: seq<App>, now: string): seq<Opp> {
    if apps == [] then ps
    else Step(oid, MergeAll(oid, ps, apps[..|apps| - 1], now), apps[|apps| - 1], now)
  }

  function Transitioned(ps: seq<Opp>, id: string, state: string, reason: string): seq<Opp> {
    match Find(ps, id)
    case None => ps
    case Some(i) => if ps[i].state == state then ps else ps[i := ps[i].(state := state, reason := reason)]
  }

  // ------------------------------------------------------------------ replies

  const ACTIONS: map<string, string> := map[
    "pursue" := "pursued", "build" := "pursued", "ship" := "pursued",
    "pass" := "passed", "skip" := "passed", "no" := "passed"
  ]

  function ApplyReply(ps: seq<Opp>, r: Reply, ids: map<string, string>): seq<Opp> {
    if r.action in ACTIONS && r.rid in ids && ids[r.rid] != ""
    then Transitioned(ps, ids[r.rid], ACTIONS[r.action], "operator-reply: " + r.action) else ps
  }

  function ApplyReplies(ps: seq<Opp>, rs: seq<Reply>, ids: map<string, string>): seq<Opp> {
    if rs == [] then ps else ApplyReply(ApplyReplies(ps, rs[..|rs| - 1], ids), rs[|rs| - 1], ids)
  }

  // ------------------------------------------------------------------ ranking and cap

  datatype Reading = Reading(complexity: map<string, string> -> int, score: map<string, string> -> real,
    digits: string -> int)

  function Revenue(o: Opp): real {
    if "revenue_potential" !in o.fields then 0.0
    else match o.fields["revenue_potential"]
      case "very_high" => 4.0 case "high" => 3.0 case "medium" => 2.0 case "low" => 1.0 case _ => 0.0
  }

  function Roi(r: Reading, o: Opp): real {
    var c := r.complexity(o.fields);
    Revenue(o) / (if c < 1 then 1 else c) as real
  }

  /** Return on investment descending, then score descending, then newest first. */
  predicate RanksBefore(r: Reading, a: Opp, b: Opp) {
    if Roi(r, a) != Roi(r, b) then Roi(r, a) > Roi(r, b)
    else if r.score(a.fields) != r.score(b.fields) then r.score(a.fields) > r.score(b.fields)
    else r.digits(a.firstSeen) >= r.digits(b.firstSeen)
  }

  function Ranking(r: Reading): (Opp, Opp) -> bool {
    (a, b) => RanksBefore(r, a, b)
  }

  predicate IsOpen(o: Opp) { o.state == "open" }

  function Ranked(ps: seq<Opp>, r: Reading): seq<Opp> {
    StableSort(Filter(ps, IsOpen), Ranking(r))
  }

  /** Where the list slice open[max:] starts, for any max. */
  function SliceStart(n: nat, max: int): (k: nat)
    ensures k <= n
  {
    if max > n then n else if max >= 0 then max else if n + max >= 0 then n + max else 0
  }

  function PassAll(ps: seq<Opp>, tail: seq<Opp>, reason: string): seq<Opp> {
    if tail == [] then ps
    else Transitioned(PassAll(ps, tail[..|tail| - 1], reason), tail[|tail| - 1].id, "passed", reason)
  }

  const CAP_REASON := "auto-deferred above cap"

  function Capped(ps: seq<Opp>, r: Reading, max: int): seq<Opp> {
    var open := Ranked(ps, r);
    if |open| > max then PassAll(ps, open[SliceStart(|open|, max)..], CAP_REASON) else ps
  }

  /** One whole run. */
  datatype Input = Input(replies: seq<Reply>, ids: map<string, string>, apps: seq<App>, now: string, max: int)

  function AfterRun(oid: (string, string) -> string, r: Reading, ps: seq<Opp>, inp: Input): seq<Opp> {
    Capped(MergeAll(oid, ApplyReplies(ps, inp.replies, inp.ids), inp.apps, inp.now), r, inp.max)
  }

  class Accumulator {
    var opportunities: seq<Opp>
    const oid: (string, string) -> string

    ghost predicate Valid() reads this { UniqueIds(opportunities) }

    constructor (oid: (string, string) -> string)
      ensures Valid() && this.oid == oid && opportunities == []
    {
      this.oid := oid;
      opportunities := [];
    }

    method ApplyResponses(replies: seq<Reply>, ids: map<string, string>)
      requires Valid()
      modifies this
      ensures Valid() && opportunities == ApplyReplies(old(opportunities), replies, ids)
    {
      for i := 0 to |replies|
        invariant Valid() && opportunities == ApplyReplies(old(opportunities), replies[..i], ids)
      {
        var r := replies[i];
        assert replies[..i + 1][..i] == replies[..i];
        if r.action in ACTIONS && r.rid in ids && ids[r.rid] != "" {
          var _ := TransitionState(ids[r.rid], ACTIONS[r.action], "operator-reply: " + r.action);
        }
      }
      assert replies[..|replies|] == replies;
    }

    method TransitionState(id: string, state: string, reason: string) returns (changed: bool)
      requires Valid()
      modifies this
      ensures Valid() && opportunities == Transitioned(old(opportunities), id, state, reason)
      ensures var at := Find(old(opportunities), id);
              changed <==> at.Some? && old(opportunities)[at.value].state != state
    {
      for i := 0 to |opportunities|
        invariant opportunities == old(opportunities)
        invariant forall j :: 0 <= j < i ==> opportunities[j].id != id
      {
        if opportunities[i].id == id {
          FindIs(opportunities, i);
          if opportunities[i].state == state {
            return false;
          }
          opportunities := opportunities[i := opportunities[i].(state := state, reason := reason)];
          return true;
        }
      }
      return false;
    }

    method MergeRun(apps: seq<App>, now: string)
      requires Valid()
      modifies this
      ensures Valid() && opportunities == MergeAll(oid, old(opportunities), apps, now)
    {
      hide Step, Indexes, UniqueIds;
      var byId: map<string, nat> := BuildIndex();
      for i := 0 to |apps|
        invariant Valid() && Indexes(byId, opportunities)
        invariant opportunities == MergeAll(oid, old(opportunities), apps[..i], now)
      {
        assert apps[..i + 1][..i] == apps[..i];
        byId := Absorb(byId, apps[i], now);
      }
      assert apps[..|apps|] == apps;
    }

    /** One app, through the id dictionary. */
    method Absorb(byId: map<string, nat>, app: App, now: string) returns (byId': map<string, nat>)
      requires Valid() && Indexes(byId, opportunities)
      modifies this
      ensures Valid() && Indexes(byId', opportunities)
      ensures opportunities == Step(oid, old(opportunities), app, now)
    {
      hide Added, Seen, Find, UniqueIds;
      byId' := byId;
      if app.store == "" || app.storeId == "" {
        return;
      }
      var id := oid(app.store, app.storeId);
      if id in byId {
        SeenInPlace(byId, opportunities, id, app, now);
        opportunities := opportunities[byId[id] := Seen(opportunities[byId[id]], app, now)];
      } else {
        AddedAtEnd(byId, opportunities, id, app, now);
        byId' := byId[id := |opportunities|];
        opportunities := opportunities + [Added(id, app, now)];
      }
    }

    method BuildIndex() returns (byId: map<string, nat>)
      requires Valid()
      ensures Indexes(byId, opportunities)
    {
      byId := map[];
      for i := 0 to |opportunities|
        invariant Indexes(byId, opportunities[..i])
      {
        byId := byId[opportunities[i].id := i];
      }
      assert opportunities[..|opportunities|] == opportunities;
    }

    method OpenOpportunities(r: Reading) returns (out: seq<Opp>)
      ensures out == Ranked(opportunities, r)
    {
      out := [];
      for i := 0 to |opportunities|
        invariant out == Filter(opportunities[..i], IsOpen)
      {
        assert opportunities[..i + 1] == opportunities[..i] + [opportunities[i]];
        FilterConcat(opportunities[..i], [opportunities[i]], IsOpen);
        if opportunities[i].state == "open" {
          out := out + [opportunities[i]];
        }
      }
      assert opportunities[..|opportunities|] == opportunities;
      out := StableSort(out, Ranking(r));
    }

    /** The load-reply-merge-cap-save block of one run. */
    method Run(r: Reading, inp: Input)
      requires Valid()
      modifies this
      ensures Valid() && opportunities == AfterRun(oid, r, old(opportunities), inp)
    {
      hide Ranked, MergeAll, ApplyReplies, Transitioned;
      ApplyResponses(inp.replies, inp.ids);
      MergeRun(inp.apps, inp.now);
      var open := OpenOpportunities(r);
      if |open| > inp.max {
        ghost var merged := opportunities;
        var tail := open[SliceStart(|open|, inp.max)..];
        for i := 0 to |tail|
          invariant Valid() && opportunities == PassAll(merged, tail[..i], CAP_REASON)
        {
          assert tail[..i + 1][..i] == tail[..i];
          var _ := TransitionState(tail[i].id, "passed", CAP_REASON);
        }
        assert tail[..|tail|] == tail;
      }
    }
  }

  predicate Indexes(byId: map<string, nat>, ps: seq<Opp>) {
    && (forall id :: id in byId ==> byId[id] < |ps| && ps[byId[id]].id == id)
    && (forall i :: 0 <= i < |ps| ==> ps[i].id in byId)
  }

  lemma SeenInPlace(byId: map<string, nat>, ps: seq<Opp>, id: string, app: App, now: string)
    requires UniqueIds(ps) && Indexes(byId, ps) && id in byId && byId[id] < |ps|
    ensures Find(ps, id) == Some(byId[id])
    ensures var after := ps[byId[id] := Seen(ps[byId[id]], app, now)]; UniqueIds(after) && Indexes(byId, after)
  {
    hide Find, Seen;
    SeenAndAdded(app, now);
    FindIs(ps, byId[id]);
  }

  lemma AddedAtEnd(byId: map<string, nat>, ps: seq<Opp>, id: string, app: App, now: string)
    requires UniqueIds(ps) && Indexes(byId, ps) && id !in byId
    ensures Find(ps, id) == None
    ensures UniqueIds(ps + [Added(id, app, now)]) && Indexes(byId[id := |ps|], ps + [Added(id, app, now)])
  {
    hide Find, Added;
    SeenAndAdded(app, now);
    FindNone(ps, id);
  }

  lemma {:induction false} FindIs(ps: seq<Opp>, i: nat)
    requires i < |ps| && forall j :: 0 <= j < i ==> ps[j].id != ps[i].id
    ensures Find(ps, ps[i].id) == Some(i)
  {
    if i > 0 {
      FindIs(ps[1..], i - 1);
    }
  }

  lemma FindNone(ps: seq<Opp>, id: string)
    requires forall i :: 0 <= i < |ps| ==> ps[i].id != id
    ensures Find(ps, id) == None
  {}

  lemma SeenAndAdded(app: App, now: string)
    ensures forall o: Opp :: Seen(o, app, now).id == o.id
    ensures forall id :: Added(id, app, now).id == id
  {
    hide IsObsolete;
  }
}
