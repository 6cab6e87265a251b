/** The competitor-research proposal accumulator: merging runs, closing proposals, backfilling
    from snapshots, and the capped open queue. */
module ProposalAccumulator {
  import opened Sequences

  datatype Option<T> = None | Some(value: T)

  /** When something was seen: the clock reading and the run it belongs to. */
  datatype Stamp = Stamp(at: string, runTs: string)

  /** A rec: its non-null fields, and whether the snapshot shows it shipped or implemented. */
  datatype Rec = Rec(title: string, fields: map<string, string>, shipped: bool)

  datatype Item = Item(rec: Rec, stamp: Stamp)

  datatype Entry = Entry(id: string, state: string, fields: map<string, string>, times: nat,
                         first: Stamp, last: Stamp, changed: Option<(string, string)>)

  const PROPOSAL_FIELDS: set<string> := {
    "title", "category", "severity", "tier", "confidence", "competitor", "rationale", "expected_impact",
    "user_story", "blueprint", "success_metrics", "implementation_outline", "evidence", "fix_suggestion"
  }

  function Copied(rec: Rec): map<string, string> {
    (map f | f in rec.fields && f in PROPOSAL_FIELDS :: rec.fields[f])["title" := rec.title]
  }

  // ------------------------------------------------------------------ one rec

  function Added(id: string, rec: Rec, stamp: Stamp, backfill: bool): Entry {
    if backfill && rec.shipped then
      Entry(id, "implemented", Copied(rec), 1, stamp, stamp, Some((stamp.at, "backfill-derived")))
    else Entry(id, "open", Copied(rec), 1, stamp, stamp, None)
  }

  function Seen(e: Entry, rec: Rec, stamp: Stamp, backfill: bool): Entry {
    var promoted := backfill && rec.shipped && e.state == "open";
    e.(times := e.times + 1,
       last := stamp,
       state := if promoted then "implemented" else e.state,
       changed := if promoted then Some((stamp.at, "backfill-derived")) else e.changed,
       fields := if e.state == "open" && !promoted then e.fields + Copied(rec) else e.fields)
  }

  /** The entry the id dictionary points at: the last one with that id. */
  function IndexOf(ps: seq<Entry>, id: string): Option<nat>
    ensures IndexOf(ps, id).Some? ==> IndexOf(ps, id).value < |ps| && ps[IndexOf(ps, id).value].id == id
    ensures IndexOf(ps, id).None? ==> forall i :: 0 <= i < |ps| ==> ps[i].id != id
  {
    if ps == [] then None
    else if ps[|ps| - 1].id == id then Some(|ps| - 1)
    else IndexOf(ps[..|ps| - 1], id)
  }

  function Step(pid: string -> string, ps: seq<Entry>, it: Item, backfill: bool): seq<Entry> {
    if it.rec.title == "" then ps
    else
      var id := pid(it.rec.title);
      match IndexOf(ps, id)
      case None => ps + [Added(id, it.rec, it.stamp, backfill)]
      case Some(i) => ps[i := Seen(ps[i], it.rec, it.stamp, backfill)]
  }

  function MergeAll(pid: string -> string, ps: seq<Entry>, items: seq<Item>, backfill: bool): seq<Entry> {
    if items == [] then ps
    else Step(pid, MergeAll(pid, ps, items[..|items| - 1], backfill), items[|items| - 1], backfill)
  }

  function Stamped(recs: seq<Rec>, stamp: Stamp): seq<Item> {
    seq(|recs|, i requires 0 <= i < |recs| => Item(recs[i], stamp))
  }

  function Flatten(snapshots: seq<seq<Item>>): seq<Item> {
    if snapshots == [] then [] else Flatten(snapshots[..|snapshots| - 1]) + snapshots[|snapshots| - 1]
  }

  // ------------------------------------------------------------------ closing and ranking

  function FirstIndex(ps: seq<Entry>, id: string): Option<nat>
    ensures FirstIndex(ps, id).Some? ==>
              FirstIndex(ps, id).value < |ps| && ps[FirstIndex(ps, id).value].id == id
              && forall j :: 0 <= j < FirstIndex(ps, id).value ==> ps[j].id != id
    ensures FirstIndex(ps, id).None? ==> forall j :: 0 <= j < |ps| ==> ps[j].id != id
  {
    if ps == [] then None
    else if FirstIndex(ps[..|ps| - 1], id).Some? then FirstIndex(ps[..|ps| - 1], id)
    else if ps[|ps| - 1].id == id then Some(|ps| - 1)
    else None
  }

  function Moved(e: Entry, state: string, at: string, reason: string): Entry {
    e.(state := state, changed := Some((at, reason)))
  }

  function Transitioned(ps: seq<Entry>, id: string, state: string, at: string, reason: string): seq<Entry> {
    match FirstIndex(ps, id)
    case None => ps
    case Some(i) => if ps[i].state == state then ps else ps[i := Moved(ps[i], state, at, reason)]
  }

  /** How numeric fields are read: a confidence, and the digits of a timestamp. */
  datatype Reading = Reading(confidence: string -> real, digits: string -> int)

  function SeverityRank(e: Entry): int {
    if "severity" !in e.fields then 3
    else match e.fields["severity"] case "critical" => 0 case "high" => 1 case "medium" => 2 case "low" => 3 case _ => 9
  }

  function TierRank(e: Entry): int {
    if "tier" !in e.fields then 1
    else match e.fields["tier"] case "auto" => 0 case "review" => 1 case "experimental" => 2 case _ => 9
  }

  function Confidence(r: Reading, e: Entry): real {
    if "confidence" in e.fields then r.confidence(e.fields["confidence"]) else 0.0
  }

  /** Severity, then tier, then confidence descending, then newest first. */
  predicate RanksBefore(r: Reading, a: Entry, b: Entry) {
    if SeverityRank(a) != SeverityRank(b) then SeverityRank(a) < SeverityRank(b)
    else if TierRank(a) != TierRank(b) then TierRank(a) < TierRank(b)
    else if Confidence(r, a) != Confidence(r, b) then Confidence(r, a) > Confidence(r, b)
    else r.digits(a.first.at) >= r.digits(b.first.at)
  }

  function Ranking(r: Reading): (Entry, Entry) -> bool {
    (a, b) => RanksBefore(r, a, b)
  }

  predicate IsOpen(e: Entry) { e.state == "open" }

  function Ranked(ps: seq<Entry>, r: Reading): seq<Entry> {
    StableSort(Filter(ps, IsOpen), Ranking(r))
  }

  /** No cap, or one that is not positive, shows every open proposal. */
  function OpenQueue(ps: seq<Entry>, r: Reading, cap: Option<int>): seq<Entry> {
    if cap.Some? && cap.value > 0 then Take(Ranked(ps, r), cap.value) else Ranked(ps, r)
  }

  // ------------------------------------------------------------------ the accumulator

  ghost predicate Indexes(index: map<string, nat>, ps: seq<Entry>) {
    forall id :: (if id in index then IndexOf(ps, id) == Some(index[id]) else IndexOf(ps, id) == None)
  }

  class Accumulator {
    var proposals: seq<Entry>
    const pid: string -> string

    constructor (pid: string -> string, proposals: seq<Entry>)
      ensures this.pid == pid && this.proposals == proposals
    {
      this.pid := pid;
      this.proposals := proposals;
    }

    method BuildIndex() returns (index: map<string, nat>)
      ensures Indexes(index, proposals)
    {
      index := map[];
      for i := 0 to |proposals|
        invariant Indexes(index, proposals[..i])
      {
        assert proposals[..i + 1] == proposals[..i] + [proposals[i]];
        IndexSnoc(index, proposals[..i], proposals[i]);
        index := index[proposals[i].id := i];
      }
      assert proposals[..|proposals|] == proposals;
    }

    /** One rec of a merge or of a backfill, through the id dictionary. */
    method Absorb(index: map<string, nat>, it: Item, backfill: bool) returns (index': map<string, nat>)
      requires Indexes(index, proposals)
      modifies this
      ensures proposals == Step(pid, old(proposals), it, backfill)
      ensures Indexes(index', proposals)
    {
      hide Seen, Added;
      index' := index;
      if it.rec.title == "" {
        return;
      }
      var id := pid(it.rec.title);
      if id in index {
        var i := index[id];
        assert IndexOf(proposals, id) == Some(i);
        SeenKeepsIndex(proposals, i, it, backfill);
        proposals := proposals[i := Seen(proposals[i], it.rec, it.stamp, backfill)];
      } else {
        assert IndexOf(proposals, id) == None;
        AddedHasId(id, it, backfill);
        IndexSnoc(index, proposals, Added(id, it.rec, it.stamp, backfill));
        index' := index[id := |proposals|];
        proposals := proposals + [Added(id, it.rec, it.stamp, backfill)];
      }
    }

    method MergeRun(recs: seq<Rec>, stamp: Stamp)
      modifies this
      ensures proposals == MergeAll(pid, old(proposals), Stamped(recs, stamp), false)
    {
      hide Step, Indexes;
      var index := BuildIndex();
      ghost var items := Stamped(recs, stamp);
      for i := 0 to |recs|
        invariant Indexes(index, proposals)
        invariant proposals == MergeAll(pid, old(proposals), items[..i], false)
      {
        assert items[..i + 1][..i] == items[..i];
        index := Absorb(index, Item(recs[i], stamp), false);
      }
      assert items[..|recs|] == items;
    }

    /** Rebuilds from every readable snapshot, oldest first. */
    method Backfill(snapshots: seq<seq<Item>>)
      modifies this
      ensures proposals == MergeAll(pid, old(proposals), Flatten(snapshots), true)
    {
      hide Step, Indexes;
      var index := BuildIndex();
      ghost var was := proposals;
      for i := 0 to |snapshots|
        invariant Indexes(index, proposals)
        invariant proposals == MergeAll(pid, was, Flatten(snapshots[..i]), true)
      {
        assert snapshots[..i + 1][..i] == snapshots[..i];
        index := AbsorbSnapshot(index, snapshots[i], was, Flatten(snapshots[..i]));
      }
      assert snapshots[..|snapshots|] == snapshots;
    }

    method AbsorbSnapshot(index: map<string, nat>, items: seq<Item>, ghost was: seq<Entry>, ghost earlier: seq<Item>)
      returns (index': map<string, nat>)
      requires Indexes(index, proposals) && proposals == MergeAll(pid, was, earlier, true)
      modifies this
      ensures Indexes(index', proposals) && proposals == MergeAll(pid, was, earlier + items, true)
    {
      hide Step, Indexes;
      index' := index;
      assert items[..0] == [] && earlier + [] == earlier;
      for j := 0 to |items|
        invariant Indexes(index', proposals)
        invariant proposals == MergeAll(pid, was, earlier + items[..j], true)
      {
        index' := Absorb(index', items[j], true);
        var read := earlier + items[..j + 1];
        assert read[..|read| - 1] == earlier + items[..j];
      }
      assert items[..|items|] == items;
    }

    method TransitionState(id: string, state: string, at: string, reason: string) returns (changed: bool)
      modifies this
      ensures proposals == Transitioned(old(proposals), id, state, at, reason)
      ensures var at := FirstIndex(old(proposals), id);
              changed <==> at.Some? && old(proposals)[at.value].state != state
    {
      for i := 0 to |proposals|
        invariant proposals == old(proposals)
        invariant forall j :: 0 <= j < i ==> proposals[j].id != id
      {
        if proposals[i].id == id {
          FirstIndexIs(proposals, id, i);
          if proposals[i].state == state {
            return false;
          }
          proposals := proposals[i := Moved(proposals[i], state, at, reason)];
          return true;
        }
      }
      return false;
    }

    method OpenProposals(r: Reading, cap: Option<int>) returns (out: seq<Entry>)
      ensures out == OpenQueue(proposals, r, cap)
    {
      out := [];
      for i := 0 to |proposals|
        invariant out == Filter(proposals[..i], IsOpen)
      {
        assert proposals[..i + 1] == proposals[..i] + [proposals[i]];
        FilterConcat(proposals[..i], [proposals[i]], IsOpen);
        if proposals[i].state == "open" {
          out := out + [proposals[i]];
        }
      }
      assert proposals[..|proposals|] == proposals;
      out := StableSort(out, Ranking(r));
      if cap.Some? && cap.value > 0 {
        out := Take(out, cap.value);
      }
    }
  }

  lemma FirstIndexIs(ps: seq<Entry>, id: string, i: nat)
    requires i < |ps| && ps[i].id == id && forall j :: 0 <= j < i ==> ps[j].id != id
    ensures FirstIndex(ps, id) == Some(i)
  {}

  lemma AddedHasId(id: string, it: Item, backfill: bool)
    ensures Added(id, it.rec, it.stamp, backfill).id == id
  {}

  lemma IndexSnoc(index: map<string, nat>, ps: seq<Entry>, e: Entry)
    requires Indexes(index, ps)
    ensures Indexes(index[e.id := |ps|], ps + [e])
  {
    assert (ps + [e])[..|ps|] == ps;
  }

  lemma SeenKeepsIndex(ps: seq<Entry>, i: nat, it: Item, backfill: bool)
    requires i < |ps|
    ensures forall id :: IndexOf(ps[i := Seen(ps[i], it.rec, it.stamp, backfill)], id) == IndexOf(ps, id)
  {
    forall id ensures IndexOf(ps[i := Seen(ps[i], it.rec, it.stamp, backfill)], id) == IndexOf(ps, id) {
      SameIdsSameIndex(ps, ps[i := Seen(ps[i], it.rec, it.stamp, backfill)], id);
    }
  }

  lemma {:induction false} SameIdsSameIndex(a: seq<Entry>, b: seq<Entry>, id: string)
    requires |a| == |b| && forall i :: 0 <= i < |a| ==> a[i].id == b[i].id
    ensures IndexOf(a, id) == IndexOf(b, id)
  {
    if a != [] {
      SameIdsSameIndex(a[..|a| - 1], b[..|b| - 1], id);
    }
  }
}
