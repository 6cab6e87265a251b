/** Rec ids: how they are assigned, how selectors resolve to them, and how replies are applied to the recs. */
module ReplyApply {
  import opened Sequences
  import opened Decimals
  import opened ReplyParser

  datatype Response = Response(action: string, at: string, notes: string, via: string, filters: seq<string>)

  datatype Rec = Rec(id: string, uid: string, tier: Option<string>, severity: Option<string>, priority: Option<string>,
                     response: Option<Response>)

  /** A parsed reply and the time it is applied. */
  datatype Reply = Reply(action: Action, at: string)

  // ------------------------------------------------------------------ specification

  function Assigned(recs: seq<Rec>, uids: seq<string>): seq<Rec>
    requires |uids| == |recs|
  {
    seq(|recs|, i requires 0 <= i < |recs| => WithIds(recs[i], i, uids[i]))
  }

  function WithIds(r: Rec, i: nat, uid: string): Rec {
    r.(id := IdText(i + 1), uid := if r.uid == "" then uid else r.uid)
  }

  predicate UidForm(t: string) { "r-" <= t && |t| == 10 }

  /** The id of the last rec with that uid, as a dictionary keeps it. */
  function ByUid(recs: seq<Rec>, uid: string): Option<string> {
    if recs == [] then None
    else
      var r := recs[|recs| - 1];
      if r.uid != "" && r.id != "" && r.uid == uid then Some(r.id) else ByUid(recs[..|recs| - 1], uid)
  }

  function Ids(recs: seq<Rec>): set<string> { set r | r in recs && r.id != "" :: r.id }

  function Resolve(recs: seq<Rec>, t: string): Option<string> {
    if UidForm(t) then ByUid(recs, t)
    else if "rec-" <= t && t in Ids(recs) then Some(t)
    else None
  }

  function ResolveAll(recs: seq<Rec>, requested: seq<string>): seq<string> {
    if requested == [] then []
    else
      var out, id := ResolveAll(recs, requested[..|requested| - 1]), Resolve(recs, requested[|requested| - 1]);
      if id.Some? && id.value !in out then out + [id.value] else out
  }

  predicate Matches(r: Rec, filters: seq<string>) {
    || "all" in filters
    || (r.tier.Some? && r.tier.value in filters)
    || (r.severity.Some? && r.severity.value in filters)
    || (r.priority.Some? && r.priority.value in filters)
  }

  function Matching(recs: seq<Rec>, filters: seq<string>): set<string> {
    set r | r in recs && Matches(r, filters) :: r.id
  }

  function Targets(recs: seq<Rec>, a: Action): set<string> { a.ids + Matching(recs, a.filters) }

  function ResponseTo(reply: Reply, id: string): Response {
    Response(reply.action.verb, reply.at, reply.action.notes,
             if id in reply.action.ids then "explicit-rec-id" else "bulk-filter", reply.action.filters)
  }

  predicate Selects(recs: seq<Rec>, reply: Reply, id: string) {
    reply.action.verb != "unknown" && id in Targets(recs, reply.action)
  }

  /** Of recs that share an id a reply reaches the last one only. */
  predicate IsLast(recs: seq<Rec>, i: nat) {
    i < |recs| && forall j :: i < j < |recs| ==> recs[j].id != recs[i].id
  }

  /** The recs once the responses of the targets in `done` are written. */
  function Written(recs: seq<Rec>, reply: Reply, done: set<string>): seq<Rec> {
    seq(|recs|, i requires 0 <= i < |recs| =>
      if IsLast(recs, i) && recs[i].id in done then recs[i].(response := Some(ResponseTo(reply, recs[i].id)))
      else recs[i])
  }

  function AfterReply(recs: seq<Rec>, reply: Reply): seq<Rec> {
    seq(|recs|, i requires 0 <= i < |recs| =>
      if IsLast(recs, i) && Selects(recs, reply, recs[i].id)
      then recs[i].(response := Some(ResponseTo(reply, recs[i].id)))
      else recs[i])
  }

  function AfterReplies(recs: seq<Rec>, replies: seq<Reply>): seq<Rec> {
    if replies == [] then recs else AfterReply(AfterReplies(recs, replies[..|replies| - 1]), replies[|replies| - 1])
  }

  predicate HasId(recs: seq<Rec>, id: string) { exists r :: r in recs && r.id == id }

  /** The targets that are ids of recs, in order, each with the verb. */
  function Reported(recs: seq<Rec>, verb: string, targets: seq<string>): seq<(string, string)> {
    if targets == [] then []
    else
      var rest, id := Reported(recs, verb, targets[..|targets| - 1]), targets[|targets| - 1];
      if HasId(recs, id) then rest + [(id, verb)] else rest
  }

  ghost function Applied(recs: seq<Rec>, reply: Reply): seq<(string, string)> {
    if reply.action.verb == "unknown" then []
    else Reported(recs, reply.action.verb, SortedSet(Targets(recs, reply.action)))
  }

  ghost function AllApplied(recs: seq<Rec>, replies: seq<Reply>): seq<(string, string)> {
    if replies == [] then []
    else
      var init := replies[..|replies| - 1];
      AllApplied(recs, init) + Applied(AfterReplies(recs, init), replies[|replies| - 1])
  }

  predicate UniqueIds(recs: seq<Rec>) { forall i, j :: 0 <= i < j < |recs| ==> recs[i].id != recs[j].id }

  // ------------------------------------------------------------------ the recs document

  class RecsDocument {
    var recs: seq<Rec>

    constructor (recs: seq<Rec>)
      ensures this.recs == recs
    {
      this.recs := recs;
    }

    method AssignRecIds(uids: seq<string>)
      requires |uids| == |recs|
      modifies this
      ensures recs == Assigned(old(recs), uids)
    {
      hide IdText;
      for i := 0 to |recs|
        invariant |recs| == |old(recs)|
        invariant forall j :: 0 <= j < i ==> recs[j] == WithIds(old(recs)[j], j, uids[j])
        invariant forall j :: i <= j < |recs| ==> recs[j] == old(recs)[j]
      {
        var r := recs[i].(id := IdText(i + 1));
        if r.uid == "" {
          r := r.(uid := uids[i]);
        }
        recs := recs[i := r];
      }
    }

    method ResolveRecIds(requested: seq<string>) returns (deduped: seq<string>)
      ensures deduped == ResolveAll(recs, requested)
    {
      hide ByUid, Ids;
      deduped := [];
      var seen: set<string> := {};
      for i := 0 to |requested|
        invariant deduped == ResolveAll(recs, requested[..i])
        invariant seen == ToSet(deduped)
      {
        assert requested[..i + 1][..i] == requested[..i];
        var id := Resolve(recs, requested[i]);
        if id.Some? && id.value !in seen {
          seen := seen + {id.value};
          deduped := deduped + [id.value];
        }
      }
      assert requested[..|requested|] == requested;
    }

    /** The ids of the matching recs, sorted, each once. */
    method ExpandFilters(filters: seq<string>) returns (ids: seq<string>)
      ensures ids == SortedSet(Matching(recs, filters))
    {
      var out: set<string> := {};
      for i := 0 to |recs|
        invariant out == Matching(recs[..i], filters)
      {
        assert recs[..i + 1] == recs[..i] + [recs[i]];
        assert forall r :: r in recs[..i + 1] <==> r in recs[..i] || r == recs[i];
        if Matches(recs[i], filters) {
          out := out + {recs[i].id};
        }
      }
      assert recs[..|recs|] == recs;
      ids := SortSet(out);
    }

    method BuildIndex() returns (byId: map<string, nat>)
      ensures Indexes(byId, recs)
    {
      byId := map[];
      for i := 0 to |recs|
        invariant Indexes(byId, recs[..i])
      {
        byId := byId[recs[i].id := i];
      }
      assert recs[..|recs|] == recs;
    }

    /** One reply: its targets in sorted order. */
    method ApplyReply(reply: Reply, byId: map<string, nat>) returns (applied: seq<(string, string)>)
      requires Indexes(byId, recs)
      modifies this
      ensures recs == AfterReply(old(recs), reply)
      ensures applied == Applied(old(recs), reply)
    {
      hide Matches, Written, AfterReply, Applied, ResponseTo, Reported, SortedFrom;
      applied := [];
      if reply.action.verb == "unknown" {
        UnknownDoesNothing(recs, reply);
        return;
      }
      var matching := ExpandFilters(reply.action.filters);
      SetOf(Matching(recs, reply.action.filters));
      var targets := SortSet(reply.action.ids + ToSet(matching));
      SetOf(Targets(recs, reply.action));
      AllWritten(recs, reply);
      applied := MarkTargets(reply, targets, byId);
    }

    method MarkTargets(reply: Reply, targets: seq<string>, byId: map<string, nat>)
      returns (applied: seq<(string, string)>)
      requires Indexes(byId, recs)
      modifies this
      ensures recs == Written(old(recs), reply, ToSet(targets))
      ensures applied == Reported(old(recs), reply.action.verb, targets)
    {
      hide Written, ResponseTo, HasId;
      applied := [];
      ghost var was := recs;
      NothingWritten(recs, reply);
      assert ToSet(targets[..0]) == {};
      for k := 0 to |targets|
        invariant recs == Written(was, reply, ToSet(targets[..k]))
        invariant applied == Reported(was, reply.action.verb, targets[..k])
      {
        var rid := targets[k];
        assert targets[..k + 1] == targets[..k] + [rid] && targets[..k + 1][..k] == targets[..k];
        assert ToSet(targets[..k + 1]) == ToSet(targets[..k]) + {rid};
        WriteOne(byId, was, reply, ToSet(targets[..k]), rid);
        if rid in byId {
          var i := byId[rid];
          recs := recs[i := recs[i].(response := Some(ResponseTo(reply, rid)))];
          applied := applied + [(rid, reply.action.verb)];
        }
      }
      assert targets[..|targets|] == targets;
    }

    method ApplyUserResponses(replies: seq<Reply>) returns (applied: seq<(string, string)>)
      modifies this
      ensures recs == AfterReplies(old(recs), replies)
      ensures applied == AllApplied(old(recs), replies)
    {
      hide AfterReply, Applied;
      var byId := BuildIndex();
      applied := [];
      for i := 0 to |replies|
        invariant Indexes(byId, recs)
        invariant recs == AfterReplies(old(recs), replies[..i])
        invariant applied == AllApplied(old(recs), replies[..i])
      {
        assert replies[..i + 1][..i] == replies[..i];
        ReplyKeepsIds(recs, replies[i]);
        var now := ApplyReply(replies[i], byId);
        applied := applied + now;
      }
      assert replies[..|replies|] == replies;
    }
  }

  /** The dictionary leads from each id to the last rec that has it. */
  predicate Indexes(byId: map<string, nat>, recs: seq<Rec>) {
    && (forall id :: id in byId ==> IsLast(recs, byId[id]) && recs[byId[id]].id == id)
    && (forall i :: 0 <= i < |recs| ==> recs[i].id in byId)
  }

  lemma SetOf(ids: set<string>)
    ensures ToSet(SortedSet(ids)) == ids
  {}

  lemma UnknownDoesNothing(recs: seq<Rec>, reply: Reply)
    requires reply.action.verb == "unknown"
    ensures AfterReply(recs, reply) == recs && Applied(recs, reply) == []
  {
    hide Targets;
  }

  lemma NothingWritten(recs: seq<Rec>, reply: Reply)
    ensures Written(recs, reply, {}) == recs
  {
    hide ResponseTo;
  }

  lemma LastIsUnique(recs: seq<Rec>, i: nat, j: nat)
    requires IsLast(recs, i) && IsLast(recs, j) && recs[i].id == recs[j].id
    ensures i == j
  {}

  lemma WriteOne(byId: map<string, nat>, recs: seq<Rec>, reply: Reply, done: set<string>, id: string)
    requires Indexes(byId, recs)
    ensures |Written(recs, reply, done)| == |recs|
    ensures id in byId <==> HasId(recs, id)
    ensures id !in byId ==> Written(recs, reply, done + {id}) == Written(recs, reply, done)
    ensures id in byId ==>
              var w := Written(recs, reply, done);
              Written(recs, reply, done + {id}) == w[byId[id] := w[byId[id]].(response := Some(ResponseTo(reply, id)))]
  {
    hide ResponseTo;
    var w, w' := Written(recs, reply, done), Written(recs, reply, done + {id});
    if id in byId {
      assert recs[byId[id]] in recs;
      forall i | 0 <= i < |recs|
        ensures w'[i] == if i == byId[id] then w[i].(response := Some(ResponseTo(reply, id))) else w[i]
      {
        if IsLast(recs, i) && recs[i].id == id {
          LastIsUnique(recs, i, byId[id]);
        }
      }
    } else {
      forall i | 0 <= i < |recs| ensures w'[i] == w[i] {}
    }
  }

  lemma AllWritten(recs: seq<Rec>, reply: Reply)
    requires reply.action.verb != "unknown"
    ensures Written(recs, reply, Targets(recs, reply.action)) == AfterReply(recs, reply)
    ensures Applied(recs, reply) == Reported(recs, reply.action.verb, SortedSet(Targets(recs, reply.action)))
  {
    hide ResponseTo, Targets;
  }

  lemma ReplyKeepsIds(recs: seq<Rec>, reply: Reply)
    ensures |AfterReply(recs, reply)| == |recs|
    ensures forall i :: 0 <= i < |recs| ==> AfterReply(recs, reply)[i].id == recs[i].id
  {}

  // ------------------------------------------------------------------ ids

  /** The ids of one email are pairwise distinct, a rec that had a uid keeps it, and nothing else changes. */
  lemma AssignedIdsDiffer(recs: seq<Rec>, uids: seq<string>)
    requires |uids| == |recs|
    ensures UniqueIds(Assigned(recs, uids))
    ensures forall r :: r in Assigned(recs, uids) ==> "rec-" <= r.id
    ensures |Assigned(recs, uids)| == |recs|
    ensures forall i :: 0 <= i < |recs| ==>
              var r := Assigned(recs, uids)[i];
              && r == recs[i].(id := r.id, uid := r.uid)
              && r.uid == if recs[i].uid != "" then recs[i].uid else uids[i]
  {
    hide IdText;
    var out := Assigned(recs, uids);
    forall i, j | 0 <= i < j < |out| ensures out[i].id != out[j].id {
      IdsDiffer(i + 1, j + 1);
    }
    forall i | 0 <= i < |out| ensures "rec-" <= out[i].id {
      IdPrefix(i + 1);
    }
  }

  lemma IdPrefix(n: nat)
    ensures "rec-" <= IdText(n)
  {}

  lemma IdsDiffer(a: nat, b: nat)
    requires a != b
    ensures IdText(a) != IdText(b)
  {
    Pad3Value(a);
    Pad3Value(b);
    assert IdText(a)[4..] == Pad3(a) && IdText(b)[4..] == Pad3(b);
  }

  // ------------------------------------------------------------------ resolving

  /** The rec at i is the last one with the uid that has an id. */
  predicate Carries(recs: seq<Rec>, uid: string, i: nat) {
    && i < |recs| && recs[i].uid == uid && recs[i].id != ""
    && forall j :: i < j < |recs| && recs[j].uid == uid ==> recs[j].id == ""
  }

  lemma {:induction false} ByUidCarries(recs: seq<Rec>, uid: string, id: string)
    requires uid != ""
    ensures ByUid(recs, uid) == Some(id) <==> exists i: nat :: Carries(recs, uid, i) && recs[i].id == id
  {
    if recs != [] {
      var n := |recs| - 1;
      var init, r := recs[..n], recs[n];
      ByUidCarries(init, uid, id);
      if r.uid == uid && r.id != "" {
        assert Carries(recs, uid, n);
        forall i: nat | Carries(recs, uid, i) ensures i == n {}
      } else {
        assert forall i: nat :: i < n ==> recs[i] == init[i];
        assert forall i: nat :: Carries(recs, uid, i) <==> Carries(init, uid, i);
      }
    }
  }

  /** What a selector stands for: an id stands for itself, if a rec has it, and a uid for the id of the last rec that
      carries it. */
  ghost predicate StandsFor(recs: seq<Rec>, t: string, id: string) {
    || ("rec-" <= t && id == t && exists r :: r in recs && r.id == t)
    || ("r-" <= t && |t| == 10 && exists i: nat :: Carries(recs, t, i) && recs[i].id == id)
  }

  lemma ResolveIff(recs: seq<Rec>, t: string, id: string)
    ensures Resolve(recs, t) == Some(id) <==> StandsFor(recs, t, id)
  {
    hide ByUid;
    if "rec-" <= t {
      RecIsNotUid(t);
      assert t[1] == 'e' && "r-"[1] == '-';
    }
    if UidForm(t) {
      ByUidCarries(recs, t, id);
    }
  }

  /** A request resolves to exactly the ids its selectors stand for, each once. */
  lemma ResolvedAre(recs: seq<Rec>, requested: seq<string>)
    ensures NoDup(ResolveAll(recs, requested))
    ensures forall id ::
              id in ResolveAll(recs, requested) <==>
              exists t :: t in requested && StandsFor(recs, t, id)
  {
    hide ResolveAll, Resolve, StandsFor;
    ResolvedOnce(recs, requested);
    forall t, id ensures Resolve(recs, t) == Some(id) <==> StandsFor(recs, t, id) {
      ResolveIff(recs, t, id);
    }
  }

  lemma {:induction false} ResolvedOnce(recs: seq<Rec>, requested: seq<string>)
    ensures NoDup(ResolveAll(recs, requested))
    ensures forall id ::
              id in ResolveAll(recs, requested) <==>
              exists t :: t in requested && Resolve(recs, t) == Some(id)
  {
    hide Resolve;
    if requested != [] {
      var init, t := requested[..|requested| - 1], requested[|requested| - 1];
      ResolvedOnce(recs, init);
      assert requested == init + [t];
      assert forall x :: x in requested <==> x in init || x == t;
    }
  }

  /** Order is kept: what a shorter request resolves to comes first, unchanged. */
  lemma {:induction false} ResolvedInOrder(recs: seq<Rec>, a: seq<string>, b: seq<string>)
    ensures ResolveAll(recs, a) <= ResolveAll(recs, a + b)
    decreases |b|
  {
    hide Resolve;
    if b == [] {
      assert a + b == a;
    } else {
      assert (a + b)[..|a + b| - 1] == a + b[..|b| - 1];
      ResolvedInOrder(recs, a, b[..|b| - 1]);
    }
  }

  lemma {:induction false} ByUidIsAnId(recs: seq<Rec>, uid: string)
    ensures ByUid(recs, uid).Some? ==> ByUid(recs, uid).value in Ids(recs)
  {
    if recs != [] {
      ByUidIsAnId(recs[..|recs| - 1], uid);
      assert recs == recs[..|recs| - 1] + [recs[|recs| - 1]];
    }
  }

  predicate RecStyle(recs: seq<Rec>) { forall id :: id in Ids(recs) ==> "rec-" <= id }

  /** Every id that a uid selector reaches resolves to itself. */
  ghost predicate UidsReachFixedIds(recs: seq<Rec>) {
    forall t :: UidForm(t) && ByUid(recs, t).Some? ==> Resolve(recs, ByUid(recs, t).value) == ByUid(recs, t)
  }

  lemma ResolvedIsFixed(recs: seq<Rec>, t: string)
    requires UidsReachFixedIds(recs) && Resolve(recs, t).Some?
    ensures Resolve(recs, Resolve(recs, t).value) == Resolve(recs, t)
  {}

  lemma {:induction false} FixedTokens(recs: seq<Rec>, ids: seq<string>)
    requires NoDup(ids) && forall id :: id in ids ==> Resolve(recs, id) == Some(id)
    ensures ResolveAll(recs, ids) == ids
  {
    hide Resolve;
    if ids != [] {
      FixedTokens(recs, ids[..|ids| - 1]);
      assert ids[|ids| - 1] in ids;
    }
  }

  /** Resolving is idempotent on a document exactly when every id that a uid reaches resolves to itself. */
  lemma ResolveTwiceIff(recs: seq<Rec>)
    ensures (forall requested :: ResolveAll(recs, ResolveAll(recs, requested)) == ResolveAll(recs, requested))
            <==> UidsReachFixedIds(recs)
  {
    hide Resolve, ByUid;
    if UidsReachFixedIds(recs) {
      forall requested ensures ResolveAll(recs, ResolveAll(recs, requested)) == ResolveAll(recs, requested) {
        FixedAfterOnce(recs, requested);
      }
    } else {
      var t :| UidForm(t) && ByUid(recs, t).Some? && Resolve(recs, ByUid(recs, t).value) != ByUid(recs, t);
      UidResolves(recs, t);
      OneToken(recs, t);
      OneToken(recs, ByUid(recs, t).value);
      assert ResolveAll(recs, ResolveAll(recs, [t])) != ResolveAll(recs, [t]);
    }
  }

  lemma UidResolves(recs: seq<Rec>, t: string)
    requires UidForm(t)
    ensures Resolve(recs, t) == ByUid(recs, t)
  {}

  lemma FixedAfterOnce(recs: seq<Rec>, requested: seq<string>)
    requires UidsReachFixedIds(recs)
    ensures ResolveAll(recs, ResolveAll(recs, requested)) == ResolveAll(recs, requested)
  {
    hide Resolve, ByUid, UidsReachFixedIds;
    var ids := ResolveAll(recs, requested);
    ResolvedOnce(recs, requested);
    forall id | id in ids ensures Resolve(recs, id) == Some(id) {
      var t :| t in requested && Resolve(recs, t) == Some(id);
      ResolvedIsFixed(recs, t);
    }
    FixedTokens(recs, ids);
  }

  /** So it is when the known ids are of the rec- form. */
  lemma ResolveTwice(recs: seq<Rec>, requested: seq<string>)
    requires RecStyle(recs)
    ensures ResolveAll(recs, ResolveAll(recs, requested)) == ResolveAll(recs, requested)
  {
    hide ByUid, Ids;
    forall t | UidForm(t) && ByUid(recs, t).Some?
      ensures Resolve(recs, ByUid(recs, t).value) == ByUid(recs, t)
    {
      ByUidIsAnId(recs, t);
      RecIsNotUid(ByUid(recs, t).value);
    }
    FixedAfterOnce(recs, requested);
  }

  /** A document where it is not: a uid resolves to the id, and the id resolves to nothing. */
  lemma ResolveTwiceNeedsRecStyle()
    ensures exists recs: seq<Rec>, requested: seq<string> ::
              ResolveAll(recs, ResolveAll(recs, requested)) != ResolveAll(recs, requested)
  {
    hide Resolve;
    var recs := [Rec("x", "r-a1b2c3d4", None, None, None, None)];
    assert Resolve(recs, "r-a1b2c3d4") == Some("x") && Resolve(recs, "x") == None by { OneRecResolves(); }
    OneToken(recs, "r-a1b2c3d4");
    OneToken(recs, "x");
  }

  lemma OneRecResolves()
    ensures var recs := [Rec("x", "r-a1b2c3d4", None, None, None, None)];
            Resolve(recs, "r-a1b2c3d4") == Some("x") && Resolve(recs, "x") == None
  {}

  lemma OneToken(recs: seq<Rec>, t: string)
    ensures ResolveAll(recs, [t]) == match Resolve(recs, t) case None => [] case Some(id) => [id]
  {
    hide Resolve;
    assert [t][..0] == [];
  }

  // ------------------------------------------------------------------ filters

  /** Filter keywords combine as a union, in any order and with any repetition. */
  lemma FiltersUnite(recs: seq<Rec>, a: seq<string>, b: seq<string>)
    ensures Matching(recs, a + b) == Matching(recs, a) + Matching(recs, b)
    ensures Matching(recs, []) == {}
    ensures "all" in a ==> Matching(recs, a) == set r | r in recs :: r.id
  {
    forall r | r in recs ensures Matches(r, a + b) <==> Matches(r, a) || Matches(r, b) {}
  }

  // ------------------------------------------------------------------ applying

  /** One reply writes exactly these fields on exactly these recs: with a known verb, on the last rec of each id that is
      named in the reply or belongs to a rec whose tier, severity or priority is a filter of it. */
  lemma ReplyWrites(recs: seq<Rec>, reply: Reply, i: nat)
    requires i < |recs|
    ensures var r, a := recs[i], reply.action;
            var reached :=
              || r.id in a.ids
              || exists o :: o in recs && o.id == r.id
                   && ("all" in a.filters || (o.tier.Some? && o.tier.value in a.filters)
                       || (o.severity.Some? && o.severity.value in a.filters)
                       || (o.priority.Some? && o.priority.value in a.filters));
            |AfterReply(recs, reply)| == |recs|
            && AfterReply(recs, reply)[i] ==
               if a.verb != "unknown" && reached && (forall j :: i < j < |recs| ==> recs[j].id != r.id)
               then r.(response := Some(Response(a.verb, reply.at, a.notes,
                                                 if r.id in a.ids then "explicit-rec-id" else "bulk-filter",
                                                 a.filters)))
               else r
  {}

  lemma {:induction false} ReportedAre(recs: seq<Rec>, verb: string, targets: seq<string>)
    requires Ascending(targets)
    ensures forall p :: p in Reported(recs, verb, targets) <==> p.0 in targets && HasId(recs, p.0) && p.1 == verb
    ensures forall i, j :: 0 <= i < j < |Reported(recs, verb, targets)| ==>
              Less(Reported(recs, verb, targets)[i].0, Reported(recs, verb, targets)[j].0)
  {
    hide HasId, Less;
    if targets != [] {
      var init, t := targets[..|targets| - 1], targets[|targets| - 1];
      ReportedAre(recs, verb, init);
      assert targets == init + [t];
      var out := Reported(recs, verb, init);
      forall i | 0 <= i < |out| ensures Less(out[i].0, t) {
        assert out[i] in out;
        var k :| 0 <= k < |init| && init[k] == out[i].0;
        assert targets[k] == init[k];
      }
    }
  }

  /** A reply reports, sorted and each once, the ids of the recs it writes on. */
  lemma AppliedAre(recs: seq<Rec>, reply: Reply)
    ensures forall p :: p in Applied(recs, reply) <==>
              && p.1 == reply.action.verb
              && exists i: nat :: IsLast(recs, i) && recs[i].id == p.0 && Selects(recs, reply, p.0)
    ensures forall i, j :: 0 <= i < j < |Applied(recs, reply)| ==>
              Less(Applied(recs, reply)[i].0, Applied(recs, reply)[j].0)
  {
    hide Reported, Less, Targets;
    if reply.action.verb != "unknown" {
      var targets := SortedSet(Targets(recs, reply.action));
      ReportedAre(recs, reply.action.verb, targets);
      forall p
        ensures p in Applied(recs, reply) <==>
                && p.1 == reply.action.verb
                && exists i: nat :: IsLast(recs, i) && recs[i].id == p.0 && Selects(recs, reply, p.0)
      {
        assert p.0 in ToSet(targets) <==> p.0 in targets;
        LastExists(recs, p.0);
      }
    }
  }

  /** Over several replies the report is that of each one in turn, on the recs as the earlier ones left them. */
  lemma {:induction false} AllAppliedAre(recs: seq<Rec>, replies: seq<Reply>, p: (string, string))
    ensures p in AllApplied(recs, replies) <==>
            exists k :: 0 <= k < |replies| && p in Applied(AfterReplies(recs, replies[..k]), replies[k])
  {
    hide Applied, AfterReplies;
    if replies != [] {
      var n := |replies| - 1;
      AllAppliedAre(recs, replies[..n], p);
      assert forall k :: 0 <= k < n ==> replies[..n][..k] == replies[..k];
    }
  }

  lemma {:induction false} LastExists(recs: seq<Rec>, id: string)
    ensures HasId(recs, id) <==> exists i: nat :: IsLast(recs, i) && recs[i].id == id
  {
    if recs != [] {
      var n := |recs| - 1;
      var init := recs[..n];
      LastExists(init, id);
      if recs[n].id == id {
        assert IsLast(recs, n) && recs[n] in recs;
      } else {
        assert recs == init + [recs[n]];
        assert forall i: nat :: i < n ==> recs[i] == init[i];
        if i: nat :| IsLast(init, i) && init[i].id == id {
          assert IsLast(recs, i);
        }
        if i: nat :| IsLast(recs, i) && recs[i].id == id {
          assert IsLast(init, i);
        }
      }
    }
  }

  /** The response of the last reply that selects the id, or what was there. */
  function LastResponse(recs: seq<Rec>, replies: seq<Reply>, id: string, was: Option<Response>): Option<Response> {
    if replies == [] then was
    else
      var reply := replies[|replies| - 1];
      if Selects(recs, reply, id)
          then Some(ResponseTo(reply, id)) else LastResponse(recs, replies[..|replies| - 1], id, was)
  }

  /** Applying replies writes nothing but responses, so what a filter selects never depends on earlier replies. */
  lemma {:induction false} RepliesKeepRecs(recs: seq<Rec>, replies: seq<Reply>)
    ensures |AfterReplies(recs, replies)| == |recs|
    ensures forall i :: 0 <= i < |recs| ==>
            AfterReplies(recs, replies)[i] == recs[i].(response := AfterReplies(recs, replies)[i].response)
  {
    hide Selects;
    if replies != [] {
      RepliesKeepRecs(recs, replies[..|replies| - 1]);
    }
  }

  lemma SameTargets(recs: seq<Rec>, now: seq<Rec>, reply: Reply, id: string)
    requires |now| == |recs| && forall i :: 0 <= i < |recs| ==> now[i] == recs[i].(response := now[i].response)
    ensures Selects(now, reply, id) <==> Selects(recs, reply, id)
  {
    var f := reply.action.filters;
    forall i | 0 <= i < |recs| ensures Matches(now[i], f) == Matches(recs[i], f) && now[i].id == recs[i].id {}
    forall x ensures x in Matching(now, f) <==> x in Matching(recs, f) {
      if x in Matching(now, f) {
        var r :| r in now && Matches(r, f) && r.id == x;
        var i :| 0 <= i < |now| && now[i] == r;
        assert recs[i] in recs;
      }
      if x in Matching(recs, f) {
        var r :| r in recs && Matches(r, f) && r.id == x;
        var i :| 0 <= i < |recs| && recs[i] == r;
        assert now[i] in now;
      }
    }
  }

  /** After any sequence of replies each rec holds the last reply with a known verb that selects it, by its id
      or by a filter, and is otherwise as it was. Of recs that share an id only the last one is ever written. */
  lemma {:induction false} RecsHoldLastReply(recs: seq<Rec>, replies: seq<Reply>, i: nat)
    requires i < |recs|
    ensures |AfterReplies(recs, replies)| == |recs|
    ensures AfterReplies(recs, replies)[i] ==
            if IsLast(recs, i) then recs[i].(response := LastResponse(recs, replies, recs[i].id, recs[i].response))
            else recs[i]
  {
    hide Selects, ResponseTo;
    if replies != [] {
      var init := replies[..|replies| - 1];
      RecsHoldLastReply(recs, init, i);
      RepliesKeepRecs(recs, init);
      SameTargets(recs, AfterReplies(recs, init), replies[|replies| - 1], recs[i].id);
    }
  }

  lemma RecIsNotUid(id: string)
    requires "rec-" <= id
    ensures !UidForm(id)
  {
    assert id[1] == 'e' && "r-"[1] == '-';
  }

  lemma NothingChanges(recs: seq<Rec>, reply: Reply)
    requires forall r :: r in recs ==> r.id !in Targets(recs, reply.action)
    ensures AfterReply(recs, reply) == recs
  {}

  lemma {:induction false} NothingReported(recs: seq<Rec>, verb: string, targets: seq<string>)
    requires forall id :: id in targets ==> !HasId(recs, id)
    ensures Reported(recs, verb, targets) == []
  {
    if targets != [] {
      NothingReported(recs, verb, targets[..|targets| - 1]);
    }
  }

  /** Selectors that are not ids of the recs have no effect. Since ids are of the rec- form, that is every uid:
      the uid form is parsed but selects nothing here. */
  lemma UidsSelectNothing(recs: seq<Rec>, reply: Reply)
    requires forall r :: r in recs ==> "rec-" <= r.id
    requires forall t :: t in reply.action.ids ==> UidForm(t)
    requires reply.action.filters == []
    ensures AfterReply(recs, reply) == recs && Applied(recs, reply) == []
  {
    hide UidForm, Matching, Selects;
    forall r | r in recs ensures r.id !in reply.action.ids {
      RecIsNotUid(r.id);
    }
    FiltersUnite(recs, [], []);
    assert Targets(recs, reply.action) == reply.action.ids;
    NothingChanges(recs, reply);
    forall id | id in SortedSet(reply.action.ids) ensures !HasId(recs, id) {
      assert id in ToSet(SortedSet(reply.action.ids));
    }
    NothingReported(recs, reply.action.verb, SortedSet(reply.action.ids));
  }
}
