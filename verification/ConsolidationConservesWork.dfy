/** What a whole consolidation run keeps: the work queued per run, the shape of the queue
    files, and its own result when it is run again. */
module ConsolidationConservesWork {
  import opened Sequences
  import opened Decimals
  import opened ConsolidateQueued

  /** The recs an id stands for: those a mega-rec lists as its sources, else itself. */
  function Expand(recs: seq<Rec>, id: string): set<string> {
    var i := Find(recs, id);
    if i >= 0 && recs[i].sources != {} then recs[i].sources else {id}
  }

  function Work(recs: seq<Rec>, ids: seq<string>): set<string> {
    set x, id | id in ids && x in Expand(recs, id) :: x
  }

  function RecsOf(runs: map<RunKey, RunDoc>, k: RunKey): seq<Rec> {
    if k in runs then runs[k].recs else []
  }

  /** All work queued for one (agent, run_ts). */
  function RunWork(runs: map<RunKey, RunDoc>, files: map<string, QueueFile>, k: RunKey): set<string> {
    set x, f | f in files && KeyOf(files[f]) == k && x in Work(RecsOf(runs, k), files[f].recIds) :: x
  }

  /** Mega-recs occur only in runs the tool has stamped; it keeps this itself. */
  predicate Untouched(doc: RunDoc) {
    !doc.stamped ==> forall r :: r in doc.recs ==> r.sources == {} && !MegaLike(r.id)
  }

  predicate WellFormed(runs: map<RunKey, RunDoc>, files: map<string, QueueFile>) {
    && (forall k :: k in runs ==> Untouched(runs[k]))
    && (forall f :: f in files && KeyOf(files[f]) in runs && !runs[KeyOf(files[f])].stamped ==>
          forall id :: id in files[f].recIds ==> !MegaLike(id))
  }

  function AfterRuns(runs: map<RunKey, RunDoc>, order: map<RunKey, seq<string>>, minSize: int): map<RunKey, RunDoc> {
    map k | k in runs :: NewDoc(runs, order, minSize, k)
  }

  function AfterFiles(runs: map<RunKey, RunDoc>, files: map<string, QueueFile>, order: map<RunKey, seq<string>>,
                      minSize: int): map<string, QueueFile> {
    map f | f in files :: NewFile(files[f], MegaMap(runs, order, minSize, KeyOf(files[f])))
  }

  // ------------------------------------------------------------------ ids of mega-recs

  lemma MegaIdsDiffer(m: nat, n: nat)
    ensures MegaLike(MegaId(n))
    ensures MegaId(m) == MegaId(n) <==> m == n
  {
    Pad3Value(m);
    Pad3Value(n);
    assert MegaId(n)[..9] == "rec-cons-";
    assert MegaId(m)[9..] == Pad3(m) && MegaId(n)[9..] == Pad3(n);
  }

  lemma {:induction false} FindConcat(a: seq<Rec>, b: seq<Rec>, id: string)
    ensures Find(a + b, id) == if Find(b, id) >= 0 then |a| + Find(b, id) else Find(a, id)
  {
    if b == [] {
      assert a + b == a;
    } else {
      assert (a + b)[..|a + b| - 1] == a + b[..|b| - 1];
      FindConcat(a, b[..|b| - 1], id);
    }
  }

  lemma {:induction false} FindSameIds(a: seq<Rec>, b: seq<Rec>, id: string)
    requires |a| == |b| && forall i :: 0 <= i < |a| ==> a[i].id == b[i].id
    ensures Find(a, id) == Find(b, id)
  {
    if a != [] {
      FindSameIds(a[..|a| - 1], b[..|b| - 1], id);
    }
  }

  lemma {:induction false} FindAt(recs: seq<Rec>, i: nat)
    requires i < |recs| && forall j :: i < j < |recs| ==> recs[j].id != recs[i].id
    ensures Find(recs, recs[i].id) == i
  {
    if i < |recs| - 1 {
      FindAt(recs[..|recs| - 1], i);
    }
  }

  lemma {:induction false} FindAbsent(recs: seq<Rec>, id: string)
    requires forall r :: r in recs ==> r.id != id
    ensures Find(recs, id) < 0
  {
    if recs != [] {
      FindAbsent(recs[..|recs| - 1], id);
    }
  }

  lemma ExpandOrdinary(recs: seq<Rec>, groups: seq<Group>, id: string)
    requires forall r :: r in recs ==> r.sources == {}
    requires !MegaLike(id)
    ensures Expand(CollapsedRecs(recs, groups), id) == {id}
  {
    hide Find, Megas, MegaLike;
    var megas, marked := Megas(|recs|, groups), MarkedRecs(recs, groups);
    OrdinaryIsNoMega(|recs|, groups, id);
    FindAbsent(megas, id);
    FindConcat(marked, megas, id);
    FindSameIds(recs, marked, id);
    var i := Find(recs, id);
    if i >= 0 {
      assert recs[i] in recs && marked[i].sources == recs[i].sources;
    }
  }

  lemma MegaAt(n: nat, groups: seq<Group>, k: nat)
    requires k < |groups|
    ensures |Megas(n, groups)| == |groups| && Megas(n, groups)[k].id == MegaId(n + 1 + k)
  {
    hide MegaId;
  }

  lemma OrdinaryIsNoMega(n: nat, groups: seq<Group>, id: string)
    requires !MegaLike(id)
    ensures forall r :: r in Megas(n, groups) ==> r.id != id
  {
    forall r | r in Megas(n, groups) ensures r.id != id {
      var k :| 0 <= k < |groups| && Megas(n, groups)[k] == r;
      MegaIdsDiffer(0, n + 1 + k);
    }
  }

  lemma FindMega(n: nat, groups: seq<Group>, k: nat)
    requires k < |groups|
    ensures Find(Megas(n, groups), MegaId(n + 1 + k)) == k
  {
    hide Find, Megas, MegaId;
    var megas := Megas(n, groups);
    MegaAt(n, groups, k);
    forall j | k < j < |megas| ensures megas[j].id != megas[k].id {
      MegaAt(n, groups, j);
      MegaIdsDiffer(n + 1 + j, n + 1 + k);
    }
    FindAt(megas, k);
  }

  lemma ExpandMega(recs: seq<Rec>, groups: seq<Group>, k: nat)
    requires k < |groups| && groups[k].ids != []
    ensures Expand(CollapsedRecs(recs, groups), MegaId(|recs| + 1 + k)) == ToSet(groups[k].ids)
  {
    hide MegaId, Find;
    var id := MegaId(|recs| + 1 + k);
    FindMega(|recs|, groups, k);
    FindConcat(MarkedRecs(recs, groups), Megas(|recs|, groups), id);
    assert Find(CollapsedRecs(recs, groups), id) == |recs| + k;
    assert CollapsedRecs(recs, groups)[|recs| + k] == Mega(groups[k], id);
    assert groups[k].ids[0] in ToSet(groups[k].ids);
  }

  // ------------------------------------------------------------------ one run

  /** A run that is collapsed: its document, the ids queued for it and their walk. */
  predicate Collapsible(doc: RunDoc, ids: seq<string>) {
    Untouched(doc) && !doc.stamped && NoDup(ids) && forall id :: id in ids ==> !MegaLike(id)
  }

  function Standing(doc: RunDoc, ids: seq<string>, minSize: int, id: string): set<string>
  {
    var chosen := Chosen(doc.recs, ids, minSize);
    if GroupOf(chosen, id) >= 0 then ToSet(chosen[GroupOf(chosen, id)].ids) else {id}
  }

  /** What one id of a queue file stands for after the collapse: its whole group, or itself. */
  lemma ExpandRewritten(doc: RunDoc, ids: seq<string>, minSize: int, id: string)
    requires Collapsible(doc, ids) && !MegaLike(id)
    ensures var mega := ConsolidatedIds(doc, ids, minSize);
            Expand(ConsolidatedDoc(doc, ids, minSize).recs, if id in mega then mega[id] else id)
                == Standing(doc, ids, minSize, id)
    ensures id in Standing(doc, ids, minSize, id)
  {
    hide MegaId, Find, CollapsedRecs, Chosen, MegaLike;
    var chosen := Chosen(doc.recs, ids, minSize);
    MegaOfIs(|doc.recs|, chosen, id);
    if chosen == [] {
      ExpandUntouched(doc, id);
    } else if GroupOf(chosen, id) >= 0 {
      ExpandMega(doc.recs, chosen, GroupOf(chosen, id));
    } else {
      ExpandOrdinary(doc.recs, chosen, id);
    }
  }

  lemma MegaOfIs(n: nat, groups: seq<Group>, id: string)
    ensures id in MegaOf(n, groups) <==> GroupOf(groups, id) >= 0
    ensures GroupOf(groups, id) >= 0 ==> MegaOf(n, groups)[id] == MegaId(n + 1 + GroupOf(groups, id))
  {
    hide MegaId, GroupOf;
    if GroupOf(groups, id) >= 0 {
      assert groups[GroupOf(groups, id)] in groups;
    }
  }

  lemma ExpandUntouched(doc: RunDoc, id: string)
    requires Untouched(doc) && !doc.stamped
    ensures Expand(doc.recs, id) == {id}
  {}

  /** A rewritten queue list stands for the groups of its old ids. */
  lemma WorkRewritten(doc: RunDoc, ids: seq<string>, minSize: int, queue: seq<string>, x: string)
    requires Collapsible(doc, ids) && forall id :: id in queue ==> !MegaLike(id)
    ensures x in Work(ConsolidatedDoc(doc, ids, minSize).recs, Rewrite(queue, ConsolidatedIds(doc, ids, minSize)))
        <==> exists id :: id in queue && x in Standing(doc, ids, minSize, id)
  {
    var mega, recs := ConsolidatedIds(doc, ids, minSize), ConsolidatedDoc(doc, ids, minSize).recs;
    var newIds := Rewrite(queue, mega);
    RewriteKeepsWork(queue, mega);
    forall id | id in queue ensures (if id in mega then mega[id] else id) in newIds
      ensures Expand(recs, if id in mega then mega[id] else id) == Standing(doc, ids, minSize, id)
    {
      ExpandRewritten(doc, ids, minSize, id);
    }
    if x in Work(recs, newIds) {
      var new' :| new' in newIds && x in Expand(recs, new');
      assert exists id :: id in queue && new' == if id in mega then mega[id] else id;
    }
  }

  /** Members of a group are queued ids of the same run. */
  lemma GroupWithin(doc: RunDoc, ids: seq<string>, minSize: int, id: string, x: string)
    requires NoDup(ids) && id in ids && x in Standing(doc, ids, minSize, id)
    ensures x in ids
  {
    ChosenPartition(doc.recs, ids, minSize);
    var chosen := Chosen(doc.recs, ids, minSize);
    if GroupOf(chosen, id) >= 0 {
      assert chosen[GroupOf(chosen, id)] in chosen;
    }
  }

  /** A queue file's own work never shrinks, and stays the same exactly when the file already
      queued the whole group of each of its ids: a mega-rec is named in every file that had
      one of its sources, so a group spread over files is queued once per file. */
  lemma FileWorkExact(doc: RunDoc, ids: seq<string>, minSize: int, queue: seq<string>)
    requires Collapsible(doc, ids) && forall id :: id in queue ==> !MegaLike(id)
    ensures var after :=
            Work(ConsolidatedDoc(doc, ids, minSize).recs, Rewrite(queue, ConsolidatedIds(doc, ids, minSize)));
            && Work(doc.recs, queue) <= after
            && (after == Work(doc.recs, queue)
               <==> forall id :: id in queue ==> Standing(doc, ids, minSize, id) <= ToSet(queue))
  {
    var after := Work(ConsolidatedDoc(doc, ids, minSize).recs, Rewrite(queue, ConsolidatedIds(doc, ids, minSize)));
    WorkUntouched(doc, queue);
    forall x ensures x in after <==> exists id :: id in queue && x in Standing(doc, ids, minSize, id) {
      WorkRewritten(doc, ids, minSize, queue, x);
    }
    hide Work, ConsolidatedDoc, ConsolidatedIds, Rewrite, Standing;
  }

  lemma WorkUntouched(doc: RunDoc, queue: seq<string>)
    requires Untouched(doc) && !doc.stamped
    ensures Work(doc.recs, queue) == ToSet(queue)
  {
    forall x | x in queue {
      ExpandUntouched(doc, x);
    }
  }

  // ------------------------------------------------------------------ the whole store

  lemma {:induction false} RewriteNothing(ids: seq<string>)
    ensures Rewrite(ids, map[]) == ids
  {
    if ids != [] {
      RewriteNothing(ids[..|ids| - 1]);
    }
  }

  /** A run outside the collapse keeps its document and its queue files. */
  lemma UntouchedRun(runs: map<RunKey, RunDoc>, order: map<RunKey, seq<string>>, minSize: int, k: RunKey, f: QueueFile)
    requires !(k in runs && k in order && !runs[k].stamped && Chosen(runs[k].recs, order[k], minSize) != [])
    ensures MegaMap(runs, order, minSize, k) == map[]
    ensures NewFile(f, MegaMap(runs, order, minSize, k)) == f
    ensures k in runs ==> NewDoc(runs, order, minSize, k) == runs[k]
  {
    RewriteNothing(f.recIds);
  }

  lemma CollapsibleRun(runs: map<RunKey, RunDoc>, files: map<string, QueueFile>, order: map<RunKey, seq<string>>,
                       k: RunKey)
    requires WellFormed(runs, files) && Enumerates(order, files) && k in runs && k in order && !runs[k].stamped
    ensures Collapsible(runs[k], order[k])
    ensures forall f, id :: f in files && KeyOf(files[f]) == k && id in files[f].recIds ==> !MegaLike(id)
    ensures forall id ::
              id in order[k] <==>
              id != "" && exists f :: f in files && KeyOf(files[f]) == k && id in files[f].recIds
  {
    forall id ensures id in order[k] <==> id in QueuedIds(files, k) {
      assert id in order[k] <==> id in ToSet(order[k]);
    }
    var f0, id0 :| f0 in files && files[f0].agent != "" && files[f0].runTs != "" && id0 in files[f0].recIds && id0 != ""
                   && KeyOf(files[f0]) == k;
  }

  /** Conservation: for every (agent, run_ts) the recs its queue files stand for, mega-recs
      expanded, are the same before and after, whatever order the ids were walked in. */
  lemma WorkIsConserved(runs: map<RunKey, RunDoc>, files: map<string, QueueFile>, order: map<RunKey, seq<string>>,
                        minSize: int, k: RunKey)
    requires WellFormed(runs, files) && Enumerates(order, files)
    ensures RunWork(AfterRuns(runs, order, minSize), AfterFiles(runs, files, order, minSize), k)
            == RunWork(runs, files, k)
  {
    var runs', files' := AfterRuns(runs, order, minSize), AfterFiles(runs, files, order, minSize);
    if k in runs && k in order && !runs[k].stamped && Chosen(runs[k].recs, order[k], minSize) != [] {
      CollapsibleRun(runs, files, order, k);
      forall x ensures x in RunWork(runs', files', k) <==> x in RunWork(runs, files, k) {
        ConservedId(runs, files, order, minSize, k, x);
      }
    } else {
      forall f | f in files && KeyOf(files[f]) == k ensures files'[f] == files[f] {
        UntouchedRun(runs, order, minSize, k, files[f]);
      }
      UntouchedRun(runs, order, minSize, k, QueueFile("", "", []));
      assert RecsOf(runs', k) == RecsOf(runs, k);
    }
  }

  /** The hypothesis is the tool's own invariant, so conservation holds for every re-run. */
  lemma WellFormedKept(runs: map<RunKey, RunDoc>, files: map<string, QueueFile>, order: map<RunKey, seq<string>>,
                       minSize: int)
    requires WellFormed(runs, files)
    ensures WellFormed(AfterRuns(runs, order, minSize), AfterFiles(runs, files, order, minSize))
  {
    var runs', files' := AfterRuns(runs, order, minSize), AfterFiles(runs, files, order, minSize);
    forall f | f in files && KeyOf(files[f]) in runs && !runs'[KeyOf(files[f])].stamped ensures files'[f] == files[f] {
      UntouchedRun(runs, order, minSize, KeyOf(files[f]), files[f]);
    }
    forall k | k in runs && !runs'[k].stamped ensures runs'[k] == runs[k] {
      UntouchedRun(runs, order, minSize, k, QueueFile("", "", []));
    }
    hide NewDoc, NewFile, MegaMap, Rewrite;
  }

  lemma ConservedId(runs: map<RunKey, RunDoc>, files: map<string, QueueFile>, order: map<RunKey, seq<string>>,
                    minSize: int, k: RunKey, x: string)
    requires WellFormed(runs, files) && Enumerates(order, files) && k in runs && k in order && !runs[k].stamped
    ensures x in RunWork(AfterRuns(runs, order, minSize), AfterFiles(runs, files, order, minSize), k)
            <==> x in RunWork(runs, files, k)
  {
    var runs', files' := AfterRuns(runs, order, minSize), AfterFiles(runs, files, order, minSize);
    CollapsibleRun(runs, files, order, k);
    var doc, ids := runs[k], order[k];
    forall f | f in files && KeyOf(files[f]) == k
      ensures x in Work(doc.recs, files[f].recIds) <==> x in files[f].recIds
      ensures x in files[f].recIds ==> x in Work(RecsOf(runs', k), files'[f].recIds)
      ensures x in Work(RecsOf(runs', k), files'[f].recIds) ==> x in files[f].recIds || x in ids
    {
      ConservedInFile(doc, ids, minSize, files[f].recIds, x);
    }
    hide Work, NewDoc, Collapsible, WellFormed, Enumerates, MegaMap;
    if x in RunWork(runs', files', k) {
      var f :| f in files' && KeyOf(files'[f]) == k && x in Work(RecsOf(runs', k), files'[f].recIds);
      assert f in files && KeyOf(files[f]) == k;
      var f2 :| f2 in files && KeyOf(files[f2]) == k && x in files[f2].recIds;
      InRunWork(runs, files, k, f2, x);
    }
    if f :| f in files && KeyOf(files[f]) == k && x in files[f].recIds {
      InRunWork(runs', files', k, f, x);
    }
  }

  lemma InRunWork(runs: map<RunKey, RunDoc>, files: map<string, QueueFile>, k: RunKey, f: string, x: string)
    requires f in files && KeyOf(files[f]) == k && x in Work(RecsOf(runs, k), files[f].recIds)
    ensures x in RunWork(runs, files, k)
  {}

  lemma ConservedInFile(doc: RunDoc, ids: seq<string>, minSize: int, queue: seq<string>, x: string)
    requires Collapsible(doc, ids) && forall id :: id in queue ==> !MegaLike(id)
    ensures var after :=
            Work(ConsolidatedDoc(doc, ids, minSize).recs, Rewrite(queue, ConsolidatedIds(doc, ids, minSize)));
            && (x in Work(doc.recs, queue) <==> x in queue)
            && (x in queue ==> x in after)
            && (x in after ==> x in queue || x in ids)
  {
    WorkUntouched(doc, queue);
    FileWorkExact(doc, ids, minSize, queue);
    WorkRewritten(doc, ids, minSize, queue, x);
    if id :| id in queue && x in Standing(doc, ids, minSize, id) {
      if id in ids { GroupWithin(doc, ids, minSize, id, x); } else { OutsideGroups(doc, ids, minSize, id); }
    }
  }

  lemma OutsideGroups(doc: RunDoc, ids: seq<string>, minSize: int, id: string)
    requires NoDup(ids) && id !in ids
    ensures Standing(doc, ids, minSize, id) == {id}
  {
    ChosenPartition(doc.recs, ids, minSize);
    GroupOfNone(Chosen(doc.recs, ids, minSize), id);
  }

  predicate MegaNamed(doc: RunDoc, ids: seq<string>, minSize: int, id: string, mega: string) {
    var named := ConsolidatedIds(doc, ids, minSize);
    id in named && named[id] == mega
  }

  /** Every rec joins at most one mega-rec, and mega-rec ids are pairwise distinct and new. */
  lemma MegaRecsAreDistinct(doc: RunDoc, ids: seq<string>, minSize: int)
    requires Collapsible(doc, ids)
    ensures var chosen := Chosen(doc.recs, ids, minSize);
            && Disjoint(chosen)
            && (forall j, k :: 0 <= j < k < |chosen| ==>
               Megas(|doc.recs|, chosen)[j].id != Megas(|doc.recs|, chosen)[k].id)
            && (forall r, k :: r in doc.recs && 0 <= k < |chosen| ==> r.id != Megas(|doc.recs|, chosen)[k].id)
            && (forall id, k :: 0 <= k < |chosen| && id in chosen[k].ids ==>
                  MegaNamed(doc, ids, minSize, id, Megas(|doc.recs|, chosen)[k].id))
  {
    hide MegaNamed, Mega, Chosen, Collapsible, Disjoint;
    var chosen := Chosen(doc.recs, ids, minSize);
    assert Disjoint(chosen) by { CollapsedGroupsDisjoint(doc, ids, minSize); }
    MegaIdsAreNew(doc, ids, chosen);
    forall id, k | 0 <= k < |chosen| && id in chosen[k].ids
      ensures MegaNamed(doc, ids, minSize, id, Megas(|doc.recs|, chosen)[k].id)
    {
      MembersAreNamed(doc, ids, minSize, id, k);
    }
  }

  lemma CollapsedGroupsDisjoint(doc: RunDoc, ids: seq<string>, minSize: int)
    requires Collapsible(doc, ids)
    ensures Disjoint(Chosen(doc.recs, ids, minSize))
  {
    ChosenPartition(doc.recs, ids, minSize);
  }

  lemma MegaIdsAreNew(doc: RunDoc, ids: seq<string>, chosen: seq<Group>)
    requires Collapsible(doc, ids)
    ensures forall j, k :: 0 <= j < k < |chosen| ==> Megas(|doc.recs|, chosen)[j].id != Megas(|doc.recs|, chosen)[k].id
    ensures forall r, k :: r in doc.recs && 0 <= k < |chosen| ==> r.id != Megas(|doc.recs|, chosen)[k].id
  {
    forall j: nat, k: nat ensures MegaId(j) == MegaId(k) <==> j == k
                          ensures MegaLike(MegaId(k)) {
      MegaIdsDiffer(j, k);
    }
    hide MegaId, MegaLike;
  }

  lemma MembersAreNamed(doc: RunDoc, ids: seq<string>, minSize: int, id: string, k: nat)
    requires Collapsible(doc, ids)
    requires k < |Chosen(doc.recs, ids, minSize)| && id in Chosen(doc.recs, ids, minSize)[k].ids
    ensures MegaNamed(doc, ids, minSize, id, Megas(|doc.recs|, Chosen(doc.recs, ids, minSize))[k].id)
  {
    hide MegaId, Chosen;
    var chosen := Chosen(doc.recs, ids, minSize);
    CollapsedGroupsDisjoint(doc, ids, minSize);
    GroupOfDisjoint(chosen, k, id);
    MegaOfIs(|doc.recs|, chosen, id);
  }

  /** No queue list grows and none that held ids becomes empty, so no file is ever deleted. */
  lemma QueueFilesKeepShape(runs: map<RunKey, RunDoc>, files: map<string, QueueFile>, order: map<RunKey, seq<string>>,
                            minSize: int)
    ensures var files' := AfterFiles(runs, files, order, minSize);
            && files'.Keys == files.Keys
            && (forall f :: f in files ==> KeyOf(files'[f]) == KeyOf(files[f]))
            && (forall f :: f in files ==> |files'[f].recIds| <= |files[f].recIds|)
            && (forall f :: f in files && files[f].recIds != [] ==> files'[f].recIds != [])
  {
    forall f | f in files {
      RewriteKeepsWork(files[f].recIds, MegaMap(runs, order, minSize, KeyOf(files[f])));
    }
  }

  // ------------------------------------------------------------------ running it again

  lemma {:induction false} SameSetSameSize(a: seq<string>, b: seq<string>)
    requires NoDup(a) && NoDup(b) && ToSet(a) == ToSet(b)
    ensures |a| == |b|
  {
    NoDupCard(a);
    NoDupCard(b);
  }

  /** Whether anything is collapsed depends on the set of queued ids, not on its order. */
  lemma NothingChosen(recs: seq<Rec>, a: seq<string>, b: seq<string>, minSize: int)
    requires NoDup(a) && NoDup(b) && ToSet(a) == ToSet(b) && Chosen(recs, a, minSize) == []
    ensures Chosen(recs, b, minSize) == []
  {
    if Chosen(recs, b, minSize) != [] {
      var g := Chosen(recs, b, minSize)[0];
      ChosenPartition(recs, b, minSize);
      assert g in Chosen(recs, b, minSize);
      MembersAre(recs, a, g.url);
      MembersAre(recs, b, g.url);
      forall x ensures x in a <==> x in b { assert x in ToSet(a) <==> x in ToSet(b); }
      SameSetSameSize(Members(recs, a, g.url), Members(recs, b, g.url));
      PagesAre(recs, a);
      PagesAre(recs, b);
      ChosenHas(recs, a, minSize, g.url);
    }
  }

  lemma ChosenHas(recs: seq<Rec>, ids: seq<string>, minSize: int, url: string)
    requires NoDup(ids) && url in Pages(recs, ids) && |Members(recs, ids, url)| >= minSize
    ensures Chosen(recs, ids, minSize) != []
  {
    ChosenPartition(recs, ids, minSize);
    assert Group(url, Members(recs, ids, url)) in Chosen(recs, ids, minSize);
  }

  /** A second run with the same threshold changes nothing, whatever order either run walks
      the queued ids in: collapsed runs are stamped, and the others had nothing to collapse. */
  lemma SecondRunChangesNothing(runs: map<RunKey, RunDoc>, files: map<string, QueueFile>, minSize: int,
                                order: map<RunKey, seq<string>>, order': map<RunKey, seq<string>>)
    requires Enumerates(order, files) && Enumerates(order', AfterFiles(runs, files, order, minSize))
    ensures var runs', files' := AfterRuns(runs, order, minSize), AfterFiles(runs, files, order, minSize);
            AfterRuns(runs', order', minSize) == runs' && AfterFiles(runs', files', order', minSize) == files'
  {
    var runs', files' := AfterRuns(runs, order, minSize), AfterFiles(runs, files, order, minSize);
    forall k | k in runs' {
      SecondRunKeeps(runs, files, minSize, order, order', k, QueueFile("", "", []));
    }
    forall f | f in files' {
      SecondRunKeeps(runs, files, minSize, order, order', KeyOf(files'[f]), files'[f]);
    }
    hide NewDoc, NewFile, MegaMap, Enumerates;
    SameStore(runs', files', order', minSize);
  }

  lemma SameStore(runs: map<RunKey, RunDoc>, files: map<string, QueueFile>, order: map<RunKey, seq<string>>,
                  minSize: int)
    requires forall k :: k in runs ==> NewDoc(runs, order, minSize, k) == runs[k]
    requires forall f :: f in files ==> NewFile(files[f], MegaMap(runs, order, minSize, KeyOf(files[f]))) == files[f]
    ensures AfterRuns(runs, order, minSize) == runs && AfterFiles(runs, files, order, minSize) == files
  {
    hide NewDoc, NewFile, MegaMap;
  }

  lemma SecondRunKeeps(runs: map<RunKey, RunDoc>, files: map<string, QueueFile>, minSize: int,
                       order: map<RunKey, seq<string>>, order': map<RunKey, seq<string>>, k: RunKey, f: QueueFile)
    requires Enumerates(order, files) && Enumerates(order', AfterFiles(runs, files, order, minSize))
    ensures NewFile(f, MegaMap(AfterRuns(runs, order, minSize), order', minSize, k)) == f
    ensures k in runs ==>
            NewDoc(AfterRuns(runs, order, minSize), order', minSize, k) == AfterRuns(runs, order, minSize)[k]
  {
    var runs' := AfterRuns(runs, order, minSize);
    if k in runs' && k in order' && !runs'[k].stamped {
      StillNothingToDo(runs, files, minSize, order, order', k);
    }
    UntouchedRun(runs', order', minSize, k, f);
  }

  lemma StillNothingToDo(runs: map<RunKey, RunDoc>, files: map<string, QueueFile>, minSize: int,
                         order: map<RunKey, seq<string>>, order': map<RunKey, seq<string>>, k: RunKey)
    requires Enumerates(order, files) && Enumerates(order', AfterFiles(runs, files, order, minSize))
    requires k in runs && k in order' && !AfterRuns(runs, order, minSize)[k].stamped
    ensures Chosen(AfterRuns(runs, order, minSize)[k].recs, order'[k], minSize) == []
  {
    var files' := AfterFiles(runs, files, order, minSize);
    forall f | f in files && KeyOf(files[f]) == k ensures files'[f] == files[f] {
      UntouchedRun(runs, order, minSize, k, files[f]);
    }
    assert QueuedIds(files', k) == QueuedIds(files, k);
    assert k in QueuedRuns(files);
    NothingChosen(runs[k].recs, order[k], order'[k], minSize);
  }
}
