/** Collapsing queued recs of one page into one mega-rec: the rewriting of a run's
    recommendations and of the queue files that refer to them. */
module ConsolidateQueued {
  import opened Sequences
  import opened Decimals

  /** `into` is consolidated_into ("" when unset); `sources` is consolidated_from. */
  datatype Rec = Rec(id: string, affectedUrl: string, pageUrl: string, plainUrl: string, evidenceUrl: string,
                     into: string, sources: set<string>)

  datatype RunDoc = RunDoc(stamped: bool, recs: seq<Rec>)

  datatype QueueFile = QueueFile(agent: string, runTs: string, recIds: seq<string>)

  type RunKey = (string, string)

  function UpTo(s: string, c: char): string {
    if s == "" || s[0] == c then "" else [s[0]] + UpTo(s[1..], c)
  }

  function StripSlashes(s: string): string {
    if s == "" || s[|s| - 1] != '/' then s else StripSlashes(s[..|s| - 1])
  }

  function PrimaryUrl(r: Rec): string {
    var url := if r.affectedUrl != "" then r.affectedUrl else if r.pageUrl != "" then r.pageUrl
               else if r.plainUrl != "" then r.plainUrl else r.evidenceUrl;
    StripSlashes(UpTo(UpTo(url, '#'), '?'))
  }

  /** The index a dictionary keyed by id keeps: the last rec with the id, or -1. */
  function Find(recs: seq<Rec>, id: string): (i: int)
    ensures -1 <= i < |recs| && (i >= 0 ==> recs[i].id == id)
  {
    if recs == [] then -1
    else if recs[|recs| - 1].id == id then |recs| - 1
    else Find(recs[..|recs| - 1], id)
  }

  // ------------------------------------------------------------------ grouping

  datatype Group = Group(url: string, ids: seq<string>)

  /** A queued id whose rec exists, is not consolidated yet and has a page. */
  predicate Pending(recs: seq<Rec>, id: string) {
    Find(recs, id) >= 0 && recs[Find(recs, id)].into == "" && PrimaryUrl(recs[Find(recs, id)]) != ""
  }

  function UrlOf(recs: seq<Rec>, id: string): string {
    if Find(recs, id) >= 0 then PrimaryUrl(recs[Find(recs, id)]) else ""
  }

  /** An insertion-ordered dictionary of lists: append id under url. */
  function AddTo(groups: seq<Group>, url: string, id: string): seq<Group> {
    if groups == [] then [Group(url, [id])]
    else if groups[0].url == url then [Group(url, groups[0].ids + [id])] + groups[1..]
    else [groups[0]] + AddTo(groups[1..], url, id)
  }

  predicate OnPage(recs: seq<Rec>, id: string, url: string) {
    Pending(recs, id) && UrlOf(recs, id) == url
  }

  /** The pending ids of one page, in queue order. */
  function Members(recs: seq<Rec>, ids: seq<string>, url: string): seq<string> {
    Filter(ids, id => OnPage(recs, id, url))
  }

  /** The pages with pending ids, in order of first appearance. */
  function Pages(recs: seq<Rec>, ids: seq<string>): seq<string> {
    if ids == [] then []
    else
      var last := ids[|ids| - 1];
      var before := Pages(recs, ids[..|ids| - 1]);
      if Pending(recs, last) && UrlOf(recs, last) !in before then before + [UrlOf(recs, last)] else before
  }

  function GroupsOf(recs: seq<Rec>, ids: seq<string>, pages: seq<string>): seq<Group> {
    seq(|pages|, k requires 0 <= k < |pages| => Group(pages[k], Members(recs, ids, pages[k])))
  }

  function Groups(recs: seq<Rec>, ids: seq<string>): seq<Group> {
    GroupsOf(recs, ids, Pages(recs, ids))
  }

  function Chosen(recs: seq<Rec>, ids: seq<string>, minSize: int): seq<Group> {
    Filter(Groups(recs, ids), (g: Group) => |g.ids| >= minSize)
  }

  // ------------------------------------------------------------------ one run

  function MegaId(n: nat): string { "rec-cons-" + Pad3(n) }

  /** Ids of the form the tool itself gives to mega-recs. */
  predicate MegaLike(id: string) { "rec-cons-" <= id }

  function Mega(g: Group, id: string): Rec {
    Rec(id, g.url, g.url, g.url, "", "", ToSet(g.ids))
  }

  /** The position of the group id belongs to, or -1. */
  function GroupOf(groups: seq<Group>, id: string): (k: int)
    ensures -1 <= k < |groups| && (k >= 0 ==> id in groups[k].ids)
  {
    if groups == [] then -1
    else if id in groups[0].ids then 0
    else
      var k := GroupOf(groups[1..], id);
      if k < 0 then -1 else k + 1
  }

  lemma {:induction false} GroupOfNone(groups: seq<Group>, id: string)
    ensures GroupOf(groups, id) < 0 <==> forall g :: g in groups ==> id !in g.ids
  {
    if groups != [] {
      GroupOfNone(groups[1..], id);
      assert forall g :: g in groups <==> g == groups[0] || g in groups[1..];
    }
  }

  /** consolidated_into for the i-th of the n original recs, once the groups are collapsed. */
  function Marked(recs: seq<Rec>, groups: seq<Group>, i: nat): Rec
    requires i < |recs|
  {
    var k := GroupOf(groups, recs[i].id);
    if k >= 0 && i == Find(recs, recs[i].id) then recs[i].(into := MegaId(|recs| + 1 + k)) else recs[i]
  }

  function MarkedRecs(recs: seq<Rec>, groups: seq<Group>): seq<Rec> {
    seq(|recs|, i requires 0 <= i < |recs| => Marked(recs, groups, i))
  }

  function Megas(n: nat, groups: seq<Group>): seq<Rec> {
    seq(|groups|, k requires 0 <= k < |groups| => Mega(groups[k], MegaId(n + 1 + k)))
  }

  function CollapsedRecs(recs: seq<Rec>, groups: seq<Group>): seq<Rec> {
    MarkedRecs(recs, groups) + Megas(|recs|, groups)
  }

  function MegaOf(n: nat, groups: seq<Group>): map<string, string> {
    map g, id | g in groups && id in g.ids && GroupOf(groups, id) >= 0 :: id := MegaId(n + 1 + GroupOf(groups, id))
  }

  function ConsolidatedDoc(doc: RunDoc, ids: seq<string>, minSize: int): RunDoc {
    if doc.stamped || Chosen(doc.recs, ids, minSize) == [] then doc
    else RunDoc(true, CollapsedRecs(doc.recs, Chosen(doc.recs, ids, minSize)))
  }

  function ConsolidatedIds(doc: RunDoc, ids: seq<string>, minSize: int): map<string, string> {
    if doc.stamped then map[] else MegaOf(|doc.recs|, Chosen(doc.recs, ids, minSize))
  }

  // ------------------------------------------------------------------ queue files

  /** The mega-recs a list of ids mentions. */
  function Seen(ids: seq<string>, mega: map<string, string>): set<string> {
    set id | id in ids && id in mega :: mega[id]
  }

  /** Replaces collapsed ids by their mega-rec's id, naming each mega-rec once. */
  function Rewrite(ids: seq<string>, mega: map<string, string>): seq<string> {
    if ids == [] then []
    else
      var init, id := ids[..|ids| - 1], ids[|ids| - 1];
      if id !in mega then Rewrite(init, mega) + [id]
      else if mega[id] in Seen(init, mega) then Rewrite(init, mega)
      else Rewrite(init, mega) + [mega[id]]
  }

  function QueuedIds(files: map<string, QueueFile>, k: RunKey): set<string> {
    set f, id | f in files && KeyOf(files[f]) == k && k.0 != "" && k.1 != ""
             && id in files[f].recIds && id != "" :: id
  }

  function QueuedRuns(files: map<string, QueueFile>): set<RunKey> {
    set f, id | f in files && files[f].agent != "" && files[f].runTs != "" && id in files[f].recIds && id != ""
      :: KeyOf(files[f])
  }

  /** The arbitrary order in which a Python set of queued ids is walked. */
  predicate Enumerates(order: map<RunKey, seq<string>>, files: map<string, QueueFile>) {
    order.Keys == QueuedRuns(files) &&
    forall k :: k in order ==> NoDup(order[k]) && ToSet(order[k]) == QueuedIds(files, k)
  }

  function MegaMap(runs: map<RunKey, RunDoc>, order: map<RunKey, seq<string>>, minSize: int,
                   k: RunKey): map<string, string> {
    if k in runs && k in order then ConsolidatedIds(runs[k], order[k], minSize) else map[]
  }

  function NewDoc(runs: map<RunKey, RunDoc>, order: map<RunKey, seq<string>>, minSize: int, k: RunKey): RunDoc
    requires k in runs
  {
    if k in order then ConsolidatedDoc(runs[k], order[k], minSize) else runs[k]
  }

  function NewFile(f: QueueFile, mega: map<string, string>): QueueFile {
    f.(recIds := Rewrite(f.recIds, mega))
  }

  function KeyOf(f: QueueFile): RunKey { (f.agent, f.runTs) }

  function GetOr(megas: map<RunKey, map<string, string>>, k: RunKey): map<string, string> {
    if k in megas then megas[k] else map[]
  }

  class QueueStore {
    var runs: map<RunKey, RunDoc>
    var files: map<string, QueueFile>

    constructor (runs: map<RunKey, RunDoc>, files: map<string, QueueFile>)
      ensures this.runs == runs && this.files == files
    {
      this.runs, this.files := runs, files;
    }

    method CollapseRuns(order: map<RunKey, seq<string>>, minSize: int) returns (megas: map<RunKey, map<string, string>>)
      requires forall k :: k in order ==> NoDup(order[k])
      modifies this`runs
      ensures runs == map k | k in old(runs) :: NewDoc(old(runs), order, minSize, k)
      ensures forall k :: GetOr(megas, k) == MegaMap(old(runs), order, minSize, k)
    {
      hide ConsolidatedDoc, ConsolidatedIds;
      megas := map[];
      var todo := order.Keys;
      while todo != {}
        invariant todo <= order.Keys && runs.Keys == old(runs).Keys
        invariant forall k :: k in runs ==>
                  runs[k] == if k in todo then old(runs)[k] else NewDoc(old(runs), order, minSize, k)
        invariant forall k :: k in megas ==> k in order && k !in todo
        invariant forall k :: k !in todo ==> GetOr(megas, k) == MegaMap(old(runs), order, minSize, k)
        decreases todo
      {
        var k :| k in todo;
        todo := todo - {k};
        if k in runs {
          var doc, mega := ConsolidateRun(runs[k], order[k], minSize);
          runs, megas := runs[k := doc], megas[k := mega];
        }
      }
    }

    method RewriteFiles(megas: map<RunKey, map<string, string>>)
      modifies this`files
      ensures files == map f | f in old(files) :: NewFile(old(files)[f], GetOr(megas, KeyOf(old(files)[f])))
    {
      var names := files.Keys;
      while names != {}
        invariant names <= old(files).Keys && files.Keys == old(files).Keys
        invariant forall f :: f in names ==> files[f] == old(files)[f]
        invariant forall f :: f in files && f !in names ==>
          files[f] == NewFile(old(files)[f], GetOr(megas, KeyOf(old(files)[f])))
        decreases names
      {
        var f :| f in names;
        names := names - {f};
        var newIds := RewriteIds(files[f].recIds, GetOr(megas, KeyOf(files[f])));
        RewriteKeepsWork(files[f].recIds, GetOr(megas, KeyOf(files[f])));
        if newIds != files[f].recIds {
          if newIds != [] {
            files := files[f := files[f].(recIds := newIds)];
          } else {
            // The source would delete the file; rewriting never empties a list.
            assert false;
          }
        }
      }
    }

    /** Collapses every queued run, then swaps the collapsed ids in the queue files. */
    method Consolidate(order: map<RunKey, seq<string>>, minSize: int)
      requires Enumerates(order, files)
      modifies this
      ensures runs == map k | k in old(runs) :: NewDoc(old(runs), order, minSize, k)
      ensures files == map f | f in old(files) ::
              NewFile(old(files)[f], MegaMap(old(runs), order, minSize, KeyOf(old(files)[f])))
    {
      var megas := CollapseRuns(order, minSize);
      RewriteFiles(megas);
    }
  }

  method GroupPending(recs: seq<Rec>, ids: seq<string>) returns (groups: seq<Group>)
    ensures groups == Groups(recs, ids)
  {
    groups := [];
    for i := 0 to |ids|
      invariant groups == Groups(recs, ids[..i])
    {
      assert ids[..i + 1] == ids[..i] + [ids[i]];
      GroupsAppend(recs, ids[..i], ids[i]);
      if Pending(recs, ids[i]) {
        groups := AddTo(groups, UrlOf(recs, ids[i]), ids[i]);
      }
    }
    assert ids[..|ids|] == ids;
  }

  method ConsolidateRun(doc: RunDoc, ids: seq<string>, minSize: int) returns (doc': RunDoc, mega: map<string, string>)
    requires NoDup(ids)
    ensures doc' == ConsolidatedDoc(doc, ids, minSize)
    ensures mega == ConsolidatedIds(doc, ids, minSize)
  {
    doc', mega := doc, map[];
    if doc.stamped {
      return;
    }
    var groups := GroupPending(doc.recs, ids);
    var chosen := Filter(groups, (g: Group) => |g.ids| >= minSize);
    if chosen != [] {
      ChosenPartition(doc.recs, ids, minSize);
      assert chosen == Chosen(doc.recs, ids, minSize);
      var recs := CollapseGroups(doc.recs, chosen);
      doc' := RunDoc(true, recs);
    }
    mega := MegaOf(|doc.recs|, chosen);
  }

  method RewriteIds(ids: seq<string>, mega: map<string, string>) returns (newIds: seq<string>)
    ensures newIds == Rewrite(ids, mega)
  {
    newIds := [];
    var seen: set<string> := {};
    for i := 0 to |ids|
      invariant newIds == Rewrite(ids[..i], mega)
      invariant seen == Seen(ids[..i], mega)
    {
      var id := ids[i];
      assert ids[..i + 1][..i] == ids[..i] && ids[..i + 1] == ids[..i] + [id];
      SeenAppend(ids[..i], id, mega);
      if id in mega {
        if mega[id] !in seen {
          newIds := newIds + [mega[id]];
          seen := seen + {mega[id]};
        }
      } else {
        newIds := newIds + [id];
      }
    }
    assert ids[..|ids|] == ids;
  }

  lemma SeenAppend(ids: seq<string>, id: string, mega: map<string, string>)
    ensures Seen(ids + [id], mega) == Seen(ids, mega) + (if id in mega then {mega[id]} else {})
  {
    forall x ensures x in ids + [id] <==> x in ids || x == id {}
  }

  function MarkedBy(recs: seq<Rec>, before: seq<Rec>, ids: seq<string>, mega: string, i: nat): Rec
    requires |recs| <= |before| && i < |before|
  {
    if i < |recs| && i == Find(recs, recs[i].id) && recs[i].id in ids then before[i].(into := mega) else before[i]
  }

  /** Points the group's recs at their mega-rec. */
  method MarkGroup(recs: seq<Rec>, before: seq<Rec>, g: Group, mega: string) returns (out: seq<Rec>)
    requires |recs| <= |before|
    requires forall id :: id in g.ids ==> Pending(recs, id)
    ensures |out| == |before|
    ensures forall i :: 0 <= i < |out| ==> out[i] == MarkedBy(recs, before, g.ids, mega, i)
  {
    out := before;
    for j := 0 to |g.ids|
      invariant |out| == |before|
      invariant forall i :: 0 <= i < |out| ==> out[i] == MarkedBy(recs, before, g.ids[..j], mega, i)
    {
      assert g.ids[..j + 1] == g.ids[..j] + [g.ids[j]] && g.ids[j] in g.ids;
      var i := Find(recs, g.ids[j]);
      out := out[i := out[i].(into := mega)];
    }
    assert g.ids[..|g.ids|] == g.ids;
  }

  /** Appends each group's mega-rec and marks its recs. */
  method CollapseGroups(recs: seq<Rec>, groups: seq<Group>) returns (out: seq<Rec>)
    requires Disjoint(groups) && AllPending(recs, groups)
    ensures out == CollapsedRecs(recs, groups)
  {
    hide MegaId, Find;
    out := recs;
    for k := 0 to |groups|
      invariant out == CollapsedRecs(recs, groups[..k])
    {
      var before, mega, g := out, MegaId(|out| + 1), groups[k];
      assert g in groups;
      out := MarkGroup(recs, before, g, mega);
      CollapseStep(recs, groups, k, before, out);
      out := out + [Mega(g, mega)];
    }
    assert groups[..|groups|] == groups;
  }

  /** Marking one more group's recs brings the list one group further. */
  lemma CollapseStep(recs: seq<Rec>, groups: seq<Group>, k: nat, before: seq<Rec>, out: seq<Rec>)
    requires k < |groups| && before == CollapsedRecs(recs, groups[..k]) && Disjoint(groups)
    requires |out| == |before|
    requires forall i :: 0 <= i < |out| ==> out[i] == MarkedBy(recs, before, groups[k].ids, MegaId(|before| + 1), i)
    ensures out + [Mega(groups[k], MegaId(|before| + 1))] == CollapsedRecs(recs, groups[..k + 1])
  {
    hide MegaId, Find, Mega;
    forall i | 0 <= i < |recs| ensures out[i] == Marked(recs, groups[..k + 1], i) {
      GroupOfStep(groups, k, recs[i].id);
    }
  }

  predicate AllPending(recs: seq<Rec>, groups: seq<Group>) {
    forall g, id :: g in groups && id in g.ids ==> Pending(recs, id)
  }

  lemma GroupOfStep(groups: seq<Group>, k: nat, id: string)
    requires Disjoint(groups) && k < |groups|
    ensures GroupOf(groups[..k + 1], id) == if id in groups[k].ids then k else GroupOf(groups[..k], id)
    ensures id in groups[k].ids ==> GroupOf(groups[..k], id) < 0
  {
    assert groups[..k + 1] == groups[..k] + [groups[k]];
    GroupOfAppend(groups[..k], groups[k], id);
    if id in groups[k].ids {
      GroupOfDisjoint(groups, k, id);
    }
  }

  predicate Disjoint(groups: seq<Group>) {
    forall j, k, id :: 0 <= j < k < |groups| && id in groups[j].ids ==> id !in groups[k].ids
  }

  lemma GroupOfDisjoint(groups: seq<Group>, k: nat, id: string)
    requires Disjoint(groups) && k < |groups| && id in groups[k].ids
    ensures GroupOf(groups[..k], id) < 0 && GroupOf(groups, id) == k
  {
    GroupOfNone(groups, id);
    GroupOfNone(groups[..k], id);
    var j := GroupOf(groups, id);
    assert groups[k] in groups;
  }

  lemma {:induction false} GroupOfAppend(groups: seq<Group>, g: Group, id: string)
    ensures GroupOf(groups + [g], id) == (
      if GroupOf(groups, id) >= 0 then GroupOf(groups, id) else if id in g.ids then |groups| else -1)
  {
    if groups == [] {
      assert [g][1..] == [];
    } else {
      assert (groups + [g])[1..] == groups[1..] + [g];
      GroupOfAppend(groups[1..], g, id);
    }
  }

  lemma {:induction false} AddToGroups(recs: seq<Rec>, ids: seq<string>, pages: seq<string>, id: string)
    requires NoDup(pages) && Pending(recs, id)
    requires UrlOf(recs, id) !in pages ==> Members(recs, ids, UrlOf(recs, id)) == []
    ensures AddTo(GroupsOf(recs, ids, pages), UrlOf(recs, id), id)
         == GroupsOf(recs, ids + [id], if UrlOf(recs, id) in pages then pages else pages + [UrlOf(recs, id)])
    decreases |pages|
  {
    hide Members, Pending, UrlOf;
    var url := UrlOf(recs, id);
    MembersAppend(recs, ids, id);
    if pages == [] {
      assert OnPage(recs, id, url) && [] + [id] == [id];
      GroupsOfCons(recs, ids + [id], [url]);
    } else {
      var rest := pages[1..];
      GroupsOfCons(recs, ids, pages);
      if pages[0] == url {
        GroupsOfElsewhere(recs, ids, rest, id);
        GroupsOfCons(recs, ids + [id], pages);
      } else {
        AddToGroups(recs, ids, rest, id);
        var after := if url in pages then pages else pages + [url];
        assert after[1..] == if url in rest then rest else rest + [url];
        GroupsOfCons(recs, ids + [id], after);
      }
    }
  }

  lemma GroupsOfCons(recs: seq<Rec>, ids: seq<string>, pages: seq<string>)
    requires pages != []
    ensures GroupsOf(recs, ids, pages)
            == [Group(pages[0], Members(recs, ids, pages[0]))] + GroupsOf(recs, ids, pages[1..])
  {}

  lemma GroupsOfElsewhere(recs: seq<Rec>, ids: seq<string>, pages: seq<string>, id: string)
    requires UrlOf(recs, id) !in pages
    ensures GroupsOf(recs, ids + [id], pages) == GroupsOf(recs, ids, pages)
  {
    MembersAppend(recs, ids, id);
  }

  lemma MembersAppend(recs: seq<Rec>, ids: seq<string>, id: string)
    ensures forall url :: Members(recs, ids + [id], url)
                       == if OnPage(recs, id, url) then Members(recs, ids, url) + [id] else Members(recs, ids, url)
  {
    forall url ensures Members(recs, ids + [id], url)
                    == if OnPage(recs, id, url) then Members(recs, ids, url) + [id] else Members(recs, ids, url) {
      FilterConcat(ids, [id], x => OnPage(recs, x, url));
    }
  }

  lemma {:induction false} PagesAre(recs: seq<Rec>, ids: seq<string>)
    ensures NoDup(Pages(recs, ids))
    ensures forall url :: url in Pages(recs, ids) <==> exists id :: id in ids && OnPage(recs, id, url)
  {
    if ids != [] {
      var init, last := ids[..|ids| - 1], ids[|ids| - 1];
      PagesAre(recs, init);
      assert forall id :: id in ids <==> id in init || id == last;
      forall url ensures url in Pages(recs, ids) <==> exists id :: id in ids && OnPage(recs, id, url) {
        if OnPage(recs, last, url) {
          assert last in ids && url == UrlOf(recs, last);
        } else {
          assert url in Pages(recs, ids) <==> url in Pages(recs, init);
        }
      }
    }
  }

  lemma MembersAre(recs: seq<Rec>, ids: seq<string>, url: string)
    ensures forall id :: id in Members(recs, ids, url) <==> id in ids && OnPage(recs, id, url)
    ensures NoDup(ids) ==> NoDup(Members(recs, ids, url))
  {
    FilterIn(ids, id => OnPage(recs, id, url));
    if NoDup(ids) {
      FilterNoDup(ids, id => OnPage(recs, id, url));
    }
  }

  lemma GroupsAppend(recs: seq<Rec>, ids: seq<string>, id: string)
    ensures Groups(recs, ids + [id])
         == if Pending(recs, id) then AddTo(Groups(recs, ids), UrlOf(recs, id), id) else Groups(recs, ids)
  {
    assert (ids + [id])[..|ids|] == ids;
    PagesAre(recs, ids);
    MembersAppend(recs, ids, id);
    if Pending(recs, id) {
      MembersAre(recs, ids, UrlOf(recs, id));
      var members := Members(recs, ids, UrlOf(recs, id));
      if members != [] {
        assert members[0] in members;
      }
      AddToGroups(recs, ids, Pages(recs, ids), id);
    } else {
      assert forall url :: !OnPage(recs, id, url);
    }
  }

  /** The collapsed groups are disjoint, and each is exactly the pending ids of its page. */
  lemma ChosenPartition(recs: seq<Rec>, ids: seq<string>, minSize: int)
    requires NoDup(ids)
    ensures Disjoint(Chosen(recs, ids, minSize)) && AllPending(recs, Chosen(recs, ids, minSize))
    ensures forall g :: g in Chosen(recs, ids, minSize) <==>
              g.url in Pages(recs, ids) && g.ids == Members(recs, ids, g.url) && |g.ids| >= minSize
    ensures forall g, id :: g in Chosen(recs, ids, minSize) && id in g.ids ==> id in ids && OnPage(recs, id, g.url)
  {
    var groups := Groups(recs, ids);
    var big := (g: Group) => |g.ids| >= minSize;
    PagesAre(recs, ids);
    FilterIn(groups, big);
    forall url ensures forall id :: id in Members(recs, ids, url) <==> id in ids && OnPage(recs, id, url) {
      MembersAre(recs, ids, url);
    }
    forall i, j | 0 <= i < j < |groups| ensures groups[i] != groups[j] {
      assert groups[i].url != groups[j].url;
    }
    FilterNoDup(groups, big);
    forall g: Group | g.url in Pages(recs, ids) && g.ids == Members(recs, ids, g.url) ensures g in groups {
      var k :| 0 <= k < |Pages(recs, ids)| && Pages(recs, ids)[k] == g.url;
      assert groups[k] == g;
    }
    var chosen := Chosen(recs, ids, minSize);
    forall j, k, id | 0 <= j < k < |chosen| && id in chosen[j].ids ensures id !in chosen[k].ids {
      assert chosen[j] in chosen && chosen[k] in chosen;
      assert chosen[j].url == UrlOf(recs, id);
      assert chosen[j].ids == Members(recs, ids, UrlOf(recs, id));
    }
  }

  /** Rewriting keeps exactly the ids outside the map and the mega-recs of those inside, never
      lengthens a list and never empties one. */
  lemma {:induction false} RewriteKeepsWork(ids: seq<string>, mega: map<string, string>)
    ensures |Rewrite(ids, mega)| <= |ids|
    ensures ids != [] ==> Rewrite(ids, mega) != []
    ensures forall x :: x in Rewrite(ids, mega) <==> (x in ids && x !in mega) || x in Seen(ids, mega)
  {
    if ids != [] {
      var init, id := ids[..|ids| - 1], ids[|ids| - 1];
      assert ids == init + [id];
      RewriteKeepsWork(init, mega);
      SeenAppend(init, id, mega);
    }
  }
}
