/** Which queued recs the consolidation collapses, in the text of their urls. */
module ConsolidationPages {
  import opened Sequences
  import opened Decimals
  import opened ConsolidateQueued

  // ------------------------------------------------------------------ the page of a url

  function Slashes(n: nat): string {
    if n == 0 then "" else Slashes(n - 1) + "/"
  }

  /** What is left of a url without its query, its fragment and the slashes before them. */
  ghost predicate IsPage(url: string, page: string) {
    && '#' !in page && '?' !in page && (page == "" || page[|page| - 1] != '/')
    && exists n: nat, rest: string :: EndsIn(url, page, n, rest)
  }

  predicate EndsIn(url: string, page: string, n: nat, rest: string) {
    url == page + Slashes(n) + rest && (rest == "" || rest[0] == '#' || rest[0] == '?')
  }

  /** The first of the four urls that is not empty. */
  predicate FirstUrl(r: Rec, url: string) {
    || (r.affectedUrl != "" && url == r.affectedUrl)
    || (r.affectedUrl == "" && r.pageUrl != "" && url == r.pageUrl)
    || (r.affectedUrl == "" && r.pageUrl == "" && r.plainUrl != "" && url == r.plainUrl)
    || (r.affectedUrl == "" && r.pageUrl == "" && r.plainUrl == "" && url == r.evidenceUrl)
  }

  lemma {:induction false} UpToIs(s: string, c: char)
    ensures c !in UpTo(s, c) && UpTo(s, c) <= s
    ensures forall d :: d in UpTo(s, c) ==> d in s
    ensures |UpTo(s, c)| < |s| ==> s[|UpTo(s, c)|] == c
    ensures c !in s ==> UpTo(s, c) == s
  {
    if s != "" && s[0] != c {
      UpToIs(s[1..], c);
    }
  }

  lemma {:induction false} UpToAfter(a: string, b: string, c: char)
    requires c !in a
    ensures UpTo(a + b, c) == a + UpTo(b, c)
  {
    if a == "" {
      assert a + b == b && "" + UpTo(b, c) == UpTo(b, c);
    } else {
      assert (a + b)[0] == a[0] && (a + b)[1..] == a[1..] + b;
      UpToAfter(a[1..], b, c);
    }
  }

  lemma {:induction false} StripIs(s: string) returns (n: nat)
    ensures s == StripSlashes(s) + Slashes(n)
    ensures StripSlashes(s) == "" || StripSlashes(s)[|StripSlashes(s)| - 1] != '/'
  {
    if s == "" || s[|s| - 1] != '/' {
      n := 0;
    } else {
      var init := s[..|s| - 1];
      var m := StripIs(init);
      n := m + 1;
      assert s == init + "/" == StripSlashes(init) + Slashes(m) + "/" == StripSlashes(init) + Slashes(n);
    }
  }

  lemma {:induction false} StripAfter(page: string, n: nat)
    requires page == "" || page[|page| - 1] != '/'
    ensures StripSlashes(page + Slashes(n)) == page
  {
    if n == 0 {
      assert page + "" == page;
    } else {
      StripAfter(page, n - 1);
      assert (page + Slashes(n))[..|page + Slashes(n)| - 1] == page + Slashes(n - 1);
    }
  }

  lemma {:induction false} OnlySlashes(n: nat)
    ensures forall c :: c in Slashes(n) ==> c == '/'
  {
    if n > 0 {
      OnlySlashes(n - 1);
    }
  }

  lemma PageOfText(url: string, page: string)
    requires IsPage(url, page)
    ensures StripSlashes(UpTo(UpTo(url, '#'), '?')) == page
  {
    var n: nat, rest: string :| EndsIn(url, page, n, rest);
    var path := page + Slashes(n);
    OnlySlashes(n);
    UpToAfter(path, rest, '#');
    var kept := UpTo(rest, '#');
    UpToAfter(path, kept, '?');
    assert UpTo(kept, '?') == "";
    assert path + "" == path;
    StripAfter(page, n);
  }

  lemma PageFrom(url: string, page: string, n: nat, rest: string)
    requires url == page + Slashes(n) + rest && (rest == "" || rest[0] == '#' || rest[0] == '?')
    requires '#' !in page && '?' !in page && (page == "" || page[|page| - 1] != '/')
    ensures IsPage(url, page)
  {
    assert EndsIn(url, page, n, rest);
  }

  lemma CutTwice(url: string) returns (w: string, rest: string)
    ensures w == UpTo(UpTo(url, '#'), '?') && url == w + rest && (rest == "" || rest[0] == '#' || rest[0] == '?')
    ensures '#' !in w && '?' !in w
  {
    hide UpTo;
    var u, r1 := UpToSplit(url, '#');
    var w', r2 := UpToSplit(u, '?');
    w, rest := w', r2 + r1;
    assert url == w + r2 + r1 == w + (r2 + r1);
    if r2 == "" {
      assert rest == r1;
    } else {
      assert rest[0] == r2[0];
    }
    InFront(w, r2, '#');
  }

  lemma InFront(a: string, b: string, c: char)
    ensures c in a ==> c in a + b
  {}

  lemma {:induction false} UpToSplit(s: string, c: char) returns (u: string, rest: string)
    ensures u == UpTo(s, c) && s == u + rest && (rest == "" || rest[0] == c) && c !in u
  {
    u := UpTo(s, c);
    UpToIs(s, c);
    rest := s[|u|..];
  }

  lemma TextHasPage(url: string)
    ensures IsPage(url, StripSlashes(UpTo(UpTo(url, '#'), '?')))
  {
    hide IsPage, StripSlashes, Slashes, UpTo;
    var w, rest := CutTwice(url);
    var n := StripIs(w);
    var page := StripSlashes(w);
    assert forall c :: c in page ==> c in w;
    PageFrom(url, page, n, rest);
  }

  /** The page of a rec is the page of its first url that is not empty, and no other string is. */
  lemma PageIff(r: Rec, url: string, page: string)
    requires FirstUrl(r, url)
    ensures PrimaryUrl(r) == page <==> IsPage(url, page)
  {
    TextHasPage(url);
    if IsPage(url, page) {
      PageOfText(url, page);
    }
  }

  /** A query, a fragment and slashes at the end leave a url on its page. */
  lemma EndingsDoNotMatter(url: string, more: string, page: string)
    requires IsPage(url, page) && (more == "/" || (more != "" && (more[0] == '?' || more[0] == '#')))
    ensures IsPage(url + more, page)
  {
    hide IsPage;
    TextHasPage(url + more);
    PageOfText(url, page);
    if more == "/" {
      SlashAfter(url);
    } else {
      EndAfter(url, more);
    }
  }

  lemma EndAfter(url: string, more: string)
    requires more != "" && (more[0] == '?' || more[0] == '#')
    ensures UpTo(UpTo(url + more, '#'), '?') == UpTo(UpTo(url, '#'), '?')
  {
    CutAfter(url, more, '#');
    if '#' !in url {
      UpToIs(url, '#');
      CutAfter(url, UpTo(more, '#'), '?');
      if '?' !in url {
        UpToIs(url, '?');
        assert UpTo(UpTo(more, '#'), '?') == "";
        assert url + "" == url;
      }
    }
  }

  lemma {:induction false} CutAfter(a: string, b: string, c: char)
    ensures UpTo(a + b, c) == if c in a then UpTo(a, c) else a + UpTo(b, c)
  {
    if a == "" {
      assert a + b == b && "" + UpTo(b, c) == UpTo(b, c);
    } else {
      assert (a + b)[0] == a[0] && (a + b)[1..] == a[1..] + b;
      CutAfter(a[1..], b, c);
    }
  }

  lemma SlashAfter(url: string)
    ensures StripSlashes(UpTo(UpTo(url + "/", '#'), '?')) == StripSlashes(UpTo(UpTo(url, '#'), '?'))
  {
    CutAfter(url, "/", '#');
    UpToSlash();
    if '#' !in url {
      UpToIs(url, '#');
      CutAfter(url, "/", '?');
      if '?' !in url {
        UpToIs(url, '?');
        assert (url + "/")[..|url + "/"| - 1] == url;
      }
    }
  }

  lemma UpToSlash()
    ensures UpTo("/", '#') == "/" && UpTo("/", '?') == "/"
  {
    UpToIs("/", '#');
    UpToIs("/", '?');
  }

  // ------------------------------------------------------------------ which recs are collapsed

  lemma {:induction false} FindIsLast(recs: seq<Rec>, id: string)
    ensures Find(recs, id) >= 0 ==> forall j :: Find(recs, id) < j < |recs| ==> recs[j].id != id
    ensures Find(recs, id) < 0 ==> forall j :: 0 <= j < |recs| ==> recs[j].id != id
  {
    if recs != [] && recs[|recs| - 1].id != id {
      FindIsLast(recs[..|recs| - 1], id);
    }
  }

  /** The rec at i is the one its id stands for, not collapsed yet, and on the page. */
  ghost predicate StandsOn(recs: seq<Rec>, i: nat, page: string) {
    && i < |recs| && (forall j :: i < j < |recs| ==> recs[j].id != recs[i].id)
    && recs[i].into == "" && page != "" && exists url :: FirstUrl(recs[i], url) && IsPage(url, page)
  }

  lemma StandsIff(recs: seq<Rec>, i: nat, page: string)
    requires i < |recs|
    ensures StandsOn(recs, i, page) <==> Find(recs, recs[i].id) == i && OnPage(recs, recs[i].id, page)
  {
    hide IsPage, PrimaryUrl;
    FindIsLast(recs, recs[i].id);
    var url := if recs[i].affectedUrl != "" then recs[i].affectedUrl
               else if recs[i].pageUrl != "" then recs[i].pageUrl
               else if recs[i].plainUrl != "" then recs[i].plainUrl else recs[i].evidenceUrl;
    assert forall u :: FirstUrl(recs[i], u) <==> u == url;
    PageIff(recs[i], url, page);
  }

  /** A queued rec of the page: its id occurs in a queue file of the run. */
  ghost predicate QueuedOn(recs: seq<Rec>, files: map<string, QueueFile>, k: RunKey, i: nat, page: string) {
    && StandsOn(recs, i, page) && k.0 != "" && k.1 != "" && recs[i].id != ""
    && exists f :: f in files && files[f].agent == k.0 && files[f].runTs == k.1 && recs[i].id in files[f].recIds
  }

  lemma QueuedIff(recs: seq<Rec>, files: map<string, QueueFile>, order: map<RunKey, seq<string>>, k: RunKey, i: nat,
                  page: string)
    requires Enumerates(order, files) && k in order && i < |recs|
    ensures QueuedOn(recs, files, k, i, page) <==>
            recs[i].id in order[k] && Find(recs, recs[i].id) == i && OnPage(recs, recs[i].id, page)
  {
    hide StandsOn, OnPage;
    StandsIff(recs, i, page);
    assert recs[i].id in order[k] <==> recs[i].id in ToSet(order[k]);
  }

  /** The queued recs of a page. */
  ghost function GroupOn(recs: seq<Rec>, files: map<string, QueueFile>, k: RunKey, page: string): set<nat> {
    set i: nat | i < |recs| && QueuedOn(recs, files, k, i, page)
  }

  lemma GroupSize(recs: seq<Rec>, files: map<string, QueueFile>, order: map<RunKey, seq<string>>, k: RunKey,
                  page: string)
    requires Enumerates(order, files) && k in order
    ensures |GroupOn(recs, files, k, page)| == |Members(recs, order[k], page)|
  {
    hide QueuedOn, OnPage, Enumerates;
    var members := Members(recs, order[k], page);
    EnumeratesOnce(order, files, k);
    MembersAre(recs, order[k], page);
    forall id | id in members ensures Find(recs, id) >= 0 {
      OnPageHasRec(recs, id, page);
    }
    var places := seq(|members|, n requires 0 <= n < |members| => PlaceOf(recs, members[n]));
    forall m, n | 0 <= m < n < |places| ensures places[m] != places[n] {
      assert members[m] != members[n] && members[m] in members && members[n] in members;
    }
    NoDupCard(places);
    forall i: nat ensures i in ToSet(places) <==> i in GroupOn(recs, files, k, page) {
      if i in ToSet(places) {
        var n :| 0 <= n < |places| && places[n] == i;
        assert members[n] in members;
        QueuedIff(recs, files, order, k, i, page);
      }
      if i in GroupOn(recs, files, k, page) {
        QueuedIff(recs, files, order, k, i, page);
        var n :| 0 <= n < |members| && members[n] == recs[i].id;
        assert places[n] == i;
      }
    }
    assert ToSet(places) == GroupOn(recs, files, k, page);
  }

  lemma EnumeratesOnce(order: map<RunKey, seq<string>>, files: map<string, QueueFile>, k: RunKey)
    requires Enumerates(order, files) && k in order
    ensures NoDup(order[k])
  {}

  lemma OnPageHasRec(recs: seq<Rec>, id: string, page: string)
    requires OnPage(recs, id, page)
    ensures Find(recs, id) >= 0
  {}

  function PlaceOf(recs: seq<Rec>, id: string): nat { if Find(recs, id) >= 0 then Find(recs, id) else 0 }

  /** The group of a page that holds enough queued recs is one of those collapsed. */
  lemma PageIsChosen(recs: seq<Rec>, files: map<string, QueueFile>, order: map<RunKey, seq<string>>, minSize: int,
                     k: RunKey, page: string)
    returns (g: nat)
    requires Enumerates(order, files) && k in order
    requires GroupOn(recs, files, k, page) != {} && |GroupOn(recs, files, k, page)| >= minSize
    ensures var chosen := Chosen(recs, order[k], minSize);
            g < |chosen| && chosen[g] == Group(page, Members(recs, order[k], page)) && Disjoint(chosen)
  {
    hide QueuedOn, OnPage, Enumerates, Members, Pages, Chosen, Disjoint;
    EnumeratesOnce(order, files, k);
    GroupSize(recs, files, order, k, page);
    PagesAre(recs, order[k]);
    var i: nat :| i in GroupOn(recs, files, k, page);
    QueuedIff(recs, files, order, k, i, page);
    ChosenPartition(recs, order[k], minSize);
    var group := Group(page, Members(recs, order[k], page));
    assert group in Chosen(recs, order[k], minSize);
    g :| g < |Chosen(recs, order[k], minSize)| && Chosen(recs, order[k], minSize)[g] == group;
  }

  lemma CollapsedAt(recs: seq<Rec>, groups: seq<Group>)
    ensures var out := CollapsedRecs(recs, groups);
            && |out| == |recs| + |groups|
            && (forall i :: 0 <= i < |recs| ==> out[i] == Marked(recs, groups, i))
            && forall g :: 0 <= g < |groups| ==> out[|recs| + g] == Mega(groups[g], MegaId(|recs| + 1 + g))
  {
    hide MegaId, Mega, Marked;
  }

  lemma MarkedAs(recs: seq<Rec>, groups: seq<Group>, g: nat, i: nat)
    requires Disjoint(groups) && g < |groups| && i < |recs|
    requires recs[i].id in groups[g].ids && Find(recs, recs[i].id) == i
    ensures Marked(recs, groups, i) == recs[i].(into := MegaId(|recs| + 1 + g))
  {
    hide MegaId, Disjoint, GroupOf, Find;
    GroupOfDisjoint(groups, g, recs[i].id);
  }

  lemma GroupIds(recs: seq<Rec>, files: map<string, QueueFile>, order: map<RunKey, seq<string>>, k: RunKey,
                 page: string, id: string)
    requires Enumerates(order, files) && k in order
    ensures id in Members(recs, order[k], page) <==>
            exists i: nat :: i in GroupOn(recs, files, k, page) && recs[i].id == id
  {
    hide QueuedOn, OnPage, Enumerates, Members;
    MembersAre(recs, order[k], page);
    if id in Members(recs, order[k], page) {
      OnPageHasRec(recs, id, page);
      QueuedIff(recs, files, order, k, PlaceOf(recs, id), page);
      assert PlaceOf(recs, id) in GroupOn(recs, files, k, page);
    }
    if i: nat :| i in GroupOn(recs, files, k, page) && recs[i].id == id {
      QueuedIff(recs, files, order, k, i, page);
    }
  }

  /** m is the mega-rec the queued recs of the page are collapsed into: a new rec on the page whose sources are exactly
      their ids, and which each of them is pointed at. */
  ghost predicate CollapsedInto(recs: seq<Rec>, out: seq<Rec>, group: set<nat>, page: string, m: nat) {
    && |recs| <= m < |out| && out[m].id == "rec-cons-" + Pad3(m + 1)
    && out[m].affectedUrl == page && out[m].pageUrl == page && out[m].plainUrl == page && out[m].into == ""
    && (forall i :: i in group ==> i < |recs| && out[i] == recs[i].(into := out[m].id))
    && out[m].sources == set i | i in group && i < |recs| :: recs[i].id
  }

  /** Where a run is not stamped yet and at least minSize queued recs of it are on a page, all of them are collapsed
      into one mega-rec. */
  lemma PageIsCollapsed(runs: map<RunKey, RunDoc>, files: map<string, QueueFile>, order: map<RunKey, seq<string>>,
                        minSize: int, k: RunKey, page: string)
    requires Enumerates(order, files) && k in order && k in runs && !runs[k].stamped
    requires var group := GroupOn(runs[k].recs, files, k, page); group != {} && |group| >= minSize
    ensures var recs, out := runs[k].recs, NewDoc(runs, order, minSize, k).recs;
            && NewDoc(runs, order, minSize, k).stamped
            && exists m: nat :: CollapsedInto(recs, out, GroupOn(recs, files, k, page), page, m)
  {
    hide MegaId, IsPage, QueuedOn, OnPage, Enumerates, Members, Chosen, Disjoint, CollapsedRecs, Marked;
    var recs, chosen := runs[k].recs, Chosen(runs[k].recs, order[k], minSize);
    var group, out := GroupOn(recs, files, k, page), CollapsedRecs(recs, chosen);
    var g := PageIsChosen(recs, files, order, minSize, k, page);
    CollapsedAt(recs, chosen);
    MegaIdIs(|recs| + 1 + g);
    forall i | i in group ensures out[i] == recs[i].(into := out[|recs| + g].id) {
      QueuedIff(recs, files, order, k, i, page);
      GroupIds(recs, files, order, k, page, recs[i].id);
      MarkedAs(recs, chosen, g, i);
    }
    forall id ensures id in Members(recs, order[k], page) <==> exists i: nat :: i in group && recs[i].id == id {
      GroupIds(recs, files, order, k, page, id);
    }
    assert CollapsedInto(recs, out, group, page, |recs| + g);
  }

  lemma MegaIdIs(n: nat)
    ensures MegaId(n) == "rec-cons-" + Pad3(n) && MegaId(n) != ""
  {
    hide Pad3;
  }

  /** So two queued recs whose urls differ in query, fragment and slashes only end up at the same mega-rec, if their
      page holds enough queued recs. */
  lemma SamePageSameMega(runs: map<RunKey, RunDoc>, files: map<string, QueueFile>, order: map<RunKey, seq<string>>,
                         minSize: int, k: RunKey, page: string, i: nat, j: nat)
    requires Enumerates(order, files) && k in order && k in runs && !runs[k].stamped
    requires QueuedOn(runs[k].recs, files, k, i, page) && QueuedOn(runs[k].recs, files, k, j, page)
    requires |GroupOn(runs[k].recs, files, k, page)| >= minSize
    ensures var out := NewDoc(runs, order, minSize, k).recs;
            i < |out| && j < |out| && out[i].into == out[j].into != ""
  {
    hide QueuedOn, Enumerates, NewDoc;
    var recs := runs[k].recs;
    QueuedIsIn(recs, files, k, i, page);
    QueuedIsIn(recs, files, k, j, page);
    assert i in GroupOn(recs, files, k, page) && j in GroupOn(recs, files, k, page);
    PageIsCollapsed(runs, files, order, minSize, k, page);
  }

  lemma QueuedIsIn(recs: seq<Rec>, files: map<string, QueueFile>, k: RunKey, i: nat, page: string)
    requires QueuedOn(recs, files, k, i, page)
    ensures i < |recs|
  {}

  lemma ChosenHolds(recs: seq<Rec>, ids: seq<string>, minSize: int, g: Group, id: string)
    requires NoDup(ids) && g in Chosen(recs, ids, minSize) && id in g.ids
    ensures g.ids == Members(recs, ids, g.url) && |g.ids| >= minSize && id in ids && OnPage(recs, id, g.url)
  {
    hide OnPage, Members, Chosen;
    ChosenPartition(recs, ids, minSize);
  }

  lemma GroupedIsQueued(recs: seq<Rec>, files: map<string, QueueFile>, order: map<RunKey, seq<string>>, minSize: int,
                        k: RunKey, i: nat)
    requires Enumerates(order, files) && k in order && i < |recs| && Find(recs, recs[i].id) == i
    requires GroupOf(Chosen(recs, order[k], minSize), recs[i].id) >= 0
    ensures exists page :: QueuedOn(recs, files, k, i, page) && |GroupOn(recs, files, k, page)| >= minSize
  {
    hide IsPage, QueuedOn, OnPage, Enumerates, Members, Disjoint, GroupOn, Chosen;
    var chosen, id := Chosen(recs, order[k], minSize), recs[i].id;
    EnumeratesOnce(order, files, k);
    var g := chosen[GroupOf(chosen, id)];
    ChosenHolds(recs, order[k], minSize, g, id);
    QueuedIff(recs, files, order, k, i, g.url);
    GroupSize(recs, files, order, k, g.url);
  }

  /** A rec stays as it is unless it is one of minSize or more queued recs of a page. */
  lemma OthersStay(runs: map<RunKey, RunDoc>, files: map<string, QueueFile>, order: map<RunKey, seq<string>>,
                   minSize: int, k: RunKey, i: nat)
    requires Enumerates(order, files) && k in runs && i < |runs[k].recs|
    requires forall page :: QueuedOn(runs[k].recs, files, k, i, page) ==>
               |GroupOn(runs[k].recs, files, k, page)| < minSize
    ensures var out := NewDoc(runs, order, minSize, k).recs; i < |out| && out[i] == runs[k].recs[i]
  {
    hide MegaId, QueuedOn, Enumerates, GroupOn, Chosen, GroupOf, Find, CollapsedRecs;
    if k in order && !runs[k].stamped {
      var recs, chosen := runs[k].recs, Chosen(runs[k].recs, order[k], minSize);
      CollapsedAt(recs, chosen);
      if Find(recs, recs[i].id) == i && GroupOf(chosen, recs[i].id) >= 0 {
        GroupedIsQueued(recs, files, order, minSize, k, i);
        assert false;
      }
    }
  }

  // ------------------------------------------------------------------ queue files

  /** A queue file keeps the order of its ids, with each mega-rec where the first of its recs was. */
  lemma {:induction false} RewriteInOrder(a: seq<string>, b: seq<string>, mega: map<string, string>)
    ensures Rewrite(a, mega) <= Rewrite(a + b, mega)
    decreases |b|
  {
    hide Seen;
    if b == [] {
      assert a + b == a;
    } else {
      assert (a + b)[..|a + b| - 1] == a + b[..|b| - 1];
      RewriteInOrder(a, b[..|b| - 1], mega);
    }
  }

  /** And names each rec and each mega-rec once. */
  lemma {:induction false} RewriteOnce(ids: seq<string>, mega: map<string, string>)
    requires NoDup(ids) && forall id, x :: id in ids && id !in mega && x in mega ==> mega[x] != id
    ensures NoDup(Rewrite(ids, mega))
  {
    if ids != [] {
      var init, id := ids[..|ids| - 1], ids[|ids| - 1];
      assert forall x :: x in init ==> x in ids;
      RewriteOnce(init, mega);
      RewriteKeepsWork(init, mega);
      assert id !in init;
    }
  }
}
