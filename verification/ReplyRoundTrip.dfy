/** What a reply of a verb and any list of words selects: the whole parser, end to end. */
module ReplyRoundTrip {
  import opened Sequences
  import opened Decimals
  import opened ReplyParser
  import opened ReplyWords
  import opened ReplyPasses
  import opened ReplyBody
  import Apply = ReplyApply

  // ------------------------------------------------------------------ what the words mean

  function IdsBetween(a: nat, b: nat): set<string> { set n: nat | a <= n <= b :: IdText(n) }

  /** What a selector says by itself: an id up to 999, a number from 1 to 999, a uid. */
  function Meant(x: End): set<string> {
    match x
    case Id(n) => if n <= MAX_ID then {IdText(n)} else {}
    case Bare(n) => if 1 <= n <= MAX_ID then {IdText(n)} else {}
    case Uid(h) => {"r-" + h}
  }

  /** Two ids or two numbers in span mean all ids between them, and so do the digits a uid ends in with a number
      after them: then the uid itself is gone. Any other two selectors mean what each means by itself, but a separator
      word written without a space swallows its neighbour, and a number right after a hyphen does not count. */
  function Selected(w: Word): set<string> {
    match w
    case One(x) => Meant(x)
    case Range(l, g, r) =>
      if l.Id? && r.Id? && InSpan(l.n, r.n) then IdsBetween(l.n, r.n)
      else if l.Bare? && r.Bare? && 1 <= l.n && InSpan(l.n, r.n) then IdsBetween(l.n, r.n)
      else if l.Uid? && r.Bare? && EatsUid(l.h, r.n) then IdsBetween(TailValue(l.h), r.n)
      else (if LeftFree(g) then Meant(l) else {}) + if RightFree(g) && !(r.Bare? && Guards(g)) then Meant(r) else {}
    case Comma => {}
    case Empty => {}
    case Say(t) => {}
  }

  function SelectedBy(ws: seq<Word>): set<string> {
    if ws == [] then {} else Selected(ws[0]) + SelectedBy(ws[1..])
  }

  // ------------------------------------------------------------------ what is selected

  lemma {:induction false} NamedConcat(a: seq<Word>, b: seq<Word>)
    ensures NamedBy(a + b) == NamedBy(a) + NamedBy(b)
  {
    hide Named;
    if a == [] {
      assert a + b == b;
    } else {
      assert (a + b)[1..] == a[1..] + b;
      NamedConcat(a[1..], b);
    }
  }

  lemma {:induction false} EachConcat(a: seq<Word>, b: seq<Word>, f: Word -> seq<Word>)
    ensures Each(a + b, f) == Each(a, f) + Each(b, f)
  {
    if a == [] {
      assert a + b == b;
    } else {
      assert (a + b)[1..] == a[1..] + b;
      EachConcat(a[1..], b, f);
    }
  }

  lemma {:induction false} IdsFinal(a: nat, b: nat)
    ensures Each(Ids(a, b), AfterIdRanges) == Ids(a, b)
    ensures Each(Ids(a, b), AfterBareRanges) == Ids(a, b)
    ensures Each(Ids(a, b), AfterBareIds) == Ids(a, b)
    decreases b - a
  {
    if a < b {
      IdsFinal(a + 1, b);
      assert Ids(a, b)[1..] == Ids(a + 1, b);
    } else {
      assert [One(Id(a))][1..] == [];
    }
  }

  lemma {:induction false} NamedIds(a: nat, b: nat)
    requires a <= b <= MAX_ID
    ensures NamedBy(Ids(a, b)) == IdsBetween(a, b)
    decreases b - a
  {
    hide IdText;
    if a < b {
      NamedIds(a + 1, b);
      assert Ids(a, b)[1..] == Ids(a + 1, b);
      assert IdsBetween(a, b) == {IdText(a)} + IdsBetween(a + 1, b);
    } else {
      assert [One(Id(a))][1..] == [];
      assert IdsBetween(a, a) == {IdText(a)};
    }
  }

  lemma EachOne(w: Word, f: Word -> seq<Word>)
    ensures Each([w], f) == f(w)
  {
    assert [w][1..] == [] && f(w) + [] == f(w);
  }

  lemma NamedOne(w: Word)
    ensures NamedBy([w]) == Named(w)
  {
    hide Named;
    assert [w][1..] == [];
  }

  lemma EndSelected(x: End)
    requires WrittenEnd(x)
    ensures NamedEnd(Counted(x)) == Meant(x)
    ensures NamedEnd(x) == if x.Bare? then {} else Meant(x)
  {
    hide IdText;
  }

  lemma SelectedOne(w: Word)
    requires Written(w)
    ensures NamedBy(Final([w])) == Selected(w)
  {
    hide IdText, Ids, Each, IdsBetween, TailRun, TailValue, Meant, NamedEnd, Counted;
    EachOne(w, AfterIdRanges);
    if w.Range? && w.l.Id? && w.r.Id? && InSpan(w.l.n, w.r.n) {
      IdsFinal(w.l.n, w.r.n);
      NamedIds(w.l.n, w.r.n);
    } else {
      EachOne(w, AfterBareRanges);
      if w.Range? && w.l.Bare? && w.r.Bare? && 1 <= w.l.n && InSpan(w.l.n, w.r.n) {
        ExpandedFinal(Empty, w.l.n, w.r.n);
      } else if w.Range? && w.l.Uid? && w.r.Bare? && EatsUid(w.l.h, w.r.n) {
        StubNamesNothing(w.l.h);
        ExpandedFinal(One(Uid(w.l.h[..TailStart(w.l.h)])), TailValue(w.l.h), w.r.n);
      } else {
        EachOne(w, AfterBareIds);
        NamedOne(AfterBareIds(w)[0]);
        if w.One? {
          EndSelected(w.x);
        } else if w.Range? {
          EndSelected(w.l);
          EndSelected(w.r);
        }
      }
    }
  }

  lemma StubNamesNothing(h: string)
    requires |h| == 8 && TailRun(h) >= 1
    ensures var stub := One(Uid(h[..TailStart(h)])); Named(stub) == {} && AfterBareIds(stub) == [stub]
  {
    hide TailRun;
  }

  lemma ExpandedFinal(first: Word, a: nat, b: nat)
    requires a <= b <= MAX_ID && Named(first) == {} && AfterBareIds(first) == [first]
    ensures NamedBy(Each([first] + Ids(a, b) + [Empty], AfterBareIds)) == IdsBetween(a, b)
  {
    hide IdText, Ids, Each, IdsBetween, Named, AfterBareIds;
    IdsFinal(a, b);
    NamedIds(a, b);
    EachOne(first, AfterBareIds);
    EachOne(Empty, AfterBareIds);
    EmptyStays();
    EachConcat([first] + Ids(a, b), [Empty], AfterBareIds);
    EachConcat([first], Ids(a, b), AfterBareIds);
    NamedConcat([first] + Ids(a, b), [Empty]);
    NamedConcat([first], Ids(a, b));
    NamedOne(first);
    NamedOne(Empty);
  }

  lemma EmptyStays()
    ensures AfterBareIds(Empty) == [Empty] && Named(Empty) == {}
  {}

  lemma {:induction false} FinalSelects(ws: seq<Word>)
    requires AllWritten(ws)
    ensures NamedBy(Final(ws)) == SelectedBy(ws)
  {
    hide Selected, AfterIdRanges, AfterBareRanges, AfterBareIds, Named, Each, Written;
    if ws == [] {
      assert Final([]) == [] by { FinalNil(); }
    } else {
      FinalSelects(ws[1..]);
      SelectedOne(ws[0]);
      assert ws == [ws[0]] + ws[1..];
      EachConcat([ws[0]], ws[1..], AfterIdRanges);
      EachConcat(Each([ws[0]], AfterIdRanges), Each(ws[1..], AfterIdRanges), AfterBareRanges);
      EachConcat(Each(Each([ws[0]], AfterIdRanges), AfterBareRanges),
                 Each(Each(ws[1..], AfterIdRanges), AfterBareRanges), AfterBareIds);
      NamedConcat(Final([ws[0]]), Final(ws[1..]));
    }
  }

  lemma FinalNil()
    ensures Final([]) == []
  {}

  // ------------------------------------------------------------------ main theorems

  /** The text quoted below a reply as the parser reads it: ids only, no bare numbers. */
  function Quote(t: Tail): string { RangesExpanded(Normalized(TailText(t))) }

  function ReplyText(v: string, ws: seq<Word>, t: Tail): string { v + (Line(ws) + TailText(t)) }

  predicate Says(text: string, word: string) { FindWord(text, word, 0).Some? }

  /** A verb followed by any list of selectors, of pairs of selectors with a separator between, and of other words of
      letters, with any number of spaces between and around them and commas after any of them, above any quoted text.
      The verb is the first of the four that is written or quoted. The ids are the union of what the selectors select
      and of the ids in the quoted text, where bare numbers count for nothing. The bulk keywords are those among the
      other words, if the reply is cut off before the quoted text. The other words may be any but the verbs, the three
      separators and the weekdays. */
  lemma QuotedReply(v: string, ws: seq<Word>, t: Tail)
    requires (v == "implement" || v == "skip" || v == "modify" || v == "merge") && AllWritten(ws) && Boundary(t)
    ensures var a := Parse(ReplyText(v, ws, t));
            && a.verb == (if v == "implement" || Says(Quote(t), "implement") then "implement"
                          else if v == "skip" || Says(Quote(t), "skip") then "skip"
                          else if v == "modify" || Says(Quote(t), "modify") then "modify"
                          else "merge")
            && a.ids == SelectedBy(ws) + IdsFrom(Quote(t), 0)
            && (a.verb == v && Severed(ws, t) ==> a.filters == FiltersOf(v, ws))
  {
    hide Line, Canonical, FirstOf, Filters, IdsFrom, Final, NamedBy, AllWritten, AllShaped, Listed, FindWord, TailText;
    hide RangesExpanded, Normalized, VERBS, KEYWORDS, Boundary, Severed, TailAfter, SelectedBy;
    FourVerbsAre();
    CanonicalIs(v, ws, t);
    var s, u := BodyOf(v, Final(ws), TailAfter(t)), TailAfter(t);
    LeadingVerb(s, v, Final(ws), u, VERBS);
    FourVerbs(v, Quote(t));
    BodyIds(s, v, Final(ws), u);
    FinalSelects(ws);
    if Severed(ws, t) {
      SeveredStays(ws, t);
      FiltersHeard(s, v, Final(ws), u);
      FinalListed(KEYWORDS, ws);
    }
  }

  lemma FourVerbs(v: string, text: string)
    requires v in VERBS
    ensures Leading(v, text, VERBS) ==
            if v == "implement" || Says(text, "implement") then "implement"
            else if v == "skip" || Says(text, "skip") then "skip"
            else if v == "modify" || Says(text, "modify") then "modify"
            else "merge"
  {
    hide FindWord;
    LeadingStep(v, text, "implement", ["skip", "modify", "merge"]);
    LeadingStep(v, text, "skip", ["modify", "merge"]);
    LeadingStep(v, text, "modify", ["merge"]);
    LeadingStep(v, text, "merge", []);
  }

  lemma LeadingStep(v: string, text: string, u: string, rest: seq<string>)
    ensures Leading(v, text, [u] + rest) == if u == v || Says(text, u) then u else Leading(v, text, rest)
  {
    assert ([u] + rest)[1..] == rest;
  }

  lemma SeveredStays(ws: seq<Word>, t: Tail)
    requires Severed(ws, t)
    ensures Severed(Final(ws), TailAfter(t))
  {}

  /** So a reply alone means what its words say. */
  lemma ReplyMeans(v: string, ws: seq<Word>)
    requires (v == "implement" || v == "skip" || v == "modify" || v == "merge") && AllWritten(ws)
    ensures Parse(v + Line(ws)).verb == v
    ensures Parse(v + Line(ws)).ids == SelectedBy(ws)
    ensures Parse(v + Line(ws)).filters == FiltersOf(v, ws)
    ensures v == "implement" || v == "skip" ==>
              forall t :: t in Parse(v + Line(ws)).filters <==> Say(t) in ws && BulkWord(t)
    ensures v == "modify" || v == "merge" ==> Parse(v + Line(ws)).filters == []
  {
    hide Line, Parse, IdsFrom, AllWritten, FindWord, SelectedBy, KEYWORDS, VERBS;
    FourVerbsAre();
    BulkWordsAre();
    QuotedReply(v, ws, NoTail);
    assert v + (Line(ws) + "") == v + Line(ws);
    NothingQuoted();
  }

  predicate BulkWord(t: string) {
    || t == "all"
    || t == "auto" || t == "review" || t == "experimental"
    || t == "critical" || t == "high" || t == "medium" || t == "low"
  }

  lemma BulkWordsAre()
    ensures forall t :: t in KEYWORDS <==> BulkWord(t)
  {}

  lemma FourVerbsAre()
    ensures "implement" in VERBS && "skip" in VERBS && "modify" in VERBS && "merge" in VERBS
  {
    assert VERBS[0] == "implement" && VERBS[1] == "skip" && VERBS[2] == "modify" && VERBS[3] == "merge";
  }

  lemma NothingQuoted()
    ensures Quote(NoTail) == "" && IdsFrom("", 0) == {} && forall u :: FindWord("", u, 0) == None
  {}

  lemma {:induction false} NothingListed(words: seq<string>, ws: seq<Word>)
    requires forall w :: w in ws ==> !w.Say?
    ensures Listed(words, ws) == []
  {
    if words != [] {
      NothingListed(words[..|words| - 1], ws);
    }
  }

  lemma OneWord(v: string, w: Word)
    requires v in VERBS && Written(w) && !w.Comma?
    ensures Parse(v + (" " + Text(w))).ids == Selected(w)
  {
    VerbLetters(v);
    hide Parse, Text, Selected, Line, Written;
    ReplyMeans(v, [w]);
    LineOne(w);
    assert [Lead(w)] == " ";
    assert [w][1..] == [];
    assert SelectedBy([w]) == Selected(w) + SelectedBy([]);
  }

  /** A range of at most 201 numbers up to 999 reads the same with rec- ids, bare, and as the list of all its ids,
      whatever its separator. */
  lemma RangeFormsAgree(v: string, a: nat, b: nat, g: Glue)
    requires v in VERBS && 1 <= a <= b <= 999 && b - a <= 200
    ensures Parse(v + (" " + (IdText(a) + (GlueText(g) + IdText(b))))).ids == IdsBetween(a, b)
    ensures Parse(v + (" " + (Numeral(a) + (GlueText(g) + Numeral(b))))).ids == IdsBetween(a, b)
    ensures Parse(v + Line(Ids(a, b))).ids == IdsBetween(a, b)
  {
    hide Parse, IdText, Numeral, IdsBetween, Ids, SelectedBy, Line, GlueText;
    VerbLetters(v);
    OneWord(v, Range(Id(a), g, Id(b)));
    OneWord(v, Range(Bare(a), g, Bare(b)));
    IdsWritten(a, b);
    ReplyMeans(v, Ids(a, b));
    SelectedIds(a, b);
  }

  lemma {:induction false} SelectedIds(a: nat, b: nat)
    requires a <= b <= MAX_ID
    ensures SelectedBy(Ids(a, b)) == IdsBetween(a, b)
    decreases b - a
  {
    hide IdText;
    if a < b {
      SelectedIds(a + 1, b);
      assert Ids(a, b)[1..] == Ids(a + 1, b);
      assert IdsBetween(a, b) == {IdText(a)} + IdsBetween(a + 1, b);
    } else {
      assert [One(Id(a))][1..] == [];
      assert IdsBetween(a, a) == {IdText(a)};
    }
  }

  /** A bare range selects what it says exactly when it is in span. Otherwise it is not ignored: its first number
      counts, and so does its second one unless it follows a hyphen at once. */
  lemma BareRangeOutOfSpan(v: string, a: nat, b: nat, g: Glue)
    requires v in VERBS && 1 <= a <= 999 && LeftFree(g) && RightFree(g)
    ensures Parse(v + (" " + (Numeral(a) + (GlueText(g) + Numeral(b))))).ids ==
            if a <= b <= 999 && b - a <= 200 then IdsBetween(a, b)
            else {IdText(a)} + if !Guards(g) && 1 <= b <= 999 then {IdText(b)} else {}
  {
    hide Parse, IdText, Numeral, IdsBetween, GlueText, LeftFree, RightFree, Guards;
    OneWord(v, Range(Bare(a), g, Bare(b)));
  }

  // ------------------------------------------------------------------ uids

  /** Any eight hex digits, as r-a1b2c3d4 has them. */
  predicate UidDigits(h: string) { |h| == 8 && forall c :: c in h ==> '0' <= c <= '9' || 'a' <= c <= 'f' }

  /** A uid with a separator and a number after it is selected exactly when the separator leaves its end a word and
      the digits it ends in do not read as the start of a bare range in span; if they do, the range is selected in its
      place. */
  lemma UidSurvivesIff(v: string, h: string, g: Glue, b: nat)
    requires v in VERBS && UidDigits(h)
    ensures var ids := Parse(v + (" " + ("r-" + h + (GlueText(g) + Numeral(b))))).ids;
            && ("r-" + h in ids <==> LeftFree(g) && !EatsUid(h, b))
            && (EatsUid(h, b) ==> ids == IdsBetween(TailValue(h), b))
  {
    hide Parse, Numeral, GlueText, EatsUid, TailValue, LeftFree, RightFree, Guards, IdText;
    OneWord(v, Range(Uid(h), g, Bare(b)));
    forall n ensures "r-" + h != IdText(n) {
      UidIsNoId(h, n);
    }
  }

  lemma UidIsNoId(h: string, n: nat)
    ensures "r-" + h != IdText(n)
  {
    assert IdText(n)[1] == 'e' && ("r-" + h)[1] == '-';
  }

  /** For one, the uid r-a1b2c3d4 followed by a dash and 5 is lost, and rec-004 and rec-005 are selected. */
  lemma UidLost()
    ensures Parse("implement" + (" " + ("r-" + "a1b2c3d4" + (" - " + "5")))).ids == {IdText(4), IdText(5)}
  {
    hide Parse, IdText;
    var h := "a1b2c3d4";
    TailOfExample();
    UidSurvivesIff("implement", h, Glue(1, Hyphen, 1), 5);
    assert GlueText(Glue(1, Hyphen, 1)) == " - ";
    assert Numeral(5) == "5";
    assert IdsBetween(4, 5) == {IdText(4), IdText(5)};
  }

  lemma TailOfExample()
    ensures UidDigits("a1b2c3d4") && TailRun("a1b2c3d4") == 1 && TailValue("a1b2c3d4") == 4
  {
    var h := "a1b2c3d4";
    assert h[..7] == "a1b2c3d" && TailRun("a1b2c3d") == 0;
    assert h[7..8] == "4" && "4"[..0] == "" && Value("4") == 4;
  }

  function Uids(hs: seq<string>): seq<Word> { seq(|hs|, i requires 0 <= i < |hs| => One(Uid(hs[i]))) }

  lemma {:induction false} SelectedUids(hs: seq<string>)
    ensures forall t :: t in SelectedBy(Uids(hs)) <==> exists h :: h in hs && t == "r-" + h
  {
    if hs != [] {
      SelectedUids(hs[1..]);
      assert Uids(hs)[1..] == Uids(hs[1..]);
      assert hs == [hs[0]] + hs[1..];
    }
  }

  /** A reply that lists uids is parsed to exactly those uids, and changes no rec of the email it answers. */
  lemma UidReplyChangesNothing(recs: seq<Apply.Rec>, uids: seq<string>, v: string, hs: seq<string>, at: string)
    requires v in VERBS && |uids| == |recs| && forall h :: h in hs ==> UidDigits(h)
    ensures var out, action := Apply.Assigned(recs, uids), Parse(v + Line(Uids(hs)));
            && (forall t :: t in action.ids <==> exists h :: h in hs && t == "r-" + h)
            && Apply.AfterReply(out, Apply.Reply(action, at)) == out
  {
    hide Parse, Line, Apply.Assigned, Apply.AfterReply;
    var out, action := Apply.Assigned(recs, uids), Parse(v + Line(Uids(hs)));
    forall w | w in Uids(hs) ensures Written(w) {
      assert w.x.h in hs;
    }
    VerbLetters(v);
    ReplyMeans(v, Uids(hs));
    NothingListed(KEYWORDS, Uids(hs));
    SelectedUids(hs);
    Apply.AssignedIdsDiffer(recs, uids);
    forall t | t in action.ids ensures Apply.UidForm(t) {
      var h :| h in hs && t == "r-" + h;
      assert t[..2] == "r-";
    }
    Apply.UidsSelectNothing(out, Apply.Reply(action, at));
  }

  // ------------------------------------------------------------------ from assignment to reply and back

  /** The id given to the n-th rec comes back from a reply exactly when n is at most 999; beyond that the
      reply selects nothing. */
  lemma AssignedIdRoundTrips(v: string, n: nat)
    requires v in VERBS
    ensures Parse(v + " " + IdText(n)).ids == if n <= 999 then {IdText(n)} else {}
  {
    hide Parse, IdText;
    OneWord(v, One(Id(n)));
    assert v + " " + IdText(n) == v + (" " + IdText(n));
  }

  /** From assignment to reply and back: naming the i-th rec of an email in a reply marks that rec and no other
      when it is among the first 999, and marks none when it is not. */
  lemma ReplyReachesItsRec(recs: seq<Apply.Rec>, uids: seq<string>, v: string, i: nat, at: string)
    requires v in VERBS && |uids| == |recs| && i < |recs|
    ensures var out := Apply.Assigned(recs, uids);
            var action := Parse(v + " " + out[i].id);
            && action.verb == v
            && forall j :: 0 <= j < |out| ==>
                 Apply.AfterReply(out, Apply.Reply(action, at))[j] ==
                 if j == i && i < 999
                 then out[j].(response := Some(Apply.Response(v, at, action.notes, "explicit-rec-id", [])))
                 else out[j]
  {
    hide Parse, IdText, Apply.Matching, Apply.Assigned, Line;
    var out := Apply.Assigned(recs, uids);
    AssignedId(recs, uids, i);
    var action := Parse(v + " " + out[i].id);
    AssignedIdRoundTrips(v, i + 1);
    VerbLetters(v);
    ReplyMeans(v, [One(Id(i + 1))]);
    NothingListed(KEYWORDS, [One(Id(i + 1))]);
    LineOne(One(Id(i + 1)));
    assert v + " " + IdText(i + 1) == v + (" " + IdText(i + 1));
    Apply.FiltersUnite(out, [], []);
    Apply.AssignedIdsDiffer(recs, uids);
    assert Apply.Targets(out, action) == if i < 999 then {out[i].id} else {};
  }

  lemma AssignedId(recs: seq<Apply.Rec>, uids: seq<string>, i: nat)
    requires |uids| == |recs| && i < |recs|
    ensures |Apply.Assigned(recs, uids)| == |recs| && Apply.Assigned(recs, uids)[i].id == IdText(i + 1)
  {}

  lemma OneKeyword(t: string)
    requires t in KEYWORDS
    ensures Listed(KEYWORDS, [Say(t)]) == [t] && Written(Say(t))
  {
    hide Listed;
    ListedOnce(t, |KEYWORDS|);
    assert KEYWORDS[..|KEYWORDS|] == KEYWORDS;
    KeywordIsSayWord(t);
  }

  lemma KeywordIsSayWord(t: string)
    requires t in KEYWORDS
    ensures SayWord(t)
  {
    hide Foreign;
    ForeignWords();
    ForeignLetters(t);
    forall u | u in VERBS || u in JOINERS || u in WEEKDAYS ensures u != t {
      assert |u| == |t| ==> u[0] != t[0] || u[|u| - 1] != t[|t| - 1];
    }
  }

  lemma {:induction false} ListedOnce(t: string, k: nat)
    requires k <= |KEYWORDS|
    ensures Listed(KEYWORDS[..k], [Say(t)]) == if t in KEYWORDS[..k] then [t] else []
  {
    if k > 0 {
      ListedOnce(t, k - 1);
      assert KEYWORDS[..k][..k - 1] == KEYWORDS[..k - 1];
      assert KEYWORDS[..k] == KEYWORDS[..k - 1] + [KEYWORDS[k - 1]];
      assert NoDup(KEYWORDS);
    }
  }

  /** A bulk reply marks exactly the recs its keyword names by tier, severity or priority, and all marks every rec. */
  lemma BulkReplyReaches(recs: seq<Apply.Rec>, uids: seq<string>, v: string, t: string, at: string)
    requires (v == "implement" || v == "skip") && BulkWord(t) && |uids| == |recs|
    ensures var out, action := Apply.Assigned(recs, uids), Parse(v + (" " + t));
            && action.verb == v && action.ids == {} && action.filters == [t]
            && (forall j :: 0 <= j < |out| ==>
                  var r := out[j];
                  Apply.AfterReply(out, Apply.Reply(action, at))[j] ==
                  if t == "all" || r.tier == Some(t) || r.severity == Some(t) || r.priority == Some(t)
                  then r.(response := Some(Apply.Response(v, at, action.notes, "bulk-filter", [t]))) else r)
  {
    hide Parse, Line, Apply.Assigned, Apply.Matches;
    var out := Apply.Assigned(recs, uids);
    BulkWordsAre();
    OneKeyword(t);
    ReplyMeans(v, [Say(t)]);
    LineOne(Say(t));
    SayText(t);
    assert SelectedBy([Say(t)]) == {};
    assert [Lead(Say(t))] == " ";
    Apply.AssignedIdsDiffer(recs, uids);
    var reply := Apply.Reply(Parse(v + (" " + t)), at);
    forall j | 0 <= j < |out|
      ensures Apply.Selects(out, reply, out[j].id) <==> Apply.Matches(out[j], [t])
      ensures Apply.IsLast(out, j)
    {
      assert out[j] in out;
    }
    forall r ensures Apply.Matches(r, [t]) <==>
                     t == "all" || r.tier == Some(t) || r.severity == Some(t) || r.priority == Some(t)
    {
      MatchesOne(r, t);
    }
  }

  lemma MatchesOne(r: Apply.Rec, t: string)
    ensures Apply.Matches(r, [t]) <==> t == "all" || r.tier == Some(t) || r.severity == Some(t) || r.priority == Some(t)
  {}
}
