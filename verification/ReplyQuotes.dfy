/** Quoted text below a reply: it adds the ids it names and nothing else, unless it holds a verb. */
module ReplyQuotes {
  import opened Sequences
  import opened Decimals
  import opened ReplyParser
  import opened ReplyWords
  import opened ReplyPasses
  import opened ReplyBody
  import opened ReplyRoundTrip

  // ------------------------------------------------------------------ text without a verb

  lemma {:induction false} NoVerbEnd(s: string, i: nat, u: string)
    requires FirstVerbEnd(s, i) == None && u in VERBS
    ensures FindWord(s, u, i) == None
    decreases |s| - i
  {
    hide WordAt;
    VerbLetters(u);
    if i < |s| {
      NoVerbEnd(s, i + 1, u);
    }
  }

  lemma {:induction false} VerbEndIs(s: string, i: nat) returns (p: nat, u: string)
    requires FirstVerbEnd(s, i).Some?
    ensures u in VERBS && WordAt(s, p, u) && FirstVerbEnd(s, i) == Some(p + |u|) && p + |u| <= |s|
    decreases |s| - i
  {
    hide WordAt;
    assert VERBS[0] in VERBS && VERBS[1] in VERBS && VERBS[2] in VERBS && VERBS[3] in VERBS;
    if WordAt(s, i, "implement") {
      p, u := i, "implement";
    } else if WordAt(s, i, "skip") {
      p, u := i, "skip";
    } else if WordAt(s, i, "modify") {
      p, u := i, "modify";
    } else if WordAt(s, i, "merge") {
      p, u := i, "merge";
    } else {
      p, u := VerbEndIs(s, i + 1);
    }
  }

  lemma FirstStays(x: string, end: (string, nat) -> nat, expand: (string, nat) -> string)
    requires x != "" && end(x, 0) == 0
    ensures Sub(x, 0, end, expand) != "" && Sub(x, 0, end, expand)[0] == x[0]
  {}

  /** The pass over bare numbers keeps a first character that is no digit. */
  lemma ScanKeepsFirst(x: string)
    requires x != "" ==> !IsDigit(x[0])
    ensures x == "" ==> ScanExpanded(x) == ""
    ensures x != "" ==> ScanExpanded(x) != "" && ScanExpanded(x)[0] == x[0]
  {
    hide Sub, BareRangeEnd, BareIdEnd;
    if x == "" {
      SubNothing(BareRangeEnd, ExpandBareRange);
      SubNothing(BareIdEnd, ExpandBareId);
    } else {
      NoDigitNoBareRange(x, 0);
      FirstStays(x, BareRangeEnd, ExpandBareRange);
      var y := Sub(x, 0, BareRangeEnd, ExpandBareRange);
      NoBareIdAt(y, 0);
      FirstStays(y, BareIdEnd, ExpandBareId);
    }
  }

  lemma SamePrefixWord(s: string, c: string, p: nat, u: string)
    requires WordAt(s, p, u) && p + |u| <= |c| && c[..p + |u|] == s[..p + |u|] && WordEnd(c, p + |u|)
    ensures WordAt(c, p, u)
  {
    var e := p + |u|;
    assert c[p..e] == c[..e][p..e] == s[..e][p..e] == s[p..e];
    if p > 0 {
      assert c[p - 1] == c[..e][p - 1] == s[p - 1];
    }
  }

  /** The pass over bare numbers keeps the verb it starts at. */
  lemma VerbStays(s: string)
    requires FirstVerbEnd(s, 0).Some?
    ensures exists u :: u in VERBS && FindWord(BareExpanded(s), u, 0).Some?
  {
    hide FirstVerbEnd, ScanExpanded, FindWord, VERBS, REPLY_BOUNDARIES, ScanEnd;
    var p, u := VerbEndIs(s, 0);
    var e := p + |u|;
    var end := ScanEnd(s, e, REPLY_BOUNDARIES);
    var x, c := s[e..end], BareExpanded(s);
    assert c == s[..e] + ScanExpanded(x) + s[end..];
    assert WordEnd(s, e);
    ScanKeepsFirst(x);
    assert WordEnd(c, e) by {
      if x != "" {
        assert c[e] == ScanExpanded(x)[0] == x[0] == s[e];
      } else {
        assert c == s[..e] + s[e..] == s;
      }
    }
    assert c[..e] == s[..e];
    SamePrefixWord(s, c, p, u);
    VerbLetters(u);
    FindFinds(c, u, 0, p);
  }

  lemma {:induction false} FoundIsKnown(s: string, words: seq<string>, u: string)
    requires u in words && FindWord(s, u, 0).Some? && "unknown" !in words
    ensures FirstOf(s, words) != "unknown"
  {
    hide FindWord;
    if words[0] != u {
      FoundIsKnown(s, words[1..], u);
    }
  }

  /** Text that parses to no verb holds none, and none of its numbers count. */
  lemma UnknownText(raw: string)
    requires Parse(raw).verb == "unknown"
    ensures var text := RangesExpanded(Normalized(raw));
            Canonical(raw) == text && forall u :: u in VERBS ==> FindWord(text, u, 0) == None
  {
    hide Normalized, RangesExpanded, FindWord, VERBS, ScanExpanded, FirstVerbEnd, ScanEnd;
    var text := RangesExpanded(Normalized(raw));
    if FirstVerbEnd(text, 0).Some? {
      VerbStays(text);
      var u :| u in VERBS && FindWord(BareExpanded(text), u, 0).Some?;
      UnknownIsNoVerb();
      FoundIsKnown(BareExpanded(text), VERBS, u);
      assert false;
    }
    forall u | u in VERBS ensures FindWord(text, u, 0) == None {
      NoVerbEnd(text, 0, u);
    }
  }

  lemma UnknownIsNoVerb()
    ensures "unknown" !in VERBS
  {}

  /** A reply above quoted text that holds no verb means what it means without that text, and adds the ids that text
      names by itself. Its keywords do not count where the reply is cut off before them. */
  lemma QuoteIsCut(v: string, ws: seq<Word>, t: Tail)
    requires v in VERBS && AllWritten(ws) && Boundary(t) && Parse(TailText(t)).verb == "unknown"
    ensures var all, own, quoted := Parse(ReplyText(v, ws, t)), Parse(v + Line(ws)), Parse(TailText(t));
            && all.verb == own.verb == v
            && all.ids == own.ids + quoted.ids
            && (Severed(ws, t) ==> all.filters == own.filters)
  {
    hide Line, FindWord, AllWritten, Boundary, TailText, Normalized, RangesExpanded, IdsFrom, SelectedBy, FiltersOf;
    hide Canonical, ReplyText, Filters, FirstOf, Severed;
    UnknownText(TailText(t));
    VerbLetters(v);
    FourVerbsAre();
    QuotedReply(v, ws, t);
    ReplyMeans(v, ws);
  }

  // ------------------------------------------------------------------ quoted lines of words

  /** What a word selects where bare numbers do not count. */
  function Mentioned(w: Word): set<string> {
    match w
    case One(x) => if x.Bare? then {} else Meant(x)
    case Range(l, g, r) =>
      if l.Id? && r.Id? && InSpan(l.n, r.n) then IdsBetween(l.n, r.n)
      else (if LeftFree(g) && !l.Bare? then Meant(l) else {}) + if RightFree(g) && !r.Bare? then Meant(r) else {}
    case Comma => {}
    case Empty => {}
    case Say(t) => {}
  }

  function MentionedBy(ws: seq<Word>): set<string> {
    if ws == [] then {} else Mentioned(ws[0]) + MentionedBy(ws[1..])
  }

  lemma MentionedOne(w: Word)
    requires Written(w)
    ensures NamedBy(AfterIdRanges(w)) == Mentioned(w)
  {
    hide IdText, Ids, IdsBetween, TailRun, TailValue, Meant, NamedEnd;
    if w.Range? && w.l.Id? && w.r.Id? && InSpan(w.l.n, w.r.n) {
      NamedIds(w.l.n, w.r.n);
    } else {
      NamedOne(w);
      if w.One? {
        EndSelected(w.x);
      } else if w.Range? {
        EndSelected(w.l);
        EndSelected(w.r);
      }
    }
  }

  lemma {:induction false} MentionedAll(ws: seq<Word>)
    requires AllWritten(ws)
    ensures NamedBy(Each(ws, AfterIdRanges)) == MentionedBy(ws)
  {
    hide Mentioned, AfterIdRanges, Named, Written;
    if ws != [] {
      MentionedAll(ws[1..]);
      MentionedOne(ws[0]);
      NamedConcat(AfterIdRanges(ws[0]), Each(ws[1..], AfterIdRanges));
    }
  }

  lemma CleanLine(ws: seq<Word>)
    requires AllShaped(ws)
    ensures Normalized(Line(ws)) == Line(ws)
  {
    hide Line, Normalized;
    LineChars(ws);
    assert Clean(Line(ws)) by {
      forall k | 0 <= k < |Line(ws)| ensures LineChar(Line(ws)[k]) {
        assert Line(ws)[k] in Line(ws);
      }
    }
    NormalizedAfter(Line(ws), "");
    NormalizedEmpty();
    assert Line(ws) + "" == Line(ws);
  }

  lemma QuotedLaid(b: string, ws: seq<Word>)
    requires QuoteStart(b)
    ensures var s, i := TailText(Quoted(b, Line(ws))), |Gap(b) + b|;
            i <= |s| && s[..i] == Gap(b) + b && LineTo(s, i, ws, |s|)
  {
    hide Line;
    var s, i := TailText(Quoted(b, Line(ws))), |Gap(b) + b|;
    assert s[i..|s|] == Line(ws);
    NothingAtEnd(s);
  }

  /** A line of words quoted below a boundary, as the parser reads it. */
  lemma QuoteOfLine(b: string, ws: seq<Word>)
    requires QuoteStart(b) && AllWritten(ws)
    ensures Quote(Quoted(b, Line(ws))) == TailText(Quoted(b, Line(Each(ws, AfterIdRanges))))
  {
    hide Line, Normalized, Sub, RecRangeEnd, ExpandRecRange, LineTo, QuoteStart, Each;
    var t := Quoted(b, Line(ws));
    WrittenIsShaped(ws);
    CleanLine(ws);
    NormalizedTail("", t);
    assert "" + TailText(t) == TailText(t);
    var s, i := TailText(t), |Gap(b) + b|;
    QuotedLaid(b, ws);
    forall k: nat | k < i ensures RecRangeEnd(s, k) == 0 {
      TailHasNoRec(t, k);
    }
    CopyRun(s, 0, i, RecRangeEnd, ExpandRecRange);
    IdRangesOfLine(s, i, ws, |s|);
    SubPastEnd(s, RecRangeEnd, ExpandRecRange);
    var line := Line(Each(ws, AfterIdRanges));
    assert s[0..i] == s[..i];
    assert line + "" == line;
    assert (Gap(b) + b) + line == Gap(b) + b + line;
  }

  lemma TailHasNoId(t: Tail, k: nat)
    requires Boundary(t) && t.Quoted? && k < |Gap(t.b) + t.b|
    ensures NoIdAt(TailText(t), k)
  {
    hide NoIdAt, RecHere, QuoteStart, TailText;
    TailRNoRec(t, k);
    NoIdWithoutRec(TailText(t), k);
  }

  lemma QuotedIds(b: string, ws: seq<Word>)
    requires QuoteStart(b) && AllShaped(ws)
    ensures IdsFrom(TailText(Quoted(b, Line(ws))), 0) == NamedBy(ws)
  {
    hide Line, IdsFrom, LineTo, QuoteStart, NoIdAt, TailText;
    var t := Quoted(b, Line(ws));
    var s, i := TailText(t), |Gap(b) + b|;
    QuotedLaid(b, ws);
    forall k: nat | k < i ensures NoIdAt(s, k) {
      TailHasNoId(t, k);
    }
    SkipRun(s, 0, i);
    LineCollected(s, i, ws, |s|);
    NoIdsAtEnd(s);
  }

  lemma VerbStartsSo(u: string)
    requires u in VERBS
    ensures |u| >= 3 && (u[0] == 'i' || u[0] == 's' || u[0] == 'm')
    ensures u[0] == 'i' ==> u[1] == 'm'
    ensures u[0] == 's' ==> u[1] == 'k'
    ensures u[0] == 'm' ==> u[1] == 'e' || (u[1] == 'o' && u[2] == 'd')
  {}

  lemma NoVerbHere(s: string, k: nat, u: string)
    requires u in VERBS && k < |s|
    requires s[k] == 'i' ==> k + 1 < |s| && s[k + 1] != 'm'
    requires s[k] == 's' ==> k + 1 < |s| && s[k + 1] != 'k'
    requires s[k] == 'm' ==> k + 1 < |s| && s[k + 1] != 'e' && (s[k + 1] == 'o' ==> k + 2 < |s| && s[k + 2] != 'd')
    ensures !At(s, k, u)
  {
    hide At, VERBS;
    VerbStartsSo(u);
    CharThere(s, k, u, 0);
    CharThere(s, k, u, 1);
    CharThere(s, k, u, 2);
  }

  /** No verb starts in a boundary. */
  lemma BoundaryHasNoVerb(t: Tail, k: nat, u: string)
    requires Boundary(t) && t.Quoted? && k < |Gap(t.b) + t.b| && u in VERBS
    ensures !At(TailText(t), k, u)
  {
    hide QuoteStart, At, TailText, VERBS;
    TailStarts(t);
    if k >= |Gap(t.b)| {
      BoundaryChar(t, k);
      BoundaryChar(t, k + 1);
      BoundaryChar(t, k + 2);
      BoundaryTurns(t.b, k - |Gap(t.b)|);
    }
    NoVerbHere(TailText(t), k, u);
  }

  /** After an i comes a comma, after an s no k, after an m a colon or an o and an n. */
  lemma BoundaryTurns(b: string, k: nat)
    requires QuoteStart(b) && k < |b|
    ensures b[k] == 'i' ==> k + 1 < |b| && b[k + 1] == ','
    ensures b[k] == 's' ==> k + 1 < |b| && b[k + 1] != 'k'
    ensures b[k] == 'm' ==> k + 1 < |b| && (b[k + 1] == ':' || (k + 2 < |b| && b[k + 1] == 'o' && b[k + 2] == 'n'))
  {}

  lemma QuotedLineSaysNoVerb(b: string, ws: seq<Word>, u: string)
    requires QuoteStart(b) && AllShaped(ws) && u in VERBS
    ensures FindWord(TailText(Quoted(b, Line(ws))), u, 0) == None
  {
    hide Line, FindWord, LineTo, QuoteStart, Foreign, AllShaped, VERBS, WordAt, At;
    var t := Quoted(b, Line(ws));
    var s, i := TailText(t), |Gap(b) + b|;
    QuotedLaid(b, ws);
    forall k: nat | k < i ensures !WordAt(s, k, u) {
      BoundaryHasNoVerb(t, k, u);
      NotAtAll(s, k, u);
    }
    FindSkip(s, u, 0, i);
    ForeignWords();
    FoundFrom(s, i, ws, |s|, u);
    NothingFound(s, u);
    NotSaid(ws, u);
  }

  lemma NotAtAll(s: string, k: nat, u: string)
    requires !At(s, k, u)
    ensures !WordAt(s, k, u)
  {}

  /** A line of words quoted below a reply: the verb stays, the ids, the ranges of ids and the uids of the line are
      added, and its numbers count for nothing. */
  lemma QuotedLine(v: string, ws: seq<Word>, b: string, below: seq<Word>)
    requires v in VERBS && AllWritten(ws) && QuoteStart(b) && AllWritten(below)
    ensures var a := Parse(ReplyText(v, ws, Quoted(b, Line(below))));
            && a.verb == v
            && a.ids == SelectedBy(ws) + MentionedBy(below)
            && (Severed(ws, Quoted(b, Line(below))) ==> a.filters == FiltersOf(v, ws))
  {
    hide Line, FindWord, TailText, IdsFrom, SelectedBy, FiltersOf, Parse, ReplyText, Quote, QuoteStart, AllWritten;
    hide Severed;
    VerbLetters(v);
    QuotedReply(v, ws, Quoted(b, Line(below)));
    QuoteOfLine(b, below);
    WordsAfterPasses(below);
    WrittenIsShaped(Each(below, AfterIdRanges));
    QuotedIds(b, Each(below, AfterIdRanges));
    MentionedAll(below);
    FourVerbsAre();
    QuotedLineSaysNoVerb(b, Each(below, AfterIdRanges), "implement");
    QuotedLineSaysNoVerb(b, Each(below, AfterIdRanges), "skip");
    QuotedLineSaysNoVerb(b, Each(below, AfterIdRanges), "modify");
  }

  predicate OnlyNumbers(ws: seq<Word>) {
    forall w :: w in ws ==> (w.One? ==> w.x.Bare?) && (w.Range? ==> w.l.Bare? && w.r.Bare?)
  }

  lemma {:induction false} NumbersMentionNothing(ws: seq<Word>)
    requires OnlyNumbers(ws)
    ensures MentionedBy(ws) == {}
  {
    if ws != [] {
      NumbersMentionNothing(ws[1..]);
      assert ws[0] in ws;
    }
  }

  /** Bare numbers below a boundary select nothing. */
  lemma QuotedNumbersSelectNothing(v: string, ws: seq<Word>, b: string, below: seq<Word>)
    requires v in VERBS && AllWritten(ws) && QuoteStart(b) && AllWritten(below) && OnlyNumbers(below)
    ensures Parse(ReplyText(v, ws, Quoted(b, Line(below)))).ids == Parse(v + Line(ws)).ids
  {
    hide Line, SelectedBy, FiltersOf, Parse, ReplyText, QuoteStart, AllWritten, OnlyNumbers;
    QuotedLine(v, ws, b, below);
    NumbersMentionNothing(below);
    VerbLetters(v);
    ReplyMeans(v, ws);
  }

  /** A line that starts with the verb implement, quoted below any reply, turns it into that verb. */
  lemma QuotedVerbWins(v: string, ws: seq<Word>, b: string, below: seq<Word>)
    requires v in VERBS && AllWritten(ws) && QuoteStart(b) && AllWritten(below)
    ensures Parse(ReplyText(v, ws, Quoted(b, " implement" + Line(below)))).verb == "implement"
  {
    hide Line, FindWord, TailText, IdsFrom, SelectedBy, FiltersOf, Parse, ReplyText, Quote, QuoteStart, AllWritten;
    hide Severed;
    VerbLetters(v);
    QuotedReply(v, ws, Quoted(b, " implement" + Line(below)));
    QuotedVerbIsFound(b, below);
  }

  lemma QuotedVerbIsFound(b: string, below: seq<Word>)
    requires QuoteStart(b) && AllWritten(below)
    ensures Says(Quote(Quoted(b, " implement" + Line(below))), "implement")
  {
    hide Line, Normalized, RangesExpanded, TailText, QuoteStart, Each, AllWritten, FindWord;
    var t := Quoted(b, " implement" + Line(below));
    VerbLineNormalized(t, below);
    VerbLineRanges(t, below);
    VerbInText(Gap(b) + b, Each(below, AfterIdRanges));
  }

  lemma VerbLineRanges(t: Tail, below: seq<Word>)
    requires Boundary(t) && t.Quoted? && AllWritten(below) && t.q == " implement" + Line(below)
    ensures RangesExpanded(TailText(t)) == Gap(t.b) + t.b + " implement" + Line(Each(below, AfterIdRanges))
  {
    hide Line, Sub, RecRangeEnd, ExpandRecRange, Boundary, Each, AllWritten, AllShaped, LineTo, TailText;
    var s, head := TailText(t), Gap(t.b) + t.b + " implement";
    VerbLineIs(t, below);
    var e := |head|;
    forall k: nat | k < e ensures RecRangeEnd(s, k) == 0 {
      VerbLineNoRec(t, below, k);
    }
    CopyRun(s, 0, e, RecRangeEnd, ExpandRecRange);
    WrittenIsShaped(below);
    IdRangesOfLine(s, e, below, |s|);
    SubPastEnd(s, RecRangeEnd, ExpandRecRange);
    var line := Line(Each(below, AfterIdRanges));
    assert line + "" == line;
    assert s[0..e] == head;
  }

  lemma VerbLineIs(t: Tail, below: seq<Word>)
    requires Boundary(t) && t.Quoted? && t.q == " implement" + Line(below)
    ensures var s, head := TailText(t), Gap(t.b) + t.b + " implement";
            |head| <= |s| && s[..|head|] == head && LineTo(s, |head|, below, |s|)
  {
    hide Line, Boundary, Unjoined;
    var s, head := TailText(t), Gap(t.b) + t.b + " implement";
    assert s == head + Line(below);
    assert s[|head|..|s|] == Line(below);
    NothingAtEnd(s);
  }

  lemma VerbLineNoRec(t: Tail, below: seq<Word>, k: nat)
    requires Boundary(t) && t.Quoted? && t.q == " implement" + Line(below) && k < |Gap(t.b) + t.b + " implement"|
    ensures RecRangeEnd(TailText(t), k) == 0
  {
    hide Line, RecRangeEnd, QuoteStart;
    var i := |Gap(t.b) + t.b|;
    if k < i {
      TailHasNoRec(t, k);
    } else {
      var s := TailText(t);
      assert s == Gap(t.b) + t.b + (" implement" + Line(below));
      assert s[k] == " implement"[k - i];
      NoIdRangeAt(s, k);
    }
  }

  lemma VerbInText(head: string, ws: seq<Word>)
    ensures FindWord(head + " implement" + Line(ws), "implement", 0).Some?
  {
    hide Line, FindWord;
    var s, i := head + " implement" + Line(ws), |head| + 1;
    assert s == (head + " ") + ("implement" + Line(ws));
    assert s[i - 1] == ' ';
    assert s[i..i + 9] == "implement";
    LineStartsApart(ws);
    if i + 9 < |s| {
      assert s[i + 9] == Line(ws)[0];
    }
    FindFinds(s, "implement", 0, i);
  }

  lemma LineStartsApart(ws: seq<Word>)
    ensures Line(ws) != "" ==> !IsWordChar(Line(ws)[0])
  {}

  lemma VerbLineNormalized(t: Tail, below: seq<Word>)
    requires Boundary(t) && t.Quoted? && AllWritten(below) && t.q == " implement" + Line(below)
    ensures Normalized(TailText(t)) == TailText(t)
  {
    hide Line, Normalized, TailText, QuoteStart;
    WrittenIsShaped(below);
    CleanLine(below);
    NormalizedAfter(" implement", Line(below));
    NormalizedTail("", t);
    assert "" + TailText(t) == TailText(t);
  }

  // ------------------------------------------------------------------ text that is not cut off

  lemma {:induction false} NothingCut(s: string, boundaries: seq<string>)
    requires forall u :: u in boundaries ==> Find(s, u, 0) == None || Find(s, u, 0) == Some(0)
    ensures CutAt(s, boundaries) == s
  {
    hide Find;
    if boundaries != [] {
      var init, u := boundaries[..|boundaries| - 1], boundaries[|boundaries| - 1];
      assert boundaries == init + [u] && u in boundaries;
      assert forall x :: x in init ==> x in boundaries;
      NothingCut(s, init);
    }
  }

  lemma {:induction false} NotFoundAt(s: string, u: string, i: nat, k: nat)
    requires Find(s, u, i) == None && i <= k
    ensures !At(s, k, u)
    decreases |s| - i
  {
    hide At;
    if i < k && i < |s| {
      NotFoundAt(s, u, i + 1, k);
    } else if i < k {
      BeyondEnd(s, u, k);
    } else if i > |s| {
      BeyondEnd(s, u, k);
    }
  }

  lemma BeyondEnd(s: string, u: string, k: nat)
    requires k > |s|
    ensures !At(s, k, u)
  {}

  lemma BoundaryNotFound(ws: seq<Word>, t: Tail, u: string)
    requires AllShaped(ws) && Boundary(t) && IsBoundary(u) && Find(TailText(t), u, 0) == None
    ensures Find(Line(ws) + TailText(t), u, 0) == None
  {
    hide Line, Find, At, TailText, IsBoundary, Boundary, AllShaped, Stops;
    var s, z := Line(ws) + TailText(t), |Line(ws)|;
    assert s[0..z] == Line(ws) && s[z..] == TailText(t);
    TailStops(s, z, t);
    if Find(s, u, 0).Some? {
      FindIsAt(s, u, 0);
      var k := Find(s, u, 0).value;
      if k < z {
        NoneEarlier(s, 0, ws, z, t, u, k);
      } else {
        AtShift(Line(ws), TailText(t), k - z, u);
        NotFoundAt(TailText(t), u, 0, k - z);
      }
      assert false;
    }
  }

  lemma LineNotCut(ws: seq<Word>, t: Tail)
    requires AllShaped(ws) && Boundary(t) && !Severed(ws, t)
    requires forall u :: CutsFilters(u) && u != t.b ==> Find(TailText(t), u, 0) == None
    ensures CutAt(Line(ws) + TailText(t), QUOTE_BOUNDARIES) == Line(ws) + TailText(t)
  {
    hide Line, Find, At, TailText, CutAt, IsBoundary, QuoteStart, QUOTE_BOUNDARIES, AllShaped;
    var s := Line(ws) + TailText(t);
    forall u | u in QUOTE_BOUNDARIES ensures Find(s, u, 0) == None || Find(s, u, 0) == Some(0) {
      BoundariesAre();
      BoundaryCuts(u);
      if u == t.b {
        EmptyLine();
        assert s == TailText(t);
        assert s[0..] == s;
        TailAt(s, 0, t);
        FindHere(s, u, 0);
      } else {
        BoundaryNotFound(ws, t, u);
      }
    }
    NothingCut(s, QUOTE_BOUNDARIES);
  }

  lemma EmptyLine()
    ensures Line([]) == ""
  {}

  lemma BoundaryCuts(u: string)
    requires u in QUOTE_BOUNDARIES
    ensures CutsFilters(u)
  {}

  /** Where the filter scan is not cut off, at a boundary of a dated line or of an attribution, or right after the verb,
      the keywords in the quoted text count like those of the reply. */
  lemma UncutQuote(v: string, ws: seq<Word>, t: Tail, k: string)
    requires (v == "implement" || v == "skip") && AllWritten(ws) && Boundary(t) && !Severed(ws, t) && k in KEYWORDS
    requires forall u :: CutsFilters(u) && u != t.b ==> Find(Quote(t), u, 0) == None
    ensures var a := Parse(ReplyText(v, ws, t));
            a.verb == v ==> (k in a.filters <==> Say(k) in ws || Says(Quote(t), k))
  {
    hide Line, FindWord, TailText, IdsFrom, Quote, QuoteStart, AllWritten, AllShaped, CutAt, KEYWORDS, VERBS, Find;
    hide Canonical, Final, WordsIn, QUOTE_BOUNDARIES, TailAfter, FirstOf, Foreign, Severed, Take;
    FourVerbsAre();
    CanonicalIs(v, ws, t);
    QuoteIs(t);
    var ws', u := Final(ws), TailAfter(t);
    var s := BodyOf(v, ws', u);
    VerbFound(s, v, ws', u);
    assert s[0 + |v|..] == Line(ws') + TailText(u);
    SeveredOnly(ws, t);
    LineNotCut(ws', u);
    UncutHeard(ws', u, k);
    FinalSays(ws, k);
    KeywordsIn(Line(ws') + TailText(u), KEYWORDS);
  }

  lemma QuoteIs(t: Tail)
    ensures Quote(t) == RangesExpanded(Normalized(TailText(t)))
  {}

  lemma SeveredOnly(ws: seq<Word>, t: Tail)
    requires !Severed(ws, t)
    ensures !Severed(Final(ws), TailAfter(t)) && TailAfter(t).Quoted? && TailAfter(t).b == t.b
  {
    if ws == [] {
      FinalNil();
    }
  }

  lemma UncutHeard(ws: seq<Word>, t: Tail, k: string)
    requires AllShaped(ws) && Boundary(t) && k in KEYWORDS
    ensures FindWord(Line(ws) + TailText(t), k, 0).Some? <==> Say(k) in ws || FindWord(TailText(t), k, 0).Some?
  {
    hide Line, FindWord, TailText, Boundary, AllShaped, Stops, Foreign, KEYWORDS;
    var s, z := Line(ws) + TailText(t), |Line(ws)|;
    assert s[0..z] == Line(ws) && s[z..] == TailText(t);
    TailStops(s, z, t);
    ForeignWords();
    ForeignLetters(k);
    FoundFrom(s, 0, ws, z, k);
    FoundInTail(s, z, t, k);
  }

  lemma {:induction false} KeywordsIn(s: string, words: seq<string>)
    ensures forall k :: k in WordsIn(s, words) <==> k in words && FindWord(s, k, 0).Some?
  {
    hide FindWord;
    if words != [] {
      KeywordsIn(s, words[..|words| - 1]);
      assert words == words[..|words| - 1] + [words[|words| - 1]];
    }
  }

  // ------------------------------------------------------------------ capitals and tags

  predicate SameButCase(a: string, b: string) {
    && |a| == |b|
    && forall i :: 0 <= i < |a| ==> a[i] == b[i] || ('A' <= a[i] <= 'Z' && b[i] == a[i] + 32 as char)
  }

  lemma {:induction false} SameClose(a: string, b: string, i: nat)
    requires SameButCase(a, b)
    ensures CloseFrom(a, i) == CloseFrom(b, i)
    decreases |a| - i
  {
    if i < |a| {
      SameClose(a, b, i + 1);
    }
  }

  lemma LowerConcat(a: string, b: string)
    ensures Lower(a + b) == Lower(a) + Lower(b)
  {}

  lemma SameTagEnd(a: string, b: string, i: nat)
    requires SameButCase(a, b) && i < |a|
    ensures |a| == |b| && TagEnd(a, i) == TagEnd(b, i) && TagGap(a, i) == TagGap(b, i)
    ensures TagEnd(a, i) == 0 || i < TagEnd(a, i) <= |a|
    ensures Lower([a[i]]) == Lower([b[i]])
  {
    SameClose(a, b, i + 1);
    CloseAfter(a, i + 1);
  }

  lemma {:induction false} SameTags(a: string, b: string, i: nat)
    requires SameButCase(a, b)
    ensures Lower(Sub(a, i, TagEnd, TagGap)) == Lower(Sub(b, i, TagEnd, TagGap))
    decreases |a| - i
  {
    hide Lower, Sub, TagEnd, TagGap, SameButCase;
    SubStep(a, i, TagEnd, TagGap);
    SubStep(b, i, TagEnd, TagGap);
    if i < |a| {
      SameTagEnd(a, b, i);
      var e := if TagEnd(a, i) > 0 then TagEnd(a, i) else i + 1;
      SameTags(a, b, e);
      var x, y := Sub(a, e, TagEnd, TagGap), Sub(b, e, TagEnd, TagGap);
      LowerConcat(TagGap(a, i), x);
      LowerConcat(TagGap(b, i), y);
      LowerConcat([a[i]], x);
      LowerConcat([b[i]], y);
    } else {
      SameLength(a, b);
    }
  }

  lemma SameLength(a: string, b: string)
    requires SameButCase(a, b)
    ensures |a| == |b|
  {}

  /** Replies that differ in case only are read the same. */
  lemma CaseDoesNotMatter(a: string, b: string)
    requires SameButCase(a, b)
    ensures Parse(a) == Parse(b)
  {
    hide FirstOf, Filters, IdsFrom, RangesExpanded, BareExpanded, Sub, SameButCase;
    SameTags(a, b, 0);
  }

  lemma {:induction false} CloseIs(t: string, q: string, i: nat)
    requires '>' !in t && i <= |t|
    ensures CloseFrom(t + ">" + q, i) == |t| + 1
    decreases |t| - i
  {
    if i < |t| {
      assert (t + ">" + q)[i] == t[i] && t[i] in t;
      CloseIs(t, q, i + 1);
    }
  }

  /** A tag is read as a space. */
  lemma TagsAreSpaces(p: string, t: string, q: string)
    requires '<' !in p && t != "" && '>' !in t
    ensures Parse(p + ("<" + t + ">" + q)) == Parse(p + (" " + q))
  {
    hide FirstOf, Filters, IdsFrom, RangesExpanded, BareExpanded, Sub;
    TagGone(p, t, q);
  }

  lemma TagGone(p: string, t: string, q: string)
    requires '<' !in p && t != "" && '>' !in t
    ensures Sub(p + ("<" + t + ">" + q), 0, TagEnd, TagGap) == Sub(p + (" " + q), 0, TagEnd, TagGap)
  {
    hide TagEnd, Sub;
    TagFirst(t, q);
    PlainFirst(q);
    AfterPlain(p, "<" + t + ">" + q);
    AfterPlain(p, " " + q);
  }

  lemma AfterPlain(p: string, q: string)
    requires '<' !in p
    ensures Sub(p + q, 0, TagEnd, TagGap) == p + Sub(q, 0, TagEnd, TagGap)
  {
    hide TagEnd, Sub;
    var s := p + q;
    forall k: nat | k < |p| ensures TagEnd(s, k) == 0 {
      assert s[k] == p[k] && p[k] in p;
      NoTagAt(s, k);
    }
    CopyRun(s, 0, |p|, TagEnd, TagGap);
    assert s[0..|p|] == p;
    TagsShift(p, q, 0);
  }

  lemma TagFirst(t: string, q: string)
    requires t != "" && '>' !in t
    ensures Sub("<" + t + ">" + q, 0, TagEnd, TagGap) == " " + Sub(q, 0, TagEnd, TagGap)
  {
    var s, tag := "<" + t + ">" + q, "<" + t + ">";
    assert s == "<" + (t + ">" + q);
    CloseIs(t, q, 0);
    CloseShift("<", t + ">" + q, 0);
    assert t[0] in t;
    assert TagEnd(s, 0) == |tag|;
    assert s == tag + q;
    TagsShift(tag, q, 0);
  }

  lemma PlainFirst(q: string)
    ensures Sub(" " + q, 0, TagEnd, TagGap) == " " + Sub(q, 0, TagEnd, TagGap)
  {
    AfterPlain(" ", q);
  }

  // ------------------------------------------------------------------ notes

  /** The notes are the first five hundred characters of the text as the last pass leaves it: the words of the reply
      as they end up, and the quoted text. */
  lemma ReplyNotes(v: string, ws: seq<Word>, t: Tail)
    requires v in VERBS && AllWritten(ws) && Boundary(t)
    ensures var notes, text := Parse(ReplyText(v, ws, t)).notes, v + (Line(Final(ws)) + Quote(t));
            notes <= text && |notes| == if |text| < 500 then |text| else 500
  {
    hide Line, FindWord, TailText, IdsFrom, Quote, AllWritten, FirstOf, Filters, Canonical, Final, TailAfter, Boundary;
    CanonicalIs(v, ws, t);
    QuoteIs(t);
  }
}
