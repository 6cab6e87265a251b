/** The parser on a whole email body: a verb, a line of words, and possibly a quoted email below them. */
module ReplyBody {
  import opened Sequences
  import opened Decimals
  import opened ReplyParser
  import opened ReplyWords
  import opened ReplyPasses

  /** Those of `words` that are said in the line, in the order of `words`. */
  function Listed(words: seq<string>, ws: seq<Word>): (r: seq<string>)
    ensures forall t :: t in r <==> t in words && Say(t) in ws
  {
    if words == [] then []
    else
      var rest, t := Listed(words[..|words| - 1], ws), words[|words| - 1];
      if Say(t) in ws then rest + [t] else rest
  }

  // ------------------------------------------------------------------ the characters of a reply

  predicate CalmChar(c: char) {
    || IsHex(c) || c == ' ' || c == ',' || c == '-' || c == '\U{2013}' || c == '\U{2014}'
    || c == 'r' || c == 't' || c == 'o' || c == 'h' || c == 'u' || c == 'g'
  }

  /** The characters of selectors and separators, with u after r or o only. */
  predicate Calm(s: string) {
    && (forall c :: c in s ==> CalmChar(c))
    && forall i :: 0 <= i < |s| && s[i] == 'u' ==> i > 0 && (s[i - 1] == 'r' || s[i - 1] == 'o')
  }

  lemma CalmConcat(a: string, b: string)
    requires Calm(a) && Calm(b)
    ensures Calm(a + b)
  {
    var s := a + b;
    forall i | 0 <= i < |s| && s[i] == 'u' ensures i > 0 && (s[i - 1] == 'r' || s[i - 1] == 'o') {
      if i >= |a| {
        assert b[i - |a|] == 'u';
      }
    }
  }

  lemma CalmDigits(t: string)
    requires AllDigits(t)
    ensures Calm(t)
  {}

  lemma CalmHex(h: string)
    requires AllHex(h)
    ensures Calm(h)
  {
    forall i | 0 <= i < |h| ensures h[i] != 'u' {
      assert h[i] in h;
    }
  }

  lemma CalmEnd(x: End)
    requires ShapedEnd(x)
    ensures Calm(EndText(x))
  {
    match x
    case Id(n) =>
      Pad3Value(n);
      CalmDigits(Pad3(n));
      assert Calm("rec-");
      CalmConcat("rec-", Pad3(n));
    case Bare(n) =>
      NumeralShape(n);
      CalmDigits(Numeral(n));
    case Uid(h) =>
      assert Calm("r-");
      CalmHex(h);
      CalmConcat("r-", h);
  }

  lemma CalmGlue(g: Glue)
    ensures Calm(GlueText(g))
  {
    assert Calm(Spaces(g.before)) && Calm(Spaces(g.after));
    assert Calm(SepText(g.sep));
    CalmConcat(SepText(g.sep), Spaces(g.after));
    CalmConcat(Spaces(g.before), SepText(g.sep) + Spaces(g.after));
  }

  lemma CalmWord(w: Word)
    requires Shaped(w) && !w.Say?
    ensures Calm(Text(w))
  {
    hide Calm, EndText, GlueText;
    CalmEmpty();
    match w
    case One(x) => CalmEnd(x);
    case Range(l, g, r) =>
      CalmEnd(l);
      CalmEnd(r);
      CalmGlue(g);
      CalmConcat(GlueText(g), EndText(r));
      CalmConcat(EndText(l), GlueText(g) + EndText(r));
    case _ =>
  }

  lemma CalmEmpty()
    ensures Calm("")
  {}

  /** The characters of a whole reply. */
  predicate LineChar(c: char) {
    IsLetter(c) || IsDigit(c) || c == ' ' || c == ',' || c == '-' || c == '\U{2013}' || c == '\U{2014}'
  }

  lemma WordChars(w: Word)
    requires Shaped(w)
    ensures forall c :: c in Text(w) ==> LineChar(c)
  {
    if !w.Say? {
      hide Text;
      CalmWord(w);
    }
  }

  lemma {:induction false} LineChars(ws: seq<Word>)
    requires AllShaped(ws)
    ensures forall c :: c in Line(ws) ==> LineChar(c)
  {
    hide Text;
    if ws != [] {
      WordChars(ws[0]);
      LineChars(ws[1..]);
      forall c | c in Line(ws) ensures LineChar(c) {
        assert c == Lead(ws[0]) || c in Text(ws[0]) || c in Line(ws[1..]);
      }
    }
  }

  lemma VerbLetters(v: string)
    requires v in VERBS
    ensures Letters(v) && v != ""
    ensures v == "implement" || v == "skip" || v == "modify" || v == "merge"
  {}

  // ------------------------------------------------------------------ which words are found

  /** A word of letters that no selector and no separator can hold. */
  predicate Foreign(t: string) {
    && t != "" && Letters(t)
    && ((exists i :: 0 <= i < |t| && !CalmChar(t[i]))
        || (exists i :: 0 < i < |t| && t[i] == 'u' && t[i - 1] != 'r' && t[i - 1] != 'o'))
  }

  lemma ForeignAt(t: string, i: nat)
    requires i < |t| && Letters(t)
    requires !CalmChar(t[i]) || (i > 0 && t[i] == 'u' && t[i - 1] != 'r' && t[i - 1] != 'o')
    ensures Foreign(t)
  {}

  lemma ForeignVerbs()
    ensures forall t :: t in VERBS ==> Foreign(t)
  {
    hide Foreign;
    ForeignAt("implement", 1);
    ForeignAt("skip", 0);
    ForeignAt("modify", 0);
    ForeignAt("merge", 0);
  }

  lemma ForeignKeywords()
    ensures forall t :: t in KEYWORDS ==> Foreign(t)
  {
    hide Foreign;
    ForeignAt("all", 1);
    ForeignAt("auto", 1);
    ForeignAt("review", 2);
    ForeignAt("experimental", 1);
    ForeignAt("critical", 2);
    ForeignAt("high", 1);
    ForeignAt("medium", 0);
    ForeignAt("low", 0);
  }

  lemma ForeignWeekdays()
    ensures forall t :: t in WEEKDAYS ==> Foreign(t)
  {
    hide Foreign;
    ForeignAt("mon", 0);
    ForeignAt("tue", 1);
    ForeignAt("wed", 0);
    ForeignAt("thu", 2);
    ForeignAt("fri", 2);
    ForeignAt("sat", 0);
    ForeignAt("sun", 0);
  }

  /** The words the parser looks for are such words. */
  lemma ForeignWords()
    ensures forall t :: t in VERBS || t in KEYWORDS || t in WEEKDAYS ==> Foreign(t)
  {
    hide Foreign, VERBS, KEYWORDS, WEEKDAYS;
    ForeignVerbs();
    ForeignKeywords();
    ForeignWeekdays();
  }

  lemma NotInCalm(s: string, j: nat, e: nat, k: nat, t: string)
    requires j <= k < e <= |s| && Calm(s[j..e]) && Edge(s, e) && Foreign(t)
    ensures !At(s, k, t)
  {
    if At(s, k, t) {
      var part := s[j..e];
      forall i | 0 <= i < |t| ensures s[k + i] == t[i] && t[i] in t {
        AtChar(s, k, t, i);
      }
      assert k + |t| <= e;
      assert forall i :: 0 <= i < |t| ==> part[k - j + i] == t[i];
    }
  }

  /** Among the positions of a run of letters only the first one reads a word, and only the whole run. */
  lemma TokenAt(s: string, j: nat, x: string, t: string)
    requires At(s, j, x) && x != "" && Letters(x) && Edge(s, j + |x|) && WordStart(s, j)
    requires t != "" && Letters(t)
    ensures forall k: nat :: j <= k < j + |x| ==> (WordAt(s, k, t) <==> k == j && t == x)
  {
    SayReads(s, j, x);
    forall k: nat | j <= k < j + |x| ensures WordAt(s, k, t) <==> k == j && t == x {
      if k > j {
        assert IsWordChar(s[k - 1]);
      } else if At(s, j, t) && t != x {
        ShorterPrefix(s, j, x, t);
        assert IsLetter(s[j + |t|]);
      }
    }
  }

  /** Of a line's words exactly the equal one reads as t. */
  lemma WordReads(s: string, i: nat, e: nat, w: Word, t: string)
    requires WordHere(s, i, e, w) && Foreign(t)
    ensures forall k: nat :: i <= k < e ==> (WordAt(s, k, t) <==> w == Say(t) && k == i + 1)
  {
    hide Calm, Unjoined, Shaped, Foreign, At, Text, WordStart, WordEnd;
    WordEdge(s, i, e, w);
    ForeignLetters(t);
    LeadIsNoLetter(s, i, w);
    NoLetterAt(s, i, t);
    if w.Say? {
      SayShape(w);
      SayStarts(s, i);
      TokenAt(s, i + 1, w.t, t);
    } else {
      CalmWord(w);
      TextHere(s, i + 1, Text(w));
      forall k: nat | i + 1 <= k < e ensures !At(s, k, t) {
        NotInCalm(s, i + 1, e, k, t);
      }
    }
  }

  lemma LeadIsNoLetter(s: string, i: nat, w: Word)
    requires i < |s| && s[i] == Lead(w)
    ensures !IsLetter(s[i])
  {}

  lemma SayStarts(s: string, i: nat)
    requires i < |s| && (s[i] == ' ' || s[i] == ',')
    ensures WordStart(s, i + 1)
  {}

  lemma TextHere(s: string, j: nat, t: string)
    requires At(s, j, t)
    ensures j + |t| <= |s| && s[j..j + |t|] == t
  {}

  lemma ForeignLetters(t: string)
    requires Foreign(t)
    ensures t != "" && Letters(t)
  {}

  lemma SayShape(w: Word)
    requires w.Say? && Shaped(w)
    ensures w.t != "" && Letters(w.t) && Text(w) == w.t
  {}

  lemma NoLetterAt(s: string, i: nat, t: string)
    requires i < |s| && !IsLetter(s[i]) && t != "" && Letters(t)
    ensures !At(s, i, t)
  {
    assert t[0] in t;
    FirstChar(s, i, t);
  }

  lemma {:induction false} FindSkip(s: string, t: string, i: nat, j: nat)
    requires i <= j <= |s| && forall k: nat :: i <= k < j ==> !WordAt(s, k, t)
    ensures FindWord(s, t, i) == FindWord(s, t, j)
    decreases j - i
  {
    hide WordAt;
    if i < j {
      FindSkip(s, t, i + 1, j);
    }
  }

  lemma {:induction false} FindFinds(s: string, t: string, i: nat, k: nat)
    requires i <= k < |s| && WordAt(s, k, t)
    ensures FindWord(s, t, i).Some?
    decreases k - i
  {
    hide WordAt;
    if i < k && !WordAt(s, i, t) {
      FindFinds(s, t, i + 1, k);
    }
  }

  /** A word stands in a line exactly when it is said there. */
  lemma {:induction false} Heard(s: string, i: nat, ws: seq<Word>, z: nat, t: string)
    requires LineTo(s, i, ws, z) && AllShaped(ws) && Foreign(t)
    ensures (exists k: nat :: i <= k < z && WordAt(s, k, t)) <==> Say(t) in ws
    decreases |ws|
  {
    hide Text, Foreign, WordAt, Shaped, LineTo, WordHere;
    if ws == [] {
      EndOfLine(s, i, z);
    } else {
      var e := EnterWord(s, i, ws, z);
      WordReads(s, i, e, ws[0], t);
      Heard(s, e, ws[1..], z, t);
      LineEnds(s, e, ws[1..], z);
      assert ws == [ws[0]] + ws[1..];
      if ws[0] == Say(t) {
        SayNotEmpty(s, i, e, t);
        assert WordAt(s, i + 1, t);
      }
    }
  }

  lemma SayNotEmpty(s: string, i: nat, e: nat, t: string)
    requires WordHere(s, i, e, Say(t))
    ensures i + 1 < e
  {}

  lemma LineEnds(s: string, i: nat, ws: seq<Word>, z: nat)
    requires LineTo(s, i, ws, z)
    ensures i <= z <= |s|
  {}

  /** So it is found from the start of the line exactly then, or when it stands after the line. */
  lemma FoundFrom(s: string, i: nat, ws: seq<Word>, z: nat, t: string)
    requires LineTo(s, i, ws, z) && AllShaped(ws) && Foreign(t)
    ensures FindWord(s, t, i).Some? <==> Say(t) in ws || FindWord(s, t, z).Some?
  {
    hide Foreign, WordAt, Shaped, LineTo, FindWord;
    Heard(s, i, ws, z, t);
    LineEnds(s, i, ws, z);
    if k: nat :| i <= k < z && WordAt(s, k, t) {
      FindFinds(s, t, i, k);
    } else {
      FindSkip(s, t, i, z);
    }
  }

  lemma {:induction false} KeywordsHeard(s: string, i: nat, ws: seq<Word>, z: nat, words: seq<string>)
    requires LineTo(s, i, ws, z) && AllShaped(ws) && forall t :: t in words ==> Foreign(t)
    requires forall t :: t in words ==> FindWord(s, t, 0) == FindWord(s, t, i) && FindWord(s, t, z) == None
    ensures WordsIn(s, words) == Listed(words, ws)
  {
    hide FindWord, Foreign, LineTo, AllShaped;
    if words != [] {
      var t := words[|words| - 1];
      assert t in words;
      KeywordsHeard(s, i, ws, z, words[..|words| - 1]);
      FoundFrom(s, i, ws, z, t);
    }
  }

  // ------------------------------------------------------------------ quoted text

  /** What stands below a reply: nothing, or a boundary, on a new line, and any text. */
  datatype Tail = NoTail | Quoted(b: string, q: string)

  function Gap(b: string): string { if b != "" && b[0] == '\n' then "" else "\n" }

  function GapOf(t: Tail): string { if t.NoTail? then "" else Gap(t.b) }

  function TailText(t: Tail): string {
    match t
    case NoTail => ""
    case Quoted(b, q) => Gap(b) + b + q
  }

  /** What starts a quoted email: a signature, a quote mark, a rule, a header line or a dated line. */
  predicate QuoteStart(b: string) {
    || b == "\n\n--" || b == "\n\n>" || b == "\n----" || b == "from:" || b == "sent:" || b == "wrote:"
    || exists d :: d in WEEKDAYS && b == "on " + d + ", "
  }

  predicate Boundary(t: Tail) { t.Quoted? ==> QuoteStart(t.b) }

  lemma QuoteStartIsBoundary(b: string)
    requires QuoteStart(b)
    ensures b in REPLY_BOUNDARIES
  {
    assert REPLY_BOUNDARIES[..3] == ["\n\n--", "\n\n>", "\n----"];
    assert REPLY_BOUNDARIES[3..6] == ["from:", "sent:", "wrote:"];
    if d :| d in WEEKDAYS && b == "on " + d + ", " {
      var n :| 0 <= n < |WEEKDAYS| && WEEKDAYS[n] == d;
      DatedLine(n);
      assert b == REPLY_BOUNDARIES[6 + n];
    } else {
      assert b in REPLY_BOUNDARIES[..3] || b in REPLY_BOUNDARIES[3..6];
    }
  }

  lemma DatedLine(n: nat)
    requires n < 7
    ensures REPLY_BOUNDARIES[6 + n] == "on " + WEEKDAYS[n] + ", "
  {}

  function BodyOf(v: string, ws: seq<Word>, t: Tail): string { v + (Line(ws) + TailText(t)) }

  predicate Body(s: string, v: string, ws: seq<Word>, t: Tail) {
    v in VERBS && AllShaped(ws) && Boundary(t) && s == BodyOf(v, ws, t)
  }

  /** Boundaries come in two shapes: two line breaks or a line break and dashes, or text on one line that ends in a
      colon or holds a weekday between a space and a comma. */
  predicate LineBreak(u: string) { |u| >= 3 && u[0] == '\n' && (u[1] == '\n' || u[1] == '-') }

  ghost predicate OneLine(u: string) {
    u != "" && '\n' !in u && (':' in u || exists d :: d in WEEKDAYS && u == "on " + d + ", ")
  }

  ghost predicate IsBoundary(u: string) { LineBreak(u) || OneLine(u) }

  lemma Weekday(d: string, u: string)
    requires d in WEEKDAYS && u == "on " + d + ", "
    ensures IsBoundary(u)
  {}

  lemma ColonLine(u: string, i: nat)
    requires i < |u| && u[i] == ':' && '\n' !in u
    ensures IsBoundary(u)
  {}

  lemma BoundariesAre()
    ensures forall u :: u in REPLY_BOUNDARIES ==> IsBoundary(u)
    ensures forall u :: u in QUOTE_BOUNDARIES ==> u in REPLY_BOUNDARIES
  {
    hide IsBoundary;
    assert IsBoundary("\n\n--") && IsBoundary("\n\n>") && IsBoundary("\n----") by { LineBreaks(); }
    ColonLine("from:", 4);
    ColonLine("sent:", 4);
    ColonLine("wrote:", 5);
    WeekdaysAreBoundaries();
  }

  lemma LineBreaks()
    ensures IsBoundary("\n\n--") && IsBoundary("\n\n>") && IsBoundary("\n----")
  {}

  lemma WeekdaysAreBoundaries()
    ensures IsBoundary("on mon, ") && IsBoundary("on tue, ") && IsBoundary("on wed, ") && IsBoundary("on thu, ")
    ensures IsBoundary("on fri, ") && IsBoundary("on sat, ") && IsBoundary("on sun, ")
  {
    hide IsBoundary;
    assert WEEKDAYS[0] == "mon" && WEEKDAYS[1] == "tue" && WEEKDAYS[2] == "wed" && WEEKDAYS[3] == "thu";
    assert WEEKDAYS[4] == "fri" && WEEKDAYS[5] == "sat" && WEEKDAYS[6] == "sun";
    Weekday("mon", "on mon, ");
    Weekday("tue", "on tue, ");
    Weekday("wed", "on wed, ");
    Weekday("thu", "on thu, ");
    Weekday("fri", "on fri, ");
    Weekday("sat", "on sat, ");
    Weekday("sun", "on sun, ");
  }

  /** The character a boundary starts with, if it does not start a line itself, and none holds an id. */
  lemma BoundaryShape(b: string)
    requires QuoteStart(b)
    ensures |b| >= 3 && (b[0] == '\n' || b[0] == 'f' || b[0] == 's' || b[0] == 'w' || b[0] == 'o')
    ensures b[0] == '\n' ==> b == "\n\n--" || b == "\n\n>" || b == "\n----"
    ensures forall k :: 0 <= k < |b| && b[k] == 'r' ==> k + 1 < |b| && (b[k + 1] == 'o' || b[k + 1] == 'i')
    ensures forall k :: 0 <= k < |b| ==> b[k] != '<' && !('A' <= b[k] <= 'Z')
  {}

  lemma TailStarts(t: Tail)
    requires Boundary(t) && t.Quoted?
    ensures TailText(t) != "" && TailText(t)[0] == '\n'
    ensures |GapOf(t)| + |t.b| <= |TailText(t)|
    ensures TailText(t)[..|GapOf(t)|] == GapOf(t) && TailText(t)[|GapOf(t)|..] == t.b + t.q
    ensures forall k :: 0 <= k < |t.b| ==> TailText(t)[|GapOf(t)| + k] == t.b[k]
  {
    BoundaryShape(t.b);
    assert TailText(t) == GapOf(t) + (t.b + t.q);
  }

  /** Where s goes on with the tail from z. */
  predicate TailFrom(s: string, z: nat, t: Tail) { z <= |s| && s[z..] == TailText(t) }

  lemma TailChar(s: string, z: nat, t: Tail, k: nat)
    requires TailFrom(s, z, t) && k < |TailText(t)|
    ensures z + k < |s| && s[z + k] == TailText(t)[k]
  {
    assert s[z..][k] == s[z + k];
  }

  lemma NewLineUnjoined(s: string, z: nat)
    requires z + 1 < |s| && s[z] == '\n' && Unjoined(s, z + 1)
    ensures Unjoined(s, z)
  {}

  /** Two dashes join nothing. */
  lemma DashesUnjoined(s: string, p: nat)
    requires p + 1 < |s| && s[p] == '-' && s[p + 1] == '-'
    ensures Unjoined(s, p)
  {
    hide At;
    assert At(s, p, "-") by { DashAt(s, p); }
  }

  lemma DashAt(s: string, p: nat)
    requires p < |s| && s[p] == '-'
    ensures At(s, p, "-")
  {
    assert s[p..p + 1] == ['-'];
  }

  lemma QuoteMarkUnjoined(s: string, p: nat)
    requires p < |s| && s[p] == '>'
    ensures Unjoined(s, p)
  {
    FirstChar(s, p, "-");
    FirstChar(s, p, "\U{2013}");
    FirstChar(s, p, "\U{2014}");
    FirstChar(s, p, "to");
    FirstChar(s, p, "thru");
    FirstChar(s, p, "through");
  }

  /** No range runs on into quoted text. */
  lemma TailStops(s: string, z: nat, t: Tail)
    requires TailFrom(s, z, t) && Boundary(t)
    ensures Stops(s, z)
  {
    hide Unjoined, TailText, REPLY_BOUNDARIES;
    if t.NoTail? {
      assert TailText(t) == "" by { NoTailText(); }
      NothingAtEnd(s);
    } else {
      TailStarts(t);
      BoundaryShape(t.b);
      var g := |GapOf(t)|;
      TailChar(s, z, t, 0);
      TailChar(s, z, t, g);
      TailChar(s, z, t, g + 1);
      TailChar(s, z, t, g + 2);
      if t.b[0] != '\n' {
        NotJoined(s, z + 1);
      } else if t.b == "\n----" {
        DashesUnjoined(s, z + 1);
      } else {
        if t.b == "\n\n--" {
          TailChar(s, z, t, g + 3);
          DashesUnjoined(s, z + 2);
        } else {
          QuoteMarkUnjoined(s, z + 2);
        }
        NewLineUnjoined(s, z + 1);
      }
      NewLineUnjoined(s, z);
    }
  }

  lemma NoTailText()
    ensures TailText(NoTail) == ""
  {}

  /** The layout of a body. */
  lemma BodyLaid(s: string, v: string, ws: seq<Word>, t: Tail)
    requires Body(s, v, ws, t)
    ensures var z := |v| + |Line(ws)|;
            && z <= |s| && s[..|v|] == v && LineTo(s, |v|, ws, z) && TailFrom(s, z, t) && Stops(s, |v|)
            && WordAt(s, 0, v) && |v| > 0
    ensures forall k :: 0 <= k < |v| ==> s[k] == v[k]
  {
    hide Line, TailText, Stops, Unjoined;
    var l := Line(ws);
    var z := |v| + |l|;
    assert s[|v|..] == l + TailText(t);
    assert s[|v|..z] == s[|v|..][..|l|] == l;
    assert s[z..] == s[|v|..][|l|..] == TailText(t);
    TailStops(s, z, t);
    LineStops(s, |v|, ws, z);
    assert s[..|v|] == v;
    VerbLetters(v);
    StopsEdge(s, |v|);
  }

  lemma StopsEdge(s: string, e: nat)
    requires e <= |s| && Stops(s, e)
    ensures WordEnd(s, e) && Edge(s, e)
  {}

  // ------------------------------------------------------------------ the verb

  lemma VerbHasNoRec(s: string, v: string, ws: seq<Word>, t: Tail)
    requires Body(s, v, ws, t)
    ensures forall k: nat :: k < |v| ==> RecRangeEnd(s, k) == 0 && NoIdAt(s, k)
  {
    hide Line, RecRangeEnd, NoIdAt, LineTo, Stops, BodyOf;
    BodyLaid(s, v, ws, t);
    VerbLetters(v);
    forall k: nat | k < |v| ensures RecRangeEnd(s, k) == 0 && NoIdAt(s, k) {
      if v == "merge" && k == 2 {
        assert s[2] == 'r' && s[3] == 'g';
      } else {
        assert s[k] == v[k] && v[k] != 'r';
      }
      NoIdRangeAt(s, k);
      NoIdWithoutRec(s, k);
    }
  }

  lemma VerbFound(s: string, v: string, ws: seq<Word>, t: Tail)
    requires Body(s, v, ws, t)
    ensures FirstVerbEnd(s, 0) == Some(|v|)
    ensures FindWord(s, v, 0) == Some(0)
  {
    hide Line, WordStart, WordEnd, LineTo, Stops, BodyOf;
    BodyLaid(s, v, ws, t);
    VerbLetters(v);
    FirstChar(s, 0, "implement");
    FirstChar(s, 0, "skip");
    FirstChar(s, 0, "modify");
    SecondChar(s, 0, "modify");
    SecondChar(s, 0, "merge");
  }

  lemma VerbStarts(s: string, v: string)
    requires WordAt(s, 0, v)
    ensures At(s, 0, v) && WordStart(s, 0)
  {}

  lemma SaidIsSayWord(ws: seq<Word>, t: string)
    requires AllShaped(ws) && Say(t) in ws
    ensures SayWord(t)
  {
    hide SayWord;
    assert Shaped(Say(t));
  }

  lemma NotSaid(ws: seq<Word>, t: string)
    requires AllShaped(ws) && (t in VERBS || t in WEEKDAYS)
    ensures Say(t) !in ws
  {
    if Say(t) in ws {
      SaidIsSayWord(ws, t);
    }
  }

  /** Another verb is found in a body exactly when it stands in the tail. */
  lemma OtherWord(s: string, v: string, ws: seq<Word>, t: Tail, u: string)
    requires Body(s, v, ws, t) && u in VERBS && u != v
    ensures FindWord(s, u, 0).Some? <==> FindWord(s, u, |v| + |Line(ws)|).Some?
  {
    hide Line, FindWord, WordAt, Foreign, Shaped, BodyOf, LineTo, Stops, At, Edge, Unjoined, TailFrom, QuoteStart;
    BodyLaid(s, v, ws, t);
    VerbLetters(v);
    ForeignWords();
    ForeignLetters(u);
    VerbStarts(s, v);
    StopsEdge(s, |v|);
    TokenAt(s, 0, v, u);
    FindSkip(s, u, 0, |v|);
    FoundFrom(s, |v|, ws, |v| + |Line(ws)|, u);
    NotSaid(ws, u);
  }

  // ------------------------------------------------------------------ what a tail looks like from its own start

  /** Looking for a word after a line break does not depend on what stands before it. */
  lemma WordAtShift(p: string, t: string, k: nat, u: string)
    requires 1 <= k
    ensures WordAt(p + t, |p| + k, u) <==> WordAt(t, k, u)
  {
    AtShift(p, t, k, u);
    if k <= |t| {
      assert (p + t)[|p| + k - 1] == t[k - 1];
    }
    if k + |u| < |t| {
      assert (p + t)[|p| + (k + |u|)] == t[k + |u|];
    }
  }

  lemma AtShift(p: string, t: string, k: nat, u: string)
    ensures At(p + t, |p| + k, u) <==> At(t, k, u)
  {
    if k + |u| <= |t| {
      assert (p + t)[|p| + k..|p| + k + |u|] == t[k..k + |u|];
    }
  }

  lemma {:induction false} FindWordShift(p: string, t: string, k: nat, u: string)
    requires 1 <= k
    ensures FindWord(p + t, u, |p| + k).Some? <==> FindWord(t, u, k).Some?
    decreases |t| - k
  {
    hide WordAt;
    WordAtShift(p, t, k, u);
    if k < |t| {
      FindWordShift(p, t, k + 1, u);
    }
  }

  lemma FoundInTail(s: string, z: nat, t: Tail, u: string)
    requires TailFrom(s, z, t) && Boundary(t) && u != "" && Letters(u)
    ensures FindWord(s, u, z).Some? <==> FindWord(TailText(t), u, 0).Some?
  {
    hide WordAt, TailText, FindWord;
    var p, tail := s[..z], TailText(t);
    assert s == p + tail;
    if t.NoTail? {
      NoTailText();
      NothingFound(s, u);
      NothingFound(tail, u);
    } else {
      TailStarts(t);
      TailChar(s, z, t, 0);
      NoLetterWord(s, z, u);
      NoLetterWord(tail, 0, u);
      FindSkip(s, u, z, z + 1);
      FindSkip(tail, u, 0, 1);
      FindWordShift(p, tail, 1, u);
    }
  }

  lemma NothingFound(s: string, u: string)
    ensures FindWord(s, u, |s|) == None
  {}

  lemma NoLetterWord(s: string, i: nat, u: string)
    requires i < |s| && !IsLetter(s[i]) && u != "" && Letters(u)
    ensures !WordAt(s, i, u)
  {
    NoLetterAt(s, i, u);
  }

  // ------------------------------------------------------------------ normalising

  lemma {:induction false} CloseShift(p: string, t: string, k: nat)
    ensures CloseFrom(p + t, |p| + k) == if CloseFrom(t, k) == 0 then 0 else |p| + CloseFrom(t, k)
    decreases |t| - k
  {
    if k < |t| {
      assert (p + t)[|p| + k] == t[k];
      CloseShift(p, t, k + 1);
    }
  }

  lemma {:induction false} CloseAfter(t: string, k: nat)
    ensures CloseFrom(t, k) == 0 || k < CloseFrom(t, k) <= |t|
    decreases |t| - k
  {
    if k < |t| {
      CloseAfter(t, k + 1);
    }
  }

  lemma TagShift(p: string, t: string, k: nat)
    ensures TagEnd(p + t, |p| + k) == if TagEnd(t, k) == 0 then 0 else |p| + TagEnd(t, k)
    ensures TagEnd(t, k) == 0 || k < TagEnd(t, k) <= |t|
  {
    CloseShift(p, t, k + 1);
    CloseAfter(t, k + 1);
    if k < |t| {
      assert (p + t)[|p| + k] == t[k];
    }
    if k + 1 < |t| {
      assert (p + t)[|p| + (k + 1)] == t[k + 1];
    }
  }

  lemma SubStep(s: string, i: nat, end: (string, nat) -> nat, expand: (string, nat) -> string)
    ensures i >= |s| ==> Sub(s, i, end, expand) == ""
    ensures i < end(s, i) <= |s| ==> Sub(s, i, end, expand) == expand(s, i) + Sub(s, end(s, i), end, expand)
    ensures i < |s| && end(s, i) == 0 ==> Sub(s, i, end, expand) == [s[i]] + Sub(s, i + 1, end, expand)
  {}

  /** The position i of s is the position k of the text t that s ends in. */
  predicate Shifted(s: string, i: nat, p: string, t: string, k: nat) { s == p + t && i == |p| + k }

  lemma ShiftedChar(s: string, i: nat, p: string, t: string, k: nat)
    requires Shifted(s, i, p, t, k)
    ensures i - k == |p| && |s| - i == |t| - k && (k < |t| ==> s[i] == t[k])
  {}

  lemma ShiftedOn(s: string, i: nat, p: string, t: string, k: nat, n: nat)
    requires Shifted(s, i, p, t, k)
    ensures Shifted(s, i + n, p, t, k + n)
  {}

  lemma ShiftedTag(s: string, i: nat, p: string, t: string, k: nat)
    requires Shifted(s, i, p, t, k)
    ensures TagEnd(s, i) == (if TagEnd(t, k) == 0 then 0 else TagEnd(t, k) + |p|) && TagGap(s, i) == TagGap(t, k)
    ensures TagEnd(t, k) == 0 || k < TagEnd(t, k) <= |t|
  {
    TagShift(p, t, k);
  }

  lemma {:induction false} TagsFrom(s: string, i: nat, p: string, t: string, k: nat)
    requires Shifted(s, i, p, t, k)
    ensures Sub(s, i, TagEnd, TagGap) == Sub(t, k, TagEnd, TagGap)
    decreases |t| - k
  {
    hide TagEnd, TagGap, Shifted, Sub;
    ShiftedChar(s, i, p, t, k);
    SubStep(s, i, TagEnd, TagGap);
    SubStep(t, k, TagEnd, TagGap);
    if k < |t| {
      ShiftedTag(s, i, p, t, k);
      var n := if TagEnd(t, k) > 0 then TagEnd(t, k) - k else 1;
      ShiftedOn(s, i, p, t, k, n);
      TagsFrom(s, i + n, p, t, k + n);
    }
  }

  lemma TagsShift(p: string, t: string, k: nat)
    ensures Sub(p + t, |p| + k, TagEnd, TagGap) == Sub(t, k, TagEnd, TagGap)
  {
    hide TagEnd, Sub;
    TagsFrom(p + t, |p| + k, p, t, k);
  }

  /** Text without tags and capitals, in front of any text, is left alone. */
  predicate Clean(p: string) { forall k :: 0 <= k < |p| ==> p[k] != '<' && !('A' <= p[k] <= 'Z') }

  lemma CleanConcat(p: string, q: string)
    requires Clean(p) && Clean(q)
    ensures Clean(p + q)
  {}

  lemma NormalizedAfter(p: string, q: string)
    requires Clean(p)
    ensures Normalized(p + q) == p + Normalized(q)
  {
    hide Sub, TagEnd;
    var s := p + q;
    forall k: nat | k < |p| ensures TagEnd(s, k) == 0 {
      assert s[k] == p[k];
      NoTagAt(s, k);
    }
    CopyRun(s, 0, |p|, TagEnd, TagGap);
    assert s[0..|p|] == p;
    TagsShift(p, q, 0);
    var rest := Sub(q, 0, TagEnd, TagGap);
    assert forall k :: 0 <= k < |p| ==> LowerChar(p[k]) == p[k];
    assert Lower(p + rest) == p + Lower(rest);
  }

  lemma NoTagAt(s: string, k: nat)
    requires k < |s| && s[k] != '<'
    ensures TagEnd(s, k) == 0
  {}

  /** The tail of a normalised body. */
  function NormalTail(t: Tail): Tail {
    match t
    case NoTail => NoTail
    case Quoted(b, q) => Quoted(b, Normalized(q))
  }

  lemma NormalizedTail(p: string, t: Tail)
    requires Clean(p) && Boundary(t)
    ensures Normalized(p + TailText(t)) == p + TailText(NormalTail(t))
    ensures Boundary(NormalTail(t)) && GapOf(NormalTail(t)) == GapOf(t)
  {
    hide Normalized;
    match t
    case NoTail =>
      assert p + "" == p;
      NormalizedAfter(p, "");
      NormalizedEmpty();
    case Quoted(b, q) =>
      BoundaryShape(b);
      var g := Gap(b) + b;
      CleanConcat(p, g);
      NormalizedAfter(p + g, q);
      assert p + (g + q) == (p + g) + q;
      assert p + (g + Normalized(q)) == (p + g) + Normalized(q);
  }

  lemma NormalizedEmpty()
    ensures Normalized("") == ""
  {}

  lemma CleanBody(v: string, ws: seq<Word>)
    requires v in VERBS && AllShaped(ws)
    ensures Clean(v + Line(ws))
  {
    hide Line;
    VerbLetters(v);
    LineChars(ws);
    forall k | 0 <= k < |v + Line(ws)| ensures LineChar((v + Line(ws))[k]) {
      if k < |v| {
        assert v[k] in v;
      } else {
        assert Line(ws)[k - |v|] in Line(ws);
      }
    }
  }

  lemma BodyNormalized(v: string, ws: seq<Word>, t: Tail)
    requires v in VERBS && AllShaped(ws) && Boundary(t)
    ensures Normalized(BodyOf(v, ws, t)) == BodyOf(v, ws, NormalTail(t))
  {
    hide Normalized, Line, TailText;
    CleanBody(v, ws);
    NormalizedTail(v + Line(ws), t);
    assert v + (Line(ws) + TailText(t)) == v + Line(ws) + TailText(t);
    assert v + (Line(ws) + TailText(NormalTail(t))) == v + Line(ws) + TailText(NormalTail(t));
  }

  // ------------------------------------------------------------------ rec-NNN ranges, below the reply too

  lemma {:induction false} SpacesShift(p: string, t: string, k: nat)
    requires k <= |t|
    ensures SpacesEnd(p + t, |p| + k) == |p| + SpacesEnd(t, k)
    decreases |t| - k
  {
    if k < |t| {
      assert (p + t)[|p| + k] == t[k];
      SpacesShift(p, t, k + 1);
    }
  }

  lemma SeparatorShift(p: string, t: string, k: nat)
    ensures SeparatorLen(p + t, |p| + k) == SeparatorLen(t, k)
  {
    AtShift(p, t, k, "-");
    AtShift(p, t, k, "\U{2013}");
    AtShift(p, t, k, "\U{2014}");
    AtShift(p, t, k, "to");
    AtShift(p, t, k, "thru");
    AtShift(p, t, k, "through");
  }

  lemma DigitShift(p: string, t: string, k: nat)
    ensures DigitAt(p + t, |p| + k) <==> DigitAt(t, k)
  {
    if k < |t| {
      assert (p + t)[|p| + k] == t[k];
    }
  }

  lemma ThreeDigitsShift(p: string, t: string, k: nat)
    ensures ThreeDigits(p + t, |p| + k) <==> ThreeDigits(t, k)
  {
    DigitShift(p, t, k);
    DigitShift(p, t, k + 1);
    DigitShift(p, t, k + 2);
  }

  lemma StartShift(p: string, t: string, k: nat)
    requires 1 <= k
    ensures WordStart(p + t, |p| + k) <==> WordStart(t, k)
    ensures WordEnd(p + t, |p| + k) <==> WordEnd(t, k)
  {
    if k <= |t| {
      assert (p + t)[|p| + k - 1] == t[k - 1];
    }
    if k < |t| {
      assert (p + t)[|p| + k] == t[k];
    }
  }

  lemma RecRangeShift(p: string, t: string, k: nat)
    requires 1 <= k
    ensures RecRangeEnd(p + t, |p| + k) == if RecRangeEnd(t, k) == 0 then 0 else |p| + RecRangeEnd(t, k)
    ensures RecRangeEnd(t, k) == 0 || k + 14 < RecRangeEnd(t, k) <= |t|
  {
    hide At, ThreeDigits, SeparatorLen, WordStart, WordEnd, SpacesEnd;
    StartShift(p, t, k);
    AtShift(p, t, k, "rec-");
    ThreeDigitsShift(p, t, k + 4);
    if WordStart(t, k) && At(t, k, "rec-") && ThreeDigits(t, k + 4) {
      DigitsInside(t, k + 4);
      SpacesShift(p, t, k + 7);
      var e := SpacesEnd(t, k + 7);
      SeparatorShift(p, t, e);
      var n := SeparatorLen(t, e);
      if n > 0 {
        SpacesShift(p, t, e + n);
        var r := SpacesEnd(t, e + n);
        AtShift(p, t, r, "rec-");
        ThreeDigitsShift(p, t, r + 4);
        StartShift(p, t, r + 7);
        if ThreeDigits(t, r + 4) {
          DigitsInside(t, r + 4);
        }
      }
    }
  }

  lemma DigitsInside(t: string, k: nat)
    requires ThreeDigits(t, k)
    ensures k + 3 <= |t|
  {}

  lemma SliceShift(p: string, t: string, a: nat, b: nat)
    requires a <= b <= |t|
    ensures (p + t)[|p| + a..|p| + b] == t[a..b]
  {}

  lemma ValueShift(p: string, t: string, a: nat, b: nat)
    requires a <= b <= |t|
    ensures ValueAt(p + t, |p| + a, |p| + b) == ValueAt(t, a, b)
  {
    SliceShift(p, t, a, b);
  }

  lemma RecRangeTextShift(p: string, t: string, k: nat)
    requires 1 <= k && RecRangeEnd(t, k) > 0
    ensures ExpandRecRange(p + t, |p| + k) == ExpandRecRange(t, k)
  {
    hide RecRangeEnd, ValueAt, JoinIds;
    RecRangeShift(p, t, k);
    var e := RecRangeEnd(t, k);
    ValueShift(p, t, k + 4, k + 7);
    ValueShift(p, t, e - 3, e);
    SliceShift(p, t, k, e);
  }

  lemma ShiftedRange(s: string, i: nat, p: string, t: string, k: nat)
    requires Shifted(s, i, p, t, k) && 1 <= k
    ensures RecRangeEnd(s, i) == if RecRangeEnd(t, k) == 0 then 0 else RecRangeEnd(t, k) + |p|
    ensures RecRangeEnd(t, k) == 0 || k < RecRangeEnd(t, k) <= |t|
    ensures RecRangeEnd(t, k) > 0 ==> ExpandRecRange(s, i) == ExpandRecRange(t, k)
  {
    hide RecRangeEnd, ExpandRecRange;
    RecRangeShift(p, t, k);
    if RecRangeEnd(t, k) > 0 {
      RecRangeTextShift(p, t, k);
    }
  }

  lemma {:induction false} RangesFrom(s: string, i: nat, p: string, t: string, k: nat)
    requires Shifted(s, i, p, t, k) && 1 <= k
    ensures Sub(s, i, RecRangeEnd, ExpandRecRange) == Sub(t, k, RecRangeEnd, ExpandRecRange)
    decreases |t| - k
  {
    hide RecRangeEnd, ExpandRecRange, Shifted, Sub;
    ShiftedChar(s, i, p, t, k);
    SubStep(s, i, RecRangeEnd, ExpandRecRange);
    SubStep(t, k, RecRangeEnd, ExpandRecRange);
    if k < |t| {
      ShiftedRange(s, i, p, t, k);
      var n := if RecRangeEnd(t, k) > 0 then RecRangeEnd(t, k) - k else 1;
      ShiftedOn(s, i, p, t, k, n);
      RangesFrom(s, i + n, p, t, k + n);
    }
  }

  lemma RangesShift(p: string, t: string, k: nat)
    requires 1 <= k
    ensures Sub(p + t, |p| + k, RecRangeEnd, ExpandRecRange) == Sub(t, k, RecRangeEnd, ExpandRecRange)
  {
    hide RecRangeEnd, ExpandRecRange, Sub;
    RangesFrom(p + t, |p| + k, p, t, k);
  }

  /** The tail once its own ranges are expanded: the boundary stays. */
  function RangeTail(t: Tail): Tail {
    match t
    case NoTail => NoTail
    case Quoted(b, q) => Quoted(b, Sub(TailText(t), |Gap(b) + b|, RecRangeEnd, ExpandRecRange))
  }

  lemma BoundaryChar(t: Tail, k: nat)
    requires Boundary(t) && t.Quoted? && |Gap(t.b)| <= k
    ensures var s, n := TailText(t), k - |Gap(t.b)|; n < |t.b| ==> k < |s| && s[k] == t.b[n]
  {
    hide QuoteStart, TailText;
    var n := k - |Gap(t.b)|;
    TailStarts(t);
    if n < |t.b| {
      assert TailText(t)[|Gap(t.b)| + n] == t.b[n];
    }
  }

  lemma TailRNoRec(t: Tail, k: nat)
    requires Boundary(t) && t.Quoted? && k < |Gap(t.b) + t.b|
    ensures var s := TailText(t);
            k < |s| && !RecHere(s, k) && (s[k] == 'r' ==> k + 1 < |s| && s[k + 1] != '-')
  {
    hide QuoteStart, TailText;
    TailStarts(t);
    BoundaryShape(t.b);
    if k >= |Gap(t.b)| {
      BoundaryChar(t, k);
      BoundaryChar(t, k + 1);
    }
  }

  lemma TailHasNoRec(t: Tail, k: nat)
    requires Boundary(t) && t.Quoted? && k < |Gap(t.b) + t.b|
    ensures RecRangeEnd(TailText(t), k) == 0
  {
    hide RecRangeEnd, RecHere, QuoteStart, TailText;
    TailRNoRec(t, k);
    NoIdRangeAt(TailText(t), k);
  }

  lemma TailRanges(t: Tail)
    requires Boundary(t)
    ensures RangesExpanded(TailText(t)) == TailText(RangeTail(t))
    ensures Boundary(RangeTail(t)) && GapOf(RangeTail(t)) == GapOf(t)
  {
    hide Sub, RecRangeEnd;
    if t.Quoted? {
      var s, g := TailText(t), Gap(t.b) + t.b;
      forall k: nat | k < |g| ensures RecRangeEnd(s, k) == 0 {
        TailHasNoRec(t, k);
      }
      CopyRun(s, 0, |g|, RecRangeEnd, ExpandRecRange);
      assert s[0..|g|] == g;
    } else {
      SubNothing(RecRangeEnd, ExpandRecRange);
    }
  }

  lemma SubNothing(end: (string, nat) -> nat, expand: (string, nat) -> string)
    ensures Sub("", 0, end, expand) == ""
  {}

  lemma SubPastEnd(s: string, end: (string, nat) -> nat, expand: (string, nat) -> string)
    ensures Sub(s, |s|, end, expand) == ""
  {}

  lemma RangesFromTail(s: string, z: nat, t: Tail)
    requires TailFrom(s, z, t) && Boundary(t)
    ensures Sub(s, z, RecRangeEnd, ExpandRecRange) == TailText(RangeTail(t))
  {
    hide Sub, RecRangeEnd, ExpandRecRange, TailText;
    var p, tail := s[..z], TailText(t);
    assert s == p + tail;
    TailRanges(t);
    if t.NoTail? {
      NoTailText();
      SubPastEnd(s, RecRangeEnd, ExpandRecRange);
    } else {
      TailStarts(t);
      TailChar(s, z, t, 0);
      NoIdRangeAt(s, z);
      NoIdRangeAt(tail, 0);
      CopyRun(s, z, z + 1, RecRangeEnd, ExpandRecRange);
      CopyRun(tail, 0, 1, RecRangeEnd, ExpandRecRange);
      assert s[z..z + 1] == tail[0..1];
      RangesShift(p, tail, 1);
    }
  }

  lemma BodyRanges(s: string, v: string, ws: seq<Word>, t: Tail)
    requires Body(s, v, ws, t)
    ensures RangesExpanded(s) == BodyOf(v, Each(ws, AfterIdRanges), RangeTail(t))
  {
    hide Line, Sub, RecRangeEnd, Each, TailText, LineTo, Stops;
    BodyLaid(s, v, ws, t);
    VerbHasNoRec(s, v, ws, t);
    var z := |v| + |Line(ws)|;
    CopyRun(s, 0, |v|, RecRangeEnd, ExpandRecRange);
    IdRangesOfLine(s, |v|, ws, z);
    RangesFromTail(s, z, t);
    assert s[0..|v|] == v;
  }

  // ------------------------------------------------------------------ bare numbers, only above the boundary

  lemma WeekdayReads(s: string, d: string, i: nat)
    requires At(s, i, "on " + d + ", ") && d != ""
    ensures i + 3 + |d| < |s| && WordAt(s, i + 3, d)
  {
    assert "on " + d + ", " == "on " + (d + ", ");
    AtSplit(s, i, "on ", d + ", ");
    AtSplit(s, i + 3, d, ", ");
    AtChar(s, i, "on ", 2);
    AtChar(s, i + 3 + |d|, ", ", 0);
  }

  /** No one-line boundary stands in a line of words. */
  lemma OneLineAbsent(s: string, i: nat, ws: seq<Word>, z: nat, u: string, k: nat)
    requires LineTo(s, i, ws, z) && AllShaped(ws) && OneLine(u) && i <= k && k + |u| <= z
    ensures !At(s, k, u)
  {
    hide LineTo, Shaped, Foreign, WordAt;
    if At(s, k, u) {
      if ':' in u {
        var j :| 0 <= j < |u| && u[j] == ':';
        AtChar(s, k, u, j);
        LineCharAt(s, i, ws, z, k + j);
        assert false;
      } else {
        var d :| d in WEEKDAYS && u == "on " + d + ", ";
        ForeignWords();
        ForeignLetters(d);
        WeekdayReads(s, d, k);
        assert WordAt(s, k + 3, d);
        NotSaid(ws, d);
        Heard(s, i, ws, z, d);
        assert false;
      }
    }
  }

  lemma LineCharAt(s: string, i: nat, ws: seq<Word>, z: nat, k: nat)
    requires LineTo(s, i, ws, z) && AllShaped(ws) && i <= k < z
    ensures k < |s| && LineChar(s[k])
  {
    hide Line, Stops;
    LineChars(ws);
    assert s[i..z][k - i] == s[k];
    assert s[k] in Line(ws);
  }

  /** Before the gap and the boundary no boundary starts, neither in the line nor across its end. */
  lemma NoneEarlier(s: string, i: nat, ws: seq<Word>, z: nat, t: Tail, u: string, k: nat)
    requires LineTo(s, i, ws, z) && AllShaped(ws) && TailFrom(s, z, t) && Boundary(t)
    requires IsBoundary(u) && i <= k < z + |GapOf(t)|
    ensures !At(s, k, u)
  {
    hide LineTo, TailText, Shaped, REPLY_BOUNDARIES, TailFrom;
    if At(s, k, u) {
      AtChar(s, k, u, 0);
      TailOrEnd(s, z, t);
      if LineBreak(u) {
        AtChar(s, k, u, 1);
        if k < z {
          LineCharAt(s, i, ws, z, k);
        }
        assert false;
      } else {
        if z < |s| && z < k + |u| {
          NoBreakInside(s, k, u, z);
          assert false;
        } else {
          AtLength(s, k, u);
          OneLineAbsent(s, i, ws, z, u, k);
          assert false;
        }
      }
    }
  }

  lemma NoBreakInside(s: string, k: nat, u: string, z: nat)
    requires k <= z < |s| && z < k + |u| && s[z] == '\n' && '\n' !in u
    ensures !At(s, k, u)
  {
    var i: nat := z - k;
    assert u[i] in u;
    CharThere(s, k, u, i);
  }

  lemma CharThere(s: string, k: nat, t: string, i: nat)
    requires i < |t|
    ensures At(s, k, t) ==> k + i < |s| && s[k + i] == t[i]
  {
    if At(s, k, t) {
      AtChar(s, k, t, i);
    }
  }

  lemma TailOrEnd(s: string, z: nat, t: Tail)
    requires TailFrom(s, z, t) && Boundary(t)
    ensures z <= |s| && (t.NoTail? ==> z == |s| && GapOf(t) == "")
    ensures t.Quoted? ==> z + 2 < |s| && s[z] == '\n' && |GapOf(t)| <= 1
    ensures t.Quoted? && GapOf(t) != "" ==> IsLetter(s[z + 1])
  {
    if t.Quoted? {
      TailStarts(t);
      BoundaryShape(t.b);
      TailChar(s, z, t, 0);
      TailChar(s, z, t, |GapOf(t)|);
    }
  }

  lemma {:induction false} FindFrom(s: string, u: string, i: nat, j: nat)
    requires i <= j <= |s| && forall k: nat :: i <= k < j ==> !At(s, k, u)
    ensures Find(s, u, i) == Find(s, u, j)
    decreases j - i
  {
    hide At;
    if i < j {
      FindFrom(s, u, i + 1, j);
    }
  }

  lemma FindHere(s: string, u: string, i: nat)
    requires At(s, i, u)
    ensures Find(s, u, i) == Some(i)
  {}

  /** The scan ends where the first boundary stands. */
  lemma {:induction false} ScanStops(s: string, start: nat, boundaries: seq<string>, e: nat)
    requires start <= e <= |s| && 0 < e
    requires forall u, k: nat :: u in boundaries && start <= k < e ==> !At(s, k, u)
    ensures ScanEnd(s, start, boundaries) >= e
    ensures (exists u :: u in boundaries && At(s, e, u)) ==> ScanEnd(s, start, boundaries) == e
  {
    hide At, Find;
    if boundaries != [] {
      var init, u := boundaries[..|boundaries| - 1], boundaries[|boundaries| - 1];
      assert boundaries == init + [u] && u in boundaries;
      ScanStops(s, start, init, e);
      FindFrom(s, u, start, e);
      if At(s, e, u) {
        FindHere(s, u, e);
      }
    }
  }

  lemma DropDrop(s: string, z: nat, g: nat, tail: string)
    requires z <= |s| && s[z..] == tail && g <= |tail|
    ensures z + g <= |s| && s[z + g..] == tail[g..] && s[z..z + g] == tail[..g]
  {
    assert s == s[..z] + tail;
  }

  lemma AtStart(s: string, e: nat, b: string, q: string)
    requires e <= |s| && s[e..] == b + q
    ensures At(s, e, b)
  {
    assert s[e..e + |b|] == (b + q)[..|b|];
  }

  lemma TailAt(s: string, z: nat, t: Tail)
    requires TailFrom(s, z, t) && Boundary(t) && t.Quoted?
    ensures z + |GapOf(t)| <= |s|
    ensures At(s, z + |GapOf(t)|, t.b) && s[z + |GapOf(t)|..] == t.b + t.q
    ensures s[z..z + |GapOf(t)|] == GapOf(t)
  {
    hide REPLY_BOUNDARIES, TailText, GapOf, At;
    TailStarts(t);
    DropDrop(s, z, |GapOf(t)|, TailText(t));
    AtStart(s, z + |GapOf(t)|, t.b, t.q);
  }

  lemma ScanEndIs(s: string, v: string, ws: seq<Word>, t: Tail)
    requires Body(s, v, ws, t)
    ensures ScanEnd(s, |v|, REPLY_BOUNDARIES) == |v| + |Line(ws)| + |GapOf(t)|
  {
    hide Line, LineTo, Stops, At, Find, Shaped, REPLY_BOUNDARIES, TailText, IsBoundary, BodyOf, ScanEnd, TailFrom;
    BodyLaid(s, v, ws, t);
    BoundariesAre();
    var z := |v| + |Line(ws)|;
    var e := z + |GapOf(t)|;
    TailOrEnd(s, z, t);
    forall u, k: nat | u in REPLY_BOUNDARIES && |v| <= k < e ensures !At(s, k, u) {
      NoneEarlier(s, |v|, ws, z, t, u, k);
    }
    ScanStops(s, |v|, REPLY_BOUNDARIES, e);
    if t.Quoted? {
      TailAt(s, z, t);
      QuoteStartIsBoundary(t.b);
    } else {
      ScanEndWithin(s, |v|, REPLY_BOUNDARIES);
    }
  }

  lemma ScanEndWithin(s: string, start: nat, boundaries: seq<string>)
    requires start <= |s|
    ensures ScanEnd(s, start, boundaries) <= |s|
  {}

  function AfterBare(ws: seq<Word>): seq<Word> { Each(Each(ws, AfterBareRanges), AfterBareIds) }

  function Final(ws: seq<Word>): seq<Word> { AfterBare(Each(ws, AfterIdRanges)) }

  predicate AllWritten(ws: seq<Word>) { forall w :: w in ws ==> Written(w) }

  lemma {:induction false} IdsWritten(a: nat, b: nat)
    ensures AllWritten(Ids(a, b))
    decreases b - a
  {
    if a < b {
      IdsWritten(a + 1, b);
    }
  }

  lemma WrittenIsShaped(ws: seq<Word>)
    requires AllWritten(ws)
    ensures AllShaped(ws)
  {}

  lemma {:induction false} WordsAfterPasses(ws: seq<Word>)
    ensures AllWritten(ws) ==> AllWritten(Each(ws, AfterIdRanges)) && AllShaped(Each(ws, AfterBareRanges))
    ensures AllShaped(ws) ==> AllShaped(Each(ws, AfterBareIds))
  {
    hide Written, Shaped, AfterIdRanges, AfterBareRanges, AfterBareIds;
    if ws != [] {
      WordsAfterPasses(ws[1..]);
      WordAfterPasses(ws[0]);
      assert ws == [ws[0]] + ws[1..];
    }
  }

  lemma WordAfterPasses(w: Word)
    ensures Written(w) ==> AllWritten(AfterIdRanges(w)) && AllShaped(AfterBareRanges(w))
    ensures Shaped(w) ==> AllShaped(AfterBareIds(w))
  {
    hide Ids, TailRun, TailValue;
    if Written(w) && w.Range? {
      if w.l.Id? && w.r.Id? {
        IdsWritten(w.l.n, w.r.n);
      } else if w.r.Bare? {
        IdsWritten(if w.l.Bare? then w.l.n else if w.l.Uid? then TailValue(w.l.h) else 0, w.r.n);
        if w.l.Uid? && EatsUid(w.l.h, w.r.n) {
          StubShaped(w.l.h);
        }
      }
    }
  }

  lemma StubShaped(h: string)
    requires |h| == 8 && AllHex(h) && TailRun(h) <= 3
    ensures Shaped(One(Uid(h[..TailStart(h)])))
  {
    hide TailRun;
    var stub := h[..TailStart(h)];
    forall c | c in stub ensures c in h {}
  }

  /** A line and the gap after it. */
  predicate IsGap(g: string) { g == "" || g == "\n" }

  lemma GapLine(ws: seq<Word>, g: string)
    requires IsGap(g)
    ensures LineTo(Line(ws) + g, 0, ws, |Line(ws)|)
  {
    hide Line, Unjoined;
    var s, z := Line(ws) + g, |Line(ws)|;
    assert s[0..z] == Line(ws);
    NothingAtEnd(s);
    if g == "\n" {
      assert s[z] == '\n';
      NewLineAtEnd(s, z);
    }
  }

  lemma NewLineAtEnd(s: string, z: nat)
    requires z + 1 == |s| && s[z] == '\n'
    ensures Unjoined(s, z)
  {}

  lemma GapCopied(s: string, z: nat, g: string, end: (string, nat) -> nat, expand: (string, nat) -> string)
    requires z <= |s| && s[z..] == g && IsGap(g) && (z < |s| ==> end(s, z) == 0)
    ensures Sub(s, z, end, expand) == g
  {
    if z < |s| {
      assert s[z..][0] == s[z];
      assert Sub(s, z + 1, end, expand) == "";
      assert g == [s[z]];
    }
  }

  lemma ScanRewritten(ws: seq<Word>, g: string)
    requires AllWritten(ws) && IsGap(g)
    ensures ScanExpanded(Line(ws) + g) == Line(AfterBare(ws)) + g
    ensures AllShaped(AfterBare(ws))
  {
    hide Line, Sub, BareRangeEnd, BareIdEnd, Each, LineTo, Written;
    var s, z := Line(ws) + g, |Line(ws)|;
    WrittenIsShaped(ws);
    GapLine(ws, g);
    BareRangesOfLine(s, 0, ws, z);
    WordsAfterPasses(ws);
    WordsAfterPasses(Each(ws, AfterBareRanges));
    var mid := Each(ws, AfterBareRanges);
    var t, y := Line(mid) + g, |Line(mid)|;
    assert s[z..] == g && t[y..] == g;
    if g == "\n" {
      NotADigitAt(s, z);
      NotADigitAt(t, y);
    }
    GapCopied(s, z, g, BareRangeEnd, ExpandBareRange);
    GapLine(mid, g);
    BareIdsOfLine(t, 0, mid, y);
    GapCopied(t, y, g, BareIdEnd, ExpandBareId);
  }

  lemma NotADigitAt(s: string, k: nat)
    requires k < |s| && s[k..] == "\n"
    ensures BareRangeEnd(s, k) == 0 && BareIdEnd(s, k) == 0
  {
    assert s[k..][0] == s[k];
    NoDigitNoBareRange(s, k);
    NoBareIdAt(s, k);
  }

  lemma BodyBare(s: string, v: string, ws: seq<Word>, t: Tail)
    requires Body(s, v, ws, t) && AllWritten(ws)
    ensures BareExpanded(s) == BodyOf(v, AfterBare(ws), t)
    ensures AllShaped(AfterBare(ws))
  {
    hide Line, ScanExpanded, FirstVerbEnd, ScanEnd, AfterBare, LineTo, Stops, TailText, REPLY_BOUNDARIES, AllShaped;
    hide AllWritten, TailFrom, GapOf, QuoteStart, WordAt;
    VerbFound(s, v, ws, t);
    BodyLaid(s, v, ws, t);
    ScanEndIs(s, v, ws, t);
    var z, g := |v| + |Line(ws)|, GapOf(t);
    GapIsGap(t);
    ScanRewritten(ws, g);
    BodyCut(s, z, t);
    LineSlice(s, |v|, ws, z);
    TwoSlices(s, |v|, z, z + |g|);
    TailParts(t);
    FourParts(v, Line(AfterBare(ws)), g, s[z + |g|..]);
  }

  lemma LineSlice(s: string, i: nat, ws: seq<Word>, z: nat)
    requires LineTo(s, i, ws, z)
    ensures i <= z <= |s| && s[i..z] == Line(ws)
  {}

  lemma TwoSlices(s: string, i: nat, j: nat, k: nat)
    requires i <= j <= k <= |s|
    ensures s[i..k] == s[i..j] + s[j..k]
  {}

  lemma FourParts(v: string, l: string, g: string, q: string)
    ensures v + (l + g) + q == v + (l + (g + q))
  {}

  lemma TailParts(t: Tail)
    requires Boundary(t)
    ensures TailText(t) == GapOf(t) + (if t.NoTail? then "" else t.b + t.q)
  {}

  lemma BodyCut(s: string, z: nat, t: Tail)
    requires TailFrom(s, z, t) && Boundary(t)
    ensures z + |GapOf(t)| <= |s| && s[z..z + |GapOf(t)|] == GapOf(t)
    ensures s[z + |GapOf(t)|..] == if t.NoTail? then "" else t.b + t.q
  {
    if t.Quoted? {
      TailStarts(t);
      TailAt(s, z, t);
    }
  }

  /** The canonical text of a reply with quoted text below: only the ranges of the quoted text are expanded. */
  function TailAfter(t: Tail): Tail { RangeTail(NormalTail(t)) }

  lemma CanonicalIs(v: string, ws: seq<Word>, t: Tail)
    requires v in VERBS && AllWritten(ws) && Boundary(t)
    ensures Canonical(BodyOf(v, ws, t)) == BodyOf(v, Final(ws), TailAfter(t))
    ensures AllShaped(Final(ws)) && Boundary(TailAfter(t)) && GapOf(TailAfter(t)) == GapOf(t)
    ensures TailText(TailAfter(t)) == RangesExpanded(Normalized(TailText(t)))
  {
    hide Line, Normalized, RangesExpanded, BareExpanded, Each, AfterBare, AllWritten, AllShaped, TailText, BodyOf;
    WrittenIsShaped(ws);
    BodyNormalized(v, ws, t);
    NormalizedTail("", t);
    assert "" + TailText(t) == TailText(t) && "" + TailText(NormalTail(t)) == TailText(NormalTail(t));
    BodyRanges(BodyOf(v, ws, NormalTail(t)), v, ws, NormalTail(t));
    TailRanges(NormalTail(t));
    WordsAfterPasses(ws);
    WrittenIsShaped(Each(ws, AfterIdRanges));
    BodyBare(BodyOf(v, Each(ws, AfterIdRanges), TailAfter(t)), v, Each(ws, AfterIdRanges), TailAfter(t));
  }

  // ------------------------------------------------------------------ ids, above and below

  lemma RecIdShift(p: string, t: string, k: nat)
    requires 1 <= k
    ensures RecIdAt(p + t, |p| + k) <==> RecIdAt(t, k)
    ensures RecIdAt(t, k) ==> k + 7 <= |t|
  {
    hide At, ThreeDigits, WordStart, WordEnd;
    StartShift(p, t, k);
    StartShift(p, t, k + 7);
    AtShift(p, t, k, "rec-");
    ThreeDigitsShift(p, t, k + 4);
    if ThreeDigits(t, k + 4) {
      DigitsInside(t, k + 4);
    }
  }

  lemma UidShift(p: string, t: string, k: nat)
    requires 1 <= k
    ensures UidAt(p + t, |p| + k) <==> UidAt(t, k)
    ensures UidAt(t, k) ==> k + 10 <= |t|
  {
    hide At, WordStart, WordEnd;
    StartShift(p, t, k);
    StartShift(p, t, k + 10);
    AtShift(p, t, k, "r-");
    HexShift(p, t, k + 2);
  }

  lemma HexShift(p: string, t: string, k: nat)
    ensures HexRun(p + t, |p| + k, 8) <==> HexRun(t, k, 8)
  {
    if k + 8 <= |t| {
      assert forall j :: k <= j < k + 8 ==> (p + t)[|p| + j] == t[j];
      if HexRun(p + t, |p| + k, 8) {
        forall j | k <= j < k + 8 ensures IsHex(t[j]) {
          assert IsHex((p + t)[|p| + j]);
        }
      }
      if HexRun(t, k, 8) {
        forall j | |p| + k <= j < |p| + k + 8 ensures IsHex((p + t)[j]) {
          assert (p + t)[|p| + (j - |p|)] == t[j - |p|];
        }
      }
    }
  }

  lemma {:induction false} IdsShift(p: string, t: string, k: nat)
    requires 1 <= k
    ensures IdsFrom(p + t, |p| + k) == IdsFrom(t, k)
    decreases |t| - k
  {
    hide RecIdAt, UidAt;
    if k < |t| {
      RecIdShift(p, t, k);
      UidShift(p, t, k);
      IdsShift(p, t, k + 1);
      if RecIdAt(t, k) {
        assert (p + t)[|p| + k..|p| + k + 7] == t[k..k + 7];
      } else if UidAt(t, k) {
        assert (p + t)[|p| + k..|p| + k + 10] == t[k..k + 10];
      }
    }
  }

  lemma IdsFromTail(s: string, z: nat, t: Tail)
    requires TailFrom(s, z, t) && Boundary(t)
    ensures IdsFrom(s, z) == IdsFrom(TailText(t), 0)
  {
    hide IdsFrom, TailText, RecIdAt, UidAt;
    var p, tail := s[..z], TailText(t);
    assert s == p + tail;
    if t.NoTail? {
      NoTailText();
      NoIdsAtEnd(s);
      NoIdsAtEnd(tail);
    } else {
      TailStarts(t);
      TailChar(s, z, t, 0);
      NoIdWithoutRec(s, z);
      NoIdWithoutRec(tail, 0);
      SkipRun(s, z, z + 1);
      SkipRun(tail, 0, 1);
      IdsShift(p, tail, 1);
    }
  }

  lemma NoIdsAtEnd(s: string)
    ensures IdsFrom(s, |s|) == {}
  {}

  lemma BodyIds(s: string, v: string, ws: seq<Word>, t: Tail)
    requires Body(s, v, ws, t)
    ensures IdsFrom(s, 0) == NamedBy(ws) + IdsFrom(TailText(t), 0)
  {
    hide IdsFrom, Line, LineTo, Stops, TailText, BodyOf, NoIdAt, TailFrom;
    BodyLaid(s, v, ws, t);
    VerbHasNoRec(s, v, ws, t);
    SkipRun(s, 0, |v|);
    LineCollected(s, |v|, ws, |v| + |Line(ws)|);
    IdsFromTail(s, |v| + |Line(ws)|, t);
  }

  // ------------------------------------------------------------------ which verb

  /** The first of the words that is v or is found in the text. */
  function Leading(v: string, text: string, words: seq<string>): string {
    if words == [] then "unknown"
    else if words[0] == v || FindWord(text, words[0], 0).Some? then words[0]
    else Leading(v, text, words[1..])
  }

  lemma {:induction false} LeadingVerb(s: string, v: string, ws: seq<Word>, t: Tail, words: seq<string>)
    requires Body(s, v, ws, t) && forall u :: u in words ==> u in VERBS
    ensures FirstOf(s, words) == Leading(v, TailText(t), words)
  {
    hide FindWord, BodyOf, TailText, Line, VERBS, LineTo, Stops, TailFrom;
    if words != [] {
      var u := words[0];
      BodyLaid(s, v, ws, t);
      if u == v {
        VerbFound(s, v, ws, t);
      } else {
        OtherWord(s, v, ws, t, u);
        VerbLetters(u);
        FoundInTail(s, |v| + |Line(ws)|, t, u);
      }
      LeadingVerb(s, v, ws, t, words[1..]);
    }
  }

  // ------------------------------------------------------------------ filters

  /** The filters of a reply: for two of the verbs, the keywords it says. */
  function FiltersOf(v: string, ws: seq<Word>): seq<string> {
    if v == "implement" || v == "skip" then Listed(KEYWORDS, ws) else []
  }

  predicate CutsFilters(b: string) {
    b == "\n\n--" || b == "\n\n>" || b == "\n----" || b == "from:" || b == "sent:"
  }

  /** Whether the reply is cut off before what is quoted: at one of the five boundaries of the filter scan, which must
      not stand right after the verb. */
  predicate Severed(ws: seq<Word>, t: Tail) {
    t.NoTail? || (CutsFilters(t.b) && (ws != [] || Gap(t.b) != ""))
  }

  /** Boundaries tried before one that stands at e, and not inside it, cut nothing off before its end. */
  lemma {:induction false} CutLater(s: string, boundaries: seq<string>, e: nat, b: string)
    requires 0 < e && e + |b| <= |s|
    requires forall u, k: nat :: u in boundaries && k < e ==> !At(s, k, u)
    requires forall u, k: nat :: u in boundaries && e < k < e + |b| ==> !At(s, k, u)
    ensures var c := CutAt(s, boundaries); c <= s && (|c| == e || |c| >= e + |b|)
  {
    hide At, Find;
    if boundaries != [] {
      var init, u := boundaries[..|boundaries| - 1], boundaries[|boundaries| - 1];
      assert boundaries == init + [u] && u in boundaries;
      CutLater(s, init, e, b);
      FoundIn(s, CutAt(s, init), u);
    }
  }

  lemma FoundIn(s: string, c: string, u: string)
    requires c <= s
    ensures Find(c, u, 0).Some? ==> At(s, Find(c, u, 0).value, u) && Find(c, u, 0).value <= |c|
  {
    if Find(c, u, 0).Some? {
      FindIsAt(c, u, 0);
      var i := Find(c, u, 0).value;
      assert s[i..i + |u|] == c[i..i + |u|];
    }
  }

  lemma {:induction false} FindIsAt(s: string, u: string, i: nat)
    ensures Find(s, u, i).Some? ==> At(s, Find(s, u, i).value, u)
    decreases |s| - i
  {
    hide At;
    if i < |s| && !At(s, i, u) {
      FindIsAt(s, u, i + 1);
    }
  }

  /** What is cut at e stays so. */
  lemma {:induction false} CutStays(s: string, before: seq<string>, more: seq<string>, e: nat)
    requires 0 < e <= |s| && CutAt(s, before) == s[..e]
    requires forall u, k: nat :: u in more && k < e ==> !At(s, k, u)
    requires forall u :: u in more ==> u != ""
    ensures CutAt(s, before + more) == s[..e]
  {
    hide At, Find;
    if more == [] {
      assert before + more == before;
    } else {
      var init, u := more[..|more| - 1], more[|more| - 1];
      assert more == init + [u] && u in more;
      assert forall x :: x in init ==> x in more;
      assert (before + more)[..|before + more| - 1] == before + init;
      CutStays(s, before, init, e);
      FoundIn(s, s[..e], u);
      if Find(s[..e], u, 0).Some? {
        NotPastEnd(s[..e], u);
      }
    }
  }

  lemma NotPastEnd(c: string, u: string)
    requires Find(c, u, 0).Some? && u != ""
    ensures Find(c, u, 0).value < |c|
  {
    FindIsAt(c, u, 0);
  }

  lemma CutHere(s: string, before: seq<string>, e: nat, b: string)
    requires 0 < e && At(s, e, b) && b != "" && forall k: nat :: k < e ==> !At(s, k, b)
    requires var c := CutAt(s, before); c <= s && (|c| == e || |c| >= e + |b|)
    ensures CutAt(s, before + [b]) == s[..e]
  {
    hide At, CutAt, Find;
    var c := CutAt(s, before);
    assert (before + [b])[..|before|] == before;
    CutStep(s, before, b);
    assert c == s[..|c|];
    if |c| == e {
      FoundIn(s, c, b);
      if Find(c, b, 0).Some? {
        NotPastEnd(c, b);
      }
    } else {
      AtPrefix(s, c, e, b);
      forall k: nat | k < e ensures !At(c, k, b) {
        AtLonger(s, c, k, b);
      }
      FindFrom(c, b, 0, e);
      FindHere(c, b, e);
      assert c[..e] == s[..e];
    }
  }

  lemma CutStep(s: string, before: seq<string>, b: string)
    ensures CutAt(s, before + [b]) ==
            match Find(CutAt(s, before), b, 0)
            case None => CutAt(s, before)
            case Some(i) => if i > 0 then CutAt(s, before)[..i] else CutAt(s, before)
  {
    assert (before + [b])[..|before|] == before;
  }

  lemma AtPrefix(s: string, c: string, e: nat, b: string)
    requires c <= s && At(s, e, b) && e + |b| <= |c|
    ensures At(c, e, b)
  {
    assert c[e..e + |b|] == s[e..e + |b|];
  }

  lemma AtLonger(s: string, c: string, k: nat, b: string)
    requires c <= s
    ensures At(c, k, b) ==> At(s, k, b)
  {
    if At(c, k, b) {
      assert c[k..k + |b|] == s[k..k + |b|];
    }
  }

  /** Inside a boundary none of those tried before it starts. */
  lemma NoneInside(s: string, e: nat, n: nat, j: nat, k: nat)
    requires j < n < |QUOTE_BOUNDARIES| && At(s, e, QUOTE_BOUNDARIES[n]) && e < k < e + |QUOTE_BOUNDARIES[n]|
    ensures !At(s, k, QUOTE_BOUNDARIES[j])
  {
    var b, u := QUOTE_BOUNDARIES[n], QUOTE_BOUNDARIES[j];
    if At(s, k, u) {
      AtChar(s, e, b, k - e);
      AtChar(s, k, u, 0);
      if k + 1 < e + |b| {
        AtChar(s, e, b, k + 1 - e);
        AtChar(s, k, u, 1);
      }
    }
  }

  lemma CutAtQuote(s: string, e: nat, n: nat)
    requires n < |QUOTE_BOUNDARIES| && 0 < e && At(s, e, QUOTE_BOUNDARIES[n])
    requires forall u, k: nat :: u in QUOTE_BOUNDARIES && k < e ==> !At(s, k, u)
    ensures e <= |s| && CutAt(s, QUOTE_BOUNDARIES) == s[..e]
  {
    hide At, CutAt;
    var b := QUOTE_BOUNDARIES[n];
    var before, more := QUOTE_BOUNDARIES[..n], QUOTE_BOUNDARIES[n + 1..];
    assert b in QUOTE_BOUNDARIES && QUOTE_BOUNDARIES == before + [b] + more;
    AtLength(s, e, b);
    forall u, k: nat | u in before && e < k < e + |b| ensures !At(s, k, u) {
      var j :| 0 <= j < n && before[j] == u;
      NoneInside(s, e, n, j, k);
    }
    CutLater(s, before, e, b);
    CutHere(s, before, e, b);
    CutStays(s, before + [b], more, e);
  }

  lemma {:induction false} NoCut(s: string, boundaries: seq<string>)
    requires forall u, k: nat :: u in boundaries && k < |s| ==> !At(s, k, u)
    requires forall u :: u in boundaries ==> u != ""
    ensures CutAt(s, boundaries) == s
  {
    hide At, Find;
    if boundaries != [] {
      var init, u := boundaries[..|boundaries| - 1], boundaries[|boundaries| - 1];
      assert boundaries == init + [u] && u in boundaries;
      assert forall x :: x in init ==> x in boundaries;
      NoCut(s, init);
      if Find(s, u, 0).Some? {
        FindIsAt(s, u, 0);
        NotPastEnd(s, u);
      }
    }
  }

  lemma CutsFiltersIsBoundary(b: string)
    requires CutsFilters(b)
    ensures b in QUOTE_BOUNDARIES
  {}

  lemma QuotesNotEmpty()
    ensures forall u :: u in QUOTE_BOUNDARIES ==> u != ""
  {}

  /** A line of words with a tail is cut down to the line and the gap. */
  lemma LineCut(ws: seq<Word>, t: Tail)
    requires AllShaped(ws) && Boundary(t) && Severed(ws, t)
    ensures CutAt(Line(ws) + TailText(t), QUOTE_BOUNDARIES) == Line(ws) + GapOf(t)
  {
    hide Line, At, CutAt, QuoteStart, CutsFilters, QUOTE_BOUNDARIES, IsBoundary, TailText, Stops, Shaped, GapOf;
    var s, z := Line(ws) + TailText(t), |Line(ws)|;
    var e := z + |GapOf(t)|;
    assert s[0..z] == Line(ws) && s[z..] == TailText(t);
    NoQuoteEarlier(s, ws, z, t);
    BodyCut(s, z, t);
    if t.NoTail? {
      QuotesNotEmpty();
      NoTailText();
      GapOfNothing();
      NoCut(s, QUOTE_BOUNDARIES);
    } else {
      TailAt(s, z, t);
      LineNotEmpty(ws);
      CutsFiltersIsBoundary(t.b);
      GapOfQuoted(t);
      var n :| 0 <= n < |QUOTE_BOUNDARIES| && QUOTE_BOUNDARIES[n] == t.b;
      CutAtQuote(s, e, n);
      assert s[..e] == s[0..z] + s[z..e];
    }
  }

  lemma NoQuoteEarlier(s: string, ws: seq<Word>, z: nat, t: Tail)
    requires AllShaped(ws) && Boundary(t) && s == Line(ws) + TailText(t) && z == |Line(ws)|
    ensures forall u, k: nat :: u in QUOTE_BOUNDARIES && k < z + |GapOf(t)| ==> !At(s, k, u)
  {
    hide Line, At, QUOTE_BOUNDARIES, REPLY_BOUNDARIES, IsBoundary, TailText, Stops, Shaped, QuoteStart, GapOf;
    assert s[0..z] == Line(ws) && s[z..] == TailText(t);
    TailStops(s, z, t);
    BoundariesAre();
    forall u, k: nat | u in QUOTE_BOUNDARIES && k < z + |GapOf(t)| ensures !At(s, k, u) {
      NoneEarlier(s, 0, ws, z, t, u, k);
    }
  }

  lemma GapOfNothing()
    ensures GapOf(NoTail) == ""
  {}

  lemma GapOfQuoted(t: Tail)
    requires t.Quoted?
    ensures GapOf(t) == Gap(t.b)
  {}

  lemma LineNotEmpty(ws: seq<Word>)
    ensures ws != [] ==> Line(ws) != ""
  {}

  lemma FiltersHeard(s: string, v: string, ws: seq<Word>, t: Tail)
    requires Body(s, v, ws, t) && Severed(ws, t)
    ensures Filters(s, v) == FiltersOf(v, ws)
  {
    hide FindWord, CutAt, WordsIn, Listed, Foreign, Line, TailText, LineTo, Stops, Shaped, KEYWORDS, QUOTE_BOUNDARIES;
    VerbFound(s, v, ws, t);
    var scan := s[|v|..];
    assert scan == Line(ws) + TailText(t) && s[0 + |v|..] == scan;
    LineCut(ws, t);
    var text, z := Line(ws) + GapOf(t), |Line(ws)|;
    GapIsGap(t);
    GapLine(ws, GapOf(t));
    ForeignWords();
    forall u | u in KEYWORDS ensures FindWord(text, u, z) == None {
      ForeignLetters(u);
      NothingInGap(text, z, u);
    }
    KeywordsHeard(text, 0, ws, z, KEYWORDS);
  }

  lemma GapIsGap(t: Tail)
    ensures IsGap(GapOf(t))
  {}

  lemma NothingInGap(s: string, z: nat, u: string)
    requires z <= |s| && IsGap(s[z..]) && u != "" && Letters(u)
    ensures FindWord(s, u, z) == None
  {
    hide WordAt;
    NothingFound(s, u);
    if z < |s| {
      assert s[z..][0] == s[z];
      NoLetterWord(s, z, u);
      FindSkip(s, u, z, z + 1);
    }
  }

  lemma SayStays(w: Word, t: string)
    ensures Say(t) in AfterIdRanges(w) <==> w == Say(t)
    ensures Say(t) in AfterBareRanges(w) <==> w == Say(t)
    ensures Say(t) in AfterBareIds(w) <==> w == Say(t)
  {
    hide Ids, TailRun, TailValue;
    if w.Range? {
      forall a: nat, b: nat ensures Say(t) !in Ids(a, b) {
        IdsSayNothing(a, b);
      }
    }
  }

  lemma {:induction false} IdsSayNothing(a: nat, b: nat)
    ensures forall w :: w in Ids(a, b) ==> w.One?
    decreases b - a
  {
    if a < b {
      IdsSayNothing(a + 1, b);
    }
  }

  lemma {:induction false} EachSays(ws: seq<Word>, f: Word -> seq<Word>, t: string)
    requires forall w :: Say(t) in f(w) <==> w == Say(t)
    ensures Say(t) in Each(ws, f) <==> Say(t) in ws
  {
    if ws != [] {
      EachSays(ws[1..], f, t);
      assert ws == [ws[0]] + ws[1..];
    }
  }

  lemma FinalSays(ws: seq<Word>, t: string)
    ensures Say(t) in Final(ws) <==> Say(t) in ws
  {
    hide Each, AfterIdRanges, AfterBareRanges, AfterBareIds;
    forall w
      ensures Say(t) in AfterIdRanges(w) <==> w == Say(t)
      ensures Say(t) in AfterBareRanges(w) <==> w == Say(t)
      ensures Say(t) in AfterBareIds(w) <==> w == Say(t)
    {
      SayStays(w, t);
    }
    EachSays(ws, AfterIdRanges, t);
    EachSays(Each(ws, AfterIdRanges), AfterBareRanges, t);
    EachSays(Each(Each(ws, AfterIdRanges), AfterBareRanges), AfterBareIds, t);
  }

  lemma {:induction false} FinalListed(words: seq<string>, ws: seq<Word>)
    ensures Listed(words, Final(ws)) == Listed(words, ws)
  {
    hide Final;
    if words != [] {
      FinalListed(words[..|words| - 1], ws);
      FinalSays(ws, words[|words| - 1]);
    }
  }
}
