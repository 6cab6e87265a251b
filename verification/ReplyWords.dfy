/** The words an operator writes after the verb, and what each pass of the parser makes of one of them. */
module ReplyWords {
  import opened Sequences
  import opened Decimals
  import opened ReplyParser

  /** rec-007, 7 and r-a1b2c3d4. */
  datatype End = Id(n: nat) | Bare(n: nat) | Uid(h: string)

  datatype Separator = Hyphen | EnDash | EmDash | To | Thru | Through

  /** A separator with any number of spaces around it. */
  datatype Glue = Glue(before: nat, sep: Separator, after: nat)

  /** A single selector, two of any kind with a separator between them, a comma, a further space, and any other
      word, bulk keywords among them. */
  datatype Word = One(x: End) | Range(l: End, g: Glue, r: End) | Comma | Empty | Say(t: string)

  function EndText(x: End): string {
    match x
    case Id(n) => IdText(n)
    case Bare(n) => Numeral(n)
    case Uid(h) => "r-" + h
  }

  function SepText(p: Separator): string {
    match p
    case Hyphen => "-"
    case EnDash => "\U{2013}"
    case EmDash => "\U{2014}"
    case To => "to"
    case Thru => "thru"
    case Through => "through"
  }

  function Spaces(n: nat): string { seq(n, i => ' ') }

  function GlueText(g: Glue): string { Spaces(g.before) + (SepText(g.sep) + Spaces(g.after)) }

  function Text(w: Word): string {
    match w
    case One(x) => EndText(x)
    case Range(l, g, r) => EndText(l) + (GlueText(g) + EndText(r))
    case Comma => ""
    case Empty => ""
    case Say(t) => t
  }

  /** A word comes after a space, a comma after nothing. */
  function Lead(w: Word): char { if w.Comma? then ',' else ' ' }

  function Line(ws: seq<Word>): string {
    if ws == [] then "" else [Lead(ws[0])] + Text(ws[0]) + Line(ws[1..])
  }

  predicate AllHex(h: string) { forall c :: c in h ==> IsHex(c) }

  predicate IsLetter(c: char) { 'a' <= c <= 'z' }

  predicate Letters(t: string) { forall c :: c in t ==> IsLetter(c) }

  const JOINERS: seq<string> := ["to", "thru", "through"]
  const WEEKDAYS: seq<string> := ["mon", "tue", "wed", "thu", "fri", "sat", "sun"]

  /** A word that is no verb, no separator and no weekday of a reply boundary. */
  predicate SayWord(t: string) { t != "" && Letters(t) && t !in VERBS && t !in JOINERS && t !in WEEKDAYS }

  predicate ShapedEnd(x: End) { x.Uid? ==> 1 <= |x.h| <= 8 && AllHex(x.h) }

  /** The words of a line at any stage of the parser. */
  predicate Shaped(w: Word) {
    match w
    case One(x) => ShapedEnd(x)
    case Range(l, g, r) => ShapedEnd(l) && ShapedEnd(r)
    case Comma => true
    case Empty => true
    case Say(t) => SayWord(t)
  }

  predicate WrittenEnd(x: End) { x.Uid? ==> |x.h| == 8 && AllHex(x.h) }

  /** The words an operator writes: their uids are whole. */
  predicate Written(w: Word) {
    match w
    case One(x) => WrittenEnd(x)
    case Range(l, g, r) => WrittenEnd(l) && WrittenEnd(r)
    case Comma => true
    case Empty => true
    case Say(t) => SayWord(t)
  }

  function Ids(a: nat, b: nat): seq<Word>
    decreases b - a
  {
    if a >= b then [One(Id(a))] else [One(Id(a))] + Ids(a + 1, b)
  }

  predicate AllShaped(ws: seq<Word>) { forall w :: w in ws ==> Shaped(w) }

  predicate InSpan(a: nat, b: nat) { a <= b <= MAX_ID && b - a <= MAX_SPAN }

  // ------------------------------------------------------------------ the digits a uid ends in

  function TailRun(h: string): (t: nat)
    ensures t <= |h|
  {
    if h != "" && IsDigit(h[|h| - 1]) then TailRun(h[..|h| - 1]) + 1 else 0
  }

  lemma {:induction false} TailRunIs(h: string)
    ensures var k := |h| - TailRun(h);
            AllDigits(h[k..]) && (k > 0 ==> !IsDigit(h[k - 1]))
  {
    if h != "" && IsDigit(h[|h| - 1]) {
      var init := h[..|h| - 1];
      TailRunIs(init);
      assert h[|h| - TailRun(h)..] == init[|init| - TailRun(init)..] + [h[|h| - 1]];
    }
  }

  function TailStart(h: string): nat { |h| - TailRun(h) }

  function TailValue(h: string): nat { ValueAt(h, TailStart(h), |h|) }

  /** The number a uid ends in reads as the start of a bare range up to b. */
  predicate EatsUid(h: string, b: nat) { 1 <= TailRun(h) <= 3 && 1 <= TailValue(h) && InSpan(TailValue(h), b) }

  // ------------------------------------------------------------------ what each pass makes of a word

  function AfterIdRanges(w: Word): seq<Word> {
    if w.Range? && w.l.Id? && w.r.Id? && InSpan(w.l.n, w.r.n) then Ids(w.l.n, w.r.n) else [w]
  }

  function AfterBareRanges(w: Word): seq<Word> {
    if w.Range? && w.l.Bare? && w.r.Bare? && 1 <= w.l.n && InSpan(w.l.n, w.r.n) then
      [Empty] + Ids(w.l.n, w.r.n) + [Empty]
    else if w.Range? && w.l.Uid? && w.r.Bare? && EatsUid(w.l.h, w.r.n) then
      [One(Uid(w.l.h[..TailStart(w.l.h)]))] + Ids(TailValue(w.l.h), w.r.n) + [Empty]
    else [w]
  }

  predicate Wordy(p: Separator) { p.To? || p.Thru? || p.Through? }

  /** What stands before the separator ends in a word boundary, and what stands after starts with one. */
  predicate LeftFree(g: Glue) { g.before > 0 || !Wordy(g.sep) }

  predicate RightFree(g: Glue) { g.after > 0 || !Wordy(g.sep) }

  /** A number right after a hyphen is not read as an id. */
  predicate Guards(g: Glue) { g.after == 0 && g.sep.Hyphen? }

  function Counted(x: End): End { if x.Bare? && 1 <= x.n <= MAX_ID then Id(x.n) else x }

  function AfterBareIds(w: Word): seq<Word> {
    match w
    case One(x) => [One(Counted(x))]
    case Range(l, g, r) => [Range(Counted(l), g, if Guards(g) then r else Counted(r))]
    case Comma => [w]
    case Empty => [w]
    case Say(t) => [w]
  }

  function NamedEnd(x: End): set<string> {
    match x
    case Id(n) => if n <= MAX_ID then {IdText(n)} else {}
    case Bare(n) => {}
    case Uid(h) => if |h| == 8 then {"r-" + h} else {}
  }

  function Named(w: Word): set<string> {
    match w
    case One(x) => NamedEnd(x)
    case Range(l, g, r) => (if LeftFree(g) then NamedEnd(l) else {}) + if RightFree(g) then NamedEnd(r) else {}
    case Comma => {}
    case Empty => {}
    case Say(t) => {}
  }

  // ------------------------------------------------------------------ reading a line from a position

  lemma {:induction false} NumeralShape(n: nat)
    ensures AllDigits(Numeral(n)) && Numeral(n) != "" && Value(Numeral(n)) == n
    ensures |Numeral(n)| <= 3 <==> n <= MAX_ID
  {
    NumeralDigits(n);
    if n >= 10 { NumeralDigits(n / 10); }
    if n >= 100 { NumeralDigits(n / 100); assert n / 10 / 10 == n / 100; }
    if n >= 1000 { NumeralDigits(n / 1000); assert n / 100 / 10 == n / 1000; }
  }

  lemma IdShape(n: nat)
    ensures |IdText(n)| >= 7 && IdText(n)[..4] == "rec-" && AllDigits(IdText(n)[4..])
    ensures |IdText(n)| == 7 <==> n <= MAX_ID
    ensures n <= MAX_ID ==> Value(IdText(n)[4..7]) == n
  {
    Pad3Value(n);
    Pad3Length(n);
    assert IdText(n)[4..] == Pad3(n);
    if n <= MAX_ID {
      assert IdText(n)[4..7] == Pad3(n);
    }
  }

  /** s reads t at j, after a space. */
  predicate Reads(s: string, j: nat, t: string) { 1 <= j && At(s, j, t) && s[j - 1] == ' ' }

  predicate Edge(s: string, e: nat) {
    e == |s| || (e < |s| && (s[e] == ' ' || s[e] == ',' || s[e] == '\n'))
  }

  /** Nothing after e runs on from what stands before it. */
  predicate Stops(s: string, e: nat) { Edge(s, e) && Unjoined(s, e) }

  /** s holds the words from i to z. */
  predicate LineTo(s: string, i: nat, ws: seq<Word>, z: nat) { i <= z <= |s| && s[i..z] == Line(ws) && Stops(s, z) }

  lemma SliceOfSlice(s: string, i: nat, z: nat, a: nat, b: nat)
    requires i <= z <= |s| && a <= b <= z - i
    ensures s[i..z][a..b] == s[i + a..i + b]
  {
    forall k | 0 <= k < b - a ensures s[i..z][a..b][k] == s[i + a..i + b][k] {
      assert s[i..z][a + k] == s[i + (a + k)];
    }
  }

  lemma Enter(s: string, i: nat, ws: seq<Word>, z: nat)
    requires LineTo(s, i, ws, z) && ws != []
    ensures i < |s| && s[i] == Lead(ws[0]) && At(s, i + 1, Text(ws[0]))
    ensures LineTo(s, i + 1 + |Text(ws[0])|, ws[1..], z)
    ensures !ws[0].Comma? ==> Reads(s, i + 1, Text(ws[0]))
  {
    hide Text, Stops;
    var t, rest := Text(ws[0]), Line(ws[1..]);
    ThreeParts(s, i, z, Lead(ws[0]), t, rest);
  }

  lemma ThreeParts(s: string, i: nat, z: nat, c: char, t: string, rest: string)
    requires i <= z <= |s| && s[i..z] == [c] + t + rest
    ensures i < |s| && s[i] == c && i + 1 + |t| <= z
    ensures s[i + 1..i + 1 + |t|] == t && s[i + 1 + |t|..z] == rest
  {
    var part := s[i..z];
    assert i + 1 + |t| + |rest| == z;
    assert s[i] == part[0];
    assert part[1..1 + |t|] == t && part[1 + |t|..z - i] == rest;
    SliceOfSlice(s, i, z, 1, 1 + |t|);
    SliceOfSlice(s, i, z, 1 + |t|, z - i);
  }

  lemma LineEdge(s: string, i: nat, ws: seq<Word>, z: nat)
    requires LineTo(s, i, ws, z)
    ensures Edge(s, i)
  {
    hide Text, Unjoined;
    if ws != [] {
      Enter(s, i, ws, z);
    }
  }

  lemma AtChar(s: string, j: nat, t: string, k: nat)
    requires At(s, j, t) && k < |t|
    ensures j + k < |s| && s[j + k] == t[k]
  {
    assert s[j..j + |t|][k] == s[j + k];
  }

  lemma FirstChar(s: string, i: nat, t: string)
    requires t != ""
    ensures At(s, i, t) ==> s[i] == t[0]
  {
    if At(s, i, t) {
      AtChar(s, i, t, 0);
    }
  }

  lemma SecondChar(s: string, i: nat, t: string)
    requires |t| >= 2
    ensures At(s, i, t) ==> s[i + 1] == t[1]
  {
    if At(s, i, t) {
      AtChar(s, i, t, 1);
    }
  }

  lemma AtSplit(s: string, j: nat, t: string, u: string)
    requires At(s, j, t + u)
    ensures At(s, j, t) && At(s, j + |t|, u)
  {
    var all := s[j..j + |t + u|];
    assert all[..|t|] == t && all[|t|..] == u;
    assert s[j..j + |t|] == all[..|t|];
    assert s[j + |t|..j + |t| + |u|] == all[|t|..];
  }

  lemma EndStart(x: End)
    ensures EndText(x) != "" && (EndText(x)[0] == 'r' || IsDigit(EndText(x)[0]))
  {
    match x
    case Id(n) => IdShape(n); assert IdText(n)[0] == IdText(n)[..4][0];
    case Bare(n) => NumeralShape(n);
    case Uid(h) =>
  }

  lemma TextStart(w: Word)
    ensures w.One? || w.Range? ==> Text(w) != "" && (Text(w)[0] == 'r' || IsDigit(Text(w)[0]))
    ensures w.Empty? || w.Comma? ==> Text(w) == ""
  {
    hide EndText, GlueText;
    if w.One? {
      EndStart(w.x);
    } else if w.Range? {
      EndStart(w.l);
    }
  }

  predicate RecHere(s: string, j: nat) {
    j + 4 <= |s| && s[j] == 'r' && s[j + 1] == 'e' && s[j + 2] == 'c' && s[j + 3] == '-'
  }

  /** No separator with an id or a number after it follows at i. */
  predicate Unjoined(s: string, i: nat)
    requires i <= |s|
  {
    var p := SpacesEnd(s, i);
    var n := SeparatorLen(s, p);
    n == 0 || (var r := SpacesEnd(s, p + n); !DigitAt(s, r) && !RecHere(s, r))
  }

  lemma NotASeparator(s: string, i: nat)
    requires i < |s| && (s[i] == ',' || IsHex(s[i]) || (IsLetter(s[i]) && s[i] != 't'))
    ensures SpacesEnd(s, i) == i && SeparatorLen(s, i) == 0
  {
    FirstChar(s, i, "-");
    FirstChar(s, i, "\U{2013}");
    FirstChar(s, i, "\U{2014}");
    FirstChar(s, i, "to");
    FirstChar(s, i, "thru");
    FirstChar(s, i, "through");
  }

  predicate LettersHere(s: string, j: nat, e: nat) {
    j < e <= |s| && forall k :: j <= k < e ==> IsLetter(s[k])
  }

  lemma SayReads(s: string, j: nat, t: string)
    requires At(s, j, t) && t != "" && Letters(t)
    ensures LettersHere(s, j, j + |t|)
  {
    forall k | j <= k < j + |t| ensures IsLetter(s[k]) {
      AtChar(s, j, t, k - j);
      assert t[k - j] in t;
    }
  }

  /** What starts a run of letters and is not all of it is shorter. */
  lemma ShorterPrefix(s: string, j: nat, t: string, u: string)
    requires At(s, j, t) && t != "" && Letters(t) && Edge(s, j + |t|)
    requires At(s, j, u) && Letters(u) && t != u
    ensures |u| < |t|
  {
    assert forall k :: 0 <= k < |u| ==> u[k] in u;
    if |u| > |t| {
      AtChar(s, j, u, |t|);
    }
  }

  /** No rec- starts in a run of letters. */
  lemma LettersNoRec(s: string, j: nat, e: nat)
    requires LettersHere(s, j, e) && Edge(s, e)
    ensures forall k: nat :: j <= k < e ==> !RecHere(s, k) && (k + 1 < |s| ==> s[k + 1] != '-')
  {}

  lemma LetterSeparator(s: string, j: nat)
    requires j < |s| && IsLetter(s[j])
    ensures SpacesEnd(s, j) == j
    ensures SeparatorLen(s, j) == 0 || exists u :: u in JOINERS && At(s, j, u) && |u| == SeparatorLen(s, j)
  {
    FirstChar(s, j, "-");
    FirstChar(s, j, "\U{2013}");
    FirstChar(s, j, "\U{2014}");
    assert "to" in JOINERS && "thru" in JOINERS && "through" in JOINERS;
  }

  lemma JoinerLetters(u: string)
    requires u in JOINERS
    ensures Letters(u)
  {}

  lemma NoJoiner(t: string, u: string)
    requires SayWord(t) && u in JOINERS
    ensures t != u && t != "" && Letters(t)
  {}

  lemma LetterEndsSpaces(s: string, r: nat)
    requires r < |s| && IsLetter(s[r])
    ensures SpacesEnd(s, r) == r && !DigitAt(s, r)
  {}

  /** A word that starts like a separator goes on with a letter, not with a number or an id. */
  lemma SayUnjoined(s: string, j: nat, t: string)
    requires At(s, j, t) && SayWord(t) && Edge(s, j + |t|)
    ensures j <= |s| && Unjoined(s, j)
  {
    hide SeparatorLen, SayWord, RecHere, At, Edge, JOINERS;
    SayLetters(t);
    SayReads(s, j, t);
    LetterSeparator(s, j);
    var n := SeparatorLen(s, j);
    if n > 0 {
      var u :| u in JOINERS && At(s, j, u) && |u| == n;
      NoJoiner(t, u);
      JoinerLetters(u);
      ShorterPrefix(s, j, t, u);
      LetterEndsSpaces(s, j + n);
      LettersNoRec(s, j, j + |t|);
    }
  }

  lemma SayLetters(t: string)
    requires SayWord(t)
    ensures t != "" && Letters(t)
  {}

  lemma NotJoined(s: string, i: nat)
    requires i < |s| && (s[i] == ',' || IsHex(s[i]) || (IsLetter(s[i]) && s[i] != 't'))
    ensures Unjoined(s, i)
  {
    NotASeparator(s, i);
  }

  lemma SpaceBefore(s: string, i: nat)
    requires i < |s| && s[i] == ' ' && Unjoined(s, i + 1)
    ensures Unjoined(s, i)
  {}

  /** Between words there is never a range separator that joins them, however many spaces there are. */
  lemma {:induction false} NothingJoins(s: string, i: nat, ws: seq<Word>, z: nat)
    requires LineTo(s, i, ws, z) && AllShaped(ws)
    ensures Unjoined(s, i)
    decreases |ws|
  {
    hide Text, SeparatorLen, Unjoined, SayWord;
    if ws == [] {
      assert i == z;
    } else {
      Enter(s, i, ws, z);
      var w := ws[0];
      assert w in ws && Shaped(w);
      TextStart(w);
      if w.Comma? {
        NotJoined(s, i);
      } else {
        if w.Empty? {
          NothingJoins(s, i + 1, ws[1..], z);
        } else if w.Say? {
          SayText(w.t);
          LineEdge(s, i + 1 + |Text(w)|, ws[1..], z);
          SayUnjoined(s, i + 1, w.t);
        } else {
          AtChar(s, i + 1, Text(w), 0);
          NotJoined(s, i + 1);
        }
        SpaceBefore(s, i);
      }
    }
  }

  /** Wherever a line is entered the text before it stops. */
  lemma LineStops(s: string, i: nat, ws: seq<Word>, z: nat)
    requires LineTo(s, i, ws, z) && AllShaped(ws)
    ensures Stops(s, i)
  {
    LineEdge(s, i, ws, z);
    NothingJoins(s, i, ws, z);
  }

  lemma NothingAtEnd(s: string)
    ensures Unjoined(s, |s|)
  {}

  lemma SayText(t: string)
    ensures Text(Say(t)) == t
  {}

  // ------------------------------------------------------------------ what stands where an end is read

  predicate DigitsHere(s: string, j: nat, e: nat) {
    j < e <= |s| && forall k :: j <= k < e ==> IsDigit(s[k])
  }

  lemma IsRec(s: string, i: nat)
    ensures At(s, i, "rec-") <==> RecHere(s, i)
  {
    if At(s, i, "rec-") {
      AtChar(s, i, "rec-", 0);
      AtChar(s, i, "rec-", 1);
      AtChar(s, i, "rec-", 2);
      AtChar(s, i, "rec-", 3);
    }
  }

  /** The characters of s from j to e, where it reads the end x. */
  predicate EndIs(s: string, j: nat, e: nat, x: End) {
    match x
    case Id(n) =>
      && j + 7 <= e && RecHere(s, j) && DigitsHere(s, j + 4, e)
      && (e == j + 7 <==> n <= MAX_ID) && (n <= MAX_ID ==> ValueAt(s, j + 4, j + 7) == n)
    case Bare(n) =>
      DigitsHere(s, j, e) && (e <= j + 3 <==> n <= MAX_ID) && ValueAt(s, j, e) == n
    case Uid(h) =>
      && j + 2 < e <= j + 10 && e <= |s| && s[j] == 'r' && s[j + 1] == '-' && s[j + 2..e] == h
      && forall k :: j + 2 <= k < e ==> IsHex(s[k])
  }

  lemma EndReads(s: string, j: nat, x: End)
    requires At(s, j, EndText(x)) && ShapedEnd(x)
    ensures EndIs(s, j, j + |EndText(x)|, x) && j < j + |EndText(x)| <= |s|
  {
    hide IdText, Numeral;
    match x
    case Id(n) => IdReads(s, j, n);
    case Bare(n) => NumeralReads(s, j, n);
    case Uid(h) => UidReads(s, j, h);
  }

  lemma IdReads(s: string, j: nat, n: nat)
    requires At(s, j, IdText(n))
    ensures EndIs(s, j, j + |IdText(n)|, Id(n))
  {
    hide IdText;
    IdShape(n);
    var t := IdText(n);
    assert t == "rec-" + t[4..];
    AtSplit(s, j, "rec-", t[4..]);
    IsRec(s, j);
    forall k | j + 4 <= k < j + |t| ensures IsDigit(s[k]) {
      AtChar(s, j + 4, t[4..], k - j - 4);
    }
    if n <= MAX_ID {
      assert t[4..7] == t[4..];
    }
  }

  lemma NumeralReads(s: string, j: nat, n: nat)
    requires At(s, j, Numeral(n))
    ensures EndIs(s, j, j + |Numeral(n)|, Bare(n))
  {
    hide Numeral;
    NumeralShape(n);
    forall k | j <= k < j + |Numeral(n)| ensures IsDigit(s[k]) {
      AtChar(s, j, Numeral(n), k - j);
    }
  }

  lemma UidReads(s: string, j: nat, h: string)
    requires At(s, j, "r-" + h) && ShapedEnd(Uid(h))
    ensures EndIs(s, j, j + 2 + |h|, Uid(h))
  {
    AtSplit(s, j, "r-", h);
    AtChar(s, j, "r-", 0);
    AtChar(s, j, "r-", 1);
    forall k | j + 2 <= k < j + 2 + |h| ensures IsHex(s[k]) {
      AtChar(s, j + 2, h, k - j - 2);
    }
  }

  // ------------------------------------------------------------------ what stands where a separator is read

  lemma SepChars(p: Separator)
    ensures 1 <= |SepText(p)| <= 7
    ensures forall c :: c in SepText(p) ==>
            !IsHex(c) && c != ' ' && (IsWordChar(c) <==> Wordy(p)) && (c == '-' <==> p.Hyphen?)
    ensures forall k :: 0 <= k < |SepText(p)| && SepText(p)[k] == 'r' ==>
              k + 1 < |SepText(p)| && SepText(p)[k + 1] != 'e' && SepText(p)[k + 1] != '-'
  {}

  /** The characters of s from m to r, where it reads the glue g. */
  predicate GlueIs(s: string, m: nat, r: nat, g: Glue) {
    && m < r <= |s|
    && (forall k :: m <= k < r ==> !IsHex(s[k]))
    && (forall k :: m <= k < r && s[k] == 'r' ==> k + 1 < r && s[k + 1] != 'e' && s[k + 1] != '-')
    && (s[r - 1] == '-' <==> Guards(g))
    && (IsWordChar(s[m]) <==> !LeftFree(g)) && (IsWordChar(s[r - 1]) <==> !RightFree(g))
  }

  /** Spaces, a separator, spaces. */
  predicate GlueLaid(s: string, m: nat, g: Glue) {
    && m + g.before + |SepText(g.sep)| + g.after <= |s|
    && (forall k :: m <= k < m + g.before ==> s[k] == ' ')
    && At(s, m + g.before, SepText(g.sep))
    && (forall k :: m + g.before + |SepText(g.sep)| <= k < m + |GlueText(g)| ==> s[k] == ' ')
  }

  lemma GlueLength(g: Glue)
    ensures |GlueText(g)| == g.before + |SepText(g.sep)| + g.after
  {}

  lemma GlueLayout(s: string, m: nat, g: Glue)
    requires At(s, m, GlueText(g))
    ensures GlueLaid(s, m, g)
  {
    hide At, SepText;
    AtSplit(s, m, Spaces(g.before), SepText(g.sep) + Spaces(g.after));
    AtSplit(s, m + g.before, SepText(g.sep), Spaces(g.after));
    forall k | m <= k < m + g.before ensures s[k] == ' ' {
      AtChar(s, m, Spaces(g.before), k - m);
    }
    var p := m + g.before + |SepText(g.sep)|;
    forall k | p <= k < p + g.after ensures s[k] == ' ' {
      AtChar(s, p, Spaces(g.after), k - p);
    }
    AtLength(s, p, Spaces(g.after));
  }

  lemma AtLength(s: string, j: nat, t: string)
    requires At(s, j, t)
    ensures j + |t| <= |s|
  {}

  lemma GlueReads(s: string, m: nat, g: Glue)
    requires At(s, m, GlueText(g))
    ensures GlueIs(s, m, m + |GlueText(g)|, g)
  {
    hide SepText, GlueText, At;
    GlueLayout(s, m, g);
    GlueLength(g);
    SepChars(g.sep);
    var q, t := m + g.before, SepText(g.sep);
    forall k | q <= k < q + |t| ensures s[k] == t[k - q] && s[k] in t {
      AtChar(s, q, t, k - q);
    }
    assert forall k :: m <= k < m + |GlueText(g)| ==> s[k] == ' ' || (q <= k < q + |t| && s[k] in t);
  }

  lemma {:induction false} SpacesEndIs(s: string, p: nat, q: nat)
    requires p <= q <= |s| && (forall k :: p <= k < q ==> s[k] == ' ') && (q == |s| || !IsSpace(s[q]))
    ensures SpacesEnd(s, p) == q
    decreases q - p
  {
    if p < q {
      SpacesEndIs(s, p + 1, q);
    }
  }

  lemma SepSeparates(s: string, p: nat, sep: Separator)
    requires At(s, p, SepText(sep))
    ensures p < |s| && !IsSpace(s[p]) && SeparatorLen(s, p) == |SepText(sep)|
  {
    var t := SepText(sep);
    AtChar(s, p, t, 0);
    FirstChar(s, p, "-");
    FirstChar(s, p, "\U{2013}");
    FirstChar(s, p, "\U{2014}");
    if Wordy(sep) {
      AtChar(s, p, t, 1);
      SecondChar(s, p, "to");
      if sep.Through? {
        AtChar(s, p, t, 3);
        if At(s, p, "thru") {
          AtChar(s, p, "thru", 3);
        }
      }
    }
  }

  /** Glue reads as a separator wherever something other than a space follows. */
  lemma GlueSeparates(s: string, m: nat, g: Glue)
    requires At(s, m, GlueText(g)) && m + |GlueText(g)| < |s| && !IsSpace(s[m + |GlueText(g)|])
    ensures m <= |s| && SeparatorLen(s, SpacesEnd(s, m)) > 0
    ensures SpacesEnd(s, SpacesEnd(s, m) + SeparatorLen(s, SpacesEnd(s, m))) == m + |GlueText(g)|
  {
    hide At, SeparatorLen, SepText, GlueText;
    GlueLayout(s, m, g);
    GlueLength(g);
    SepChars(g.sep);
    SepSeparates(s, m + g.before, g.sep);
    SpacesEndIs(s, m, m + g.before);
    SpacesEndIs(s, m + g.before + |SepText(g.sep)|, m + |GlueText(g)|);
  }

  // ------------------------------------------------------------------ what stands where a range is read

  /** s reads l from j to m, the glue g from m to k, and r from k to e, after a space. */
  predicate RangeHere(s: string, j: nat, m: nat, k: nat, e: nat, l: End, g: Glue, r: End) {
    && 1 <= j < m < k < e <= |s| && s[j - 1] == ' ' && At(s, m, GlueText(g)) && k == m + |GlueText(g)|
    && EndIs(s, j, m, l) && GlueIs(s, m, k, g) && EndIs(s, k, e, r)
  }

  lemma RangeReads(s: string, j: nat, l: End, g: Glue, r: End)
    requires Reads(s, j, Text(Range(l, g, r))) && Shaped(Range(l, g, r))
    ensures var m := j + |EndText(l)|; var k := m + |GlueText(g)|;
            && RangeHere(s, j, m, k, j + |Text(Range(l, g, r))|, l, g, r)
               && k + |EndText(r)| == j + |Text(Range(l, g, r))|
            && At(s, j, EndText(l)) && At(s, k, EndText(r)) && j < m < k < j + |Text(Range(l, g, r))| <= |s|
  {
    hide EndText, GlueText, At, EndIs, GlueIs, ShapedEnd, Text;
    RangeText(l, g, r);
    AtSplit(s, j, EndText(l), GlueText(g) + EndText(r));
    AtSplit(s, j + |EndText(l)|, GlueText(g), EndText(r));
    EndReads(s, j, l);
    GlueReads(s, j + |EndText(l)|, g);
    EndReads(s, j + |EndText(l)| + |GlueText(g)|, r);
    GlueNotEmpty(s, j + |EndText(l)|, j + |EndText(l)| + |GlueText(g)|, g);
  }

  lemma RangeText(l: End, g: Glue, r: End)
    ensures Text(Range(l, g, r)) == EndText(l) + (GlueText(g) + EndText(r))
    ensures |Text(Range(l, g, r))| == |EndText(l)| + |GlueText(g)| + |EndText(r)|
  {
    hide EndText, GlueText;
  }

  lemma GlueNotEmpty(s: string, m: nat, k: nat, g: Glue)
    requires GlueIs(s, m, k, g)
    ensures m < k <= |s|
  {}

  /** Where a range is read, its separator is followed by its second end. */
  lemma RangeSeparates(s: string, j: nat, m: nat, k: nat, e: nat, l: End, g: Glue, r: End)
    requires RangeHere(s, j, m, k, e, l, g, r)
    ensures SeparatorLen(s, SpacesEnd(s, m)) > 0
    ensures SpacesEnd(s, SpacesEnd(s, m) + SeparatorLen(s, SpacesEnd(s, m))) == k
  {
    hide At, SeparatorLen, GlueText, GlueIs, ValueAt;
    GlueSeparates(s, m, g);
  }

  // ------------------------------------------------------------------ lines

  /** Where nothing matches, text is copied. */
  lemma {:induction false} CopyRun(s: string, i: nat, j: nat, end: (string, nat) -> nat,
                                   expand: (string, nat) -> string)
    requires i <= j <= |s| && forall k: nat :: i <= k < j ==> end(s, k) == 0
    ensures Sub(s, i, end, expand) == s[i..j] + Sub(s, j, end, expand)
    decreases j - i
  {
    if i < j {
      CopyRun(s, i + 1, j, end, expand);
      assert end(s, i) == 0;
      var rest := Sub(s, j, end, expand);
      assert s[i..j] == [s[i]] + s[i + 1..j];
      assert [s[i]] + (s[i + 1..j] + rest) == s[i..j] + rest;
    } else {
      assert s[i..j] == "";
    }
  }

  lemma {:induction false} DigitsEndIs(s: string, i: nat, e: nat)
    requires i <= e <= |s| && (forall k :: i <= k < e ==> IsDigit(s[k])) && !DigitAt(s, e)
    ensures DigitsEnd(s, i) == e
    decreases e - i
  {
    if i < e {
      DigitsEndIs(s, i + 1, e);
    }
  }

  lemma {:induction false} LineConcat(a: seq<Word>, b: seq<Word>)
    ensures Line(a + b) == Line(a) + Line(b)
  {
    hide Text;
    if a == [] {
      assert a + b == b;
    } else {
      assert (a + b)[1..] == a[1..] + b;
      LineConcat(a[1..], b);
    }
  }

  lemma LineOne(w: Word)
    ensures Line([w]) == [Lead(w)] + Text(w)
  {
    hide Text;
    assert [w][1..] == [];
  }

  lemma {:induction false} LineOfIds(a: nat, b: nat)
    ensures Line(Ids(a, b)) == " " + JoinIds(a, b)
    decreases b - a
  {
    hide IdText, Line;
    LineOne(One(Id(a)));
    assert [Lead(One(Id(a)))] == " ";
    if a < b {
      LineOfIds(a + 1, b);
      LineConcat([One(Id(a))], Ids(a + 1, b));
    }
  }
}
