/** Each pass of the parser, over a whole line of words. */
module ReplyPasses {
  import opened Sequences
  import opened Decimals
  import opened ReplyParser
  import opened ReplyWords

  function Each(ws: seq<Word>, f: Word -> seq<Word>): seq<Word> {
    if ws == [] then [] else f(ws[0]) + Each(ws[1..], f)
  }

  function NamedBy(ws: seq<Word>): set<string> {
    if ws == [] then {} else Named(ws[0]) + NamedBy(ws[1..])
  }

  // ------------------------------------------------------------------ copying and replacing a word

  /** s holds the word w, after its leading character, between i and e, where the next word or the end of the line
      stands. */
  predicate WordHere(s: string, i: nat, e: nat, w: Word) {
    i + 1 + |Text(w)| == e <= |s| && s[i] == Lead(w) && At(s, i + 1, Text(w)) && Shaped(w) && Stops(s, e)
  }

  lemma EnterWord(s: string, i: nat, ws: seq<Word>, z: nat) returns (e: nat)
    requires LineTo(s, i, ws, z) && AllShaped(ws) && ws != []
    ensures i < e && e == i + 1 + |Text(ws[0])| && WordHere(s, i, e, ws[0]) && LineTo(s, e, ws[1..], z)
  {
    hide Text, Shaped, Stops;
    Enter(s, i, ws, z);
    e := i + 1 + |Text(ws[0])|;
    LineStops(s, e, ws[1..], z);
    assert ws[0] in ws;
  }

  /** No match starts from i to e. */
  predicate Quiet(s: string, i: nat, e: nat, end: (string, nat) -> nat) {
    forall k: nat :: i <= k < e ==> end(s, k) == 0
  }

  lemma WordCopied(s: string, i: nat, e: nat, w: Word, end: (string, nat) -> nat,
                   expand: (string, nat) -> string)
    requires WordHere(s, i, e, w) && Quiet(s, i, e, end)
    ensures Sub(s, i, end, expand) == Line([w]) + Sub(s, e, end, expand)
  {
    hide Text, Sub;
    CopyRun(s, i, e, end, expand);
    LineOne(w);
    assert s[i..e] == [s[i]] + s[i + 1..e];
  }

  /** The one match of a word, from k to e, is replaced. */
  lemma TailReplaced(s: string, i: nat, k: nat, e: nat, end: (string, nat) -> nat, expand: (string, nat) -> string)
    requires i <= k < e <= |s| && Quiet(s, i, k, end) && end(s, k) == e
    ensures Sub(s, i, end, expand) == s[i..k] + expand(s, k) + Sub(s, e, end, expand)
  {
    CopyRun(s, i, k, end, expand);
    assert Sub(s, k, end, expand) == expand(s, k) + Sub(s, e, end, expand);
    assert s[i..k] + (expand(s, k) + Sub(s, e, end, expand)) == s[i..k] + expand(s, k) + Sub(s, e, end, expand);
  }

  lemma EndOfLine(s: string, i: nat, z: nat)
    requires LineTo(s, i, [], z)
    ensures i == z && Line([]) == ""
  {}

  lemma WordEdge(s: string, i: nat, e: nat, w: Word)
    requires WordHere(s, i, e, w)
    ensures Edge(s, e) && Unjoined(s, e)
    ensures !w.Comma? ==> Reads(s, i + 1, Text(w))
  {
    hide Line, Text, Unjoined;
  }

  // ------------------------------------------------------------------ rec-NNN ranges

  lemma NoIdRangeAt(s: string, k: nat)
    requires !RecHere(s, k)
    ensures RecRangeEnd(s, k) == 0
  {
    IsRec(s, k);
  }

  /** In an end only the first position of an id could start a range. */
  lemma EndKeptByIdRanges(s: string, j: nat, e: nat, x: End)
    requires EndIs(s, j, e, x)
    ensures Quiet(s, j + 1, e, RecRangeEnd)
    ensures !x.Id? ==> RecRangeEnd(s, j) == 0
  {
    hide RecRangeEnd, ValueAt;
    forall k: nat | j <= k < e && (k > j || !x.Id?) ensures RecRangeEnd(s, k) == 0 {
      if x.Id? && k >= j + 4 {
        assert IsDigit(s[k]);
      }
      NoIdRangeAt(s, k);
    }
  }

  lemma GlueKeptByIdRanges(s: string, m: nat, k: nat, g: Glue)
    requires GlueIs(s, m, k, g)
    ensures Quiet(s, m, k, RecRangeEnd)
  {
    hide RecRangeEnd, LeftFree, RightFree, Guards;
    forall i: nat | m <= i < k ensures RecRangeEnd(s, i) == 0 {
      NoIdRangeAt(s, i);
    }
  }

  /** An end that no separator follows starts no range. */
  lemma LastIsNoIdRange(s: string, j: nat, e: nat, x: End)
    requires EndIs(s, j, e, x) && Unjoined(s, e)
    ensures RecRangeEnd(s, j) == 0
  {
    hide SeparatorLen, SpacesEnd, ValueAt;
    if x.Id? && e > j + 7 {
      assert IsDigit(s[j + 7]);
      NotASeparator(s, j + 7);
    } else if !x.Id? {
      EndKeptByIdRanges(s, j, e, x);
    }
  }

  predicate BothIds(l: End, r: End) { l.Id? && r.Id? && l.n <= MAX_ID && r.n <= MAX_ID }

  lemma IdRangeStart(s: string, j: nat, m: nat, k: nat, e: nat, l: End, g: Glue, r: End)
    requires RangeHere(s, j, m, k, e, l, g, r) && Unjoined(s, e) && WordEnd(s, e)
    ensures RecRangeEnd(s, j) == if BothIds(l, r) then e else 0
  {
    hide SeparatorLen, SpacesEnd, ValueAt, GlueIs, At;
    if !l.Id? {
      EndKeptByIdRanges(s, j, m, l);
    } else if l.n > MAX_ID {
      assert IsDigit(s[j + 7]);
      NotASeparator(s, j + 7);
    } else {
      RangeSeparates(s, j, m, k, e, l, g, r);
      IsRec(s, j);
      IsRec(s, k);
      SecondIsNoRec(s, k, e, r);
      if r.Id? {
        SecondIsLong(s, k, e, r);
      }
    }
  }

  lemma SecondIsNoRec(s: string, k: nat, e: nat, r: End)
    requires EndIs(s, k, e, r)
    ensures RecHere(s, k) <==> r.Id?
  {
    hide ValueAt;
  }

  lemma SecondIsLong(s: string, k: nat, e: nat, r: End)
    requires EndIs(s, k, e, r) && r.Id?
    ensures ThreeDigits(s, k + 4) && (r.n > MAX_ID ==> !WordEnd(s, k + 7)) && (r.n <= MAX_ID ==> e == k + 7)
  {
    hide ValueAt;
    assert IsDigit(s[k + 4]) && IsDigit(s[k + 5]) && IsDigit(s[k + 6]);
    if r.n > MAX_ID {
      assert IsDigit(s[k + 7]);
    }
  }

  lemma RangeKeptByIdRanges(s: string, j: nat, m: nat, k: nat, e: nat, l: End, g: Glue, r: End)
    requires RangeHere(s, j, m, k, e, l, g, r) && Unjoined(s, e)
    ensures Quiet(s, j + 1, e, RecRangeEnd)
  {
    hide RecRangeEnd, EndIs, GlueIs, SeparatorLen, SpacesEnd, At;
    EndKeptByIdRanges(s, j, m, l);
    GlueKeptByIdRanges(s, m, k, g);
    EndKeptByIdRanges(s, k, e, r);
    LastIsNoIdRange(s, k, e, r);
  }

  lemma IdRangeExpanded(s: string, j: nat, m: nat, k: nat, e: nat, l: End, g: Glue, r: End)
    requires RangeHere(s, j, m, k, e, l, g, r) && BothIds(l, r) && RecRangeEnd(s, j) == e
    requires s[j..e] == Text(Range(l, g, r))
    ensures " " + ExpandRecRange(s, j) == Line(AfterIdRanges(Range(l, g, r)))
  {
    hide RecRangeEnd, ValueAt, IdText, GlueText, Text;
    if InSpan(l.n, r.n) {
      LineOfIds(l.n, r.n);
    } else {
      LineOne(Range(l, g, r));
    }
  }

  lemma TooLongForIdRange(l: End, g: Glue, r: End)
    requires !BothIds(l, r)
    ensures AfterIdRanges(Range(l, g, r)) == [Range(l, g, r)]
  {}

  /** A run of letters is left alone by every pass. */
  lemma LettersKept(s: string, j: nat, e: nat)
    requires LettersHere(s, j, e) && Edge(s, e)
    ensures Quiet(s, j, e, RecRangeEnd) && Quiet(s, j, e, BareRangeEnd) && Quiet(s, j, e, BareIdEnd)
  {
    hide RecRangeEnd, BareRangeEnd, BareIdEnd, RecHere;
    LettersNoRec(s, j, e);
    forall k: nat | j <= k < e ensures RecRangeEnd(s, k) == 0 && BareRangeEnd(s, k) == 0 && BareIdEnd(s, k) == 0 {
      NoIdRangeAt(s, k);
      NoDigitNoBareRange(s, k);
      NoBareIdAt(s, k);
    }
  }

  lemma SayKept(s: string, i: nat, e: nat, t: string)
    requires WordHere(s, i, e, Say(t))
    ensures Quiet(s, i, e, RecRangeEnd) && Quiet(s, i, e, BareRangeEnd) && Quiet(s, i, e, BareIdEnd)
  {
    hide RecRangeEnd, BareRangeEnd, BareIdEnd, Unjoined;
    WordEdge(s, i, e, Say(t));
    SayReads(s, i + 1, t);
    LettersKept(s, i + 1, e);
    NoIdRangeAt(s, i);
    NoDigitNoBareRange(s, i);
    NoBareIdAt(s, i);
  }

  lemma IdRangePassOne(s: string, i: nat, e: nat, x: End)
    requires WordHere(s, i, e, One(x))
    ensures Quiet(s, i, e, RecRangeEnd)
  {
    hide RecRangeEnd, EndText, EndIs, SeparatorLen, SpacesEnd;
    WordEdge(s, i, e, One(x));
    EndReads(s, i + 1, x);
    EndKeptByIdRanges(s, i + 1, e, x);
    LastIsNoIdRange(s, i + 1, e, x);
    NoIdRangeAt(s, i);
  }

  lemma IdRangePassRange(s: string, i: nat, e: nat, l: End, g: Glue, r: End)
    requires WordHere(s, i, e, Range(l, g, r))
    ensures Sub(s, i, RecRangeEnd, ExpandRecRange) ==
            Line(AfterIdRanges(Range(l, g, r))) + Sub(s, e, RecRangeEnd, ExpandRecRange)
  {
    hide RecRangeEnd, ExpandRecRange, EndText, GlueText, SeparatorLen, SpacesEnd, Sub, RangeHere, Line;
    hide AfterIdRanges, Text;
    var w, j := Range(l, g, r), i + 1;
    WordEdge(s, i, e, w);
    RangeReads(s, j, l, g, r);
    var m := j + |EndText(l)|;
    var k := m + |GlueText(g)|;
    IdRangeStart(s, j, m, k, e, l, g, r);
    RangeKeptByIdRanges(s, j, m, k, e, l, g, r);
    NoIdRangeAt(s, i);
    if BothIds(l, r) {
      IdRangeExpanded(s, j, m, k, e, l, g, r);
      TailReplaced(s, i, j, e, RecRangeEnd, ExpandRecRange);
      assert s[i..j] == " ";
    } else {
      TooLongForIdRange(l, g, r);
      WordCopied(s, i, e, w, RecRangeEnd, ExpandRecRange);
    }
  }

  lemma IdRangePass(s: string, i: nat, e: nat, w: Word)
    requires WordHere(s, i, e, w)
    ensures Sub(s, i, RecRangeEnd, ExpandRecRange) ==
            Line(AfterIdRanges(w)) + Sub(s, e, RecRangeEnd, ExpandRecRange)
  {
    hide RecRangeEnd, ExpandRecRange, Sub, Line, EndText;
    if w.Range? {
      IdRangePassRange(s, i, e, w.l, w.g, w.r);
    } else {
      if w.One? {
        IdRangePassOne(s, i, e, w.x);
      } else if w.Say? {
        SayKept(s, i, e, w.t);
      } else {
        NoIdRangeAt(s, i);
      }
      WordCopied(s, i, e, w, RecRangeEnd, ExpandRecRange);
    }
  }

  lemma {:induction false} IdRangesOfLine(s: string, i: nat, ws: seq<Word>, z: nat)
    requires LineTo(s, i, ws, z) && AllShaped(ws)
    ensures Sub(s, i, RecRangeEnd, ExpandRecRange) ==
            Line(Each(ws, AfterIdRanges)) + Sub(s, z, RecRangeEnd, ExpandRecRange)
    decreases |ws|
  {
    hide Text, RecRangeEnd, AfterIdRanges, Line, Sub, LineTo, WordHere;
    if ws == [] {
      EndOfLine(s, i, z);
    } else {
      var e := EnterWord(s, i, ws, z);
      IdRangePass(s, i, e, ws[0]);
      IdRangesOfLine(s, e, ws[1..], z);
      LineConcat(AfterIdRanges(ws[0]), Each(ws[1..], AfterIdRanges));
      assert Sub(s, i, RecRangeEnd, ExpandRecRange) ==
             Line(AfterIdRanges(ws[0])) + (Line(Each(ws[1..], AfterIdRanges)) + Sub(s, z, RecRangeEnd, ExpandRecRange));
    }
  }

  // ------------------------------------------------------------------ bare ranges

  lemma NoDigitNoBareRange(s: string, k: nat)
    requires !DigitAt(s, k) || (k > 0 && DigitAt(s, k - 1)) || AfterRec(s, k)
    ensures BareRangeEnd(s, k) == 0
  {}

  /** Digits that a hex letter or no separator follows start no range. */
  lemma RunIsNoBareRange(s: string, k: nat, d: nat)
    requires DigitsHere(s, k, d) && !DigitAt(s, d) && (Unjoined(s, d) || (d < |s| && IsHex(s[d])))
    ensures BareRangeEnd(s, k) == 0
  {
    hide SeparatorLen, SpacesEnd, AfterRec;
    DigitsEndIs(s, k, d);
    if d < |s| && IsHex(s[d]) {
      NotASeparator(s, d);
    }
  }

  lemma {:induction false} RunEnd(s: string, k: nat, e: nat) returns (d: nat)
    requires k < e <= |s| && DigitAt(s, k)
    ensures k < d <= e && DigitsHere(s, k, d) && (d < e ==> !DigitAt(s, d))
    decreases e - k
  {
    if k + 1 < e && DigitAt(s, k + 1) {
      d := RunEnd(s, k + 1, e);
    } else {
      d := k + 1;
    }
  }

  /** Where an end is read a digit is followed, after its run, by a hex letter or by the end of the end. */
  lemma RunInEnd(s: string, j: nat, e: nat, x: End, k: nat) returns (d: nat)
    requires EndIs(s, j, e, x) && j <= k < e && DigitAt(s, k)
    ensures k < d <= e && DigitsHere(s, k, d) && (d < e ==> !DigitAt(s, d) && IsHex(s[d]))
  {
    hide ValueAt;
    d := RunEnd(s, k, e);
  }

  /** The last end of a word starts no bare range. */
  lemma LastKeptByBareRanges(s: string, j: nat, e: nat, x: End)
    requires EndIs(s, j, e, x) && !DigitAt(s, e) && Unjoined(s, e)
    ensures Quiet(s, j, e, BareRangeEnd)
  {
    hide BareRangeEnd, EndIs, SeparatorLen, SpacesEnd;
    forall k: nat | j <= k < e ensures BareRangeEnd(s, k) == 0 {
      if DigitAt(s, k) {
        var d := RunInEnd(s, j, e, x, k);
        RunIsNoBareRange(s, k, d);
      } else {
        NoDigitNoBareRange(s, k);
      }
    }
  }

  lemma GlueKeptByBareRanges(s: string, m: nat, k: nat, g: Glue)
    requires GlueIs(s, m, k, g)
    ensures Quiet(s, m, k, BareRangeEnd)
  {
    hide BareRangeEnd, LeftFree, RightFree, Guards;
    forall i: nat | m <= i < k ensures BareRangeEnd(s, i) == 0 {
      NoDigitNoBareRange(s, i);
    }
  }

  /** Where the digits an end ends in begin. */
  function RunStart(j: nat, x: End): nat {
    match x
    case Id(n) => j + 4
    case Bare(n) => j
    case Uid(h) => j + 2 + TailStart(h)
  }

  /** Before its last run of digits, and inside it, the first end of a word starts no bare range. */
  lemma FirstKeptByBareRanges(s: string, j: nat, e: nat, x: End)
    requires EndIs(s, j, e, x) && !DigitAt(s, e)
    ensures RunStart(j, x) <= e
    ensures forall k: nat :: j <= k < e && k != RunStart(j, x) ==> BareRangeEnd(s, k) == 0
    ensures RunStart(j, x) < e ==> DigitsHere(s, RunStart(j, x), e)
  {
    hide BareRangeEnd, ValueAt, SeparatorLen, SpacesEnd, TailRun;
    if x.Uid? {
      TailRunIs(x.h);
      TailInPlace(s, j, e, x);
    }
    forall k: nat | j <= k < e && k != RunStart(j, x) ensures BareRangeEnd(s, k) == 0 {
      if DigitAt(s, k) && !(k > 0 && DigitAt(s, k - 1)) {
        var d := RunInEnd(s, j, e, x, k);
        if x.Uid? && k < RunStart(j, x) {
          RunIsNoBareRange(s, k, d);
        }
      } else {
        NoDigitNoBareRange(s, k);
      }
    }
  }

  lemma TailInPlace(s: string, j: nat, e: nat, x: End)
    requires EndIs(s, j, e, x) && x.Uid?
    ensures var t := j + 2 + TailStart(x.h);
            t <= e && (forall k :: t <= k < e ==> IsDigit(s[k])) && (t > j + 2 ==> !IsDigit(s[t - 1]))
    ensures ValueAt(s, j + 2 + TailStart(x.h), e) == TailValue(x.h)
  {
    hide TailRun;
    TailRunIs(x.h);
    var h, t := x.h, j + 2 + TailStart(x.h);
    assert s[j + 2..e] == h;
    assert s[t..e] == h[TailStart(h)..];
    assert forall i :: 0 <= i < |h| ==> h[i] == s[j + 2 + i];
    assert h[TailStart(h)..|h|] == h[TailStart(h)..];
    forall k | t <= k < e ensures IsDigit(s[k]) {
      assert s[k] == h[TailStart(h)..][k - t];
    }
  }

  /** The number that the left end of a range shows to the second pass, if it shows one. */
  predicate Shows(l: End) { (l.Bare? && l.n <= MAX_ID) || (l.Uid? && 1 <= TailRun(l.h) <= 3) }

  function Shown(l: End): nat { match l case Id(n) => 0 case Bare(n) => n case Uid(h) => TailValue(h) }

  predicate BothShow(l: End, r: End) { Shows(l) && r.Bare? && r.n <= MAX_ID }

  lemma NotAfterRec(s: string, k: nat)
    requires 1 <= k <= |s| && (s[k - 1] != '-' || (k >= 2 && s[k - 2] != 'c'))
    ensures !AfterRec(s, k)
  {
    if k >= 4 {
      IsRec(s, k - 4);
    }
  }

  /** The run of digits before the glue matches exactly when it is short and a short number follows. */
  lemma BareRangeMatches(s: string, t: nat, m: nat, k: nat, e: nat, g: Glue, r: End)
    requires 1 <= t && DigitsHere(s, t, m) && !DigitAt(s, t - 1) && (m <= t + 3 ==> !AfterRec(s, t))
    requires GlueIs(s, m, k, g) && EndIs(s, k, e, r) && k < |s| && !DigitAt(s, e)
    requires SeparatorLen(s, SpacesEnd(s, m)) > 0
    requires SpacesEnd(s, SpacesEnd(s, m) + SeparatorLen(s, SpacesEnd(s, m))) == k
    ensures BareRangeEnd(s, t) == if m <= t + 3 && r.Bare? && r.n <= MAX_ID then e else 0
    ensures DigitsEnd(s, t) == m
  {
    hide SeparatorLen, SpacesEnd, AfterRec, DigitsEnd, ValueAt, LeftFree, RightFree, Guards;
    DigitsEndIs(s, t, m);
    NotAfterRec(s, k);
    if r.Bare? {
      DigitsEndIs(s, k, e);
    } else {
      assert s[k] == 'r';
    }
  }

  lemma RunNotAfterRec(s: string, j: nat, m: nat, l: End)
    requires 1 <= j <= |s| && s[j - 1] == ' ' && EndIs(s, j, m, l) && !l.Id? && RunStart(j, l) < m
    requires m <= RunStart(j, l) + 3 && (l.Uid? ==> |l.h| == 8)
    ensures !AfterRec(s, RunStart(j, l))
  {
    hide ValueAt, TailRun;
    NotAfterRec(s, j);
    if l.Uid? {
      TailInPlace(s, j, m, l);
      assert IsHex(s[RunStart(j, l) - 1]);
      NotAfterRec(s, RunStart(j, l));
    }
  }

  lemma IdGuardsDigits(s: string, j: nat, e: nat, x: End)
    requires 1 <= j <= |s| && s[j - 1] == ' ' && EndIs(s, j, e, x) && x.Id?
    ensures AfterRec(s, j + 4)
  {
    hide ValueAt;
    IsRec(s, j);
  }

  lemma BareRangeStart(s: string, j: nat, m: nat, k: nat, e: nat, l: End, g: Glue, r: End)
    requires RangeHere(s, j, m, k, e, l, g, r) && !DigitAt(s, e) && WrittenEnd(l)
    requires RunStart(j, l) < m
    ensures BareRangeEnd(s, RunStart(j, l)) == if BothShow(l, r) then e else 0
    ensures BothShow(l, r) ==> DigitsEnd(s, RunStart(j, l)) == m
  {
    hide SeparatorLen, SpacesEnd, AfterRec, DigitsEnd, BareRangeEnd, ValueAt, TailRun, GlueText, At, GlueIs;
    var t := RunStart(j, l);
    GlueNotDigit(s, m, k, g);
    FirstKeptByBareRanges(s, j, m, l);
    RangeSeparates(s, j, m, k, e, l, g, r);
    if l.Id? {
      IdGuardsDigits(s, j, m, l);
      NoDigitNoBareRange(s, t);
    } else {
      if m <= t + 3 {
        RunNotAfterRec(s, j, m, l);
      }
      if l.Uid? {
        TailInPlace(s, j, m, l);
      }
      BareRangeMatches(s, t, m, k, e, g, r);
    }
  }

  lemma GlueNotDigit(s: string, m: nat, k: nat, g: Glue)
    requires GlueIs(s, m, k, g)
    ensures !DigitAt(s, m)
  {}

  /** The only match of a range starts at the digits its first end ends in. */
  lemma RangeKeptByBareRanges(s: string, j: nat, m: nat, k: nat, e: nat, l: End, g: Glue, r: End)
    requires RangeHere(s, j, m, k, e, l, g, r) && !DigitAt(s, e) && Unjoined(s, e)
    requires WrittenEnd(l)
    ensures BothShow(l, r) ==>
              j <= RunStart(j, l) < m && Quiet(s, j, RunStart(j, l), BareRangeEnd)
              && BareRangeEnd(s, RunStart(j, l)) == e && DigitsEnd(s, RunStart(j, l)) == m
    ensures !BothShow(l, r) ==> Quiet(s, j, e, BareRangeEnd)
  {
    hide BareRangeEnd, EndIs, GlueIs, SeparatorLen, SpacesEnd, At, DigitsEnd, TailRun, Shows, GlueText;
    GlueNotDigit(s, m, k, g);
    FirstKeptByBareRanges(s, j, m, l);
    RunFits(s, j, m, l);
    if RunStart(j, l) < m {
      BareRangeStart(s, j, m, k, e, l, g, r);
    }
    GlueKeptByBareRanges(s, m, k, g);
    LastKeptByBareRanges(s, k, e, r);
  }

  lemma RunFits(s: string, j: nat, m: nat, l: End)
    requires EndIs(s, j, m, l)
    ensures j <= RunStart(j, l)
    ensures Shows(l) ==> RunStart(j, l) < m
    ensures Shows(l) ==> ValueAt(s, RunStart(j, l), m) == Shown(l)
  {
    hide ValueAt, TailRun;
    if l.Uid? {
      TailInPlace(s, j, m, l);
    }
  }

  /** What the match is replaced with. */
  lemma BareRangeExpanded(s: string, j: nat, m: nat, k: nat, e: nat, l: End, g: Glue, r: End)
    requires RangeHere(s, j, m, k, e, l, g, r) && BothShow(l, r)
    requires var t := RunStart(j, l); j <= t < m && BareRangeEnd(s, t) == e && DigitsEnd(s, t) == m
    ensures ExpandBareRange(s, RunStart(j, l)) ==
            if 1 <= Shown(l) && InSpan(Shown(l), r.n) then " " + JoinIds(Shown(l), r.n) + " "
            else s[RunStart(j, l)..e]
  {
    hide BareRangeEnd, SeparatorLen, SpacesEnd, DigitsEnd, GlueIs, At, Shows, ValueAt, GlueText, TailRun;
    RangeSeparates(s, j, m, k, e, l, g, r);
    RunFits(s, j, m, l);
    SecondValue(s, k, e, r);
  }

  lemma SecondValue(s: string, k: nat, e: nat, r: End)
    requires EndIs(s, k, e, r) && r.Bare?
    ensures ValueAt(s, k, e) == r.n
  {}

  /** The part of the left end that is kept. */
  function Stub(l: End): Word { if l.Uid? then One(Uid(l.h[..TailStart(l.h)])) else Empty }

  lemma ExpandedLine(l: End, b: nat)
    requires !l.Id?
    ensures Line([Stub(l)] + Ids(Shown(l), b) + [Empty]) == " " + Text(Stub(l)) + (" " + JoinIds(Shown(l), b) + " ")
  {
    hide Line, Text, JoinIds, TailRun, Shown;
    var a := Shown(l);
    LineOfIds(a, b);
    LineConcat([Stub(l)] + Ids(a, b), [Empty]);
    LineConcat([Stub(l)], Ids(a, b));
    LineOne(Stub(l));
    LineOne(Empty);
    EmptyText();
    assert [Lead(Empty)] == " " && [Lead(Stub(l))] == " " && " " + "" == " ";
    var t, u := " " + Text(Stub(l)), " " + JoinIds(a, b);
    assert t + u + " " == t + (u + " ");
  }

  lemma EmptyText()
    ensures Text(Empty) == ""
  {}

  lemma StubRead(s: string, j: nat, m: nat, l: End)
    requires EndIs(s, j, m, l) && Shows(l)
    ensures j <= RunStart(j, l) <= |s| && s[j..RunStart(j, l)] == Text(Stub(l))
  {
    hide ValueAt, TailRun;
    if l.Uid? {
      var h, t := l.h, TailStart(l.h);
      assert s[j..j + 2 + t] == [s[j], s[j + 1]] + s[j + 2..j + 2 + t];
      assert s[j + 2..j + 2 + t] == s[j + 2..m][..t];
      assert "r-" == ['r', '-'];
    }
  }

  lemma BareRangePassOne(s: string, i: nat, e: nat, x: End)
    requires WordHere(s, i, e, One(x))
    ensures Quiet(s, i, e, BareRangeEnd)
  {
    hide BareRangeEnd, EndText, EndIs, SeparatorLen, SpacesEnd;
    WordEdge(s, i, e, One(x));
    EndReads(s, i + 1, x);
    LastKeptByBareRanges(s, i + 1, e, x);
    NoDigitNoBareRange(s, i);
  }

  lemma SpanAfter(l: End, g: Glue, r: End)
    ensures AfterBareRanges(Range(l, g, r)) ==
            if BothShow(l, r) && 1 <= Shown(l) && InSpan(Shown(l), r.n)
            then [Stub(l)] + Ids(Shown(l), r.n) + [Empty]
            else [Range(l, g, r)]
  {
    hide TailRun, TailValue, Ids;
  }

  lemma RangeExpandedLine(s: string, i: nat, m: nat, e: nat, l: End, g: Glue, r: End)
    requires i < |s| && s[i] == ' ' && EndIs(s, i + 1, m, l) && BothShow(l, r)
    requires RunStart(i + 1, l) <= e <= |s| && s[i + 1..e] == Text(Range(l, g, r))
    requires ExpandBareRange(s, RunStart(i + 1, l)) ==
             if 1 <= Shown(l) && InSpan(Shown(l), r.n) then " " + JoinIds(Shown(l), r.n) + " "
             else s[RunStart(i + 1, l)..e]
    ensures s[i..RunStart(i + 1, l)] + ExpandBareRange(s, RunStart(i + 1, l)) == Line(AfterBareRanges(Range(l, g, r)))
  {
    hide Line, Text, EndIs, Shows, Shown, ExpandBareRange, AfterBareRanges, JoinIds;
    var t := RunStart(i + 1, l);
    StubRead(s, i + 1, m, l);
    SpanAfter(l, g, r);
    assert s[i..t] == " " + s[i + 1..t];
    if 1 <= Shown(l) && InSpan(Shown(l), r.n) {
      assert !l.Id? by { ShowsNoId(l); }
      ExpandedLine(l, r.n);
    } else {
      LineOne(Range(l, g, r));
      assert s[i..t] + s[t..e] == " " + s[i + 1..e];
    }
  }

  lemma ShowsNoId(l: End)
    requires Shows(l)
    ensures !l.Id?
  {}

  lemma BareRangePassRange(s: string, i: nat, e: nat, l: End, g: Glue, r: End)
    requires WordHere(s, i, e, Range(l, g, r)) && Written(Range(l, g, r))
    ensures Sub(s, i, BareRangeEnd, ExpandBareRange) ==
            Line(AfterBareRanges(Range(l, g, r))) + Sub(s, e, BareRangeEnd, ExpandBareRange)
  {
    hide BareRangeEnd, ExpandBareRange, EndText, GlueText, SeparatorLen, SpacesEnd, Sub, Line, EndIs, GlueIs;
    hide AfterBareRanges, Text, Shows, Shown, TailRun, DigitsEnd;
    var w, j := Range(l, g, r), i + 1;
    WordEdge(s, i, e, w);
    RangeReads(s, j, l, g, r);
    var m := j + |EndText(l)|;
    var k := m + |GlueText(g)|;
    RangeKeptByBareRanges(s, j, m, k, e, l, g, r);
    NoDigitNoBareRange(s, i);
    if BothShow(l, r) {
      BareRangeExpanded(s, j, m, k, e, l, g, r);
      TailReplaced(s, i, RunStart(j, l), e, BareRangeEnd, ExpandBareRange);
      RangeExpandedLine(s, i, m, e, l, g, r);
    } else {
      SpanAfter(l, g, r);
      WordCopied(s, i, e, w, BareRangeEnd, ExpandBareRange);
    }
  }

  lemma BareRangePass(s: string, i: nat, e: nat, w: Word)
    requires WordHere(s, i, e, w) && Written(w)
    ensures Sub(s, i, BareRangeEnd, ExpandBareRange) ==
            Line(AfterBareRanges(w)) + Sub(s, e, BareRangeEnd, ExpandBareRange)
  {
    hide BareRangeEnd, ExpandBareRange, Sub, Line, EndText;
    if w.Range? {
      BareRangePassRange(s, i, e, w.l, w.g, w.r);
    } else {
      if w.One? {
        BareRangePassOne(s, i, e, w.x);
      } else if w.Say? {
        SayKept(s, i, e, w.t);
      } else {
        NoDigitNoBareRange(s, i);
      }
      WordCopied(s, i, e, w, BareRangeEnd, ExpandBareRange);
    }
  }

  lemma {:induction false} BareRangesOfLine(s: string, i: nat, ws: seq<Word>, z: nat)
    requires LineTo(s, i, ws, z) && AllShaped(ws) && forall w :: w in ws ==> Written(w)
    ensures Sub(s, i, BareRangeEnd, ExpandBareRange) ==
            Line(Each(ws, AfterBareRanges)) + Sub(s, z, BareRangeEnd, ExpandBareRange)
    decreases |ws|
  {
    hide Text, BareRangeEnd, AfterBareRanges, Line, Sub, LineTo, WordHere;
    if ws == [] {
      EndOfLine(s, i, z);
    } else {
      var e := EnterWord(s, i, ws, z);
      BareRangePass(s, i, e, ws[0]);
      BareRangesOfLine(s, e, ws[1..], z);
      LineConcat(AfterBareRanges(ws[0]), Each(ws[1..], AfterBareRanges));
      assert Sub(s, i, BareRangeEnd, ExpandBareRange) ==
             Line(AfterBareRanges(ws[0])) +
             (Line(Each(ws[1..], AfterBareRanges)) + Sub(s, z, BareRangeEnd, ExpandBareRange));
    }
  }

  // ------------------------------------------------------------------ bare ids

  lemma NoBareIdAt(s: string, k: nat)
    requires !DigitAt(s, k) || (k > 0 && (IsHex(s[k - 1]) || s[k - 1] == '-'))
    ensures BareIdEnd(s, k) == 0
  {}

  lemma EndKeptByBareIds(s: string, j: nat, e: nat, x: End)
    requires 1 <= j && EndIs(s, j, e, x)
    ensures Quiet(s, j + 1, e, BareIdEnd)
    ensures !x.Bare? || s[j - 1] == '-' ==> BareIdEnd(s, j) == 0
  {
    hide BareIdEnd, ValueAt;
    forall k: nat | j <= k < e && (k > j || !x.Bare? || s[j - 1] == '-') ensures BareIdEnd(s, k) == 0 {
      if x.Id? && k > j + 4 {
        assert IsDigit(s[k - 1]);
      }
      if x.Bare? && k > j {
        assert IsDigit(s[k - 1]);
      }
      NoBareIdAt(s, k);
    }
  }

  lemma NumberMatches(s: string, j: nat, e: nat, n: nat)
    requires 1 <= j <= |s| && !IsHex(s[j - 1]) && s[j - 1] != '-' && EndIs(s, j, e, Bare(n))
             && (e == |s| || !IsHex(s[e]))
    ensures BareIdEnd(s, j) == if n <= MAX_ID then e else 0
  {
    hide DigitsEnd, ValueAt;
    DigitsEndIs(s, j, e);
  }

  /** What an end becomes: a number counts unless it is too large, zero, or right after a hyphen. */
  function CountedAt(s: string, j: nat, x: End): End
    requires 1 <= j <= |s|
  {
    if s[j - 1] == '-' then x else Counted(x)
  }

  lemma EndCounted(s: string, j: nat, e: nat, x: End)
    requires 1 <= j < e <= |s| && At(s, j, EndText(x)) && e == j + |EndText(x)| && EndIs(s, j, e, x)
    requires !IsHex(s[j - 1]) && (e == |s| || !IsHex(s[e]))
    ensures Sub(s, j, BareIdEnd, ExpandBareId) == EndText(CountedAt(s, j, x)) + Sub(s, e, BareIdEnd, ExpandBareId)
  {
    hide Sub, BareIdEnd, ExpandBareId, EndText, EndIs, Counted;
    assert s[j..e] == EndText(x);
    if x.Bare? && s[j - 1] != '-' {
      NumberMatches(s, j, e, x.n);
    }
    if x.Bare? && s[j - 1] != '-' && x.n <= MAX_ID {
      TailReplaced(s, j, j, e, BareIdEnd, ExpandBareId);
      NumberExpanded(s, j, e, x.n);
      assert s[j..j] == "";
    } else {
      NotCounted(x);
      EndKeptByBareIds(s, j, e, x);
      QuietEnd(s, j, e, BareIdEnd);
      CopyRun(s, j, e, BareIdEnd, ExpandBareId);
    }
  }

  lemma NotCounted(x: End)
    ensures !x.Bare? || x.n > MAX_ID ==> Counted(x) == x
  {}

  lemma QuietEnd(s: string, j: nat, e: nat, end: (string, nat) -> nat)
    requires Quiet(s, j + 1, e, end) && end(s, j) == 0
    ensures Quiet(s, j, e, end)
  {}

  lemma NumberExpanded(s: string, j: nat, e: nat, n: nat)
    requires j < e <= |s| && EndIs(s, j, e, Bare(n)) && n <= MAX_ID && BareIdEnd(s, j) == e
    requires s[j..e] == EndText(Bare(n))
    ensures ExpandBareId(s, j) == EndText(Counted(Bare(n)))
  {
    hide BareIdEnd, ValueAt, IdText, Numeral;
  }

  lemma BareIdPassOne(s: string, i: nat, e: nat, x: End)
    requires WordHere(s, i, e, One(x))
    ensures Sub(s, i, BareIdEnd, ExpandBareId) == Line([One(Counted(x))]) + Sub(s, e, BareIdEnd, ExpandBareId)
  {
    hide Sub, BareIdEnd, ExpandBareId, EndText, EndIs, Counted, Line, SeparatorLen, SpacesEnd;
    WordEdge(s, i, e, One(x));
    EndReads(s, i + 1, x);
    NoBareIdAt(s, i);
    CopyRun(s, i, i + 1, BareIdEnd, ExpandBareId);
    EndCounted(s, i + 1, e, x);
    LineOne(One(Counted(x)));
    assert s[i..i + 1] == " ";
    assert [Lead(One(Counted(x)))] == " ";
  }

  lemma GlueCopied(s: string, m: nat, k: nat, g: Glue)
    requires GlueIs(s, m, k, g) && At(s, m, GlueText(g)) && k == m + |GlueText(g)|
    ensures Sub(s, m, BareIdEnd, ExpandBareId) == GlueText(g) + Sub(s, k, BareIdEnd, ExpandBareId)
  {
    hide BareIdEnd, GlueText, LeftFree, RightFree, Guards, Sub;
    forall i: nat | m <= i < k ensures BareIdEnd(s, i) == 0 {
      NoBareIdAt(s, i);
    }
    CopyRun(s, m, k, BareIdEnd, ExpandBareId);
  }

  lemma GlueEdges(s: string, m: nat, k: nat, g: Glue)
    requires GlueIs(s, m, k, g)
    ensures m < k <= |s| && !IsHex(s[m]) && !IsHex(s[k - 1]) && (s[k - 1] == '-' <==> Guards(g))
  {}

  lemma BareIdPassRange(s: string, i: nat, e: nat, l: End, g: Glue, r: End)
    requires WordHere(s, i, e, Range(l, g, r))
    ensures Sub(s, i, BareIdEnd, ExpandBareId) ==
            Line(AfterBareIds(Range(l, g, r))) + Sub(s, e, BareIdEnd, ExpandBareId)
  {
    hide Sub, BareIdEnd, ExpandBareId, EndText, EndIs, Counted, Line, GlueText, GlueIs;
    hide Guards, At, SeparatorLen, SpacesEnd;
    var w, j := Range(l, g, r), i + 1;
    WordEdge(s, i, e, w);
    RangeReads(s, j, l, g, r);
    var m := j + |EndText(l)|;
    var k := m + |GlueText(g)|;
    NoBareIdAt(s, i);
    GlueEdges(s, m, k, g);
    CopyRun(s, i, j, BareIdEnd, ExpandBareId);
    EndCounted(s, j, m, l);
    GlueCopied(s, m, k, g);
    EndCounted(s, k, e, r);
    var r' := if Guards(g) then r else Counted(r);
    LineOne(Range(Counted(l), g, r'));
    assert s[i..j] == " " && [Lead(Range(Counted(l), g, r'))] == " ";
    var a, b, c, d := EndText(Counted(l)), GlueText(g), EndText(r'), Sub(s, e, BareIdEnd, ExpandBareId);
    assert " " + (a + (b + (c + d))) == " " + (a + (b + c)) + d;
  }

  lemma BareIdPass(s: string, i: nat, e: nat, w: Word)
    requires WordHere(s, i, e, w)
    ensures Sub(s, i, BareIdEnd, ExpandBareId) == Line(AfterBareIds(w)) + Sub(s, e, BareIdEnd, ExpandBareId)
  {
    hide Sub, Line, BareIdEnd, ExpandBareId, EndText, Counted;
    match w {
      case One(x) => BareIdPassOne(s, i, e, x);
      case Range(l, g, r) => BareIdPassRange(s, i, e, l, g, r);
      case Say(t) =>
        SayKept(s, i, e, t);
        WordCopied(s, i, e, w, BareIdEnd, ExpandBareId);
      case _ =>
        NoBareIdAt(s, i);
        WordCopied(s, i, e, w, BareIdEnd, ExpandBareId);
    }
  }

  lemma {:induction false} BareIdsOfLine(s: string, i: nat, ws: seq<Word>, z: nat)
    requires LineTo(s, i, ws, z) && AllShaped(ws)
    ensures Sub(s, i, BareIdEnd, ExpandBareId) == Line(Each(ws, AfterBareIds)) + Sub(s, z, BareIdEnd, ExpandBareId)
    decreases |ws|
  {
    hide Text, BareIdEnd, AfterBareIds, Line, Sub, LineTo, WordHere;
    if ws == [] {
      EndOfLine(s, i, z);
    } else {
      var e := EnterWord(s, i, ws, z);
      BareIdPass(s, i, e, ws[0]);
      BareIdsOfLine(s, e, ws[1..], z);
      LineConcat(AfterBareIds(ws[0]), Each(ws[1..], AfterBareIds));
      assert Sub(s, i, BareIdEnd, ExpandBareId) ==
             Line(AfterBareIds(ws[0])) + (Line(Each(ws[1..], AfterBareIds)) + Sub(s, z, BareIdEnd, ExpandBareId));
    }
  }

  // ------------------------------------------------------------------ collecting

  predicate NoIdAt(s: string, k: nat) { !RecIdAt(s, k) && !UidAt(s, k) }

  lemma NoIdWithoutRec(s: string, k: nat)
    requires k < |s| && (s[k] != 'r' || (!RecHere(s, k) && (k + 1 < |s| ==> s[k + 1] != '-')))
    ensures NoIdAt(s, k)
  {
    IsRec(s, k);
    FirstChar(s, k, "r-");
    SecondChar(s, k, "r-");
  }

  predicate NoIds(s: string, i: nat, j: nat) { forall k: nat :: i <= k < j ==> NoIdAt(s, k) }

  lemma {:induction false} SkipRun(s: string, i: nat, j: nat)
    requires i <= j <= |s| && NoIds(s, i, j)
    ensures IdsFrom(s, i) == IdsFrom(s, j)
    decreases j - i
  {
    hide RecIdAt, UidAt;
    if i < j {
      assert NoIdAt(s, i);
      SkipRun(s, i + 1, j);
    }
  }

  lemma InsideEnd(s: string, j: nat, e: nat, x: End)
    requires EndIs(s, j, e, x)
    ensures NoIds(s, j + 1, e) && (x.Bare? ==> NoIdAt(s, j))
  {
    hide NoIdAt, ValueAt;
    forall k: nat | j <= k < e && (k > j || x.Bare?) ensures NoIdAt(s, k) {
      if x.Id? && k >= j + 4 {
        assert IsDigit(s[k]);
      }
      NoIdWithoutRec(s, k);
    }
  }

  /** An end is collected where it stands as a word, if it is an id of three digits or a uid of eight. */
  lemma EndCollected(s: string, j: nat, e: nat, x: End)
    requires j < e <= |s| && s[j..e] == EndText(x) && EndIs(s, j, e, x) && (e == |s| || !IsHex(s[e]))
    ensures IdsFrom(s, j) == (if WordStart(s, j) && WordEnd(s, e) then NamedEnd(x) else {}) + IdsFrom(s, e)
  {
    hide ValueAt, IdText, Numeral, NoIdAt, IdsFrom, RecIdAt, UidAt;
    InsideEnd(s, j, e, x);
    SkipRun(s, j + 1, e);
    IdsStep(s, j);
    match x {
      case Id(n) => IdRead(s, j, e, n);
      case Bare(n) => NeitherRead(s, j);
      case Uid(h) => UidRead(s, j, e, h);
    }
  }

  lemma IdsStep(s: string, j: nat)
    requires j < |s|
    ensures IdsFrom(s, j) ==
            (if RecIdAt(s, j) then {s[j..j + 7]} else if UidAt(s, j) then {s[j..j + 10]} else {}) + IdsFrom(s, j + 1)
  {
    hide RecIdAt, UidAt;
  }

  lemma NeitherRead(s: string, j: nat)
    requires NoIdAt(s, j)
    ensures !RecIdAt(s, j) && !UidAt(s, j)
  {}

  lemma IdRead(s: string, j: nat, e: nat, n: nat)
    requires EndIs(s, j, e, Id(n))
    ensures !UidAt(s, j) && (RecIdAt(s, j) <==> WordStart(s, j) && WordEnd(s, e) && n <= MAX_ID)
    ensures n <= MAX_ID ==> e == j + 7
  {
    hide ValueAt;
    IsRec(s, j);
    SecondChar(s, j, "r-");
    assert IsDigit(s[j + 4]) && IsDigit(s[j + 5]) && IsDigit(s[j + 6]);
    if n > MAX_ID {
      assert IsDigit(s[j + 7]);
    }
  }

  lemma UidRead(s: string, j: nat, e: nat, h: string)
    requires EndIs(s, j, e, Uid(h)) && (e == |s| || !IsHex(s[e]))
    ensures !RecIdAt(s, j) && (UidAt(s, j) <==> WordStart(s, j) && WordEnd(s, e) && |h| == 8)
    ensures e == j + 2 + |h|
  {
    IsRec(s, j);
    assert s[j..j + 2] == "r-";
    assert e == j + 2 + |s[j + 2..e]|;
  }

  lemma OneCollected(s: string, i: nat, e: nat, x: End)
    requires WordHere(s, i, e, One(x))
    ensures IdsFrom(s, i) == NamedEnd(x) + IdsFrom(s, e)
  {
    hide IdsFrom, EndText, EndIs, NamedEnd, SeparatorLen, SpacesEnd, NoIdAt;
    WordEdge(s, i, e, One(x));
    EndReads(s, i + 1, x);
    NoIdWithoutRec(s, i);
    SkipRun(s, i, i + 1);
    EndCollected(s, i + 1, e, x);
  }

  lemma GlueNamesNothing(s: string, m: nat, k: nat, g: Glue)
    requires GlueIs(s, m, k, g)
    ensures NoIds(s, m, k)
    ensures WordEnd(s, m) <==> LeftFree(g)
    ensures WordStart(s, k) <==> RightFree(g)
  {
    hide NoIdAt, LeftFree, RightFree, Guards;
    forall i: nat | m <= i < k ensures NoIdAt(s, i) {
      NoIdWithoutRec(s, i);
    }
  }

  lemma RangeCollected(s: string, i: nat, e: nat, l: End, g: Glue, r: End)
    requires WordHere(s, i, e, Range(l, g, r))
    ensures IdsFrom(s, i) == Named(Range(l, g, r)) + IdsFrom(s, e)
  {
    hide IdsFrom, EndText, EndIs, NamedEnd, GlueText, GlueIs, NoIdAt, LeftFree, RightFree, Guards;
    hide SeparatorLen, SpacesEnd;
    var j := i + 1;
    WordEdge(s, i, e, Range(l, g, r));
    RangeReads(s, j, l, g, r);
    var m := j + |EndText(l)|;
    var k := m + |GlueText(g)|;
    NoIdWithoutRec(s, i);
    SkipRun(s, i, j);
    GlueEdges(s, m, k, g);
    GlueNamesNothing(s, m, k, g);
    EndCollected(s, j, m, l);
    SkipRun(s, m, k);
    EndCollected(s, k, e, r);
  }

  lemma SayCollected(s: string, i: nat, e: nat, t: string)
    requires WordHere(s, i, e, Say(t))
    ensures IdsFrom(s, i) == IdsFrom(s, e)
  {
    hide IdsFrom, NoIdAt, Unjoined, RecHere;
    WordEdge(s, i, e, Say(t));
    SayReads(s, i + 1, t);
    LettersNoRec(s, i + 1, e);
    forall k: nat | i <= k < e ensures NoIdAt(s, k) {
      NoIdWithoutRec(s, k);
    }
    SkipRun(s, i, e);
  }

  lemma WordCollected(s: string, i: nat, e: nat, w: Word)
    requires WordHere(s, i, e, w)
    ensures IdsFrom(s, i) == Named(w) + IdsFrom(s, e)
  {
    hide IdsFrom, EndText, NamedEnd, NoIdAt;
    match w {
      case One(x) => OneCollected(s, i, e, x);
      case Range(l, g, r) => RangeCollected(s, i, e, l, g, r);
      case Say(t) => SayCollected(s, i, e, t);
      case _ =>
        NoIdWithoutRec(s, i);
        SkipRun(s, i, i + 1);
    }
  }

  lemma {:induction false} LineCollected(s: string, i: nat, ws: seq<Word>, z: nat)
    requires LineTo(s, i, ws, z) && AllShaped(ws)
    ensures IdsFrom(s, i) == NamedBy(ws) + IdsFrom(s, z)
    decreases |ws|
  {
    hide Text, Named, LineTo, WordHere, IdsFrom;
    if ws == [] {
      EndOfLine(s, i, z);
    } else {
      var e := EnterWord(s, i, ws, z);
      WordCollected(s, i, e, ws[0]);
      LineCollected(s, e, ws[1..], z);
    }
  }
}
