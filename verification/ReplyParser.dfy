/** The reply language: what an operator's email body selects. Each regular expression is a scanner that
    gives the end of a match at a position, or 0 for no match there. */
module ReplyParser {
  import opened Sequences
  import opened Decimals

  datatype Option<T> = None | Some(value: T)

  const VERBS: seq<string> := ["implement", "skip", "modify", "merge"]
  const KEYWORDS: seq<string> := ["all", "auto", "review", "experimental", "critical", "high", "medium", "low"]
  const REPLY_BOUNDARIES: seq<string> := [
    "\n\n--", "\n\n>", "\n----", "from:", "sent:", "wrote:", "on mon, ", "on tue, ",
    "on wed, ", "on thu, ", "on fri, ", "on sat, ", "on sun, "
  ]
  const QUOTE_BOUNDARIES: seq<string> := ["\n\n--", "\n\n>", "\n----", "from:", "sent:"]
  const MAX_SPAN: nat := 200
  const MAX_ID: nat := 999
  const NOTES: nat := 500

  // ------------------------------------------------------------------ character classes and positions

  predicate IsWordChar(c: char) { 'a' <= c <= 'z' || 'A' <= c <= 'Z' || IsDigit(c) || c == '_' }

  predicate IsSpace(c: char) { c == ' ' || '\t' <= c <= '\r' }

  predicate IsHex(c: char) { IsDigit(c) || 'a' <= c <= 'f' }

  predicate At(s: string, i: nat, t: string) { i + |t| <= |s| && s[i..i + |t|] == t }

  predicate DigitAt(s: string, i: nat) { i < |s| && IsDigit(s[i]) }

  predicate WordStart(s: string, i: nat) { i == 0 || i > |s| || !IsWordChar(s[i - 1]) }

  predicate WordEnd(s: string, i: nat) { i >= |s| || !IsWordChar(s[i]) }

  /** A whole word: \bt\b. */
  predicate WordAt(s: string, i: nat, t: string) { At(s, i, t) && WordStart(s, i) && WordEnd(s, i + |t|) }

  function SpacesEnd(s: string, i: nat): (e: nat)
    requires i <= |s|
    ensures i <= e <= |s|
    decreases |s| - i
  {
    if i < |s| && IsSpace(s[i]) then SpacesEnd(s, i + 1) else i
  }

  function DigitsEnd(s: string, i: nat): (e: nat)
    requires i <= |s|
    ensures i <= e <= |s| && AllDigits(s[i..e])
    decreases |s| - i
  {
    if DigitAt(s, i) then
      assert forall e: nat :: i + 1 <= e <= |s| ==> s[i..e] == [s[i]] + s[i + 1..e];
      DigitsEnd(s, i + 1)
    else i
  }

  predicate ThreeDigits(s: string, i: nat) { DigitAt(s, i) && DigitAt(s, i + 1) && DigitAt(s, i + 2) }

  function ValueAt(s: string, i: nat, e: nat): nat {
    if i <= e <= |s| && AllDigits(s[i..e]) then Value(s[i..e]) else 0
  }

  /** The separators of a range: a dash of any of three lengths, or a word. */
  function SeparatorLen(s: string, i: nat): (n: nat)
    ensures i + n <= |s| || n == 0
  {
    if At(s, i, "-") || At(s, i, "\U{2013}") || At(s, i, "\U{2014}") then 1
    else if At(s, i, "to") then 2
    else if At(s, i, "thru") then 4
    else if At(s, i, "through") then 7
    else 0
  }

  // ------------------------------------------------------------------ the expressions

  /** re.sub: leftmost matches, not overlapping, each replaced. */
  function Sub(s: string, i: nat, end: (string, nat) -> nat, expand: (string, nat) -> string): string
    decreases |s| - i
  {
    if i >= |s| then ""
    else if i < end(s, i) <= |s| then expand(s, i) + Sub(s, end(s, i), end, expand)
    else [s[i]] + Sub(s, i + 1, end, expand)
  }

  function TagEnd(s: string, i: nat): nat {
    if i < |s| && s[i] == '<' && i + 1 < |s| && s[i + 1] != '>' then CloseFrom(s, i + 1) else 0
  }

  function CloseFrom(s: string, i: nat): nat
    decreases |s| - i
  {
    if i >= |s| then 0 else if s[i] == '>' then i + 1 else CloseFrom(s, i + 1)
  }

  function TagGap(s: string, i: nat): string { " " }

  function LowerChar(c: char): char { if 'A' <= c <= 'Z' then c + 32 as char else c }

  function Lower(s: string): string { seq(|s|, i requires 0 <= i < |s| => LowerChar(s[i])) }

  function IdText(n: nat): string { "rec-" + Pad3(n) }

  function JoinIds(a: nat, b: nat): string
    decreases b - a
  {
    if a >= b then IdText(a) else IdText(a) + " " + JoinIds(a + 1, b)
  }

  /** \brec-(\d{3})\s*SEP\s*rec-(\d{3})\b */
  function RecRangeEnd(s: string, i: nat): nat {
    if !(WordStart(s, i) && At(s, i, "rec-") && ThreeDigits(s, i + 4)) then 0
    else
      var p := SpacesEnd(s, i + 7);
      var n := SeparatorLen(s, p);
      if n == 0 then 0
      else
        var r := SpacesEnd(s, p + n);
        if At(s, r, "rec-") && ThreeDigits(s, r + 4) && WordEnd(s, r + 7) then r + 7 else 0
  }

  function ExpandRecRange(s: string, i: nat): string {
    var e := RecRangeEnd(s, i);
    if !(i + 7 <= e <= |s|) then ""
    else
      var a, b := ValueAt(s, i + 4, i + 7), ValueAt(s, e - 3, e);
      if b < a || b - a > MAX_SPAN then s[i..e] else JoinIds(a, b)
  }

  /** The lookbehind (?<!\brec-) rejects position i. */
  predicate AfterRec(s: string, i: nat) { i >= 4 && At(s, i - 4, "rec-") && WordStart(s, i - 4) }

  /** (?<!\brec-)(?<!\d)(\d{1,3})\s*SEP\s*(?<!\brec-)(?<!\d)(\d{1,3})(?!\d) */
  function BareRangeEnd(s: string, i: nat): nat {
    if AfterRec(s, i) || (i > 0 && DigitAt(s, i - 1)) || !DigitAt(s, i) || DigitsEnd(s, i) > i + 3 then 0
    else
      var p := SpacesEnd(s, DigitsEnd(s, i));
      var n := SeparatorLen(s, p);
      if n == 0 then 0
      else
        var r := SpacesEnd(s, p + n);
        if AfterRec(s, r) || DigitAt(s, r - 1) || !DigitAt(s, r) || DigitsEnd(s, r) > r + 3 then 0 else DigitsEnd(s, r)
  }

  function ExpandBareRange(s: string, i: nat): string {
    var e := BareRangeEnd(s, i);
    if !(i < e <= |s|) then ""
    else
      var p := SpacesEnd(s, DigitsEnd(s, i));
      var r := SpacesEnd(s, p + SeparatorLen(s, p));
      var a, b := ValueAt(s, i, DigitsEnd(s, i)), ValueAt(s, r, e);
      if b < a || b - a > MAX_SPAN || a < 1 || b > MAX_ID then s[i..e] else " " + JoinIds(a, b) + " "
  }

  /** (?<![a-f0-9-])(\d{1,3})(?![a-f0-9]) */
  function BareIdEnd(s: string, i: nat): nat {
    if !DigitAt(s, i) || (i > 0 && (IsHex(s[i - 1]) || s[i - 1] == '-')) then 0
    else
      var e := DigitsEnd(s, i);
      if e <= i + 3 && (e == |s| || !IsHex(s[e])) then e else 0
  }

  function ExpandBareId(s: string, i: nat): string {
    var e := BareIdEnd(s, i);
    if !(i < e <= |s|) then ""
    else
      var n := ValueAt(s, i, e);
      if 1 <= n <= MAX_ID then IdText(n) else s[i..e]
  }

  /** \brec-(\d{3})\b */
  predicate RecIdAt(s: string, i: nat) {
    WordStart(s, i) && At(s, i, "rec-") && ThreeDigits(s, i + 4) && WordEnd(s, i + 7)
  }

  predicate HexRun(s: string, i: nat, n: nat) { i + n <= |s| && forall k :: i <= k < i + n ==> IsHex(s[k]) }

  /** \br-([0-9a-f]{8})\b */
  predicate UidAt(s: string, i: nat) {
    WordStart(s, i) && At(s, i, "r-") && HexRun(s, i + 2, 8) && WordEnd(s, i + 10)
  }

  function IdsFrom(s: string, i: nat): set<string>
    decreases |s| - i
  {
    if i >= |s| then {}
    else (if RecIdAt(s, i) then {s[i..i + 7]} else if UidAt(s, i) then {s[i..i + 10]} else {}) + IdsFrom(s, i + 1)
  }

  // ------------------------------------------------------------------ searching

  /** str.find from a position. */
  function Find(s: string, t: string, i: nat): Option<nat>
    ensures Find(s, t, i).Some? ==> i <= Find(s, t, i).value <= |s|
    decreases |s| - i
  {
    if i > |s| then None else if At(s, i, t) then Some(i) else if i == |s| then None else Find(s, t, i + 1)
  }

  function FindWord(s: string, t: string, i: nat): Option<nat>
    ensures FindWord(s, t, i).Some? ==> i <= FindWord(s, t, i).value && WordAt(s, FindWord(s, t, i).value, t)
    decreases |s| - i
  {
    if i >= |s| then None else if WordAt(s, i, t) then Some(i) else FindWord(s, t, i + 1)
  }

  /** The end of the leftmost verb. */
  function FirstVerbEnd(s: string, i: nat): (r: Option<nat>)
    ensures r.Some? ==> r.value <= |s|
    decreases |s| - i
  {
    if i >= |s| then None
    else if WordAt(s, i, "implement") then Some(i + 9)
    else if WordAt(s, i, "skip") then Some(i + 4)
    else if WordAt(s, i, "modify") then Some(i + 6)
    else if WordAt(s, i, "merge") then Some(i + 5)
    else FirstVerbEnd(s, i + 1)
  }

  /** The nearest boundary after `start`, or the end of the body. */
  function ScanEnd(s: string, start: nat, boundaries: seq<string>): (e: nat)
    requires start <= |s|
    ensures start <= e <= |s|
  {
    if boundaries == [] then |s|
    else
      var e := ScanEnd(s, start, boundaries[..|boundaries| - 1]);
      match Find(s, boundaries[|boundaries| - 1], start)
      case None => e
      case Some(i) => if i > 0 && i < e then i else e
  }

  function CutAt(s: string, boundaries: seq<string>): string {
    if boundaries == [] then s
    else
      var t := CutAt(s, boundaries[..|boundaries| - 1]);
      match Find(t, boundaries[|boundaries| - 1], 0) case None => t case Some(i) => if i > 0 then t[..i] else t
  }

  function FirstOf(s: string, words: seq<string>): string {
    if words == [] then "unknown"
    else if FindWord(s, words[0], 0).Some? then words[0]
    else FirstOf(s, words[1..])
  }

  function WordsIn(s: string, words: seq<string>): seq<string> {
    if words == [] then []
    else
      var rest := WordsIn(s, words[..|words| - 1]);
      if FindWord(s, words[|words| - 1], 0).Some? then rest + [words[|words| - 1]] else rest
  }

  // ------------------------------------------------------------------ the parser

  datatype Action = Action(verb: string, ids: set<string>, filters: seq<string>, notes: string)

  function Normalized(raw: string): string { Lower(Sub(raw, 0, TagEnd, TagGap)) }

  function RangesExpanded(body: string): string { Sub(body, 0, RecRangeEnd, ExpandRecRange) }

  function ScanExpanded(scan: string): string {
    Sub(Sub(scan, 0, BareRangeEnd, ExpandBareRange), 0, BareIdEnd, ExpandBareId)
  }

  /** Bare numbers count only between the first verb and the next reply boundary. */
  function BareExpanded(body: string): string {
    match FirstVerbEnd(body, 0)
    case None => body
    case Some(start) =>
      var end := ScanEnd(body, start, REPLY_BOUNDARIES);
      body[..start] + ScanExpanded(body[start..end]) + body[end..]
  }

  function Canonical(raw: string): string { BareExpanded(RangesExpanded(Normalized(raw))) }

  function Filters(body: string, verb: string): seq<string> {
    if verb != "implement" && verb != "skip" then []
    else
      var scan := match FindWord(body, verb, 0) case None => body case Some(i) => body[i + |verb|..];
      WordsIn(CutAt(scan, QUOTE_BOUNDARIES), KEYWORDS)
  }

  function Parse(raw: string): Action {
    var body := Canonical(raw);
    var verb := FirstOf(body, VERBS);
    Action(verb, IdsFrom(body, 0), Filters(body, verb), Take(body, NOTES))
  }

  /** The ids are returned as the sorted list of the set they form. */
  method ParseUserAction(raw: string) returns (action: Action, recIds: seq<string>)
    ensures action == Parse(raw)
    ensures recIds == SortedSet(Parse(raw).ids)
  {
    hide Sub, IdsFrom, FindWord, FirstVerbEnd, Find;
    var body := Normalized(raw);
    body := RangesExpanded(body);
    var found := FirstVerbEnd(body, 0);
    if found.Some? {
      var start, scanEnd := found.value, |body|;
      for k := 0 to |REPLY_BOUNDARIES|
        invariant start <= scanEnd <= |body|
        invariant scanEnd == ScanEnd(body, start, REPLY_BOUNDARIES[..k])
      {
        assert REPLY_BOUNDARIES[..k + 1][..k] == REPLY_BOUNDARIES[..k];
        var i := Find(body, REPLY_BOUNDARIES[k], start);
        if i.Some? && i.value > 0 {
          scanEnd := if i.value < scanEnd then i.value else scanEnd;
        }
      }
      assert REPLY_BOUNDARIES[..|REPLY_BOUNDARIES|] == REPLY_BOUNDARIES;
      body := body[..start] + ScanExpanded(body[start..scanEnd]) + body[scanEnd..];
    }
    assert body == Canonical(raw);
    var verb := FindVerb(body);
    var filters := FindFilters(body, verb);
    action := Action(verb, IdsFrom(body, 0), filters, Take(body, NOTES));
    recIds := SortSet(action.ids);
  }

  method FindVerb(body: string) returns (verb: string)
    ensures verb == FirstOf(body, VERBS)
  {
    for k := 0 to |VERBS|
      invariant FirstOf(body, VERBS) == FirstOf(body, VERBS[k..])
    {
      if FindWord(body, VERBS[k], 0).Some? {
        return VERBS[k];
      }
    }
    return "unknown";
  }

  method FindFilters(body: string, verb: string) returns (filters: seq<string>)
    ensures filters == Filters(body, verb)
  {
    hide KEYWORDS, QUOTE_BOUNDARIES, Find, FindWord;
    filters := [];
    if verb == "implement" || verb == "skip" {
      var scan := match FindWord(body, verb, 0) case None => body case Some(i) => body[i + |verb|..];
      ghost var from := scan;
      for k := 0 to |QUOTE_BOUNDARIES|
        invariant scan == CutAt(from, QUOTE_BOUNDARIES[..k])
      {
        assert QUOTE_BOUNDARIES[..k + 1][..k] == QUOTE_BOUNDARIES[..k];
        var i := Find(scan, QUOTE_BOUNDARIES[k], 0);
        if i.Some? && i.value > 0 {
          scan := scan[..i.value];
        }
      }
      assert QUOTE_BOUNDARIES[..|QUOTE_BOUNDARIES|] == QUOTE_BOUNDARIES;
      for k := 0 to |KEYWORDS|
        invariant filters == WordsIn(scan, KEYWORDS[..k])
      {
        assert KEYWORDS[..k + 1][..k] == KEYWORDS[..k];
        if FindWord(scan, KEYWORDS[k], 0).Some? {
          filters := filters + [KEYWORDS[k]];
        }
      }
      assert KEYWORDS[..|KEYWORDS|] == KEYWORDS;
    }
  }
}
