/** Agent-doctor's retry policy: every decision is computed from the append-only fixes log. */
module AgentDoctor {
  import opened Sequences
  import opened Decimals

  datatype Option<T> = None | Some(value: T)

  /** One line of fixes-log.jsonl. `ts` is None when the stored timestamp does not parse. */
  datatype Entry = Entry(agent: string, sig: string, outcome: string, notes: string, ts: Option<int>, excerpt: string)

  const MAX_RETRIES: nat := 2
  const STORED_EXCERPT: nat := 600
  const DAY: int := 24 * 60 * 60 * 1_000_000

  predicate HasAt(s: string, sub: string, i: int) {
    0 <= i <= |s| - |sub| && s[i..i + |sub|] == sub
  }

  predicate Contains(s: string, sub: string) {
    exists i :: 0 <= i <= |s| && HasAt(s, sub, i)
  }

  predicate LlmRan(notes: string) { Contains(notes, "LLM") || Contains(notes, "diag=") }

  predicate Verdict(notes: string) {
    Contains(notes, "fix=data-issue") || Contains(notes, "fix=external-blocker") || Contains(notes, "fix=wait")
  }

  function ForPair(agent: string, sig: string): Entry -> bool {
    (e: Entry) => e.agent == agent && e.sig == sig
  }

  // ------------------------------------------------------------------ the scans, in closed form

  predicate AnyFixed(entries: seq<Entry>) {
    exists e :: e in entries && e.outcome == "fixed"
  }

  /** 0 if one of the newest three entries of the pair is a fix, else how many entries there are, up to three. */
  function Attempts(log: seq<Entry>, agent: string, sig: string): nat {
    var newest := LastN(Filter(log, ForPair(agent, sig)), MAX_RETRIES + 1);
    if AnyFixed(newest) then 0 else |newest|
  }

  predicate LlmTried(log: seq<Entry>, agent: string, sig: string) {
    exists e :: e in log && ForPair(agent, sig)(e) && LlmRan(e.notes)
  }

  predicate NonActionable(log: seq<Entry>, agent: string, sig: string) {
    exists e :: e in log && ForPair(agent, sig)(e) && Verdict(e.notes)
  }

  /** Jaccard similarity of two word sets of at least 70%. */
  predicate Similar(a: set<string>, b: set<string>) {
    a != {} && b != {} && 10 * |a * b| >= 7 * |a + b|
  }

  predicate Escalation(e: Entry, agent: string, sig: string) {
    e.agent == agent && e.sig == sig && e.outcome == "escalated" && e.ts.Some?
  }

  /** Some escalation of the pair within the last day had a similar excerpt. */
  predicate RecentlyEscalated(log: seq<Entry>, words: string -> set<string>, agent: string, sig: string,
                              excerpt: string, now: int) {
    exists e :: e in log && Escalation(e, agent, sig) && e.ts.value >= now - DAY
        && Similar(words(excerpt), words(e.excerpt))
  }

  predicate TimeOrdered(log: seq<Entry>) {
    forall i, j :: 0 <= i < j < |log| && log[i].ts.Some? && log[j].ts.Some? ==> log[i].ts.value <= log[j].ts.value
  }

  // ------------------------------------------------------------------ one visit

  /** A failed agent investigated at `now` and logged at `stamp`. `outcome` and `notes` are what the recipe
      would return; `words` of an excerpt are its normalised words. */
  datatype Visit =
    | Investigate(agent: string, sig: string, excerpt: string, now: int, stamp: int, outcome: string, notes: string)
    | Sweep(chain: string, excerpt: string, now: int, stamp: int, outcome: string, notes: string)
  {
    function Agent(): string { if Sweep? then "implementer" else agent }
    function Sig(): string { if Sweep? then "stuck-queue@" + chain else sig }
    predicate On(a: string, g: string) { Agent() == a && Sig() == g }
  }

  datatype Decision = Silent | Suppressed | LoopBroken | Recipe

  function Decide(log: seq<Entry>, words: string -> set<string>, v: Visit): Decision {
    var n := Attempts(log, v.Agent(), v.Sig());
    if v.Sweep? then if n >= MAX_RETRIES then LoopBroken else Recipe
    else if NonActionable(log, v.agent, v.sig) then Silent
    else if n >= MAX_RETRIES && LlmTried(log, v.agent, v.sig) then
      if RecentlyEscalated(log, words, v.agent, v.sig, v.excerpt, v.now) then Suppressed else LoopBroken
    else Recipe
  }

  function CapNotes(n: nat): string { "signature attempted " + Numeral(n) + "\U{00D7} incl. LLM" }

  function SuppressedNotes(n: nat): string {
    CapNotes(n) + "; identical log already " + "escalated within 24h \U{2014} " + "suppressing duplicate email"
  }

  /** What one visit appends to the log. `prior` is the note quoted by the silent branch. */
  function Logged(log: seq<Entry>, words: string -> set<string>, v: Visit, prior: string): Entry {
    var n := Attempts(log, v.Agent(), v.Sig());
    var d := Decide(log, words, v);
    var outcome :=
      match d
      case Silent => "skipped"
      case Suppressed => "skipped"
      case LoopBroken => "escalated"
      case Recipe => v.outcome;
    var notes :=
      match d
      case Silent => "LLM previously classified as non-actionable (" + Take(prior, 120) + "); silently accepting state."
      case Suppressed => SuppressedNotes(n)
      case LoopBroken =>
        if v.Sweep? then
          "chain " + v.chain + " re-dispatched " + Numeral(n) + "\U{00D7} without progress \U{2014} escalating"
        else CapNotes(n) + " \U{2014} escalating to operator"
      case Recipe => v.notes;
    Entry(v.Agent(), v.Sig(), outcome, notes, Some(v.stamp),
          if v.Sweep? then v.excerpt else Take(v.excerpt, STORED_EXCERPT))
  }

  /** The note of the newest entry of the pair that carries a verdict, cut to 200 characters. */
  function PriorNote(log: seq<Entry>, agent: string, sig: string): string {
    if log == [] then ""
    else
      var e := log[|log| - 1];
      if ForPair(agent, sig)(e) && Verdict(e.notes) then Take(e.notes, 200) else PriorNote(log[..|log| - 1], agent, sig)
  }

  function AfterVisit(log: seq<Entry>, words: string -> set<string>, v: Visit): seq<Entry> {
    log + [Logged(log, words, v, PriorNote(log, v.Agent(), v.Sig()))]
  }

  class Doctor {
    var log: seq<Entry>
    const words: string -> set<string>

    constructor (words: string -> set<string>)
      ensures this.words == words && log == []
    {
      this.words := words;
      log := [];
    }

    method SignatureAttemptCount(agent: string, sig: string) returns (count: nat)
      ensures count == Attempts(log, agent, sig)
    {
      var p := ForPair(agent, sig);
      var i := |log|;
      count := 0;
      assert log[..i] == log && log[i..] == [];
      while i > 0
        invariant 0 <= i <= |log|
        invariant count == |Filter(log[i..], p)| <= MAX_RETRIES
        invariant !AnyFixed(Filter(log[i..], p))
      {
        i := i - 1;
        var e := log[i];
        SuffixStep(log, i, p);
        if e.agent != agent || e.sig != sig {
          continue;
        }
        if e.outcome == "fixed" {
          FixSeen(log, i, agent, sig);
          return 0;
        }
        count := count + 1;
        NoFixYet(log, i, p);
        if count >= MAX_RETRIES + 1 {
          break;
        }
      }
      assert i == 0 ==> log[i..] == log;
      NewestSeen(log, i, agent, sig);
    }

    method HasLlmAttemptFor(agent: string, sig: string) returns (found: bool)
      ensures found == LlmTried(log, agent, sig)
    {
      for i := 0 to |log|
        invariant forall j :: 0 <= j < i ==> !(ForPair(agent, sig)(log[j]) && LlmRan(log[j].notes))
      {
        var e := log[i];
        if e.agent == agent && e.sig == sig && LlmRan(e.notes) {
          return true;
        }
      }
      return false;
    }

    method LlmSaysNonActionable(agent: string, sig: string) returns (found: bool, note: string)
      ensures found == NonActionable(log, agent, sig)
      ensures note == PriorNote(log, agent, sig)
    {
      var i := |log|;
      assert log[..i] == log;
      while i > 0
        invariant 0 <= i <= |log|
        invariant forall j :: i <= j < |log| ==> !(ForPair(agent, sig)(log[j]) && Verdict(log[j].notes))
        invariant PriorNote(log, agent, sig) == PriorNote(log[..i], agent, sig)
      {
        assert log[..i][..i - 1] == log[..i - 1];
        i := i - 1;
        var e := log[i];
        if e.agent == agent && e.sig == sig && Verdict(e.notes) {
          return true, Take(e.notes, 200);
        }
      }
      return false, "";
    }

    /** Scans newest first and stops at the first escalation of the pair older than a day. */
    method RecentEscalation(agent: string, sig: string, excerpt: string, now: int) returns (found: bool)
      requires TimeOrdered(log)
      ensures found == RecentlyEscalated(log, words, agent, sig, excerpt, now)
    {
      var i := |log|;
      while i > 0
        invariant 0 <= i <= |log|
        invariant forall j :: i <= j < |log| && Escalation(log[j], agent, sig) && log[j].ts.value >= now - DAY ==>
                    !Similar(words(excerpt), words(log[j].excerpt))
      {
        i := i - 1;
        var e := log[i];
        if e.agent != agent || e.sig != sig || e.outcome != "escalated" || e.ts.None? {
          continue;
        }
        if e.ts.value < now - DAY {
          break;
        }
        if Similar(words(excerpt), words(e.excerpt)) {
          return true;
        }
      }
      return false;
    }

    /** One pass of the investigation loop for one failed agent. */
    method InvestigateAgent(v: Visit) returns (emailed: bool)
      requires v.Investigate? && TimeOrdered(log)
      modifies this
      ensures log == AfterVisit(old(log), words, v)
      ensures emailed == (Decide(old(log), words, v) == LoopBroken
              || (Decide(old(log), words, v) == Recipe && v.outcome == "escalated"))
    {
      var n := SignatureAttemptCount(v.agent, v.sig);
      var tried := HasLlmAttemptFor(v.agent, v.sig);
      var nonActionable, prior := LlmSaysNonActionable(v.agent, v.sig);
      var outcome, notes;
      emailed := false;
      if nonActionable {
        outcome := "skipped";
        notes := "LLM previously classified as non-actionable (" + Take(prior, 120) + "); silently accepting state.";
      } else if n >= MAX_RETRIES && tried {
        var recent := RecentEscalation(v.agent, v.sig, v.excerpt, v.now);
        if recent {
          outcome := "skipped";
          notes := SuppressedNotes(n);
        } else {
          outcome := "escalated";
          notes := CapNotes(n) + " \U{2014} escalating to operator";
          emailed := true;
        }
      } else {
        outcome, notes := v.outcome, v.notes;
        emailed := outcome == "escalated";
      }
      log := log + [Entry(v.agent, v.sig, outcome, notes, Some(v.stamp), Take(v.excerpt, STORED_EXCERPT))];
    }

    /** One stuck chain of the stuck-queue sweep. */
    method SweepChain(v: Visit) returns (emailed: bool)
      requires v.Sweep?
      modifies this
      ensures log == AfterVisit(old(log), words, v)
      ensures emailed == (Decide(old(log), words, v) == LoopBroken || v.outcome != "fixed")
    {
      var n := SignatureAttemptCount("implementer", "stuck-queue@" + v.chain);
      var outcome, notes := v.outcome, v.notes;
      if n >= MAX_RETRIES {
        outcome := "escalated";
        notes := "chain " + v.chain + " re-dispatched " + Numeral(n) + "\U{00D7} without progress \U{2014} escalating";
        emailed := true;
      } else {
        emailed := outcome != "fixed";
      }
      log := log + [Entry("implementer", "stuck-queue@" + v.chain, outcome, notes, Some(v.stamp), v.excerpt)];
    }
  }

  // ------------------------------------------------------------------ facts about the scans

  lemma SuffixStep(log: seq<Entry>, i: nat, p: Entry -> bool)
    requires i < |log|
    ensures Filter(log[i..], p) == (if p(log[i]) then [log[i]] else []) + Filter(log[i + 1..], p)
  {
    assert log[i..][1..] == log[i + 1..];
  }

  lemma NoFixYet(log: seq<Entry>, i: nat, p: Entry -> bool)
    requires i < |log| && p(log[i]) && log[i].outcome != "fixed" && !AnyFixed(Filter(log[i + 1..], p))
    ensures !AnyFixed(Filter(log[i..], p))
  {
    SuffixStep(log, i, p);
  }

  lemma FixSeen(log: seq<Entry>, i: nat, agent: string, sig: string)
    requires i < |log| && ForPair(agent, sig)(log[i]) && log[i].outcome == "fixed"
    requires |Filter(log[i + 1..], ForPair(agent, sig))| <= MAX_RETRIES
    ensures Attempts(log, agent, sig) == 0
  {
    var p := ForPair(agent, sig);
    assert log == log[..i] + log[i..];
    FilterConcat(log[..i], log[i..], p);
    SuffixStep(log, i, p);
    var all := Filter(log, p);
    assert all[|Filter(log[..i], p)|] == log[i];
    LastNHas(all, MAX_RETRIES + 1, |Filter(log[..i], p)|);
  }

  lemma NewestSeen(log: seq<Entry>, i: nat, agent: string, sig: string)
    requires i <= |log| && !AnyFixed(Filter(log[i..], ForPair(agent, sig)))
    requires |Filter(log[i..], ForPair(agent, sig))| <= MAX_RETRIES + 1
    requires i == 0 || |Filter(log[i..], ForPair(agent, sig))| == MAX_RETRIES + 1
    ensures Attempts(log, agent, sig) == |Filter(log[i..], ForPair(agent, sig))|
  {
    assert log == log[..i] + log[i..];
    FilterConcat(log[..i], log[i..], ForPair(agent, sig));
    assert LastN(Filter(log, ForPair(agent, sig)), MAX_RETRIES + 1) == Filter(log[i..], ForPair(agent, sig));
  }
}
