/** What one visit of the doctor decides and writes, in the text of the log. */
module DoctorRules {
  import opened Sequences
  import opened Decimals
  import opened AgentDoctor

  /** The text holds one of the markers somewhere. */
  ghost predicate Marked(text: string, markers: set<string>) {
    exists before, marker, after :: marker in markers && text == before + (marker + after)
  }

  ghost predicate IsVerdict(notes: string) { Marked(notes, {"fix=data-issue", "fix=external-blocker", "fix=wait"}) }

  ghost predicate NamesLlm(notes: string) { Marked(notes, {"LLM", "diag="}) }

  lemma ContainsIff(s: string, sub: string)
    ensures Contains(s, sub) <==> exists before, after :: s == before + (sub + after)
  {
    if Contains(s, sub) {
      var i :| 0 <= i <= |s| && HasAt(s, sub, i);
      assert s == s[..i] + (sub + s[i + |sub|..]);
    }
    if before, after :| s == before + (sub + after) {
      assert s[|before|..|before| + |sub|] == sub;
      assert HasAt(s, sub, |before|);
    }
  }

  lemma VerdictIff(notes: string)
    ensures Verdict(notes) <==> IsVerdict(notes)
  {
    hide Contains;
    ContainsIff(notes, "fix=data-issue");
    ContainsIff(notes, "fix=external-blocker");
    ContainsIff(notes, "fix=wait");
  }

  lemma LlmRanIff(notes: string)
    ensures LlmRan(notes) <==> NamesLlm(notes)
  {
    hide Contains;
    ContainsIff(notes, "LLM");
    ContainsIff(notes, "diag=");
  }

  /** Some entry of the pair carries an LLM verdict that there is nothing to do. */
  ghost predicate JudgedBefore(log: seq<Entry>, agent: string, sig: string) {
    exists e :: e in log && e.agent == agent && e.sig == sig && IsVerdict(e.notes)
  }

  /** Some entry of the pair shows that the LLM was consulted. */
  ghost predicate LlmConsulted(log: seq<Entry>, agent: string, sig: string) {
    exists e :: e in log && e.agent == agent && e.sig == sig && NamesLlm(e.notes)
  }

  /** Within 24 hours an escalation of the pair was logged whose excerpt shares seven tenths of the words. */
  predicate EscalatedInADay(log: seq<Entry>, words: string -> set<string>, v: Visit)
    requires v.Investigate?
  {
    exists e :: e in log && e.agent == v.agent && e.sig == v.sig && e.outcome == "escalated" && e.ts.Some?
                && e.ts.value + 24 * 60 * 60 * 1_000_000 >= v.now
                && words(v.excerpt) != {} && words(e.excerpt) != {}
                && |words(v.excerpt) * words(e.excerpt)| * 100 >= |words(v.excerpt) + words(e.excerpt)| * 70
  }

  lemma ConditionsAre(log: seq<Entry>, agent: string, sig: string)
    ensures NonActionable(log, agent, sig) <==> JudgedBefore(log, agent, sig)
    ensures LlmTried(log, agent, sig) <==> LlmConsulted(log, agent, sig)
  {
    hide Verdict, LlmRan, IsVerdict, NamesLlm;
    forall e ensures Verdict(e) <==> IsVerdict(e) {
      VerdictIff(e);
    }
    forall e ensures LlmRan(e) <==> NamesLlm(e) {
      LlmRanIff(e);
    }
  }

  lemma RecentIff(log: seq<Entry>, words: string -> set<string>, v: Visit)
    requires v.Investigate?
    ensures RecentlyEscalated(log, words, v.agent, v.sig, v.excerpt, v.now) <==> EscalatedInADay(log, words, v)
  {}

  /** The four ways a visit is decided. */
  lemma DecisionsAre(log: seq<Entry>, words: string -> set<string>, v: Visit)
    requires v.Investigate?
    ensures var judged, consulted := JudgedBefore(log, v.agent, v.sig), LlmConsulted(log, v.agent, v.sig);
            var capped := !judged && consulted && Attempts(log, v.agent, v.sig) >= 2;
            && (Decide(log, words, v) == Silent <==> judged)
            && (Decide(log, words, v) == Suppressed <==> capped && EscalatedInADay(log, words, v))
            && (Decide(log, words, v) == LoopBroken <==> capped && !EscalatedInADay(log, words, v))
            && (Decide(log, words, v) == Recipe <==> !judged && !capped)
  {
    hide Attempts, NonActionable, LlmTried, JudgedBefore, LlmConsulted, RecentlyEscalated, EscalatedInADay;
    ConditionsAre(log, v.agent, v.sig);
    RecentIff(log, words, v);
  }

  /** An investigation appends one entry. Its outcome is "skipped" where a verdict stands or the operator was told
      within a day, "escalated" at the cap, and else what the recipe returned; its excerpt is cut to 600 characters. */
  lemma InvestigationLogs(log: seq<Entry>, words: string -> set<string>, v: Visit)
    requires v.Investigate?
    ensures var after := AfterVisit(log, words, v);
            |after| == |log| + 1 && after[..|log|] == log
            && var e, n, capped := after[|log|], Attempts(log, v.agent, v.sig),
                   LlmConsulted(log, v.agent, v.sig) && Attempts(log, v.agent, v.sig) >= 2;
               && e.agent == v.agent && e.sig == v.sig && e.ts == Some(v.stamp)
               && e.excerpt <= v.excerpt && |e.excerpt| == (if |v.excerpt| < 600 then |v.excerpt| else 600)
               && (if JudgedBefore(log, v.agent, v.sig) then e.outcome == "skipped"
                   else if capped && EscalatedInADay(log, words, v) then
                     && e.outcome == "skipped"
                     && e.notes == "signature attempted " + Numeral(n) + "\U{00D7} incl. LLM"
                                   + "; identical log already " + "escalated within 24h \U{2014} "
                                   + "suppressing duplicate email"
                   else if capped then
                     && e.outcome == "escalated"
                     && e.notes == "signature attempted " + Numeral(n) + "\U{00D7} incl. LLM"
                                   + " \U{2014} escalating to operator"
                   else e.outcome == v.outcome && e.notes == v.notes)
  {
    hide Attempts, JudgedBefore, LlmConsulted, EscalatedInADay, Decide, PriorNote, Numeral;
    DecisionsAre(log, words, v);
  }

  /** The note quoted where a verdict stands is the newest one, cut to 120 characters. */
  lemma SilentNotes(log: seq<Entry>, words: string -> set<string>, v: Visit, i: nat)
    requires v.Investigate? && i < |log| && log[i].agent == v.agent && log[i].sig == v.sig && IsVerdict(log[i].notes)
    requires forall j :: i < j < |log| && log[j].agent == v.agent && log[j].sig == v.sig ==> !IsVerdict(log[j].notes)
    ensures var after := AfterVisit(log, words, v);
            exists quoted: string ::
              && quoted <= log[i].notes && |quoted| == (if |log[i].notes| < 120 then |log[i].notes| else 120)
              && after[|log|].notes ==
                 "LLM previously classified as non-actionable (" + quoted + "); silently accepting state."
  {
    hide Attempts, Verdict, IsVerdict, Decide, JudgedBefore, LlmConsulted, EscalatedInADay;
    DecisionsAre(log, words, v);
    Judged(log, v.agent, v.sig, i);
    NewestVerdict(log, v.agent, v.sig, i);
    var quoted := Take(Take(log[i].notes, 200), 120);
    assert AfterVisit(log, words, v)[|log|].notes ==
           "LLM previously classified as non-actionable (" + quoted + "); silently accepting state.";
  }

  lemma Judged(log: seq<Entry>, agent: string, sig: string, i: nat)
    requires i < |log| && log[i].agent == agent && log[i].sig == sig && IsVerdict(log[i].notes)
    ensures JudgedBefore(log, agent, sig)
  {
    hide IsVerdict;
    assert log[i] in log;
  }

  lemma {:induction false} NewestVerdict(log: seq<Entry>, agent: string, sig: string, i: nat)
    requires i < |log| && log[i].agent == agent && log[i].sig == sig && IsVerdict(log[i].notes)
    requires forall j :: i < j < |log| && log[j].agent == agent && log[j].sig == sig ==> !IsVerdict(log[j].notes)
    ensures PriorNote(log, agent, sig) == Take(log[i].notes, 200)
    decreases |log|
  {
    hide Verdict, IsVerdict;
    VerdictIff(log[|log| - 1].notes);
    if i < |log| - 1 {
      NewestVerdict(log[..|log| - 1], agent, sig, i);
    }
  }

  /** A sweep appends one entry for the chain: escalated from the second fruitless attempt on, and below that what the
      re-dispatch returned. */
  lemma SweepLogs(log: seq<Entry>, words: string -> set<string>, v: Visit)
    requires v.Sweep?
    ensures var sig := "stuck-queue@" + v.chain;
            var n := Attempts(log, "implementer", sig);
            AfterVisit(log, words, v) == log + [
              if n >= 2
              then Entry("implementer", sig, "escalated",
                         "chain " + v.chain + " re-dispatched " + Numeral(n)
                         + "\U{00D7} without progress \U{2014} escalating",
                         Some(v.stamp), v.excerpt)
              else Entry("implementer", sig, v.outcome, v.notes, Some(v.stamp), v.excerpt)]
    ensures Decide(log, words, v) == LoopBroken <==> Attempts(log, "implementer", "stuck-queue@" + v.chain) >= 2
    ensures Decide(log, words, v) == LoopBroken || Decide(log, words, v) == Recipe
  {
    hide Attempts, PriorNote, Numeral;
  }
}
