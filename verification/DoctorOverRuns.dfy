/** What the retry policy amounts to over any sequence of visits, to any agents and chains. */
module DoctorOverRuns {
  import opened Sequences
  import opened Decimals
  import opened AgentDoctor

  function LogAfter(log: seq<Entry>, words: string -> set<string>, visits: seq<Visit>): seq<Entry> {
    if visits == [] then log
    else AfterVisit(LogAfter(log, words, visits[..|visits| - 1]), words, visits[|visits| - 1])
  }

  /** The log as visit i finds it. */
  function Before(log: seq<Entry>, words: string -> set<string>, visits: seq<Visit>, i: nat): seq<Entry>
    requires i <= |visits|
  {
    LogAfter(log, words, visits[..i])
  }

  /** Every visit on the pair, as the log stood when it came, was decided in one of the given ways. */
  predicate AllDecided(log: seq<Entry>, words: string -> set<string>, visits: seq<Visit>, agent: string, sig: string,
                       ways: set<Decision>) {
    visits == []
    || (var init, v := visits[..|visits| - 1], visits[|visits| - 1];
        && AllDecided(log, words, init, agent, sig, ways)
        && (v.On(agent, sig) ==> Decide(LogAfter(log, words, init), words, v) in ways))
  }

  predicate Timely(log: seq<Entry>, visits: seq<Visit>) {
    && TimeOrdered(log)
    && (forall i, j :: 0 <= i < j < |visits| ==> visits[i].stamp <= visits[j].stamp)
    && (forall e, j :: e in log && e.ts.Some? && 0 <= j < |visits| ==> e.ts.value <= visits[j].stamp)
  }

  lemma {:induction false} LogGrows(log: seq<Entry>, words: string -> set<string>, visits: seq<Visit>)
    ensures |LogAfter(log, words, visits)| == |log| + |visits|
    ensures LogAfter(log, words, visits)[..|log|] == log
  {
    hide Logged;
    if visits != [] {
      LogGrows(log, words, visits[..|visits| - 1]);
    }
  }

  /** Line |log| + i of the log is the one visit i wrote. */
  lemma {:induction false} LineOfVisit(log: seq<Entry>, words: string -> set<string>, visits: seq<Visit>, i: nat)
    requires i < |visits|
    ensures |LogAfter(log, words, visits)| == |log| + |visits|
    ensures LogAfter(log, words, visits)[|log| + i] ==
            Logged(Before(log, words, visits, i), words, visits[i],
                PriorNote(Before(log, words, visits, i), visits[i].Agent(), visits[i].Sig()))
  {
    hide Logged, PriorNote;
    var init := visits[..|visits| - 1];
    LogGrows(log, words, visits);
    LogGrows(log, words, init);
    if i < |init| {
      LineOfVisit(log, words, init, i);
      assert init[..i] == visits[..i];
    }
  }

  /** Clocks that do not run backwards keep the log in time order, which the early exit of the escalation scan needs. */
  lemma {:induction false} LogStaysOrdered(log: seq<Entry>, words: string -> set<string>, visits: seq<Visit>)
    requires Timely(log, visits)
    ensures TimeOrdered(LogAfter(log, words, visits))
    ensures forall e :: e in LogAfter(log, words, visits) && e.ts.Some? && visits != [] ==>
            e.ts.value <= visits[|visits| - 1].stamp
  {
    hide Logged, PriorNote;
    if visits != [] {
      var init, v := visits[..|visits| - 1], visits[|visits| - 1];
      assert Timely(log, init) by {
        assert forall i :: 0 <= i < |init| ==> init[i] == visits[i];
      }
      LogStaysOrdered(log, words, init);
      assert init != [] ==> init[|init| - 1].stamp <= v.stamp;
      var was := LogAfter(log, words, init);
      var e := Logged(was, words, v, PriorNote(was, v.Agent(), v.Sig()));
      assert e.ts == Some(v.stamp) by { LoggedAt(was, words, v); }
      AppendOrdered(was, e);
    }
  }

  lemma LoggedAt(log: seq<Entry>, words: string -> set<string>, v: Visit)
    ensures Logged(log, words, v, PriorNote(log, v.Agent(), v.Sig())).ts == Some(v.stamp)
  {
    hide Decide, CapNotes, PriorNote;
  }

  lemma AppendOrdered(log: seq<Entry>, e: Entry)
    requires TimeOrdered(log) && e.ts.Some? && forall x :: x in log && x.ts.Some? ==> x.ts.value <= e.ts.value
    ensures TimeOrdered(log + [e])
  {
    assert forall i :: 0 <= i < |log| ==> log[i] in log;
  }

  // ------------------------------------------------------------------ the retry cap

  /** The cap counts the newest run of failures: two or more entries with no fix among the newest three. */
  lemma CapReachedIff(log: seq<Entry>, agent: string, sig: string)
    ensures var all := Filter(log, ForPair(agent, sig));
            Attempts(log, agent, sig) ==
            if exists k :: 0 <= k < |all| && |all| - 3 <= k && all[k].outcome == "fixed" then 0
            else if |all| < 3 then |all| else 3
    ensures var all := Filter(log, ForPair(agent, sig));
            Attempts(log, agent, sig) >= 2
            <==> |all| >= 2 && forall k :: 0 <= k < |all| && |all| - 3 <= k ==> all[k].outcome != "fixed"
  {
    NewestThree(Filter(log, ForPair(agent, sig)));
  }

  lemma NewestThree(all: seq<Entry>)
    ensures AnyFixed(LastN(all, 3)) <==> exists k :: 0 <= k < |all| && |all| - 3 <= k && all[k].outcome == "fixed"
  {
    var newest := LastN(all, 3);
    if k :| 0 <= k < |all| && |all| - 3 <= k && all[k].outcome == "fixed" {
      LastNHas(all, 3, k);
    }
    if AnyFixed(newest) {
      var i :| 0 <= i < |newest| && newest[i].outcome == "fixed";
      assert newest[i] == all[|all| - |newest| + i];
    }
  }

  lemma MatchingAfter(log: seq<Entry>, e: Entry, agent: string, sig: string)
    ensures Filter(log + [e], ForPair(agent, sig)) ==
            Filter(log, ForPair(agent, sig)) + (if e.agent == agent && e.sig == sig then [e] else [])
  {
    FilterConcat(log, [e], ForPair(agent, sig));
    FilterCons(e, [], ForPair(agent, sig));
    assert [e] + [] == [e];
  }

  lemma AttemptsAfter(log: seq<Entry>, e: Entry, agent: string, sig: string)
    ensures !(e.agent == agent && e.sig == sig) ==> Attempts(log + [e], agent, sig) == Attempts(log, agent, sig)
    ensures e.agent == agent && e.sig == sig && e.outcome == "fixed" ==> Attempts(log + [e], agent, sig) == 0
    ensures e.agent == agent && e.sig == sig && e.outcome != "fixed" && Attempts(log, agent, sig) >= MAX_RETRIES ==>
              Attempts(log + [e], agent, sig) >= MAX_RETRIES
  {
    MatchingAfter(log, e, agent, sig);
    assert Filter(log, ForPair(agent, sig)) + [] == Filter(log, ForPair(agent, sig));
    if e.agent == agent && e.sig == sig {
      var all := Filter(log + [e], ForPair(agent, sig));
      assert all == Filter(log, ForPair(agent, sig)) + [e];
      NewestThree(all);
      assert all[|all| - 1] == e;
      CapReachedIff(log, agent, sig);
      CapReachedIff(log + [e], agent, sig);
      CapExtends(Filter(log, ForPair(agent, sig)), e);
    }
  }

  lemma CapExtends(was: seq<Entry>, e: Entry)
    ensures e.outcome != "fixed" && (forall k :: 0 <= k < |was| && |was| - 3 <= k ==> was[k].outcome != "fixed")
            ==> forall k :: 0 <= k < |was + [e]| && |was + [e]| - 3 <= k ==> (was + [e])[k].outcome != "fixed"
  {}

  predicate NewestIsFix(log: seq<Entry>, agent: string, sig: string) {
    var all := Filter(log, ForPair(agent, sig));
    all == [] || all[|all| - 1].outcome == "fixed"
  }

  /** A stuck chain whose trigger write keeps succeeding is re-dispatched on every sweep, for ever:
      each success resets the counter, so the cap meant to stop the loop is never reached. */
  lemma {:induction false} SucceedingChainNeverCapped(log: seq<Entry>, words: string -> set<string>,
                                                      visits: seq<Visit>, chain: string)
    requires NewestIsFix(log, "implementer", "stuck-queue@" + chain)
    requires forall v :: v in visits && v.On("implementer", "stuck-queue@" + chain) ==> v.Sweep? && v.outcome == "fixed"
    ensures Attempts(LogAfter(log, words, visits), "implementer", "stuck-queue@" + chain) == 0
    ensures AllDecided(log, words, visits, "implementer", "stuck-queue@" + chain, {Recipe})
  {
    hide PriorNote, CapNotes, Numeral;
    var sig := "stuck-queue@" + chain;
    if visits == [] {
      NewestFixMeansZero(log, "implementer", sig);
    } else {
      var init, v := visits[..|visits| - 1], visits[|visits| - 1];
      SucceedingChainNeverCapped(log, words, init, chain);
      var was := LogAfter(log, words, init);
      var e := Logged(was, words, v, PriorNote(was, v.Agent(), v.Sig()));
      AttemptsAfter(was, e, "implementer", sig);
    }
  }

  lemma NewestFixMeansZero(log: seq<Entry>, agent: string, sig: string)
    requires NewestIsFix(log, agent, sig)
    ensures Attempts(log, agent, sig) == 0
  {
    var all := Filter(log, ForPair(agent, sig));
    if all != [] {
      LastNHas(all, 3, |all| - 1);
    }
  }

  /** The other way: once a chain is capped, every later sweep emails and none re-dispatches. */
  lemma {:induction false} CappedChainStaysCapped(log: seq<Entry>, words: string -> set<string>, visits: seq<Visit>,
                                                  chain: string)
    requires Attempts(log, "implementer", "stuck-queue@" + chain) >= MAX_RETRIES
    requires forall v :: v in visits && v.On("implementer", "stuck-queue@" + chain) ==> v.Sweep?
    ensures Attempts(LogAfter(log, words, visits), "implementer", "stuck-queue@" + chain) >= MAX_RETRIES
    ensures AllDecided(log, words, visits, "implementer", "stuck-queue@" + chain, {LoopBroken})
  {
    hide PriorNote, CapNotes, Numeral;
    var sig := "stuck-queue@" + chain;
    if visits != [] {
      var init, v := visits[..|visits| - 1], visits[|visits| - 1];
      CappedChainStaysCapped(log, words, init, chain);
      var was := LogAfter(log, words, init);
      AttemptsAfter(was, Logged(was, words, v, PriorNote(was, v.Agent(), v.Sig())), "implementer", sig);
    }
  }

  // ------------------------------------------------------------------ markers in notes

  lemma NeedsChar(s: string, sub: string, c: char)
    requires c in sub && c !in s
    ensures !Contains(s, sub)
  {
    forall i ensures !HasAt(s, sub, i) {
      if 0 <= i <= |s| - |sub| {
        var k :| 0 <= k < |sub| && sub[k] == c;
        assert s[i + k] in s;
        assert s[i..i + |sub|][k] == s[i + k];
      }
    }
  }

  lemma NoVerdictWithoutEquals(s: string)
    requires '=' !in s
    ensures !Verdict(s)
  {
    assert "fix=data-issue"[3] == '=' && "fix=external-blocker"[3] == '=' && "fix=wait"[3] == '=';
    NeedsChar(s, "fix=data-issue", '=');
    NeedsChar(s, "fix=external-blocker", '=');
    NeedsChar(s, "fix=wait", '=');
  }

  lemma NotInEither(a: string, b: string, c: char)
    requires c !in a && c !in b
    ensures c !in a + b
  {}

  lemma CapNotesPlain(n: nat)
    ensures '=' !in CapNotes(n)
  {
    hide Numeral;
    NumeralDigits(n);
    NotInEither("signature attempted ", Numeral(n), '=');
    NotInEither("signature attempted " + Numeral(n), "\U{00D7} incl. LLM", '=');
  }

  lemma SuppressedNotesPlain(n: nat)
    ensures '=' !in SuppressedNotes(n)
  {
    hide CapNotes;
    CapNotesPlain(n);
    var a, b, c := "; identical log already ", "escalated within 24h \U{2014} ", "suppressing duplicate email";
    NotInEither(CapNotes(n), a, '=');
    NotInEither(CapNotes(n) + a, b, '=');
    NotInEither(CapNotes(n) + a + b, c, '=');
  }

  /** The notes the doctor writes at the cap are never mistaken for an LLM verdict. */
  lemma CapNotesCarryNoVerdict(n: nat)
    ensures !Verdict(CapNotes(n) + " \U{2014} escalating to operator")
    ensures !Verdict(SuppressedNotes(n))
  {
    hide Verdict, CapNotes, SuppressedNotes;
    CapNotesPlain(n);
    SuppressedNotesPlain(n);
    NotInEither(CapNotes(n), " \U{2014} escalating to operator", '=');
    NoVerdictWithoutEquals(CapNotes(n) + " \U{2014} escalating to operator");
    NoVerdictWithoutEquals(SuppressedNotes(n));
  }

  // ------------------------------------------------------------------ absorbing states

  /** A logged non-actionable verdict is absorbing: every later visit is silent, sends nothing and tries nothing. */
  lemma {:induction false} VerdictIsAbsorbing(log: seq<Entry>, words: string -> set<string>, visits: seq<Visit>,
                                              agent: string, sig: string)
    requires NonActionable(log, agent, sig)
    requires forall v :: v in visits && v.On(agent, sig) ==> v.Investigate?
    ensures NonActionable(LogAfter(log, words, visits), agent, sig)
    ensures AllDecided(log, words, visits, agent, sig, {Silent})
  {
    hide Logged, PriorNote, Verdict;
    if visits != [] {
      var init := visits[..|visits| - 1];
      VerdictIsAbsorbing(log, words, init, agent, sig);
    }
  }

  /** At the cap, with the LLM already consulted and no verdict. */
  predicate Capped(log: seq<Entry>, agent: string, sig: string) {
    Attempts(log, agent, sig) >= MAX_RETRIES && LlmTried(log, agent, sig) && !NonActionable(log, agent, sig)
  }

  /** The cap is final: a capped pair is never given a recipe again, whatever happens to it later. */
  lemma {:induction false} CapIsFinal(log: seq<Entry>, words: string -> set<string>, visits: seq<Visit>,
                                      agent: string, sig: string)
    requires Capped(log, agent, sig)
    requires forall v :: v in visits && v.On(agent, sig) ==> v.Investigate?
    ensures Capped(LogAfter(log, words, visits), agent, sig)
    ensures AllDecided(log, words, visits, agent, sig, {Suppressed, LoopBroken})
  {
    hide AfterVisit, Logged, PriorNote, Capped, Decide;
    if visits != [] {
      var init, v := visits[..|visits| - 1], visits[|visits| - 1];
      CapIsFinal(log, words, init, agent, sig);
      CapStep(LogAfter(log, words, init), words, v, agent, sig);
    }
  }

  lemma CapStep(log: seq<Entry>, words: string -> set<string>, v: Visit, agent: string, sig: string)
    requires Capped(log, agent, sig) && (v.On(agent, sig) ==> v.Investigate?)
    ensures Capped(AfterVisit(log, words, v), agent, sig)
    ensures v.On(agent, sig) ==> Decide(log, words, v) in {Suppressed, LoopBroken}
  {
    hide PriorNote, CapNotes, Numeral, RecentlyEscalated, Attempts, Verdict, LlmRan;
    var e := Logged(log, words, v, PriorNote(log, v.Agent(), v.Sig()));
    AttemptsAfter(log, e, agent, sig);
    if v.On(agent, sig) {
      CapNotesCarryNoVerdict(Attempts(log, agent, sig));
      assert !Verdict(e.notes);
    }
  }

  /** A pair whose recipe never leaves a marker in its notes, a static recipe, never reaches the loop-broken
      branch: the retry cap does not apply to it, and every visit runs the recipe once more. */
  lemma {:induction false} StaticRecipeIsNeverCapped(log: seq<Entry>, words: string -> set<string>,
                                                     visits: seq<Visit>, agent: string, sig: string)
    requires !LlmTried(log, agent, sig) && !NonActionable(log, agent, sig)
    requires forall v :: v in visits && v.On(agent, sig) ==> v.Investigate? && !LlmRan(v.notes) && !Verdict(v.notes)
    ensures !LlmTried(LogAfter(log, words, visits), agent, sig)
            && !NonActionable(LogAfter(log, words, visits), agent, sig)
    ensures AllDecided(log, words, visits, agent, sig, {Recipe})
  {
    hide AfterVisit, LlmTried, NonActionable, Decide, LlmRan, Verdict;
    if visits != [] {
      var init, v := visits[..|visits| - 1], visits[|visits| - 1];
      StaticRecipeIsNeverCapped(log, words, init, agent, sig);
      StaticStep(LogAfter(log, words, init), words, v, agent, sig);
    }
  }

  lemma StaticStep(log: seq<Entry>, words: string -> set<string>, v: Visit, agent: string, sig: string)
    requires !LlmTried(log, agent, sig) && !NonActionable(log, agent, sig)
    requires v.On(agent, sig) ==> v.Investigate? && !LlmRan(v.notes) && !Verdict(v.notes)
    ensures !LlmTried(AfterVisit(log, words, v), agent, sig) && !NonActionable(AfterVisit(log, words, v), agent, sig)
    ensures v.On(agent, sig) ==> Decide(log, words, v) == Recipe
  {
    hide Attempts, PriorNote, CapNotes, Verdict, LlmRan, RecentlyEscalated;
    var e := Logged(log, words, v, PriorNote(log, v.Agent(), v.Sig()));
    assert forall x :: x in log + [e] <==> x in log || x == e;
  }

  // ------------------------------------------------------------------ duplicate emails

  /** A stored excerpt is the first 600 characters of what was seen; a whole one compares equal to itself
      unless normalising leaves no words. */
  lemma WholeExcerptsMatch(words: string -> set<string>, e: string)
    requires |e| <= 600
    ensures Similar(words(e), words(Take(e, STORED_EXCERPT))) <==> words(e) != {}
  {
    assert words(e) * words(e) == words(e) && words(e) + words(e) == words(e);
  }

  /** While the log excerpt of a pair stays the same and resembles its own stored form, two loop-broken emails
      for it are more than 24 hours apart. */
  lemma OneEmailPerDay(log: seq<Entry>, words: string -> set<string>, visits: seq<Visit>, i: nat, j: nat)
    requires i < j < |visits| && visits[i].Investigate? && visits[j].Investigate?
    requires visits[j].On(visits[i].agent, visits[i].sig) && visits[j].excerpt == visits[i].excerpt
    requires Similar(words(visits[i].excerpt), words(Take(visits[i].excerpt, STORED_EXCERPT)))
    requires Decide(Before(log, words, visits, i), words, visits[i]) == LoopBroken
    requires Decide(Before(log, words, visits, j), words, visits[j]) == LoopBroken
    ensures visits[j].now - 24 * 60 * 60 * 1_000_000 > visits[i].stamp
  {
    hide Decide, PriorNote, CapNotes, Attempts;
    var now := Before(log, words, visits, j);
    LineOfVisit(log, words, visits[..j], i);
    assert visits[..j][..i] == visits[..i];
    var e := now[|log| + i];
    assert e in now && Escalation(e, visits[i].agent, visits[i].sig)
        && e.excerpt == Take(visits[i].excerpt, STORED_EXCERPT);
    NotRecent(now, words, visits[j]);
  }

  lemma NotRecent(log: seq<Entry>, words: string -> set<string>, v: Visit)
    requires v.Investigate? && Decide(log, words, v) == LoopBroken
    ensures !RecentlyEscalated(log, words, v.agent, v.sig, v.excerpt, v.now)
  {}

  /** The condition is exact: an excerpt that does not resemble its own first 600 characters (or has no words
      at all) is emailed on every visit to a capped pair. */
  lemma {:induction false} UnlikeItselfEmailsEveryVisit(log: seq<Entry>, words: string -> set<string>,
                                                        visits: seq<Visit>, agent: string, sig: string, excerpt: string)
    requires Capped(log, agent, sig)
    requires forall v :: v in visits && v.On(agent, sig) ==> v.Investigate? && v.excerpt == excerpt
    requires forall e :: e in log && Escalation(e, agent, sig) ==> e.excerpt == Take(excerpt, STORED_EXCERPT)
    requires !Similar(words(excerpt), words(Take(excerpt, STORED_EXCERPT)))
    ensures forall e :: e in LogAfter(log, words, visits) && Escalation(e, agent, sig) ==>
            e.excerpt == Take(excerpt, STORED_EXCERPT)
    ensures AllDecided(log, words, visits, agent, sig, {LoopBroken})
  {
    hide Attempts, PriorNote, CapNotes, Similar, Take;
    if visits != [] {
      var init, v := visits[..|visits| - 1], visits[|visits| - 1];
      UnlikeItselfEmailsEveryVisit(log, words, init, agent, sig, excerpt);
      CapIsFinal(log, words, init, agent, sig);
      var was := LogAfter(log, words, init);
      if v.On(agent, sig) {
        assert !RecentlyEscalated(was, words, agent, sig, excerpt, v.now);
        assert Decide(was, words, v) == LoopBroken;
      }
    }
  }
}
