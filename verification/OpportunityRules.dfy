/** What one run does to an opportunity, in its fields and in the texts the agent reads. */
module OpportunityRules {
  import opened Sequences
  import opened Decimals
  import opened OpportunityAccumulator
  import opened OpportunityHistory

  // ------------------------------------------------------------------ versions

  predicate AllSpaces(s: string) { forall c :: c in s ==> IsSpace(c) }

  /** The digits after leading white space are the number n, and no digit follows them. */
  predicate StartsWith(v: string, spaces: string, digits: string, rest: string, n: int) {
    && v == spaces + (digits + rest) && AllSpaces(spaces)
    && digits != "" && AllDigits(digits) && n == Value(digits) && (rest == "" || !IsDigit(rest[0]))
  }

  /** But for white space at both ends the text is a sign and digits. */
  predicate IsSigned(v: string, spaces: string, sign: char, digits: string, more: string, n: int) {
    && v == spaces + ([sign] + digits + more) && AllSpaces(spaces) && AllSpaces(more)
    && digits != "" && AllDigits(digits)
    && ((sign == '+' && n == Value(digits)) || (sign == '-' && n == 0 - Value(digits)))
  }

  /** The major version number of a version text, if it has one. */
  ghost predicate Major(v: string, n: int) {
    || (exists spaces, digits, rest :: StartsWith(v, spaces, digits, rest, n))
    || (exists spaces, sign, digits, more :: IsSigned(v, spaces, sign, digits, more, n))
  }

  lemma {:induction false} SkipIs(s: string) returns (spaces: string)
    ensures s == spaces + SkipSpaces(s) && AllSpaces(spaces)
    ensures SkipSpaces(s) != "" ==> !IsSpace(SkipSpaces(s)[0])
  {
    if s != "" && IsSpace(s[0]) {
      var more := SkipIs(s[1..]);
      spaces := [s[0]] + more;
      assert s == [s[0]] + s[1..] == [s[0]] + (more + SkipSpaces(s[1..])) == spaces + SkipSpaces(s[1..]);
    } else {
      spaces := "";
    }
  }

  lemma {:induction false} SkipAfter(spaces: string, t: string)
    requires AllSpaces(spaces) && (t == "" || !IsSpace(t[0]))
    ensures SkipSpaces(spaces + t) == t
  {
    if spaces == "" {
      assert spaces + t == t;
    } else {
      assert spaces[0] in spaces;
      assert (spaces + t)[1..] == spaces[1..] + t;
      SkipAfter(spaces[1..], t);
    }
  }

  lemma {:induction false} TrimIs(s: string) returns (spaces: string)
    ensures s == TrimEnd(s) + spaces && AllSpaces(spaces)
  {
    if s != "" && IsSpace(s[|s| - 1]) {
      var init := s[..|s| - 1];
      var more := TrimIs(init);
      spaces := more + [s[|s| - 1]];
      assert s == init + [s[|s| - 1]] == (TrimEnd(init) + more) + [s[|s| - 1]] == TrimEnd(init) + spaces;
    } else {
      spaces := "";
    }
  }

  lemma {:induction false} TrimAfter(t: string, spaces: string)
    requires AllSpaces(spaces) && (t == "" || !IsSpace(t[|t| - 1]))
    ensures TrimEnd(t + spaces) == t
  {
    if spaces == "" {
      assert t + spaces == t;
    } else {
      assert spaces[|spaces| - 1] in spaces;
      assert (t + spaces)[..|t + spaces| - 1] == t + spaces[..|spaces| - 1];
      TrimAfter(t, spaces[..|spaces| - 1]);
    }
  }

  lemma {:induction false} DigitsAre(s: string)
    ensures LeadingDigits(s) <= s
    ensures |LeadingDigits(s)| < |s| ==> !IsDigit(s[|LeadingDigits(s)|])
  {
    if s != "" && IsDigit(s[0]) {
      DigitsAre(s[1..]);
    }
  }

  lemma {:induction false} DigitsBefore(digits: string, rest: string)
    requires AllDigits(digits) && (rest == "" || !IsDigit(rest[0]))
    ensures LeadingDigits(digits + rest) == digits
  {
    if digits == "" {
      assert digits + rest == rest;
    } else {
      assert (digits + rest)[1..] == digits[1..] + rest;
      DigitsBefore(digits[1..], rest);
    }
  }

  lemma StartsRead(v: string, spaces: string, digits: string, rest: string, n: int)
    requires StartsWith(v, spaces, digits, rest, n)
    ensures IntOf(MajorVersion(v)) == Some(n)
  {
    SkipAfter(spaces, digits + rest);
    DigitsBefore(digits, rest);
  }

  lemma SignedRead(v: string, spaces: string, sign: char, digits: string, more: string, n: int)
    requires IsSigned(v, spaces, sign, digits, more, n)
    ensures IntOf(MajorVersion(v)) == Some(n)
  {
    hide SkipSpaces, TrimEnd, LeadingDigits, Value;
    var t := [sign] + digits + more;
    SkipAfter(spaces, t);
    DigitsBefore("", t);
    assert "" + t == t;
    TrimAfter([sign] + digits, more);
    SignedInt(sign, digits);
  }

  lemma SignedInt(sign: char, digits: string)
    requires digits != "" && AllDigits(digits) && (sign == '+' || sign == '-')
    ensures IntOf([sign] + digits) == Some(if sign == '+' then Value(digits) else 0 - Value(digits) as int)
  {
    hide Value;
    var s := [sign] + digits;
    assert s[1..] == digits && s[0] == sign && !AllDigits(s);
  }

  /** What the agent compares is the major version number. */
  lemma MajorIff(v: string, n: int)
    ensures IntOf(MajorVersion(v)) == Some(n) <==> Major(v, n)
  {
    if spaces, digits, rest :| StartsWith(v, spaces, digits, rest, n) {
      StartsRead(v, spaces, digits, rest, n);
    }
    if spaces, sign, digits, more :| IsSigned(v, spaces, sign, digits, more, n) {
      SignedRead(v, spaces, sign, digits, more, n);
    }
    if IntOf(MajorVersion(v)) == Some(n) {
      MajorRead(v, n);
    }
  }

  lemma MajorRead(v: string, n: int)
    requires IntOf(MajorVersion(v)) == Some(n)
    ensures Major(v, n)
  {
    hide SkipSpaces, TrimEnd, LeadingDigits;
    var t := SkipSpaces(v);
    var spaces := SkipIs(v);
    var d := LeadingDigits(t);
    DigitsAre(t);
    if d != "" {
      assert t == d + t[|d|..];
      assert StartsWith(v, spaces, d, t[|d|..], n);
    } else {
      var more := TrimIs(t);
      var s := TrimEnd(t);
      FirstIsNoDigit(t, s);
      assert s == [s[0]] + s[1..];
      assert IsSigned(v, spaces, s[0], s[1..], more, n);
    }
  }

  lemma FirstIsNoDigit(t: string, s: string)
    requires s <= t && LeadingDigits(t) == "" && IntOf(s).Some?
    ensures |s| > 1 && !IsDigit(s[0]) && (s[0] == '+' || s[0] == '-')
    ensures AllDigits(s[1..]) && IntOf(s) == Some(if s[0] == '+' then Value(s[1..]) else 0 - Value(s[1..]) as int)
  {
    if s != "" {
      assert s[0] == t[0];
    }
  }

  // ------------------------------------------------------------------ sightings

  /** The app has improved on what it was when it was first seen: a higher major version, or a rating of at least 4.2
      that is at least half a star above a rating it had. */
  ghost predicate HasImproved(base: Baseline, cur: Baseline) {
    || (exists b, c :: Major(base.version, b) && Major(cur.version, c) && c > b)
    || (base.rating != 0.0 && cur.rating >= 4.2 && cur.rating >= base.rating + 0.5)
  }

  lemma BumpIff(base: string, cur: string)
    ensures MajorBump(base, cur) <==> exists b, c :: Major(base, b) && Major(cur, c) && c > b
  {
    hide Major, MajorVersion;
    forall n ensures IntOf(MajorVersion(base)) == Some(n) <==> Major(base, n) {
      MajorIff(base, n);
    }
    forall n ensures IntOf(MajorVersion(cur)) == Some(n) <==> Major(cur, n) {
      MajorIff(cur, n);
    }
    if MajorBump(base, cur) {
      assert Major(base, IntOf(MajorVersion(base)).value) && Major(cur, IntOf(MajorVersion(cur)).value);
    }
  }

  lemma ImprovedIff(base: Baseline, cur: Baseline)
    ensures IsObsolete(base, cur) <==> HasImproved(base, cur)
  {
    hide MajorBump, Major;
    BumpIff(base.version, cur.version);
  }

  /** One sighting of an app. A new one is added as open, with what it looks like now as its baseline; one that is known
      is counted; an open one becomes obsolete where it has improved and takes over the fields seen otherwise; and
      no other opportunity changes. */
  lemma SightingIs(oid: (string, string) -> string, ps: seq<Opp>, app: App, now: string, id: string)
    ensures var was, after := Lookup(ps, id), Lookup(MergeAll(oid, ps, [app], now), id);
            if app.store == "" || app.storeId == "" || oid(app.store, app.storeId) != id then after == was
            else if was.None? then after == Some(Opp(id, "open", "", app.fields, app.now, 1, now, now))
            else
              var o := was.value;
              var s := o.(times := o.times + 1, lastSeen := now);
              after.Some? && after.value ==
              if o.state != "open" then s
              else if HasImproved(o.baseline, app.now) then s.(state := "obsolete", reason := after.value.reason)
              else s.(fields := o.fields + app.fields)
    ensures var was, after := Lookup(ps, id), Lookup(MergeAll(oid, ps, [app], now), id);
            was.Some? && after.Some? && was.value.state == "open" && after.value.state == "obsolete" ==>
              after.value.reason ==
              if exists b, c :: Major(was.value.baseline.version, b) && Major(app.now.version, c) && c > b
              then "major-version-bump" else "rating-recovered"
  {
    hide Step, Lookup, IsObsolete, MajorBump, HasImproved, Major;
    assert [app][..0] == [];
    StepAt(oid, ps, app, now, id);
    if Lookup(ps, id).Some? {
      ImprovedIff(Lookup(ps, id).value.baseline, app.now);
      BumpIff(Lookup(ps, id).value.baseline.version, app.now.version);
    }
  }

  // ------------------------------------------------------------------ replies

  /** What a reply verb makes of an opportunity. */
  predicate Means(action: string, state: string) {
    || ((action == "pursue" || action == "build" || action == "ship") && state == "pursued")
    || ((action == "pass" || action == "skip" || action == "no") && state == "passed")
  }

  /** A reply moves the opportunity its id stands for, if its verb is known, and no other. */
  lemma ReplyMoves(ps: seq<Opp>, r: Reply, ids: map<string, string>, id: string)
    ensures var was, after := Lookup(ps, id), Lookup(ApplyReplies(ps, [r], ids), id);
            if was.Some? && r.rid in ids && ids[r.rid] == id && id != ""
               && exists state :: Means(r.action, state) && state != was.value.state
            then after.Some? && Means(r.action, after.value.state)
                 && after.value == was.value.(state := after.value.state, reason := "operator-reply: " + r.action)
            else after == was
  {
    hide Transitioned, Lookup;
    assert [r][..0] == [];
    MeansIff(r.action);
    if r.action in ACTIONS && r.rid in ids {
      TransitionAt(ps, ids[r.rid], ACTIONS[r.action], "operator-reply: " + r.action, id);
    }
  }

  lemma MeansIff(action: string)
    ensures forall state :: Means(action, state) <==> action in ACTIONS && ACTIONS[action] == state
  {}

  // ------------------------------------------------------------------ ranking

  predicate Worth(o: Opp, points: real) {
    if "revenue_potential" !in o.fields then points == 0.0
    else if o.fields["revenue_potential"] == "very_high" then points == 4.0
    else if o.fields["revenue_potential"] == "high" then points == 3.0
    else if o.fields["revenue_potential"] == "medium" then points == 2.0
    else if o.fields["revenue_potential"] == "low" then points == 1.0
    else points == 0.0
  }

  /** Revenue points per unit of complexity, where a complexity below one counts as one. */
  ghost predicate Returns(r: Reading, o: Opp, roi: real) {
    exists points :: Worth(o, points) && roi == points / (if r.complexity(o.fields) < 1 then 1.0
                                                          else r.complexity(o.fields) as real)
  }

  lemma ReturnsIff(r: Reading, o: Opp, roi: real)
    ensures Returns(r, o, roi) <==> roi == Roi(r, o)
  {
    assert Worth(o, Revenue(o));
    assert forall points :: Worth(o, points) <==> points == Revenue(o);
  }

  /** The list of open opportunities is ordered by return, then by score, then newest first. */
  lemma BestComeFirst(ps: seq<Opp>, r: Reading, i: nat, j: nat, x: real, y: real)
    requires i < j < |Ranked(ps, r)| && Returns(r, Ranked(ps, r)[i], x) && Returns(r, Ranked(ps, r)[j], y)
    ensures var a, b := Ranked(ps, r)[i], Ranked(ps, r)[j];
            && x >= y
            && (x == y ==> r.score(a.fields) >= r.score(b.fields))
            && (x == y && r.score(a.fields) == r.score(b.fields) ==> r.digits(a.firstSeen) >= r.digits(b.firstSeen))
  {
    hide Roi, Returns, StableSort;
    var s := Ranked(ps, r);
    RankingIsOrder(r);
    SortSorted(Filter(ps, IsOpen), Ranking(r));
    ReturnsIff(r, s[i], x);
    ReturnsIff(r, s[j], y);
    assert Ranking(r)(s[i], s[j]);
  }

  // ------------------------------------------------------------------ the cap

  /** The cap passes exactly the open opportunities that rank beyond it, and changes nothing else. A negative cap counts
      from the end of the list. */
  lemma CapPasses(ps: seq<Opp>, r: Reading, max: int, id: string)
    requires UniqueIds(ps)
    ensures var open := Ranked(ps, r);
            Lookup(Capped(ps, r, max), id) ==
            if Lookup(ps, id).Some?
               && exists k :: 0 <= k < |open| && open[k].id == id && (if max >= 0 then k >= max else k >= |open| + max)
            then Some(Lookup(ps, id).value.(state := "passed", reason := "auto-deferred above cap")) else Lookup(ps, id)
  {
    hide Ranked, PassAll, Lookup, UniqueIds;
    RankedAre(ps, r);
    var open := Ranked(ps, r);
    if |open| > max {
      var k0 := SliceStart(|open|, max);
      var tail := open[k0..];
      forall o | o in tail ensures Lookup(ps, o.id) == Some(o) && o.state == "open" {
        assert o in open;
        OpenFound(ps, o);
      }
      PassedAre(ps, tail, CAP_REASON, id);
      InTail(open, k0, id);
    }
  }

  lemma InTail(open: seq<Opp>, k0: nat, id: string)
    requires k0 <= |open|
    ensures (exists o :: o in open[k0..] && o.id == id) <==> exists k :: k0 <= k < |open| && open[k].id == id
  {
    var tail := open[k0..];
    if k :| k0 <= k < |open| && open[k].id == id {
      assert tail[k - k0] in tail;
    }
    if o :| o in tail && o.id == id {
      var m :| 0 <= m < |tail| && tail[m] == o;
      assert open[k0 + m] == o;
    }
  }

  lemma OpenFound(ps: seq<Opp>, o: Opp)
    requires UniqueIds(ps) && o in ps
    ensures Lookup(ps, o.id) == Some(o)
  {
    OpenAt(ps, o);
  }

  lemma {:induction false} PassedAre(ps: seq<Opp>, tail: seq<Opp>, reason: string, id: string)
    requires UniqueIds(ps) && forall o :: o in tail ==> Lookup(ps, o.id) == Some(o) && o.state == "open"
    ensures Lookup(PassAll(ps, tail, reason), id) ==
            if exists o :: o in tail && o.id == id
            then Some(Lookup(ps, id).value.(state := "passed", reason := reason)) else Lookup(ps, id)
  {
    hide Lookup, Transitioned, UniqueIds;
    if tail != [] {
      var init, last := tail[..|tail| - 1], tail[|tail| - 1];
      assert tail == init + [last];
      PassedAre(ps, init, reason, id);
      assert last in tail;
      TransitionAt(PassAll(ps, init, reason), last.id, "passed", reason, id);
    }
  }

  // ------------------------------------------------------------------ the order of a run

  /** Replies come first: an opportunity they close is counted but not refreshed by the sightings of the same run, and
      the cap leaves it alone. */
  lemma RepliedIsFrozen(oid: (string, string) -> string, r: Reading, ps: seq<Opp>, inp: Input, id: string)
    requires UniqueIds(ps) && Lookup(ApplyReplies(ps, inp.replies, inp.ids), id).Some?
    requires Lookup(ApplyReplies(ps, inp.replies, inp.ids), id).value.state != "open"
    ensures var o, after := Lookup(ApplyReplies(ps, inp.replies, inp.ids), id).value,
                            Lookup(AfterRun(oid, r, ps, inp), id);
            after.Some? && after.value == o.(times := after.value.times, lastSeen := after.value.lastSeen)
  {
    hide MergeAll, ApplyReplies, Lookup, UniqueIds, Capped;
    var a := ApplyReplies(ps, inp.replies, inp.ids);
    RepliesKeep(ps, inp.replies, inp.ids, id);
    ClosedInMerge(oid, a, inp.apps, inp.now, id);
    var b := MergeAll(oid, a, inp.apps, inp.now);
    MergeKeeps(oid, a, inp.apps, inp.now, id);
    ClosedInCap(b, r, inp.max, id);
  }

  lemma {:induction false} ClosedInMerge(oid: (string, string) -> string, ps: seq<Opp>, apps: seq<App>, now: string,
                                         id: string)
    requires Lookup(ps, id).Some? && Lookup(ps, id).value.state != "open"
    ensures var o, after := Lookup(ps, id).value, Lookup(MergeAll(oid, ps, apps, now), id);
            after.Some? && after.value == o.(times := after.value.times, lastSeen := after.value.lastSeen)
  {
    hide Step, Lookup, IsObsolete, ObsoleteReason;
    if apps != [] {
      ClosedInMerge(oid, ps, apps[..|apps| - 1], now, id);
      StepAt(oid, MergeAll(oid, ps, apps[..|apps| - 1], now), apps[|apps| - 1], now, id);
    }
  }

  lemma ClosedInCap(ps: seq<Opp>, r: Reading, max: int, id: string)
    requires UniqueIds(ps) && Lookup(ps, id).Some? && Lookup(ps, id).value.state != "open"
    ensures Lookup(Capped(ps, r, max), id) == Lookup(ps, id)
  {
    hide Ranked, Capped, UniqueIds, Lookup;
    CapPasses(ps, r, max, id);
    RankedAre(ps, r);
    var open := Ranked(ps, r);
    forall k | 0 <= k < |open| ensures open[k].id != id {
      assert open[k] in open;
      OpenFound(ps, open[k]);
    }
  }
}
