/** Deployers of one target share a lock and a serving register. This module is the
    protocol: what one run may do next, and every interleaving of the runs' steps. */
module DeployProtocol {
  /** An image reference; "" is a capture that was not configured or was unusable. */
  type Ref = string

  /** The steps of a run that touch the lock or the site. Captures carry what they read; a
      command carries its exit code and whether it changed what the site serves, because a
      failing command may have been accepted by the platform all the same. */
  datatype Event =
    | Acquire
    | CapturePrior(ref: Ref)
    | DeployCmd(took: bool, rc: int)
    | VerifyRevision(matches: bool)
    | CaptureDeployed(ref: Ref)
    | CheckServing(ref: Ref)
    | RollbackCmd(took: bool, rc: int)
    | Ship
    | Release

  datatype Phase = Waiting | Locked | Captured | Deploying | Deployed | Checked | RolledBack | Shipped | Done

  /** What a run remembers: whether its deploy is known to be live, its rollback target,
      what the site served right after its deploy, and what its rollback check saw. */
  datatype Local = Local(phase: Phase, live: bool, prior: Ref, deployed: Ref, check: Ref, restored: bool)

  const START := Local(Waiting, false, "", "", "", false)

  datatype Option<+T> = None | Some(value: T)

  predicate Holding(l: Local) { l.phase != Waiting && l.phase != Done }

  function Next(l: Local, e: Event): Option<Local> {
    match e
    case Acquire => if l.phase == Waiting then Some(l.(phase := Locked)) else None
    case CapturePrior(ref) => if l.phase == Locked then Some(l.(phase := Captured, prior := ref)) else None
    case DeployCmd(_, rc) =>
      if l.phase == Captured || (l.phase == Deploying && !l.live)
          then Some(l.(phase := Deploying, live := rc == 0)) else None
    case VerifyRevision(matches) =>
      if l.phase == Deploying && !l.live then Some(l.(live := matches)) else None
    case CaptureDeployed(ref) =>
      if l.phase == Deploying && l.live && l.prior != "" then Some(l.(phase := Deployed, deployed := ref)) else None
    case CheckServing(ref) =>
      if l.phase == Deployed && l.deployed != "" then Some(l.(phase := Checked, check := ref)) else None
    case RollbackCmd(_, rc) =>
      if || (l.phase == Deployed && l.deployed == "")
         || (l.phase == Checked && (l.check == "" || l.check == l.deployed))
      then Some(l.(phase := RolledBack, restored := rc == 0)) else None
    case Ship =>
      if l.phase == Locked || ((l.phase == Deploying || l.phase == Deployed) && l.live)
      then Some(l.(phase := Shipped)) else None
    case Release => if Holding(l) then Some(l.(phase := Done)) else None
  }

  function Play(l: Local, log: seq<Event>): Option<Local>
    decreases |log|
  {
    if log == [] then Some(l)
    else match Next(l, log[0])
      case None => None
      case Some(l') => Play(l', log[1..])
  }

  lemma {:induction false} PlayAppend(l: Local, log: seq<Event>, e: Event)
    requires Play(l, log).Some?
    ensures Play(l, log + [e]) == Next(Play(l, log).value, e)
    decreases |log|
  {
    if log == [] {
      assert [e][1..] == [];
      assert Play(l, [e]) == match Next(l, e) case None => None case Some(l') => Play(l', []);
    } else {
      assert (log + [e])[1..] == log[1..] + [e];
      PlayAppend(Next(l, log[0]).value, log[1..], e);
    }
  }

  // ------------------------------------------------------------------ interleaved runs

  /** own[i] is the ref run i deploys; acquired[i] is what was served when it took the lock. */
  datatype Site = Site(serving: Ref, runs: seq<Local>, own: seq<Ref>, acquired: seq<Ref>)

  datatype Step = Run(i: nat, event: Event) | Outside(ref: Ref)

  predicate WellFormed(s: Site) { |s.runs| == |s.own| == |s.acquired| }

  predicate LockFree(s: Site) { forall j :: 0 <= j < |s.runs| ==> !Holding(s.runs[j]) }

  predicate Reads(s: Site, ref: Ref) { ref == "" || ref == s.serving }

  /** A step is possible when the run's program allows it and what it observes is so. */
  predicate Enabled(s: Site, st: Step)
    requires WellFormed(s)
  {
    match st
    case Outside(_) => true
    case Run(i, e) =>
      && i < |s.runs|
      && Next(s.runs[i], e).Some?
      && match e
         case Acquire => LockFree(s)
         case CapturePrior(ref) => Reads(s, ref)
         case CaptureDeployed(ref) => Reads(s, ref)
         case CheckServing(ref) => Reads(s, ref)
         case DeployCmd(took, rc) => rc == 0 ==> took
         case VerifyRevision(matches) => matches ==> s.serving == s.own[i]
         case RollbackCmd(took, rc) => rc == 0 ==> took
         case Ship => true
         case Release => true
  }

  function Apply(s: Site, st: Step): (s': Site)
    requires WellFormed(s) && Enabled(s, st)
    ensures WellFormed(s') && s'.own == s.own && |s'.runs| == |s.runs|
  {
    match st
    case Outside(ref) => s.(serving := ref)
    case Run(i, e) =>
      var s1 := s.(runs := s.runs[i := Next(s.runs[i], e).value]);
      match e
      case Acquire => s1.(acquired := s.acquired[i := s.serving])
      case DeployCmd(took, _) => if took then s1.(serving := s.own[i]) else s1
      case RollbackCmd(took, _) => if took then s1.(serving := s.runs[i].prior) else s1
      case _ => s1
  }

  predicate Valid(s: Site, steps: seq<Step>)
    requires WellFormed(s)
    decreases |steps|
  {
    steps == [] || (Enabled(s, steps[0]) && Valid(Apply(s, steps[0]), steps[1..]))
  }

  /** The site after the first k steps. */
  function At(s: Site, steps: seq<Step>, k: nat): (s': Site)
    requires WellFormed(s) && Valid(s, steps) && k <= |steps|
    ensures WellFormed(s') && s'.own == s.own && |s'.runs| == |s.runs|
    decreases k
  {
    if k == 0 then s else At(Apply(s, steps[0]), steps[1..], k - 1)
  }

  lemma {:induction false} AtStep(s: Site, steps: seq<Step>, k: nat)
    requires WellFormed(s) && Valid(s, steps) && k < |steps|
    ensures Enabled(At(s, steps, k), steps[k])
    ensures At(s, steps, k + 1) == Apply(At(s, steps, k), steps[k])
    decreases k
  {
    if k > 0 {
      AtStep(Apply(s, steps[0]), steps[1..], k - 1);
    }
  }

  predicate Fresh(s: Site) {
    WellFormed(s) && forall j :: 0 <= j < |s.runs| ==> s.runs[j] == START
  }

  // ------------------------------------------------------------------ what the lock gives

  predicate Exclusive(s: Site) {
    forall i, j :: 0 <= i < |s.runs| && 0 <= j < |s.runs| && Holding(s.runs[i]) && Holding(s.runs[j]) ==> i == j
  }

  lemma {:induction false} LockIsExclusive(s: Site, steps: seq<Step>, k: nat)
    requires Fresh(s) && Valid(s, steps) && k <= |steps|
    ensures Exclusive(At(s, steps, k))
    decreases k
  {
    if k > 0 {
      LockIsExclusive(s, steps, k - 1);
      AtStep(s, steps, k - 1);
    }
  }

  predicate Quiet(steps: seq<Step>) { forall st :: st in steps ==> st.Run? }

  /** What a run's memory says about the site while only deployers write to it. */
  predicate Sound(s: Site, i: nat)
    requires WellFormed(s) && i < |s.runs|
  {
    var l := s.runs[i];
    && (Holding(l) ==> s.serving == s.acquired[i] || s.serving == s.own[i])
    && (Holding(l) && l.phase != Locked ==> l.prior == "" || l.prior == s.acquired[i])
    && ((l.phase == Locked || l.phase == Captured) ==> s.serving == s.acquired[i])
    && ((l.phase == Deploying || l.phase == Deployed || l.phase == Checked) && l.live ==> s.serving == s.own[i])
    && ((l.phase == Deployed || l.phase == Checked) ==> l.live && l.prior != "")
    && (l.phase == RolledBack ==> l.prior == s.acquired[i])
    && (l.phase == RolledBack && l.restored ==> s.serving == s.acquired[i])
    && (l.phase == Shipped && l.live ==> s.serving == s.own[i])
    && (l.phase == Shipped && !l.live ==> s.serving == s.acquired[i])
    && ((l.phase == Waiting || l.phase == Locked || l.phase == Captured) ==> !l.live)
    && ((l.phase == Waiting || l.phase == Locked) ==> l.prior == "")
  }

  lemma SoundStep(s: Site, st: Step, i: nat)
    requires WellFormed(s) && Enabled(s, st) && st.Run? && i < |s.runs|
    requires Exclusive(s) && Sound(s, i)
    ensures Sound(Apply(s, st), i)
  {
    if st.i != i && Holding(s.runs[i]) {
      assert !Holding(s.runs[st.i]);
    }
  }

  lemma {:induction false} AlwaysSound(s: Site, steps: seq<Step>, k: nat, i: nat)
    requires Fresh(s) && Valid(s, steps) && Quiet(steps) && k <= |steps| && i < |s.runs|
    ensures Sound(At(s, steps, k), i)
    decreases k
  {
    if k > 0 {
      AlwaysSound(s, steps, k - 1, i);
      LockIsExclusive(s, steps, k - 1);
      AtStep(s, steps, k - 1);
      assert steps[k - 1] in steps;
      SoundStep(At(s, steps, k - 1), steps[k - 1], i);
    }
  }

  /** Whatever the interleaving, when a run releases the lock the site serves what it served
      when the run took the lock or the run's own deploy: the own deploy if the run marked
      recs shipped after deploying, and the earlier ref if its rollback command succeeded. */
  lemma ReleaseServesPriorOrOwn(s: Site, steps: seq<Step>, k: nat, i: nat)
    requires Fresh(s) && Valid(s, steps) && Quiet(steps) && k < |steps| && steps[k] == Run(i, Release)
    ensures i < |s.runs|
    ensures var site := At(s, steps, k + 1);
            && (site.serving == site.acquired[i] || site.serving == site.own[i])
            && (At(s, steps, k).runs[i].phase == Shipped && site.runs[i].live ==> site.serving == site.own[i])
            && (At(s, steps, k).runs[i].phase == RolledBack && site.runs[i].restored ==>
               site.serving == site.acquired[i])
  {
    AtStep(s, steps, k);
    AlwaysSound(s, steps, k, i);
  }

  // ------------------------------------------------------------------ with an outside writer

  predicate ReadAt(s: Site, steps: seq<Step>, k: nat, i: nat, e: Event, ref: Ref)
    requires WellFormed(s) && Valid(s, steps)
  {
    k < |steps| && steps[k] == Run(i, e) && At(s, steps, k).serving == ref
  }

  /** A remembered capture or check really was read from the site, earlier in the run. */
  lemma {:induction false} MemoryWasRead(s: Site, steps: seq<Step>, k: nat, i: nat)
    requires Fresh(s) && Valid(s, steps) && k <= |steps| && i < |s.runs|
    ensures var l := At(s, steps, k).runs[i];
            && (l.deployed != "" ==>
               exists c :: 0 <= c < k && ReadAt(s, steps, c, i, CaptureDeployed(l.deployed), l.deployed))
            && (l.check != "" ==> exists c :: 0 <= c < k && ReadAt(s, steps, c, i, CheckServing(l.check), l.check))
            && (l.phase == Checked ==> l.deployed != "")
    decreases k
  {
    if k > 0 {
      MemoryWasRead(s, steps, k - 1, i);
      AtStep(s, steps, k - 1);
      var l, l' := At(s, steps, k - 1).runs[i], At(s, steps, k).runs[i];
      if l'.deployed != l.deployed {
        assert ReadAt(s, steps, k - 1, i, CaptureDeployed(l'.deployed), l'.deployed) || l'.deployed == "";
      }
      if l'.check != l.check {
        assert ReadAt(s, steps, k - 1, i, CheckServing(l'.check), l'.check) || l'.check == "";
      }
    }
  }

  /** With anyone else writing to the site too, a rollback whose captures were usable runs only
      after a check that saw the very ref this run's own capture had seen after its deploy. */
  lemma RollbackIsGuarded(s: Site, steps: seq<Step>, k: nat, i: nat)
    requires Fresh(s) && Valid(s, steps) && k < |steps| && steps[k].Run? && steps[k].i == i
             && steps[k].event.RollbackCmd?
    requires i < |s.runs|
    requires At(s, steps, k).runs[i].deployed != "" && At(s, steps, k).runs[i].check != ""
    ensures var ref := At(s, steps, k).runs[i].deployed;
            && (exists c :: 0 <= c < k && ReadAt(s, steps, c, i, CaptureDeployed(ref), ref))
            && (exists c :: 0 <= c < k && ReadAt(s, steps, c, i, CheckServing(ref), ref))
  {
    AtStep(s, steps, k);
    MemoryWasRead(s, steps, k, i);
  }

  // ------------------------------------------------------------------ the two gaps around a rollback

  /** The last outside write among the steps from a up to b. */
  function LastOutside(steps: seq<Step>, a: nat, b: nat): Option<Ref>
    requires a <= b <= |steps|
    decreases b
  {
    if a == b then None
    else if steps[b - 1].Outside? then Some(steps[b - 1].ref)
    else LastOutside(steps, a, b - 1)
  }

  function OrElse(o: Option<Ref>, ref: Ref): Ref {
    match o case None => ref case Some(r) => r
  }

  predicate Of(st: Step, i: nat) { st.Run? && st.i == i }

  /** Between two of a lock holder's own steps only outside writes reach the site: it serves the last of them, or
      what it served before. */
  lemma {:induction false} HeldSiteFollowsOutside(s: Site, steps: seq<Step>, a: nat, b: nat, i: nat)
    requires Fresh(s) && Valid(s, steps) && a <= b <= |steps| && i < |s.runs|
    requires Holding(At(s, steps, a).runs[i])
    requires forall j :: a <= j < b ==> !Of(steps[j], i)
    ensures At(s, steps, b).serving == OrElse(LastOutside(steps, a, b), At(s, steps, a).serving)
    ensures At(s, steps, b).runs[i] == At(s, steps, a).runs[i]
    decreases b
  {
    if a < b {
      HeldSiteFollowsOutside(s, steps, a, b - 1, i);
      LockIsExclusive(s, steps, b - 1);
      AtStep(s, steps, b - 1);
    }
  }

  function Rank(p: Phase): nat {
    match p
    case Waiting => 0 case Locked => 1 case Captured => 2 case Deploying => 3 case Deployed => 4
    case Checked => 5 case RolledBack => 6 case Shipped => 7 case Done => 8
  }

  /** A run never goes back to an earlier phase. */
  lemma {:induction false} PhasesAdvance(s: Site, steps: seq<Step>, a: nat, b: nat, i: nat)
    requires Fresh(s) && Valid(s, steps) && a <= b <= |steps| && i < |s.runs|
    ensures Rank(At(s, steps, a).runs[i].phase) <= Rank(At(s, steps, b).runs[i].phase)
    decreases b
  {
    if a < b {
      PhasesAdvance(s, steps, a, b - 1, i);
      AtStep(s, steps, b - 1);
    }
  }

  /** The step that made run i's own deploy known to be live. */
  predicate MakesLive(st: Step, i: nat) {
    Of(st, i) && ((st.event.DeployCmd? && st.event.rc == 0) || (st.event.VerifyRevision? && st.event.matches))
  }

  predicate Captures(st: Step, i: nat) { Of(st, i) && st.event.CaptureDeployed? && st.event.ref != "" }

  predicate Checks(st: Step, i: nat) { Of(st, i) && st.event.CheckServing? && st.event.ref != "" }

  predicate RollsBack(st: Step, i: nat) { Of(st, i) && st.event.RollbackCmd? }

  lemma OwnStepKeepsSite(s: Site, st: Step, i: nat)
    requires WellFormed(s) && Enabled(s, st) && i < |s.runs| && Of(st, i)
    requires Rank(Deploying) <= Rank(s.runs[i].phase) <= Rank(Checked) && s.runs[i].live
    requires Rank(Apply(s, st).runs[i].phase) <= Rank(Checked)
    ensures Apply(s, st).serving == s.serving && Apply(s, st).runs[i].live
  {}

  lemma RollbackFrom(s: Site, steps: seq<Step>, k: nat, i: nat)
    requires Fresh(s) && Valid(s, steps) && k < |steps| && i < |s.runs| && RollsBack(steps[k], i)
    ensures Rank(At(s, steps, k).runs[i].phase) <= Rank(Checked)
  {
    AtStep(s, steps, k);
  }

  lemma LiveAfter(s: Site, steps: seq<Step>, l: nat, i: nat)
    requires Fresh(s) && Valid(s, steps) && l < |steps| && i < |s.runs| && MakesLive(steps[l], i)
    ensures At(s, steps, l + 1).serving == s.own[i]
    ensures At(s, steps, l + 1).runs[i].live && At(s, steps, l + 1).runs[i].phase == Deploying
  {
    AtStep(s, steps, l);
  }

  /** From the moment a run is live to its rollback only outside writes reach the site: it serves the last of them,
      or the run's own ref. */
  lemma {:induction false} LiveSiteFollowsOutside(s: Site, steps: seq<Step>, l: nat, k: nat, j: nat, i: nat)
    requires Fresh(s) && Valid(s, steps) && l < k < |steps| && i < |s.runs|
    requires MakesLive(steps[l], i) && RollsBack(steps[k], i) && l < j <= k
    ensures At(s, steps, j).serving == OrElse(LastOutside(steps, l + 1, j), s.own[i])
    ensures At(s, steps, j).runs[i].live
    ensures Rank(Deploying) <= Rank(At(s, steps, j).runs[i].phase) <= Rank(Checked)
    decreases j
  {
    hide Next, Apply, At, Valid;
    PhasesAdvance(s, steps, j, k, i);
    RollbackFrom(s, steps, k, i);
    if j == l + 1 {
      LiveAfter(s, steps, l, i);
    } else {
      LiveSiteFollowsOutside(s, steps, l, k, j - 1, i);
      PhasesAdvance(s, steps, j - 1, j, i);
      AtStep(s, steps, j - 1);
      if Of(steps[j - 1], i) {
        OwnStepKeepsSite(At(s, steps, j - 1), steps[j - 1], i);
      } else {
        HeldSiteFollowsOutside(s, steps, j - 1, j, i);
      }
    }
  }

  lemma {:induction false} LiveWasMade(s: Site, steps: seq<Step>, k: nat, i: nat)
    requires Fresh(s) && Valid(s, steps) && k <= |steps| && i < |s.runs|
    ensures At(s, steps, k).runs[i].live ==> exists l :: 0 <= l < k && MakesLive(steps[l], i)
    decreases k
  {
    if k > 0 {
      LiveWasMade(s, steps, k - 1, i);
      AtStep(s, steps, k - 1);
      if At(s, steps, k).runs[i].live && !At(s, steps, k - 1).runs[i].live {
        assert MakesLive(steps[k - 1], i);
      }
    }
  }

  lemma {:induction false} DeployedIsLive(s: Site, steps: seq<Step>, k: nat, i: nat)
    requires Fresh(s) && Valid(s, steps) && k <= |steps| && i < |s.runs|
    ensures var l := At(s, steps, k).runs[i]; l.phase == Deployed || l.phase == Checked ==> l.live
    decreases k
  {
    if k > 0 {
      DeployedIsLive(s, steps, k - 1, i);
      AtStep(s, steps, k - 1);
    }
  }

  /** Every rollback comes after the step that made its run live. */
  lemma RollbackWasLive(s: Site, steps: seq<Step>, k: nat, i: nat)
    requires Fresh(s) && Valid(s, steps) && k < |steps| && i < |s.runs| && RollsBack(steps[k], i)
    ensures exists l :: 0 <= l < k && MakesLive(steps[l], i)
  {
    DeployedIsLive(s, steps, k, i);
    AtStep(s, steps, k);
    LiveWasMade(s, steps, k, i);
  }

  /** What any rollback replaces, for every interleaving with any outside writers and whatever its captures and its
      check returned: the run's own ref, unless an outside write came since the run became live; then the last such
      write. So the promise to replace nothing but the run's own deploy is kept iff that write, if any, was of the
      own ref. */
  lemma RollbackReplaces(s: Site, steps: seq<Step>, l: nat, k: nat, i: nat)
    requires Fresh(s) && Valid(s, steps) && l < k < |steps| && i < |s.runs|
    requires MakesLive(steps[l], i) && RollsBack(steps[k], i)
    ensures At(s, steps, k).serving == OrElse(LastOutside(steps, l + 1, k), s.own[i])
    ensures At(s, steps, k).serving == s.own[i] <==>
            LastOutside(steps, l + 1, k) == None || LastOutside(steps, l + 1, k) == Some(s.own[i])
  {
    LiveSiteFollowsOutside(s, steps, l, k, k, i);
  }

  lemma OwnStepLeavesLive(s: Site, steps: seq<Step>, j: nat, i: nat)
    requires Fresh(s) && Valid(s, steps) && j < |steps| && i < |s.runs| && Of(steps[j], i)
    requires At(s, steps, j).runs[i].phase == Deploying && At(s, steps, j).runs[i].live
    ensures Rank(At(s, steps, j + 1).runs[i].phase) > Rank(Deploying)
  {
    AtStep(s, steps, j);
  }

  /** A run takes no step of its own between becoming live and its capture. */
  lemma {:induction false} NoOwnStepBeforeCapture(s: Site, steps: seq<Step>, l: nat, d: nat, j: nat, i: nat)
    requires Fresh(s) && Valid(s, steps) && l < d < |steps| && i < |s.runs|
    requires MakesLive(steps[l], i) && Captures(steps[d], i) && l < j <= d
    ensures At(s, steps, j).runs[i] == At(s, steps, l + 1).runs[i]
    ensures forall k :: l < k < j ==> !Of(steps[k], i)
    decreases j
  {
    AtStep(s, steps, l);
    if j > l + 1 {
      NoOwnStepBeforeCapture(s, steps, l, d, j - 1, i);
      AtStep(s, steps, j - 1);
      if Of(steps[j - 1], i) {
        OwnStepLeavesLive(s, steps, j - 1, i);
        PhasesAdvance(s, steps, j, d, i);
        AtStep(s, steps, d);
      }
    }
  }

  /** Nor between its check and its rollback. */
  lemma {:induction false} NoOwnStepBeforeRollback(s: Site, steps: seq<Step>, c: nat, k: nat, j: nat, i: nat)
    requires Fresh(s) && Valid(s, steps) && c < k < |steps| && i < |s.runs|
    requires Checks(steps[c], i) && RollsBack(steps[k], i) && c < j <= k
    ensures At(s, steps, j).runs[i] == At(s, steps, c + 1).runs[i]
    ensures forall m :: c < m < j ==> !Of(steps[m], i)
    decreases j
  {
    AtStep(s, steps, c);
    if j > c + 1 {
      NoOwnStepBeforeRollback(s, steps, c, k, j - 1, i);
      AtStep(s, steps, j - 1);
      if Of(steps[j - 1], i) {
        PhasesAdvance(s, steps, j, k, i);
        AtStep(s, steps, k);
      }
    }
  }

  /** What the capture remembers: the run's own ref, unless an outside write came between its becoming live and the
      capture; then the last such write. */
  lemma CaptureReads(s: Site, steps: seq<Step>, l: nat, d: nat, i: nat)
    requires Fresh(s) && Valid(s, steps) && l < d < |steps| && i < |s.runs|
    requires MakesLive(steps[l], i) && Captures(steps[d], i)
    ensures steps[d].event.ref == OrElse(LastOutside(steps, l + 1, d), s.own[i])
    ensures At(s, steps, d + 1).runs[i].deployed == steps[d].event.ref
  {
    NoOwnStepBeforeCapture(s, steps, l, d, d, i);
    AtStep(s, steps, l);
    AtStep(s, steps, d);
    HeldSiteFollowsOutside(s, steps, l + 1, d, i);
  }

  /** What a rollback finds: the ref its check saw, unless an outside write came between the two; then the last such
      write. */
  lemma RollbackFinds(s: Site, steps: seq<Step>, c: nat, k: nat, i: nat)
    requires Fresh(s) && Valid(s, steps) && c < k < |steps| && i < |s.runs|
    requires Checks(steps[c], i) && RollsBack(steps[k], i)
    ensures At(s, steps, k).serving == OrElse(LastOutside(steps, c + 1, k), steps[c].event.ref)
    ensures At(s, steps, k).runs[i].deployed == steps[c].event.ref
  {
    NoOwnStepBeforeRollback(s, steps, c, k, k, i);
    AtStep(s, steps, c);
    AtStep(s, steps, k);
    HeldSiteFollowsOutside(s, steps, c + 1, k, i);
  }

  lemma {:induction false} DeployedStands(s: Site, steps: seq<Step>, a: nat, b: nat, i: nat)
    requires Fresh(s) && Valid(s, steps) && a <= b <= |steps| && i < |s.runs|
    requires Rank(At(s, steps, a).runs[i].phase) >= Rank(Deployed)
    ensures At(s, steps, b).runs[i].deployed == At(s, steps, a).runs[i].deployed
    decreases b
  {
    if a < b {
      DeployedStands(s, steps, a, b - 1, i);
      PhasesAdvance(s, steps, a, b - 1, i);
      AtStep(s, steps, b - 1);
    }
  }

  /** With a usable capture and a usable check the guard narrows that interval to two gaps, again for every
      interleaving with any outside writers: what the capture took for the run's own deploy is that deploy iff the
      last outside write since the run became live, if any, wrote that ref; what the rollback replaces is the captured
      ref iff the last outside write since the check, if any, wrote it; and what it replaces is the run's own ref as
      told by the two. What is written between the capture and the check does not matter then. */
  lemma RollbackGapsIff(s: Site, steps: seq<Step>, l: nat, d: nat, c: nat, k: nat, i: nat)
    requires Fresh(s) && Valid(s, steps) && l < d < c < k < |steps| && i < |s.runs|
    requires MakesLive(steps[l], i) && Captures(steps[d], i) && Checks(steps[c], i) && RollsBack(steps[k], i)
    ensures var deployed, found := At(s, steps, k).runs[i].deployed, At(s, steps, k).serving;
            && (deployed == s.own[i] <==> OrElse(LastOutside(steps, l + 1, d), s.own[i]) == s.own[i])
            && (found == deployed <==> OrElse(LastOutside(steps, c + 1, k), deployed) == deployed)
            && (found == s.own[i] <==>
                OrElse(LastOutside(steps, c + 1, k), OrElse(LastOutside(steps, l + 1, d), s.own[i])) == s.own[i])
            && (LastOutside(steps, l + 1, d).None? && LastOutside(steps, c + 1, k).None? ==> found == s.own[i])
  {
    CaptureReads(s, steps, l, d, i);
    RollbackFinds(s, steps, c, k, i);
    AtStep(s, steps, d);
    DeployedStands(s, steps, d + 1, k, i);
  }

  /** Every rollback whose captures were usable has these four steps, in this order, so the condition above covers
      every such rollback. */
  lemma GuardedRollbackHasGaps(s: Site, steps: seq<Step>, k: nat, i: nat)
    requires Fresh(s) && Valid(s, steps) && k < |steps| && i < |s.runs| && RollsBack(steps[k], i)
    requires At(s, steps, k).runs[i].deployed != "" && At(s, steps, k).runs[i].check != ""
    ensures exists l, d, c :: 0 <= l < d < c < k
              && MakesLive(steps[l], i) && Captures(steps[d], i) && Checks(steps[c], i)
  {
    var run := At(s, steps, k).runs[i];
    MemoryWasRead(s, steps, k, i);
    var c :| 0 <= c < k && ReadAt(s, steps, c, i, CheckServing(run.check), run.check);
    AtStep(s, steps, c);
    MemoryWasRead(s, steps, c, i);
    var at := At(s, steps, c).runs[i];
    var d :| 0 <= d < c && ReadAt(s, steps, d, i, CaptureDeployed(at.deployed), at.deployed);
    AtStep(s, steps, d);
    LiveWasMade(s, steps, d, i);
    var l :| 0 <= l < d && MakesLive(steps[l], i);
    assert Captures(steps[d], i) && Checks(steps[c], i);
  }

  /** Without an outside write since the check, the rollback replaces exactly the ref its check saw, which is the
      one captured after its deploy. */
  lemma RollbackReplacesCheckedRef(s: Site, steps: seq<Step>, c: nat, k: nat, i: nat)
    requires Fresh(s) && Valid(s, steps) && c < k < |steps| && i < |s.runs|
    requires Checks(steps[c], i) && RollsBack(steps[k], i) && LastOutside(steps, c + 1, k).None?
    ensures At(s, steps, k).serving == At(s, steps, k).runs[i].deployed == steps[c].event.ref
  {
    RollbackFinds(s, steps, c, k, i);
  }

  lemma {:induction false} ExtendRun(s: Site, steps: seq<Step>, st: Step)
    requires WellFormed(s) && Valid(s, steps) && Enabled(At(s, steps, |steps|), st)
    ensures Valid(s, steps + [st])
    ensures At(s, steps + [st], |steps|) == At(s, steps, |steps|)
    ensures At(s, steps + [st], |steps| + 1) == Apply(At(s, steps, |steps|), st)
    decreases |steps|
  {
    if steps == [] {
      assert [st][1..] == [];
      assert At(s, [st], 1) == At(Apply(s, [st][0]), [], 0);
    } else {
      assert (steps + [st])[1..] == steps[1..] + [st];
      ExtendRun(Apply(s, steps[0]), steps[1..], st);
    }
  }

  function Alone(serving: Ref, l: Local, mine: Ref, acquired: Ref): Site {
    Site(serving, [l], [mine], [acquired])
  }

  function DeployedRun(before: Ref): seq<Step> {
    [Run(0, Acquire)] + [Run(0, CapturePrior(before))] + [Run(0, DeployCmd(true, 0))]
  }

  function CheckedRun(before: Ref, mine: Ref): seq<Step> {
    DeployedRun(before) + [Run(0, CaptureDeployed(mine))] + [Run(0, CheckServing(mine))]
  }

  lemma DeployedRunReached(before: Ref, mine: Ref)
    requires before != "" && mine != ""
    ensures var s := Alone(before, START, mine, "");
            && Valid(s, DeployedRun(before))
            && At(s, DeployedRun(before), 3) == Alone(mine, Local(Deploying, true, before, "", "", false), mine, before)
  {
    hide At, Valid;
    var s := Alone(before, START, mine, "");
    EmptyRun(s);
    ExtendRun(s, [], Run(0, Acquire));
    assert [] + [Run(0, Acquire)] == [Run(0, Acquire)];
    ExtendRun(s, [Run(0, Acquire)], Run(0, CapturePrior(before)));
    ExtendRun(s, [Run(0, Acquire)] + [Run(0, CapturePrior(before))], Run(0, DeployCmd(true, 0)));
  }

  lemma CheckedRunReached(before: Ref, mine: Ref)
    requires before != "" && mine != ""
    ensures var s := Alone(before, START, mine, "");
            && Valid(s, CheckedRun(before, mine))
            && At(s, CheckedRun(before, mine), 5)
               == Alone(mine, Local(Checked, true, before, mine, mine, false), mine, before)
  {
    hide At, Valid;
    var s := Alone(before, START, mine, "");
    DeployedRunReached(before, mine);
    ExtendRun(s, DeployedRun(before), Run(0, CaptureDeployed(mine)));
    ExtendRun(s, DeployedRun(before) + [Run(0, CaptureDeployed(mine))], Run(0, CheckServing(mine)));
  }

  lemma EmptyRun(s: Site)
    requires WellFormed(s)
    ensures Valid(s, []) && At(s, [], 0) == s
  {}

  /** Check and rollback are two steps: an outside deploy that lands between them is lost. */
  lemma WriteAfterCheckIsLost(before: Ref, mine: Ref, theirs: Ref)
    requires before != "" && mine != "" && theirs != before
    ensures var s := Alone(before, START, mine, "");
            var steps := CheckedRun(before, mine) + [Outside(theirs)] + [Run(0, RollbackCmd(true, 0))];
            Valid(s, steps) && At(s, steps, 6).serving == theirs && At(s, steps, 7).serving == before
  {
    hide At, Valid;
    var s := Alone(before, START, mine, "");
    CheckedRunReached(before, mine);
    ExtendRun(s, CheckedRun(before, mine), Outside(theirs));
    ExtendRun(s, CheckedRun(before, mine) + [Outside(theirs)], Run(0, RollbackCmd(true, 0)));
  }

  /** Becoming live and the capture are two steps as well: an outside deploy that lands between them is taken for
      the run's own, passes the check and is lost, with no write since the check. */
  lemma WriteBeforeCaptureIsLost(before: Ref, mine: Ref, theirs: Ref)
    requires before != "" && mine != "" && theirs != ""
    ensures var s := Alone(before, START, mine, "");
            var steps := DeployedRun(before) + [Outside(theirs)] + [Run(0, CaptureDeployed(theirs))]
                         + [Run(0, CheckServing(theirs))] + [Run(0, RollbackCmd(true, 0))];
            Valid(s, steps) && At(s, steps, 6).serving == theirs && At(s, steps, 7).serving == before
  {
    hide At, Valid;
    var s := Alone(before, START, mine, "");
    DeployedRunReached(before, mine);
    var a := DeployedRun(before) + [Outside(theirs)];
    ExtendRun(s, DeployedRun(before), Outside(theirs));
    var b := a + [Run(0, CaptureDeployed(theirs))];
    ExtendRun(s, a, Run(0, CaptureDeployed(theirs)));
    var c := b + [Run(0, CheckServing(theirs))];
    ExtendRun(s, b, Run(0, CheckServing(theirs)));
    ExtendRun(s, c, Run(0, RollbackCmd(true, 0)));
  }

  /** Without a usable capture there is no check: every outside deploy since the run became live is lost. */
  lemma WriteWithoutCaptureIsLost(before: Ref, mine: Ref, theirs: Ref)
    requires before != "" && mine != ""
    ensures var s := Alone(before, START, mine, "");
            var steps := DeployedRun(before) + [Run(0, CaptureDeployed(""))] + [Outside(theirs)]
                         + [Run(0, RollbackCmd(true, 0))];
            Valid(s, steps) && At(s, steps, 5).serving == theirs && At(s, steps, 6).serving == before
  {
    hide At, Valid;
    var s := Alone(before, START, mine, "");
    DeployedRunReached(before, mine);
    var a := DeployedRun(before) + [Run(0, CaptureDeployed(""))];
    ExtendRun(s, DeployedRun(before), Run(0, CaptureDeployed("")));
    var b := a + [Outside(theirs)];
    ExtendRun(s, a, Outside(theirs));
    ExtendRun(s, b, Run(0, RollbackCmd(true, 0)));
  }

  /** An unusable check stops nothing: an outside deploy between the capture and the check is lost. */
  lemma WriteBeforeUnusableCheckIsLost(before: Ref, mine: Ref, theirs: Ref)
    requires before != "" && mine != ""
    ensures var s := Alone(before, START, mine, "");
            var steps := DeployedRun(before) + [Run(0, CaptureDeployed(mine))] + [Outside(theirs)]
                         + [Run(0, CheckServing(""))] + [Run(0, RollbackCmd(true, 0))];
            Valid(s, steps) && At(s, steps, 6).serving == theirs && At(s, steps, 7).serving == before
  {
    hide At, Valid;
    var s := Alone(before, START, mine, "");
    DeployedRunReached(before, mine);
    var a := DeployedRun(before) + [Run(0, CaptureDeployed(mine))];
    ExtendRun(s, DeployedRun(before), Run(0, CaptureDeployed(mine)));
    var b := a + [Outside(theirs)];
    ExtendRun(s, a, Outside(theirs));
    var c := b + [Run(0, CheckServing(""))];
    ExtendRun(s, b, Run(0, CheckServing("")));
    ExtendRun(s, c, Run(0, RollbackCmd(true, 0)));
  }
}
