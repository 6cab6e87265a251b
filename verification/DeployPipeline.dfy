/** The deployer's own program: the stages of one run, its early exits, the deploy retry
    loop, the guarded rollback and the marking of shipped recs. Everything the run observes
    is in a script of outcomes, so its results hold for every behaviour of the tools. */
module DeployPipeline {
  import opened DeployProtocol

  datatype Config = Config(
    skipTest: bool, localDev: bool, test: bool, dryRun: bool, build: bool, push: bool,
    deploy: bool, canVerify: bool, smoke: bool, gate: bool, baseline: bool, contentVerify: bool,
    rollbackCmd: bool, captureCmd: bool, onSmokeFailure: bool, onGateFailure: bool)

  /** A shell step: an exit code, or a timeout or other exception that ends the run. */
  datatype Cmd = Exit(code: int) | Raised

  /** `took` says whether the command changed what the site serves. */
  datatype Attempt = Attempt(result: Cmd, busy: bool, took: bool)

  datatype Capture = Read(ref: Ref) | CaptureRaised

  datatype Gate = Errored | Failures(count: nat)

  datatype Script = Script(
    localDevOk: bool, test: Cmd, testEmpty: bool, lockObtained: bool, build: Cmd, push: Cmd,
    baselineOk: bool, prior: Capture, attempts: seq<Attempt>, revisionMatches: bool, deployed: Capture,
    smoke: bool, smokeRetry: bool, gate: Gate, gateAgain: Gate, contentFailed: nat,
    check: Capture, rollback: Attempt)

  datatype Status = Blocked | DryRun | Failure | RolledBack | Success

  datatype Rec = Rec(id: string, implemented: bool, shipped: bool, tag: string, image: string)

  const ATTEMPTS: nat := 4

  // ------------------------------------------------------------------ what each gate asks

  predicate TestsPass(cfg: Config, s: Script) {
    cfg.skipTest || ((cfg.localDev ==> s.localDevOk) && (cfg.test ==> s.test == Exit(0) && !s.testEmpty))
  }

  predicate BuildAndPushPass(cfg: Config, s: Script) {
    (cfg.build ==> s.build == Exit(0)) && (cfg.push ==> s.push == Exit(0))
  }

  predicate Retryable(a: Attempt) { a.result.Exit? && a.result.code != 0 && a.busy }

  /** The attempt the retry loop ends on: the first that is not a busy failure, or the last. */
  function FinalAttempt(attempts: seq<Attempt>): (a: Attempt)
    requires attempts != []
  {
    if |attempts| == 1 || !Retryable(attempts[0]) then attempts[0] else FinalAttempt(attempts[1..])
  }

  function PriorRef(cfg: Config, s: Script): Ref {
    if cfg.deploy && cfg.captureCmd && s.prior.Read? then s.prior.ref else ""
  }

  function DeployedRef(cfg: Config, s: Script): Ref {
    if PriorRef(cfg, s) != "" && cfg.rollbackCmd && s.deployed.Read? then s.deployed.ref else ""
  }

  predicate DeployLive(cfg: Config, s: Script)
    requires |s.attempts| == ATTEMPTS
  {
    var a := FinalAttempt(s.attempts);
    && (cfg.captureCmd ==> s.prior.Read?)
    && a.result.Exit?
    && (a.result.code == 0 || (cfg.canVerify && s.revisionMatches))
    && (PriorRef(cfg, s) != "" && cfg.rollbackCmd ==> s.deployed.Read?)
  }

  predicate SmokePass(s: Script) { s.smoke || s.smokeRetry }

  /** Only regressions against a baseline count; a gate that cannot measure does not gate. */
  predicate GatePass(cfg: Config, s: Script) {
    var measured := cfg.baseline && cfg.deploy && s.baselineOk;
    || s.gate.Errored?
    || s.gate.count == 0
    || (cfg.baseline && !measured)
    || s.gateAgain == Failures(0)
  }

  predicate SmokeStagesPass(cfg: Config, s: Script) {
    SmokePass(s) && (cfg.gate ==> GatePass(cfg, s)) && (cfg.contentVerify ==> s.contentFailed == 0)
  }

  /** Every check that runs under this configuration came out well: the gate and the content check run only where
      smoke paths are configured. */
  predicate AllGatesPass(cfg: Config, s: Script)
    requires |s.attempts| == ATTEMPTS
  {
    && TestsPass(cfg, s)
    && BuildAndPushPass(cfg, s)
    && (cfg.deploy ==> DeployLive(cfg, s))
    && (cfg.smoke ==> SmokeStagesPass(cfg, s))
  }

  /** The guard of the rollback: a target, and a check that did not see somebody else's ref. */
  predicate RollbackRuns(cfg: Config, s: Script) {
    && cfg.rollbackCmd && PriorRef(cfg, s) != ""
    && (DeployedRef(cfg, s) == "" || s.check == Read("") || s.check == Read(DeployedRef(cfg, s)))
  }

  predicate SmokeRollsBack(cfg: Config, s: Script) {
    && (if !SmokePass(s) then cfg.onSmokeFailure else cfg.gate && !GatePass(cfg, s) && cfg.onGateFailure)
    && RollbackRuns(cfg, s)
    && s.rollback.result == Exit(0)
  }

  predicate RollsBack(cfg: Config, s: Script)
    requires |s.attempts| == ATTEMPTS
  {
    BuildAndPushPass(cfg, s) && (cfg.deploy ==> DeployLive(cfg, s)) && cfg.smoke && SmokeRollsBack(cfg, s)
  }

  // ------------------------------------------------------------------ the stages

  method Emit(log: seq<Event>, e: Event) returns (log': seq<Event>)
    requires Play(START, log).Some? && Next(Play(START, log).value, e).Some?
    ensures Play(START, log') == Next(Play(START, log).value, e)
    ensures log' == log + [e]
  {
    PlayAppend(START, log, e);
    log' := log + [e];
  }

  /** Runs the deploy command until it is accepted, fails for another reason, or gives up. */
  method DeployWithRetry(attempts: seq<Attempt>, log: seq<Event>) returns (final: Attempt, log': seq<Event>)
    requires |attempts| == ATTEMPTS
    requires Play(START, log).Some? && Play(START, log).value.phase == Captured && !Play(START, log).value.live
    ensures final == FinalAttempt(attempts)
    ensures Play(START, log') == Some(Play(START, log).value.(phase := Deploying, live := final.result == Exit(0)))
  {
    log' := log;
    final := attempts[0];
    for i := 0 to ATTEMPTS
      invariant i < ATTEMPTS && FinalAttempt(attempts) == FinalAttempt(attempts[i..])
      invariant i == 0 ==> log' == log
      invariant i > 0 ==> Play(START, log') == Some(Play(START, log).value.(phase := Deploying, live := false))
      invariant i > 0 ==> final == attempts[i - 1] && Retryable(final)
    {
      final := attempts[i];
      log' := Emit(log', DeployCmd(final.took, if final.result.Exit? then final.result.code else -1));
      assert attempts[i..][0] == final && attempts[i..][1..] == attempts[i + 1..];
      if !Retryable(final) || i == ATTEMPTS - 1 {
        return;
      }
    }
  }

  /** Puts the prior ref back unless the site no longer serves this run's deploy. */
  method Rollback(cfg: Config, s: Script, prior: Ref, deployed: Ref, log: seq<Event>)
    returns (rolled: bool, log': seq<Event>)
    requires prior == PriorRef(cfg, s) && deployed == DeployedRef(cfg, s)
    requires Play(START, log).Some?
    requires var l := Play(START, log).value; Holding(l) && l.phase != Phase.RolledBack && l.phase != Shipped
    requires prior != "" && cfg.rollbackCmd ==>
             Play(START, log).value == Local(Deployed, true, prior, deployed, "", false)
    ensures rolled <==> RollbackRuns(cfg, s) && s.rollback.result == Exit(0)
    ensures Play(START, log').Some? && Holding(Play(START, log').value) && Play(START, log').value.phase != Shipped
    ensures rolled <==> Play(START, log').value.phase == Phase.RolledBack && Play(START, log').value.restored
  {
    rolled, log' := false, log;
    if !cfg.rollbackCmd || prior == "" {
      return;
    }
    if deployed != "" {
      if s.check.CaptureRaised? {
        return;
      }
      log' := Emit(log', CheckServing(s.check.ref));
      if s.check.ref != "" && s.check.ref != deployed {
        return;
      }
    }
    log' := Emit(log', RollbackCmd(s.rollback.took, if s.rollback.result.Exit? then s.rollback.result.code else -1));
    rolled := s.rollback.result == Exit(0);
  }

  /** Capture, deploy, verify and capture again; false when the run must stop. */
  method Deploy(cfg: Config, s: Script, log: seq<Event>) returns (ok: bool, prior: Ref, deployed: Ref, log': seq<Event>)
    requires |s.attempts| == ATTEMPTS && cfg.deploy
    requires Play(START, log) == Some(START.(phase := Locked))
    ensures ok <==> DeployLive(cfg, s)
    ensures Play(START, log').Some? && Holding(Play(START, log').value)
    ensures Play(START, log').value.phase != Phase.RolledBack && Play(START, log').value.phase != Shipped
    ensures ok ==> prior == PriorRef(cfg, s) && deployed == DeployedRef(cfg, s)
    ensures ok ==> var l := Play(START, log').value;
              && (l.phase == Deploying || l.phase == Deployed) && l.live
              && (prior != "" && cfg.rollbackCmd ==> l == Local(Deployed, true, prior, deployed, "", false))
  {
    ok, prior, deployed, log' := false, "", "", log;
    if cfg.captureCmd {
      if s.prior.CaptureRaised? {
        return;
      }
      prior := s.prior.ref;
    }
    log' := Emit(log', CapturePrior(prior));
    var final;
    final, log' := DeployWithRetry(s.attempts, log');
    if final.result.Raised? {
      return;
    }
    if final.result.code != 0 {
      if cfg.canVerify {
        log' := Emit(log', VerifyRevision(s.revisionMatches));
      }
      if !(cfg.canVerify && s.revisionMatches) {
        return;
      }
    }
    if prior != "" && cfg.rollbackCmd {
      if s.deployed.CaptureRaised? {
        return;
      }
      deployed := s.deployed.ref;
      log' := Emit(log', CaptureDeployed(deployed));
    }
    ok := true;
  }

  /** The failures a gate is held against, measured twice. */
  method MeasureGate(cfg: Config, s: Script) returns (failures: nat)
    ensures failures == 0 <==> GatePass(cfg, s)
  {
    failures := if s.gate.Errored? then 0 else s.gate.count;
    if failures != 0 && !(cfg.deploy && cfg.baseline && s.baselineOk) && cfg.baseline {
      failures := 0;
    }
    if failures != 0 && s.gateAgain.Failures? {
      failures := s.gateAgain.count;
    }
  }

  /** A failed gate rolls back when the configuration allows it. */
  method FailAfterDeploy(cfg: Config, s: Script, allowed: bool, prior: Ref, deployed: Ref, log: seq<Event>)
    returns (status: Status, log': seq<Event>)
    requires prior == PriorRef(cfg, s) && deployed == DeployedRef(cfg, s)
    requires Play(START, log).Some?
    requires var l := Play(START, log).value; Holding(l) && l.phase != Phase.RolledBack && l.phase != Shipped
    requires prior != "" && cfg.rollbackCmd ==>
             Play(START, log).value == Local(Deployed, true, prior, deployed, "", false)
    ensures status == Failure || status == Status.RolledBack
    ensures status == Status.RolledBack <==> allowed && RollbackRuns(cfg, s) && s.rollback.result == Exit(0)
    ensures Play(START, log').Some? && Holding(Play(START, log').value) && Play(START, log').value.phase != Shipped
    ensures status == Status.RolledBack
            <==> Play(START, log').value.phase == Phase.RolledBack && Play(START, log').value.restored
  {
    hide RollbackRuns, Play, PriorRef, DeployedRef;
    var rolled := false;
    log' := log;
    if allowed {
      rolled, log' := Rollback(cfg, s, prior, deployed, log);
    }
    status := if rolled then Status.RolledBack else Failure;
  }

  /** The checks against the deployed site. */
  method SmokeStages(cfg: Config, s: Script, prior: Ref, deployed: Ref, log: seq<Event>)
    returns (status: Status, log': seq<Event>)
    requires prior == PriorRef(cfg, s) && deployed == DeployedRef(cfg, s)
    requires Play(START, log).Some?
    requires var l := Play(START, log).value; Holding(l) && l.phase != Phase.RolledBack && l.phase != Shipped
    requires prior != "" && cfg.rollbackCmd ==>
             Play(START, log).value == Local(Deployed, true, prior, deployed, "", false)
    ensures status == Success || status == Status.RolledBack || status == Failure
    ensures status == Success <==> SmokeStagesPass(cfg, s)
    ensures status == Status.RolledBack <==> SmokeRollsBack(cfg, s)
    ensures status == Success ==> log' == log
    ensures Play(START, log').Some? && Holding(Play(START, log').value) && Play(START, log').value.phase != Shipped
    ensures status == Status.RolledBack
            <==> Play(START, log').value.phase == Phase.RolledBack && Play(START, log').value.restored
  {
    hide RollbackRuns, Play, PriorRef, DeployedRef, GatePass;
    status, log' := Failure, log;
    if !s.smoke && !s.smokeRetry {
      status, log' := FailAfterDeploy(cfg, s, cfg.onSmokeFailure, prior, deployed, log);
      return;
    }
    if cfg.gate {
      var failures := MeasureGate(cfg, s);
      if failures != 0 {
        status, log' := FailAfterDeploy(cfg, s, cfg.onGateFailure, prior, deployed, log);
        return;
      }
    }
    if cfg.contentVerify && s.contentFailed != 0 {
      return;
    }
    status := Success;
  }

  /** Everything done under the lock, up to marking recs. */
  method LockedStages(cfg: Config, s: Script) returns (status: Status, log: seq<Event>)
    requires |s.attempts| == ATTEMPTS && TestsPass(cfg, s)
    ensures Play(START, log).Some? && Holding(Play(START, log).value)
    ensures status == Success || status == Status.RolledBack || status == Failure
    ensures status == Success <==> AllGatesPass(cfg, s)
    ensures status == Status.RolledBack <==> RollsBack(cfg, s)
    ensures status == Success <==> Play(START, log).value.phase == Shipped
    ensures status == Status.RolledBack
            <==> Play(START, log).value.phase == Phase.RolledBack && Play(START, log).value.restored
    ensures status == Success && cfg.deploy ==> Play(START, log).value.live
  {
    hide DeployLive, SmokeStagesPass, SmokeRollsBack;
    status := Failure;
    log := Emit([], Acquire);
    if cfg.build && s.build != Exit(0) {
      return;
    }
    if cfg.push && s.push != Exit(0) {
      return;
    }
    var prior, deployed := "", "";
    if cfg.deploy {
      var ok;
      ok, prior, deployed, log := Deploy(cfg, s, log);
      if !ok {
        return;
      }
    }
    if cfg.smoke {
      status, log := SmokeStages(cfg, s, prior, deployed, log);
      if status != Success {
        return;
      }
    }
    log := Emit(log, Ship);
    status := Success;
  }

  method MarkShipped(recs: seq<Rec>, tag: string, image: string) returns (marked: seq<Rec>)
    ensures |marked| == |recs|
    ensures forall i :: 0 <= i < |recs| ==>
              marked[i] == if recs[i].implemented && !recs[i].shipped
                           then recs[i].(shipped := true, tag := tag, image := image) else recs[i]
  {
    marked := recs;
    for i := 0 to |recs|
      invariant |marked| == |recs|
      invariant forall j :: 0 <= j < |recs| ==>
                  marked[j] == if j < i && recs[j].implemented && !recs[j].shipped
                               then recs[j].(shipped := true, tag := tag, image := image) else recs[j]
    {
      if marked[i].implemented && !marked[i].shipped {
        marked := marked[i := marked[i].(shipped := true, tag := tag, image := image)];
      }
    }
  }

  /** The log ends with giving the lock back, right after the phase the status reports. */
  predicate Ended(cfg: Config, status: Status, log: seq<Event>)
    requires log != []
  {
    var before := Play(START, log[..|log| - 1]);
    && log[|log| - 1] == Release
    && before.Some?
    && (status == Success <==> before.value.phase == Shipped)
    && (status == Success && cfg.deploy ==> before.value.live)
    && (status == Status.RolledBack <==> before.value.phase == Phase.RolledBack && before.value.restored)
  }

  /** The tests come first: an unhealthy dev server, a failing test or a scope without tests blocks the run, and a test
      step that cannot be run fails it. */
  method TestStage(cfg: Config, s: Script) returns (passed: bool, status: Status)
    ensures passed <==> TestsPass(cfg, s)
    ensures !passed ==> status == Blocked || status == Failure
    ensures !passed && status == Blocked <==>
            && !cfg.skipTest
            && ((cfg.localDev && !s.localDevOk)
                || (cfg.test && s.test.Exit? && (s.test.code != 0 || s.testEmpty)))
  {
    if !cfg.skipTest {
      if cfg.localDev && !s.localDevOk {
        return false, Blocked;
      }
      if cfg.test {
        if s.test == Raised {
          return false, Failure;
        }
        if s.testEmpty || s.test.code != 0 {
          return false, Blocked;
        }
      }
    }
    return true, Success;
  }

  /** n is the attempt the retry loop ends on: all earlier ones failed because the target was busy, and it did not, or
      it is the last. */
  predicate EndsOn(attempts: seq<Attempt>, n: nat) {
    && n < |attempts|
    && (forall i :: 0 <= i < n ==> attempts[i].busy && attempts[i].result.Exit? && attempts[i].result.code != 0)
    && (n == |attempts| - 1 || !attempts[n].busy || attempts[n].result.Raised? || attempts[n].result.code == 0)
  }

  lemma {:induction false} FinalAttemptAt(attempts: seq<Attempt>) returns (n: nat)
    requires attempts != []
    ensures EndsOn(attempts, n) && FinalAttempt(attempts) == attempts[n]
  {
    if |attempts| == 1 || !Retryable(attempts[0]) {
      n := 0;
    } else {
      var m := FinalAttemptAt(attempts[1..]);
      n := m + 1;
    }
  }

  lemma EndsOnce(attempts: seq<Attempt>, m: nat, n: nat)
    requires EndsOn(attempts, m) && EndsOn(attempts, n)
    ensures m == n
  {}

  /** The deploy stage in full: the prior ref could be read, the attempt the loop ends on exited with 0 or the active
      revision carries the tag, and what was deployed could be read where a rollback would need it. */
  lemma DeployLiveIff(cfg: Config, s: Script)
    requires |s.attempts| == 4 && cfg.deploy
    ensures DeployLive(cfg, s) <==>
            && (cfg.captureCmd ==> s.prior.Read?)
            && (exists n: nat :: EndsOn(s.attempts, n) && s.attempts[n].result.Exit?
                                 && (s.attempts[n].result.code == 0 || (cfg.canVerify && s.revisionMatches)))
            && (cfg.captureCmd && s.prior.Read? && s.prior.ref != "" && cfg.rollbackCmd ==> s.deployed.Read?)
  {
    hide FinalAttempt, EndsOn;
    var n := FinalAttemptAt(s.attempts);
    forall m | EndsOn(s.attempts, m) ensures m == n {
      EndsOnce(s.attempts, m, n);
    }
  }

  /** One run, in the outcomes of its steps. It succeeds exactly when it holds the lock, is no dry run, and each check
      its configuration asks for came out well. It is blocked exactly by the dev server, by a failing test or by a test
      scope without tests, and rolls back exactly when smoke or gate failed, the configuration allows it, there is a
      ref to go back to, nobody else's ref is being served, and the rollback command exits with 0. Recs become shipped
      on success only. A run always gives the lock back, and what it did to the site is a log the protocol allows, which
      ends restored exactly when it reports a rollback. */
  method Run(cfg: Config, s: Script, tag: string, image: string, recs: seq<Rec>)
    returns (status: Status, recs': seq<Rec>, log: seq<Event>)
    requires |s.attempts| == 4
    ensures status == Success <==>
            && !cfg.dryRun && s.lockObtained
            && (!cfg.skipTest && cfg.localDev ==> s.localDevOk)
            && (!cfg.skipTest && cfg.test ==> s.test == Exit(0) && !s.testEmpty)
            && (cfg.build ==> s.build == Exit(0))
            && (cfg.push ==> s.push == Exit(0))
            && (cfg.deploy ==> DeployLive(cfg, s))
            && (cfg.smoke ==> s.smoke || s.smokeRetry)
            && (cfg.smoke && cfg.gate ==>
                  || s.gate == Errored || s.gate == Failures(0) || s.gateAgain == Failures(0)
                  || (cfg.baseline && !(cfg.deploy && s.baselineOk)))
            && (cfg.smoke && cfg.contentVerify ==> s.contentFailed == 0)
    ensures status == Blocked <==>
            && !cfg.skipTest
            && ((cfg.localDev && !s.localDevOk)
                || (cfg.test && s.test.Exit? && (s.test.code != 0 || s.testEmpty)))
    ensures status == DryRun <==>
            && cfg.dryRun
            && (!cfg.skipTest && cfg.localDev ==> s.localDevOk)
            && (!cfg.skipTest && cfg.test ==> s.test == Exit(0) && !s.testEmpty)
    ensures status == Status.RolledBack <==> TestsPass(cfg, s) && !cfg.dryRun && s.lockObtained && RollsBack(cfg, s)
    ensures |recs'| == |recs|
    ensures forall i :: 0 <= i < |recs| ==>
              recs'[i] == if status == Success && recs[i].implemented && !recs[i].shipped
                          then recs[i].(shipped := true, tag := tag, image := image) else recs[i]
    ensures Play(START, log).Some? && !Holding(Play(START, log).value)
    ensures log == [] <==> !(TestsPass(cfg, s) && !cfg.dryRun && s.lockObtained)
    ensures log != [] ==> Ended(cfg, status, log)
  {
    hide DeployLive, RollsBack, Play, Ended;
    NothingPlayed();
    recs', log := recs, [];
    var passed;
    passed, status := TestStage(cfg, s);
    if !passed {
      return;
    }
    if cfg.dryRun {
      return DryRun, recs', log;
    }
    if !s.lockObtained {
      return Failure, recs', log;
    }
    status, log := LockedStages(cfg, s);
    if status == Success {
      recs' := MarkShipped(recs, tag, image);
    }
    EndsReleased(cfg, status, log);
    log := Emit(log, Release);
  }

  lemma EndsReleased(cfg: Config, status: Status, log: seq<Event>)
    requires Play(START, log).Some?
    requires status == Success <==> Play(START, log).value.phase == Shipped
    requires status == Success && cfg.deploy ==> Play(START, log).value.live
    requires status == Status.RolledBack
             <==> Play(START, log).value.phase == Phase.RolledBack && Play(START, log).value.restored
    ensures Ended(cfg, status, log + [Release]) && log + [Release] != []
  {
    hide Play;
    assert (log + [Release])[..|log|] == log;
  }

  lemma NothingPlayed()
    ensures Play(START, []).Some? && !Holding(Play(START, []).value)
  {}

  /** The rollback in full: smoke failed twice, or the gate failed, where the configuration allows a rollback; the site
      was captured before the deploy and after it; the check saw nothing or what was deployed, if the second capture
      saw anything; and the command exited with 0. */
  lemma RollsBackIff(cfg: Config, s: Script)
    requires |s.attempts| == 4
    ensures RollsBack(cfg, s) <==>
            && (cfg.build ==> s.build == Exit(0)) && (cfg.push ==> s.push == Exit(0))
            && cfg.deploy && DeployLive(cfg, s) && cfg.smoke
            && (if s.smoke || s.smokeRetry
                then && cfg.gate && s.gate.Failures? && s.gate.count > 0 && s.gateAgain != Failures(0)
                     && (cfg.baseline ==> s.baselineOk) && cfg.onGateFailure
                else cfg.onSmokeFailure)
            && cfg.rollbackCmd && cfg.captureCmd && s.prior.Read? && s.prior.ref != "" && s.deployed.Read?
            && (s.deployed.ref != "" ==> s.check == Read("") || s.check == s.deployed)
            && s.rollback.result == Exit(0)
  {
    hide FinalAttempt;
  }
}
