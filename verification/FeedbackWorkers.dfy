/** Any number of triage runs interleaved on one database, any of which may crash at any point. */
module FeedbackWorkers {
  import opened Sequences
  import opened FeedbackClaim

  /** The shared table, and every run ever started. A crashed run keeps what it had done. */
  datatype State = State(rows: map<Row, string>, runs: seq<Local>)

  datatype Step =
    | Arrive(row: Row)
    | Start
    | Do(w: nat, ev: Event)
    | Crash(w: nat)

  predicate Enabled(cfg: Config, s: State, step: Step) {
    match step
    case Arrive(row) => row !in s.rows
    case Start => true
    case Crash(w) => w < |s.runs|
    case Do(w, ev) =>
      && w < |s.runs| && Allowed(cfg, s.runs[w], ev)
      && match ev
         case Select(_, rows) => NoDup(rows) && forall r :: r in rows ==>
             r in s.rows && s.rows[r] == cfg.At(r).unclaimed
         case Claim(row, won) => won == (row in s.rows && s.rows[row] == cfg.At(row).unclaimed)
         case Finish(_, _) => true
         case Emit(_) => true
  }

  function Put(rows: map<Row, string>, row: Row, status: string): map<Row, string> {
    if row in rows then rows[row := status] else rows
  }

  function RowsAfter(cfg: Config, rows: map<Row, string>, step: Step): map<Row, string> {
    match step
    case Arrive(row) => rows[row := cfg.At(row).unclaimed]
    case Start => rows
    case Crash(_) => rows
    case Do(_, ev) =>
      match ev
      case Select(_, _) => rows
      case Claim(row, won) => if won then Put(rows, row, cfg.At(row).claimed) else rows
      case Finish(row, status) => Put(rows, row, status)
      case Emit(_) => rows
  }

  function Apply(cfg: Config, s: State, step: Step): State
    requires Enabled(cfg, s, step)
  {
    State(RowsAfter(cfg, s.rows, step),
          match step
          case Arrive(_) => s.runs
          case Start => s.runs + [START]
          case Crash(w) => s.runs[w := s.runs[w].(crashed := true)]
          case Do(w, ev) => s.runs[w := Next(cfg, s.runs[w], ev)])
  }

  function PlayAll(cfg: Config, s: State, steps: seq<Step>): Option<State> {
    if steps == [] then Some(s)
    else
      match PlayAll(cfg, s, steps[..|steps| - 1])
      case None => None
      case Some(t) => if Enabled(cfg, t, steps[|steps| - 1]) then Some(Apply(cfg, t, steps[|steps| - 1])) else None
  }

  /** No claimed or final status of any source reads as unclaimed. */
  predicate StatusesDiffer(cfg: Config) {
    forall st :: st in cfg.sources ==>
      st.claimed != st.unclaimed && st.working != st.unclaimed && st.needsInfo != st.unclaimed
          && st.rejected != st.unclaimed
  }

  // ------------------------------------------------------------------ the invariant

  predicate Holds(l: Local, row: Row) { row in l.claimed }

  predicate RunSound(cfg: Config, rows: map<Row, string>, l: Local) {
    && NoDup(l.claimed)
    && (forall r :: r in l.claimed ==> r.src < |cfg.sources| && r in rows && rows[r] != cfg.At(r).unclaimed)
    && (forall r :: r in l.queue ==> r.src < |cfg.sources|)
    && |l.claimed| + |l.queue| <= cfg.max && l.finished <= |l.claimed|
    && (forall i :: 0 <= i < l.finished ==> rows[l.claimed[i]] == cfg.FinalStatus(l.claimed[i]))
    && (forall i :: l.finished <= i < |l.claimed| ==> rows[l.claimed[i]] == cfg.At(l.claimed[i]).claimed)
    && (l.emitted ==> l.finished == |l.claimed|)
  }

  ghost predicate Disjoint(runs: seq<Local>) {
    forall v, w, r :: 0 <= v < |runs| && 0 <= w < |runs| && v != w && Holds(runs[v], r) ==> !Holds(runs[w], r)
  }

  ghost predicate Sound(cfg: Config, s: State) {
    (forall w :: 0 <= w < |s.runs| ==> RunSound(cfg, s.rows, s.runs[w])) && Disjoint(s.runs)
  }

  lemma FinalIsNotUnclaimed(cfg: Config, r: Row)
    requires StatusesDiffer(cfg) && r.src < |cfg.sources|
    ensures cfg.FinalStatus(r) != cfg.At(r).unclaimed && cfg.At(r).claimed != cfg.At(r).unclaimed
  {
    assert cfg.sources[r.src] in cfg.sources;
  }

  /** Writes to rows a run has not claimed leave it sound. */
  lemma Unaffected(cfg: Config, rows: map<Row, string>, after: map<Row, string>, l: Local)
    requires RunSound(cfg, rows, l)
    requires forall r :: r in l.claimed ==> r in after && after[r] == rows[r]
    ensures RunSound(cfg, after, l)
  {
    forall i | 0 <= i < |l.claimed| ensures after[l.claimed[i]] == rows[l.claimed[i]] {
      assert l.claimed[i] in l.claimed;
    }
  }

  lemma ClaimSound(cfg: Config, s: State, w: nat, row: Row, won: bool)
    requires Sound(cfg, s) && StatusesDiffer(cfg) && Enabled(cfg, s, Do(w, Claim(row, won)))
    ensures Sound(cfg, Apply(cfg, s, Do(w, Claim(row, won))))
  {
    hide Config.FinalStatus, StatusesDiffer;
    var t := Apply(cfg, s, Do(w, Claim(row, won)));
    var l := s.runs[w];
    assert row in l.queue;
    FinalIsNotUnclaimed(cfg, row);
    forall v | 0 <= v < |s.runs| ensures won ==> !Holds(s.runs[v], row) {
      assert RunSound(cfg, s.rows, s.runs[v]);
    }
    forall v | 0 <= v < |t.runs| ensures RunSound(cfg, t.rows, t.runs[v]) {
      assert RunSound(cfg, s.rows, s.runs[v]);
      Unaffected(cfg, s.rows, t.rows, s.runs[v]);
      if v == w && won {
        ClaimedOneMore(cfg, s.rows, l, row);
      }
    }
    if won {
      DisjointAfterClaim(s.runs, w, row, t.runs[w]);
    } else {
      DisjointSame(s.runs, w, t.runs[w]);
    }
  }

  lemma ClaimedOneMore(cfg: Config, rows: map<Row, string>, l: Local, row: Row)
    requires RunSound(cfg, rows, l) && Allowed(cfg, l, Claim(row, true)) && row in rows && row !in l.claimed
    requires cfg.At(row).claimed != cfg.At(row).unclaimed && row.src < |cfg.sources| && l.finished <= |l.claimed|
    ensures RunSound(cfg, rows[row := cfg.At(row).claimed], Next(cfg, l, Claim(row, true)))
  {
    hide Config.FinalStatus;
    var m := Next(cfg, l, Claim(row, true));
    var after := rows[row := cfg.At(row).claimed];
    assert forall i :: 0 <= i < |l.claimed| ==> l.claimed[i] in l.claimed && m.claimed[i] == l.claimed[i];
    assert forall r :: r in m.queue ==> r in l.queue;
    assert forall r :: r in m.claimed ==> r in l.claimed || r == row;
  }

  lemma DisjointAfterClaim(runs: seq<Local>, w: nat, row: Row, m: Local)
    requires Disjoint(runs) && w < |runs| && m.claimed == runs[w].claimed + [row]
    requires forall v :: 0 <= v < |runs| ==> !Holds(runs[v], row)
    ensures Disjoint(runs[w := m])
  {
    assert forall r :: Holds(m, r) ==> Holds(runs[w], r) || r == row;
  }

  lemma DisjointSame(runs: seq<Local>, w: nat, m: Local)
    requires Disjoint(runs) && w < |runs| && m.claimed == runs[w].claimed
    ensures Disjoint(runs[w := m])
  {
    assert forall r :: Holds(m, r) <==> Holds(runs[w], r);
  }

  lemma FinishSound(cfg: Config, s: State, w: nat, row: Row, status: string)
    requires Sound(cfg, s) && StatusesDiffer(cfg) && Enabled(cfg, s, Do(w, Finish(row, status)))
    ensures Sound(cfg, Apply(cfg, s, Do(w, Finish(row, status))))
  {
    hide Config.FinalStatus, StatusesDiffer;
    var t := Apply(cfg, s, Do(w, Finish(row, status)));
    assert RunSound(cfg, s.rows, s.runs[w]) && row in s.runs[w].claimed && Holds(s.runs[w], row);
    FinalIsNotUnclaimed(cfg, row);
    forall v | 0 <= v < |t.runs| ensures RunSound(cfg, t.rows, t.runs[v]) {
      assert RunSound(cfg, s.rows, s.runs[v]);
      if v == w {
        FinishedOneMore(cfg, s.rows, s.runs[w]);
      } else {
        assert !Holds(s.runs[v], row);
        Unaffected(cfg, s.rows, t.rows, s.runs[v]);
      }
    }
    DisjointSame(s.runs, w, t.runs[w]);
  }

  lemma FinishedOneMore(cfg: Config, rows: map<Row, string>, l: Local)
    requires RunSound(cfg, rows, l) && l.finished < |l.claimed| && !l.emitted
    requires cfg.FinalStatus(l.claimed[l.finished]) != cfg.At(l.claimed[l.finished]).unclaimed
    ensures RunSound(cfg, rows[l.claimed[l.finished] := cfg.FinalStatus(l.claimed[l.finished])],
            l.(finished := l.finished + 1))
  {
    hide Config.FinalStatus;
    assert forall i :: 0 <= i < |l.claimed| && i != l.finished ==> l.claimed[i] != l.claimed[l.finished];
  }

  lemma StepSound(cfg: Config, s: State, step: Step)
    requires Sound(cfg, s) && StatusesDiffer(cfg) && Enabled(cfg, s, step)
    ensures Sound(cfg, Apply(cfg, s, step))
  {
    hide StatusesDiffer, Config.FinalStatus;
    var t := Apply(cfg, s, step);
    match step {
      case Do(w, ev) =>
        match ev {
          case Claim(row, won) => ClaimSound(cfg, s, w, row, won);
          case Finish(row, status) => FinishSound(cfg, s, w, row, status);
          case Select(_, _) => DisjointSame(s.runs, w, t.runs[w]);
          case Emit(_) => DisjointSame(s.runs, w, t.runs[w]);
        }
      case Crash(w) => DisjointSame(s.runs, w, t.runs[w]);
      case Start =>
      case Arrive(row) =>
        forall w | 0 <= w < |s.runs| ensures RunSound(cfg, t.rows, t.runs[w]) {
          Unaffected(cfg, s.rows, t.rows, s.runs[w]);
        }
    }
  }

  /** Over every interleaving, with crashes anywhere: every run claims at most `max` rows, no row is claimed twice,
      by one run or by two, and each claimed row has its claimed or its final status. */
  lemma {:induction false} AlwaysSound(cfg: Config, s: State, steps: seq<Step>)
    requires StatusesDiffer(cfg) && Sound(cfg, s)
    ensures PlayAll(cfg, s, steps).Some? ==> Sound(cfg, PlayAll(cfg, s, steps).value)
  {
    hide Sound, Enabled, Apply, StatusesDiffer;
    if steps != [] {
      AlwaysSound(cfg, s, steps[..|steps| - 1]);
      var init := PlayAll(cfg, s, steps[..|steps| - 1]);
      if init.Some? && Enabled(cfg, init.value, steps[|steps| - 1]) {
        StepSound(cfg, init.value, steps[|steps| - 1]);
      }
    }
  }

  // ------------------------------------------------------------------ each row, over a whole history

  predicate ClaimedIn(s: State, row: Row) { exists w :: 0 <= w < |s.runs| && Holds(s.runs[w], row) }

  predicate FinishedBy(l: Local, row: Row) { row in Take(l.claimed, l.finished) }

  predicate FinishedIn(s: State, row: Row) { exists w :: 0 <= w < |s.runs| && FinishedBy(s.runs[w], row) }

  predicate EmittedBy(cfg: Config, l: Local, row: Row) { l.emitted && row in Recs(cfg, l) }

  predicate EmittedIn(cfg: Config, s: State, row: Row) {
    exists w :: 0 <= w < |s.runs| && EmittedBy(cfg, s.runs[w], row)
  }

  /** How often a row was claimed, given its final status, and recommended. */
  function Claims(steps: seq<Step>, row: Row): nat {
    if steps == [] then 0
    else
      var step := steps[|steps| - 1];
      Claims(steps[..|steps| - 1], row) + if step.Do? && step.ev.Claim? && step.ev.row == row && step.ev.won
          then 1 else 0
  }

  function Finishes(steps: seq<Step>, row: Row): nat {
    if steps == [] then 0
    else
      var step := steps[|steps| - 1];
      Finishes(steps[..|steps| - 1], row) + if step.Do? && step.ev.Finish? && step.ev.row == row then 1 else 0
  }

  function Emits(steps: seq<Step>, row: Row): nat {
    if steps == [] then 0
    else
      var step := steps[|steps| - 1];
      Emits(steps[..|steps| - 1], row) + if step.Do? && step.ev.Emit? && row in step.ev.recs then 1 else 0
  }

  function One(b: bool): nat { if b then 1 else 0 }

  lemma ClaimCounts(cfg: Config, s: State, step: Step, row: Row)
    requires Sound(cfg, s) && Enabled(cfg, s, step)
    ensures One(ClaimedIn(Apply(cfg, s, step), row)) ==
            One(ClaimedIn(s, row)) + if step.Do? && step.ev.Claim? && step.ev.row == row && step.ev.won then 1 else 0
  {
    hide Config.FinalStatus, Recs;
    var t := Apply(cfg, s, step);
    forall w | 0 <= w < |s.runs| ensures Holds(s.runs[w], row) ==> Holds(t.runs[w], row) {}
    if step.Do? && step.ev.Claim? && step.ev.row == row && step.ev.won {
      forall w | 0 <= w < |s.runs| ensures !Holds(s.runs[w], row) {
        assert RunSound(cfg, s.rows, s.runs[w]);
      }
      assert Holds(t.runs[step.w], row);
    } else {
      forall w | 0 <= w < |s.runs| ensures Holds(t.runs[w], row) ==> Holds(s.runs[w], row) {}
    }
  }

  lemma FinishCounts(cfg: Config, s: State, step: Step, row: Row)
    requires Sound(cfg, s) && Enabled(cfg, s, step)
    ensures One(FinishedIn(Apply(cfg, s, step), row)) ==
            One(FinishedIn(s, row)) + if step.Do? && step.ev.Finish? && step.ev.row == row then 1 else 0
  {
    hide Config.FinalStatus, Recs;
    var t := Apply(cfg, s, step);
    forall w | 0 <= w < |s.runs|
      ensures FinishedBy(t.runs[w], row) <==>
              FinishedBy(s.runs[w], row) || (step.Do? && step.w == w && step.ev.Finish? && step.ev.row == row)
    {
      FinishedStep(cfg, s, step, w, row);
    }
    if step.Do? && step.ev.Finish? && step.ev.row == row {
      NotFinishedYet(cfg, s, step.w, row);
      assert FinishedBy(t.runs[step.w], row);
    }
  }

  lemma FinishedStep(cfg: Config, s: State, step: Step, w: nat, row: Row)
    requires Sound(cfg, s) && Enabled(cfg, s, step) && w < |s.runs|
    ensures FinishedBy(Apply(cfg, s, step).runs[w], row) <==>
            FinishedBy(s.runs[w], row) || (step.Do? && step.w == w && step.ev.Finish? && step.ev.row == row)
  {
    hide Config.FinalStatus, Recs, RowsAfter;
    var l := s.runs[w];
    assert RunSound(cfg, s.rows, l);
    if step.Do? && step.w == w {
      FinishedEvent(cfg, l, step.ev, row);
    }
  }

  lemma FinishedEvent(cfg: Config, l: Local, ev: Event, row: Row)
    requires Allowed(cfg, l, ev) && l.finished <= |l.claimed|
    ensures FinishedBy(Next(cfg, l, ev), row) <==> FinishedBy(l, row) || (ev.Finish? && ev.row == row)
  {
    hide Config.FinalStatus, Recs;
    var m := Next(cfg, l, ev);
    if ev.Finish? {
      assert Take(m.claimed, m.finished) == Take(l.claimed, l.finished) + [ev.row];
    } else {
      assert Take(m.claimed, m.finished) == Take(l.claimed, l.finished);
    }
  }

  lemma NotFinishedYet(cfg: Config, s: State, w: nat, row: Row)
    requires Sound(cfg, s) && w < |s.runs| && s.runs[w].finished < |s.runs[w].claimed|
             && row == s.runs[w].claimed[s.runs[w].finished]
    ensures !FinishedIn(s, row)
  {
    hide Config.FinalStatus;
    assert RunSound(cfg, s.rows, s.runs[w]) && Holds(s.runs[w], row);
    forall v | 0 <= v < |s.runs| ensures !FinishedBy(s.runs[v], row) {
      assert RunSound(cfg, s.rows, s.runs[v]);
      assert v != w ==> !Holds(s.runs[v], row);
    }
  }

  lemma EmitCounts(cfg: Config, s: State, step: Step, row: Row)
    requires Sound(cfg, s) && Enabled(cfg, s, step)
    ensures One(EmittedIn(cfg, Apply(cfg, s, step), row)) ==
            One(EmittedIn(cfg, s, row)) + if step.Do? && step.ev.Emit? && row in step.ev.recs then 1 else 0
  {
    hide Config.FinalStatus, Recs;
    var t := Apply(cfg, s, step);
    forall w | 0 <= w < |s.runs|
      ensures EmittedBy(cfg, t.runs[w], row) <==>
              EmittedBy(cfg, s.runs[w], row) || (step.Do? && step.w == w && step.ev.Emit? && row in step.ev.recs)
    {
      EmittedStep(cfg, s, step, w, row);
    }
    if step.Do? && step.ev.Emit? && row in step.ev.recs {
      NotEmittedYet(cfg, s, step.w, row);
      assert EmittedBy(cfg, t.runs[step.w], row);
    }
  }

  lemma EmittedStep(cfg: Config, s: State, step: Step, w: nat, row: Row)
    requires Sound(cfg, s) && Enabled(cfg, s, step) && w < |s.runs|
    ensures EmittedBy(cfg, Apply(cfg, s, step).runs[w], row) <==>
            EmittedBy(cfg, s.runs[w], row) || (step.Do? && step.w == w && step.ev.Emit? && row in step.ev.recs)
  {
    hide Filter, Config.FinalStatus;
  }

  lemma NotEmittedYet(cfg: Config, s: State, w: nat, row: Row)
    requires Sound(cfg, s) && w < |s.runs| && !s.runs[w].emitted && row in Recs(cfg, s.runs[w])
    ensures !EmittedIn(cfg, s, row)
  {
    hide Config.FinalStatus;
    RecsAreHeld(cfg, s.runs[w], row);
    forall v | 0 <= v < |s.runs| ensures !EmittedBy(cfg, s.runs[v], row) {
      if v != w {
        assert !Holds(s.runs[v], row);
        RecsAreHeld(cfg, s.runs[v], row);
      }
    }
  }

  lemma RecsAreHeld(cfg: Config, l: Local, row: Row)
    ensures row in Recs(cfg, l) ==> Holds(l, row) && FinishedBy(l, row) && cfg.Actionable(row)
  {
    FilterIn(Take(l.claimed, l.finished), Actionables(cfg));
  }

  function Fresh(cfg: Config, rows: map<Row, string>): State { State(rows, []) }

  /** From any table, over any interleaving and any crashes: a row is claimed at most once, gets at most one final
      status and at most one recommendation, and each only after the one before it. */
  lemma {:induction false} OncePerRow(cfg: Config, rows: map<Row, string>, steps: seq<Step>, row: Row)
    requires StatusesDiffer(cfg) && PlayAll(cfg, Fresh(cfg, rows), steps).Some?
    ensures var s := PlayAll(cfg, Fresh(cfg, rows), steps).value;
            && Sound(cfg, s)
            && Claims(steps, row) == One(ClaimedIn(s, row))
            && Finishes(steps, row) == One(FinishedIn(s, row))
            && Emits(steps, row) == One(EmittedIn(cfg, s, row))
            && Emits(steps, row) <= Finishes(steps, row) <= Claims(steps, row) <= 1
  {
    hide Sound, Enabled, Apply, StatusesDiffer, ClaimedIn, FinishedIn, EmittedIn;
    var s := PlayAll(cfg, Fresh(cfg, rows), steps).value;
    if steps == [] {
      NothingYet(cfg, rows, row);
    } else {
      var init := steps[..|steps| - 1];
      OncePerRow(cfg, rows, init, row);
      var was, step := PlayAll(cfg, Fresh(cfg, rows), init).value, steps[|steps| - 1];
      StepSound(cfg, was, step);
      ClaimCounts(cfg, was, step, row);
      FinishCounts(cfg, was, step, row);
      EmitCounts(cfg, was, step, row);
    }
    InOrder(cfg, s, row);
  }

  lemma NothingYet(cfg: Config, rows: map<Row, string>, row: Row)
    ensures Sound(cfg, Fresh(cfg, rows)) && !ClaimedIn(Fresh(cfg, rows), row)
    ensures !FinishedIn(Fresh(cfg, rows), row) && !EmittedIn(cfg, Fresh(cfg, rows), row)
  {}

  lemma InOrder(cfg: Config, s: State, row: Row)
    ensures EmittedIn(cfg, s, row) ==> FinishedIn(s, row)
    ensures FinishedIn(s, row) ==> ClaimedIn(s, row)
  {
    hide Recs;
    if EmittedIn(cfg, s, row) {
      var w :| 0 <= w < |s.runs| && EmittedBy(cfg, s.runs[w], row);
      RecsAreHeld(cfg, s.runs[w], row);
    }
    if FinishedIn(s, row) {
      var w :| 0 <= w < |s.runs| && FinishedBy(s.runs[w], row);
      assert Holds(s.runs[w], row);
    }
  }

  /** A row leaves the unclaimed status once and never returns to it. */
  lemma {:induction false} NeverUnclaimedAgain(cfg: Config, s: State, steps: seq<Step>, row: Row)
    requires StatusesDiffer(cfg) && Sound(cfg, s) && PlayAll(cfg, s, steps).Some?
    requires row.src < |cfg.sources| && row in s.rows && s.rows[row] != cfg.At(row).unclaimed
    ensures var t := PlayAll(cfg, s, steps).value; row in t.rows && t.rows[row] != cfg.At(row).unclaimed
  {
    hide Sound, StatusesDiffer, Config.FinalStatus;
    if steps != [] {
      var init := steps[..|steps| - 1];
      NeverUnclaimedAgain(cfg, s, init, row);
      AlwaysSound(cfg, s, init);
      FinalIsNotUnclaimed(cfg, row);
    }
  }

  // ------------------------------------------------------------------ crashes

  /** What a crashed run had claimed stays exactly as it left it: rows claimed but not finished keep the claimed
      status, and rows finished as working without an emitted recommendation never get one. */
  lemma {:induction false} CrashedRowsAreStuck(cfg: Config, s: State, steps: seq<Step>, w: nat, row: Row)
    requires StatusesDiffer(cfg) && Sound(cfg, s) && PlayAll(cfg, s, steps).Some?
    requires w < |s.runs| && s.runs[w].crashed && Holds(s.runs[w], row)
    ensures var t := PlayAll(cfg, s, steps).value;
            && w < |t.runs| && t.runs[w] == s.runs[w]
            && row in t.rows && t.rows[row] == s.rows[row]
            && (EmittedIn(cfg, t, row) <==> EmittedBy(cfg, s.runs[w], row))
  {
    hide Sound, StatusesDiffer, PlayAll, Recs;
    CrashedRunStands(cfg, s, steps, w, row);
    AlwaysSound(cfg, s, steps);
    var t := PlayAll(cfg, s, steps).value;
    OnlyTheHolderEmits(cfg, t, w, row);
  }

  lemma OnlyTheHolderEmits(cfg: Config, t: State, w: nat, row: Row)
    requires Sound(cfg, t) && w < |t.runs| && Holds(t.runs[w], row)
    ensures EmittedIn(cfg, t, row) <==> EmittedBy(cfg, t.runs[w], row)
  {
    hide Recs;
    forall v | 0 <= v < |t.runs| && v != w ensures !EmittedBy(cfg, t.runs[v], row) {
      RecsAreHeld(cfg, t.runs[v], row);
      assert !Holds(t.runs[v], row);
    }
  }

  lemma {:induction false} CrashedRunStands(cfg: Config, s: State, steps: seq<Step>, w: nat, row: Row)
    requires StatusesDiffer(cfg) && Sound(cfg, s) && PlayAll(cfg, s, steps).Some?
    requires w < |s.runs| && s.runs[w].crashed && Holds(s.runs[w], row)
    ensures var t := PlayAll(cfg, s, steps).value;
            w < |t.runs| && t.runs[w] == s.runs[w] && row in t.rows && t.rows[row] == s.rows[row]
  {
    hide Sound, StatusesDiffer, Enabled, Apply;
    if steps == [] {
      assert row in s.rows by { HeldIsStored(cfg, s, w, row); }
    } else {
      var init := steps[..|steps| - 1];
      CrashedRunStands(cfg, s, init, w, row);
      AlwaysSound(cfg, s, init);
      StepSparesCrashed(cfg, PlayAll(cfg, s, init).value, steps[|steps| - 1], w, row);
    }
  }

  lemma HeldIsStored(cfg: Config, s: State, w: nat, row: Row)
    requires Sound(cfg, s) && w < |s.runs| && Holds(s.runs[w], row)
    ensures row in s.rows && s.rows[row] != cfg.At(row).unclaimed
  {
    assert RunSound(cfg, s.rows, s.runs[w]);
  }

  lemma StepSparesCrashed(cfg: Config, s: State, step: Step, w: nat, row: Row)
    requires Sound(cfg, s) && Enabled(cfg, s, step) && w < |s.runs| && s.runs[w].crashed && Holds(s.runs[w], row)
    ensures var t := Apply(cfg, s, step);
            w < |t.runs| && t.runs[w] == s.runs[w] && row in t.rows && t.rows[row] == s.rows[row]
  {
    hide Config.FinalStatus, Recs;
    HeldIsStored(cfg, s, w, row);
    if step.Do? && step.ev.Finish? {
      var l := s.runs[step.w];
      assert Holds(l, step.ev.row);
    }
  }

  /** Crashing between the last status write and the emission loses a report for good: its row reads as being
      worked on and no recommendation for it is ever written. */
  lemma CrashCanLoseAReport(st: Statuses, r: Row)
    requires r.src == 0
    ensures exists cfg: Config, rows: map<Row, string>, steps: seq<Step> ::
              var s := PlayAll(cfg, Fresh(cfg, rows), steps);
              && cfg.sources == [st] && s.Some? && |s.value.runs| == 1 && s.value.runs[0].crashed
              && r in s.value.rows && s.value.rows[r] == st.working && Emits(steps, r) == 0 && Holds(s.value.runs[0], r)
  {
    hide PlayAll, Emits;
    var cfg := Config([st], 1, x => Investigate);
    var rows := map[r := st.unclaimed];
    var s0 := Fresh(cfg, rows);
    var a := [Start];
    var b := a + [Do(0, Select(0, [r]))];
    var c := b + [Do(0, Claim(r, true))];
    var d := c + [Do(0, Finish(r, st.working))];
    var e := d + [Crash(0)];
    PlayNothing(cfg, s0);
    assert [] + [Start] == a;
    PlaySnoc(cfg, s0, [], Start, r);
    PlaySnoc(cfg, s0, a, Do(0, Select(0, [r])), r);
    PlaySnoc(cfg, s0, b, Do(0, Claim(r, true)), r);
    PlaySnoc(cfg, s0, c, Do(0, Finish(r, st.working)), r);
    PlaySnoc(cfg, s0, d, Crash(0), r);
    EmitsNothing(r);
    assert PlayAll(cfg, s0, e).Some?;
  }

  // ------------------------------------------------------------------ why the statuses must differ

  /** One more step of a play. */
  lemma Extend(cfg: Config, s: State, steps: seq<Step>, t: State, step: Step, row: Row)
    requires PlayAll(cfg, s, steps) == Some(t) && Enabled(cfg, t, step)
    ensures PlayAll(cfg, s, steps + [step]) == Some(Apply(cfg, t, step))
    ensures Claims(steps + [step], row) ==
            Claims(steps, row) + if step.Do? && step.ev.Claim? && step.ev.row == row && step.ev.won then 1 else 0
  {
    PlaySnoc(cfg, s, steps, step, row);
    ClaimsSnoc(steps, step, row);
  }

  /** The last run finds nothing new in the sources up to k. */
  lemma {:induction false} SkipSources(cfg: Config, s: State, steps: seq<Step>, t: State, l: Local, k: nat, row: Row)
    returns (more: seq<Step>)
    requires PlayAll(cfg, s, steps) == Some(t) && t.runs != [] && t.runs[|t.runs| - 1] == l
    requires l.next <= k <= |cfg.sources| && l.queue == [] && |l.claimed| <= cfg.max && !l.crashed && !l.emitted
    ensures PlayAll(cfg, s, more) == Some(t.(runs := t.runs[|t.runs| - 1 := l.(next := k)]))
    ensures Claims(more, row) == Claims(steps, row)
    decreases k - l.next
  {
    hide PlayAll;
    more := steps;
    if l.next == k {
      assert t.runs[|t.runs| - 1 := l] == t.runs;
    } else {
      var w := |t.runs| - 1;
      var step := Do(w, Select(l.next, []));
      Extend(cfg, s, steps, t, step, row);
      var m := l.(next := l.next + 1);
      var u := t.(runs := t.runs[w := m]);
      more := SkipSources(cfg, s, steps + [step], u, m, k, row);
      assert u.runs[w := m.(next := k)] == t.runs[w := l.(next := k)];
    }
  }

  /** A row that reads as unclaimed is claimed by a run that starts now. */
  lemma NextRunClaims(cfg: Config, s: State, steps: seq<Step>, t: State, row: Row) returns (more: seq<Step>)
    requires PlayAll(cfg, s, steps) == Some(t) && cfg.max >= 1
    requires row.src < |cfg.sources| && row in t.rows && t.rows[row] == cfg.At(row).unclaimed
    ensures PlayAll(cfg, s, more) ==
            Some(State(t.rows[row := cfg.At(row).claimed], t.runs + [Local(row.src + 1, [], [row], 0, false, false)]))
    ensures Claims(more, row) == Claims(steps, row) + 1
  {
    hide PlayAll, Apply, Enabled;
    var t1 := State(t.rows, t.runs + [START]);
    assert Enabled(cfg, t, Start) && Apply(cfg, t, Start) == t1 by { StartIs(cfg, t); }
    Extend(cfg, s, steps, t, Start, row);
    more := SkipSources(cfg, s, steps + [Start], t1, START, row.src, row);
    var l := Local(row.src, [], [], 0, false, false);
    assert t1.runs[|t.runs| := l] == t.runs + [l];
    more := SelectAndClaim(cfg, s, more, State(t.rows, t.runs + [l]), row);
    var m := Local(row.src + 1, [], [row], 0, false, false);
    assert (t.runs + [l])[|t.runs| := m] == t.runs + [m];
  }

  lemma StartIs(cfg: Config, t: State)
    ensures Enabled(cfg, t, Start) && Apply(cfg, t, Start) == State(t.rows, t.runs + [START])
  {}

  lemma SelectIs(cfg: Config, t: State, row: Row)
    requires cfg.max >= 1 && t.runs != [] && t.runs[|t.runs| - 1] == Local(row.src, [], [], 0, false, false)
    requires row.src < |cfg.sources| && row in t.rows && t.rows[row] == cfg.At(row).unclaimed
    ensures var step := Do(|t.runs| - 1, Select(row.src, [row]));
            Enabled(cfg, t, step) && Apply(cfg, t, step) ==
            State(t.rows, t.runs[|t.runs| - 1 := Local(row.src + 1, [row], [], 0, false, false)])
  {}

  lemma ClaimIs(cfg: Config, t: State, row: Row)
    requires t.runs != [] && t.runs[|t.runs| - 1] == Local(row.src + 1, [row], [], 0, false, false)
    requires row in t.rows && t.rows[row] == cfg.At(row).unclaimed
    ensures var step := Do(|t.runs| - 1, Claim(row, true));
            Enabled(cfg, t, step) && Apply(cfg, t, step) ==
            State(t.rows[row := cfg.At(row).claimed],
                  t.runs[|t.runs| - 1 := Local(row.src + 1, [], [row], 0, false, false)])
  {
    assert [row][1..] == [] && [] + [row] == [row];
  }

  lemma SelectAndClaim(cfg: Config, s: State, steps: seq<Step>, t: State, row: Row) returns (more: seq<Step>)
    requires PlayAll(cfg, s, steps) == Some(t) && cfg.max >= 1 && t.runs != []
    requires row.src < |cfg.sources| && row in t.rows && t.rows[row] == cfg.At(row).unclaimed
    requires t.runs[|t.runs| - 1] == Local(row.src, [], [], 0, false, false)
    ensures PlayAll(cfg, s, more) ==
            Some(State(t.rows[row := cfg.At(row).claimed],
                       t.runs[|t.runs| - 1 := Local(row.src + 1, [], [row], 0, false, false)]))
    ensures Claims(more, row) == Claims(steps, row) + 1
  {
    hide PlayAll, Apply, Enabled;
    var w := |t.runs| - 1;
    SelectIs(cfg, t, row);
    Extend(cfg, s, steps, t, Do(w, Select(row.src, [row])), row);
    more := steps + [Do(w, Select(row.src, [row]))];
    var u := State(t.rows, t.runs[w := Local(row.src + 1, [row], [], 0, false, false)]);
    ClaimIs(cfg, u, row);
    Extend(cfg, s, more, u, Do(w, Claim(row, true)), row);
    more := more + [Do(w, Claim(row, true))];
    assert u.runs[w := Local(row.src + 1, [], [row], 0, false, false)]
        == t.runs[w := Local(row.src + 1, [], [row], 0, false, false)];
  }

  /** And the run gives it its final status. */
  lemma RunFinishes(cfg: Config, s: State, steps: seq<Step>, t: State, row: Row) returns (more: seq<Step>)
    requires PlayAll(cfg, s, steps) == Some(t) && cfg.max >= 1 && row.src < |cfg.sources| && row in t.rows
    requires t.runs != [] && t.runs[|t.runs| - 1] == Local(row.src + 1, [], [row], 0, false, false)
    ensures PlayAll(cfg, s, more).Some? && PlayAll(cfg, s, more).value.rows == t.rows[row := cfg.FinalStatus(row)]
    ensures Claims(more, row) == Claims(steps, row)
  {
    hide PlayAll;
    var w := |t.runs| - 1;
    more := SkipSources(cfg, s, steps, t, t.runs[w], |cfg.sources|, row);
    var t1 := t.(runs := t.runs[w := Local(|cfg.sources|, [], [row], 0, false, false)]);
    Extend(cfg, s, more, t1, Do(w, Finish(row, cfg.FinalStatus(row))), row);
    more := more + [Do(w, Finish(row, cfg.FinalStatus(row)))];
  }

  /** A status that reads as unclaimed is given back: by the claim itself, or by the classification that writes it. */
  function ReturnsTo(st: Statuses): Action {
    if st.working == st.unclaimed then Investigate else if st.needsInfo == st.unclaimed then NeedsInfo else Ignore
  }

  lemma SameStatusClaimsTwice(sources: seq<Statuses>, max: nat, k: nat)
    returns (cfg: Config, rows: map<Row, string>, steps: seq<Step>)
    requires max >= 1 && k < |sources|
    requires var st := sources[k];
             st.unclaimed == st.claimed || st.unclaimed == st.working || st.unclaimed == st.needsInfo
                 || st.unclaimed == st.rejected
    ensures cfg.sources == sources && cfg.max == max
    ensures PlayAll(cfg, Fresh(cfg, rows), steps).Some? && Claims(steps, Row(k, "")) == 2
  {
    hide PlayAll;
    var st, row := sources[k], Row(k, "");
    cfg := Config(sources, max, r => ReturnsTo(st));
    rows := map[row := st.unclaimed];
    var s := Fresh(cfg, rows);
    PlayNothing(cfg, s);
    ClaimsSnoc([], Start, row);
    steps := NextRunClaims(cfg, s, [], s, row);
    var t := PlayAll(cfg, s, steps).value;
    if st.claimed != st.unclaimed {
      steps := RunFinishes(cfg, s, steps, t, row);
      t := PlayAll(cfg, s, steps).value;
    }
    steps := NextRunClaims(cfg, s, steps, t, row);
  }

  ghost predicate ClaimsOnce(cfg: Config) {
    forall rows, steps, row :: PlayAll(cfg, Fresh(cfg, rows), steps).Some? ==> Claims(steps, row) <= 1
  }

  /** The statuses have to differ exactly so: no history claims a row twice, however rows are classified, iff in every
      source the claimed status and the three final ones differ from the unclaimed one. */
  lemma ClaimedOnceIff(cfg: Config)
    requires cfg.max >= 1
    ensures (forall classify :: ClaimsOnce(cfg.(classify := classify))) <==> StatusesDiffer(cfg)
  {
    hide PlayAll;
    if StatusesDiffer(cfg) {
      forall classify ensures ClaimsOnce(cfg.(classify := classify)) {
        var c := cfg.(classify := classify);
        forall rows, steps, row | PlayAll(c, Fresh(c, rows), steps).Some? ensures Claims(steps, row) <= 1 {
          OncePerRow(c, rows, steps, row);
        }
      }
    } else {
      var k :| 0 <= k < |cfg.sources| && (cfg.sources[k].claimed == cfg.sources[k].unclaimed
        || cfg.sources[k].working == cfg.sources[k].unclaimed || cfg.sources[k].needsInfo == cfg.sources[k].unclaimed
        || cfg.sources[k].rejected == cfg.sources[k].unclaimed);
      var c, rows, steps := SameStatusClaimsTwice(cfg.sources, cfg.max, k);
      assert c == cfg.(classify := c.classify);
      assert !ClaimsOnce(cfg.(classify := c.classify));
    }
  }

  lemma ClaimsSnoc(steps: seq<Step>, step: Step, row: Row)
    ensures Claims([], row) == 0
    ensures Claims(steps + [step], row) ==
            Claims(steps, row) + if step.Do? && step.ev.Claim? && step.ev.row == row && step.ev.won then 1 else 0
  {
    assert (steps + [step])[..|steps|] == steps;
  }

  lemma EmitsNothing(row: Row)
    ensures Emits([], row) == 0
  {}

  lemma PlayNothing(cfg: Config, s: State)
    ensures PlayAll(cfg, s, []) == Some(s)
  {}

  lemma PlaySnoc(cfg: Config, s: State, steps: seq<Step>, step: Step, row: Row)
    requires PlayAll(cfg, s, steps).Some? && Enabled(cfg, PlayAll(cfg, s, steps).value, step)
    ensures PlayAll(cfg, s, steps + [step]) == Some(Apply(cfg, PlayAll(cfg, s, steps).value, step))
    ensures !(step.Do? && step.ev.Emit?) ==> Emits(steps + [step], row) == Emits(steps, row)
  {
    hide Enabled, Apply;
    assert (steps + [step])[..|steps|] == steps;
  }
}
