/** One feedback-triage run: select the oldest new rows of each source, claim each by compare-and-set,
    write each claimed row's final status, emit the recommendations. */
module FeedbackClaim {
  import opened Sequences

  datatype Option<T> = None | Some(value: T)

  /** A feedback row: its source and its id there. */
  datatype Row = Row(src: nat, id: string)

  /** The status values a source is configured with. */
  datatype Statuses = Statuses(unclaimed: string, claimed: string, working: string, needsInfo: string, rejected: string)

  datatype Action = Investigate | NeedsInfo | Ignore | NotADefect

  datatype Config = Config(sources: seq<Statuses>, max: nat, classify: Row -> Action) {
    function At(r: Row): Statuses {
      if r.src < |sources| then sources[r.src] else Statuses("", "", "", "", "")
    }

    function FinalStatus(r: Row): string {
      match classify(r)
      case Investigate => At(r).working
      case NeedsInfo => At(r).needsInfo
      case Ignore => At(r).rejected
      case NotADefect => At(r).rejected
    }

    predicate Actionable(r: Row) { classify(r) == Investigate }
  }

  /** What a run does to the database and the store, with what it was told. */
  datatype Event =
    | Select(src: nat, rows: seq<Row>)
    | Claim(row: Row, won: bool)
    | Finish(row: Row, status: string)
    | Emit(recs: seq<Row>)   // the end of a run; the store is written only when recs is not empty

  /** A run: the next source, the rows selected and not tried yet, those claimed, how many are finished. */
  datatype Local = Local(next: nat, queue: seq<Row>, claimed: seq<Row>, finished: nat, emitted: bool, crashed: bool)

  const START: Local := Local(0, [], [], 0, false, false)

  function Actionables(cfg: Config): Row -> bool {
    (r: Row) => cfg.Actionable(r)
  }

  function Recs(cfg: Config, l: Local): seq<Row> {
    Filter(Take(l.claimed, l.finished), Actionables(cfg))
  }

  predicate Scanned(cfg: Config, l: Local) { l.next == |cfg.sources| && l.queue == [] }

  predicate Allowed(cfg: Config, l: Local, ev: Event) {
    && !l.crashed && !l.emitted
    && match ev
       case Select(k, rows) =>
         k == l.next < |cfg.sources| && l.queue == [] && |l.claimed| + |rows| <= cfg.max && forall r :: r in rows ==>
             r.src == k
       case Claim(row, _) => l.queue != [] && row == l.queue[0]
       case Finish(row, status) =>
         Scanned(cfg, l) && l.finished < |l.claimed| && row == l.claimed[l.finished] && status == cfg.FinalStatus(row)
       case Emit(recs) => Scanned(cfg, l) && l.finished == |l.claimed| && recs == Recs(cfg, l)
  }

  function Next(cfg: Config, l: Local, ev: Event): Local
    requires Allowed(cfg, l, ev)
  {
    match ev
    case Select(k, rows) => l.(next := k + 1, queue := rows)
    case Claim(row, won) => l.(queue := l.queue[1..], claimed := if won then l.claimed + [row] else l.claimed)
    case Finish(_, _) => l.(finished := l.finished + 1)
    case Emit(_) => l.(emitted := true)
  }

  function Play(cfg: Config, l: Local, log: seq<Event>): Option<Local> {
    if log == [] then Some(l)
    else
      match Play(cfg, l, log[..|log| - 1])
      case None => None
      case Some(m) => if Allowed(cfg, m, log[|log| - 1]) then Some(Next(cfg, m, log[|log| - 1])) else None
  }

  lemma PlayOne(cfg: Config, l: Local, log: seq<Event>, ev: Event)
    ensures Play(cfg, l, log + [ev]) ==
      match Play(cfg, l, log)
      case None => None
      case Some(m) => if Allowed(cfg, m, ev) then Some(Next(cfg, m, ev)) else None
  {
    assert (log + [ev])[..|log|] == log;
  }

  // ------------------------------------------------------------------ what a run claims

  /** The rows of one select that the database let this run claim. */
  function Won(rows: seq<Row>, wins: Row -> bool): seq<Row> { Filter(rows, wins) }

  function RowsOf(src: nat, ids: seq<string>): seq<Row> {
    seq(|ids|, i requires 0 <= i < |ids| => Row(src, ids[i]))
  }

  /** What a run has claimed after its first k sources. */
  function ClaimedAfter(cfg: Config, selects: nat -> seq<string>, wins: Row -> bool, k: nat): seq<Row> {
    if k == 0 then []
    else
      var was := ClaimedAfter(cfg, selects, wins, k - 1);
      var limit := if |was| <= cfg.max then cfg.max - |was| else 0;
      was + Won(RowsOf(k - 1, Take(selects(k - 1), limit)), wins)
  }

  lemma {:induction false} WonIsFewer(rows: seq<Row>, wins: Row -> bool)
    ensures |Won(rows, wins)| <= |rows|
  {
    if rows != [] {
      WonIsFewer(rows[1..], wins);
    }
  }

  lemma {:induction false} ClaimsBounded(cfg: Config, selects: nat -> seq<string>, wins: Row -> bool, k: nat)
    ensures |ClaimedAfter(cfg, selects, wins, k)| <= cfg.max
  {
    if k > 0 {
      ClaimsBounded(cfg, selects, wins, k - 1);
      var limit := cfg.max - |ClaimedAfter(cfg, selects, wins, k - 1)|;
      WonIsFewer(RowsOf(k - 1, Take(selects(k - 1), limit)), wins);
    }
  }

  // ------------------------------------------------------------------ the run

  /** `selects(k)` is what source k has new, oldest first; `wins(r)` is whether the update that claims r
      still found it new. The run's log is one the protocol allows, and ends with every claim finished. */
  method Run(cfg: Config, selects: nat -> seq<string>, wins: Row -> bool) returns (log: seq<Event>, claimed: seq<Row>)
    ensures claimed == ClaimedAfter(cfg, selects, wins, |cfg.sources|) && |claimed| <= cfg.max
    ensures Play(cfg, START, log) == Some(Local(|cfg.sources|, [], claimed, |claimed|, true, false))
  {
    hide Play, Filter, Allowed, Next;
    log, claimed := [], [];
    NothingPlayed(cfg);
    for k := 0 to |cfg.sources|
      invariant claimed == ClaimedAfter(cfg, selects, wins, k)
      invariant Play(cfg, START, log) == Some(Local(k, [], claimed, 0, false, false))
    {
      ClaimsBounded(cfg, selects, wins, k);
      var rows := RowsOf(k, Take(selects(k), cfg.max - |claimed|));
      SelectAllowed(cfg, log, k, claimed, rows);
      log := log + [Select(k, rows)];
      log, claimed := ClaimRows(cfg, log, claimed, k + 1, rows, wins);
    }
    ClaimsBounded(cfg, selects, wins, |cfg.sources|);
    var recs := [];
    NoRecsYet(cfg, claimed);
    for i := 0 to |claimed|
      invariant Play(cfg, START, log) == Some(Local(|cfg.sources|, [], claimed, i, false, false))
      invariant recs == Recs(cfg, Local(|cfg.sources|, [], claimed, i, false, false))
    {
      var row := claimed[i];
      FinishAllowed(cfg, log, claimed, i);
      log := log + [Finish(row, cfg.FinalStatus(row))];
      if cfg.classify(row) == Investigate {
        recs := recs + [row];
      }
    }
    EmitAllowed(cfg, log, claimed, recs);
    log := log + [Emit(recs)];
  }

  method ClaimRows(cfg: Config, log: seq<Event>, claimed: seq<Row>, next: nat, rows: seq<Row>, wins: Row -> bool)
    returns (log': seq<Event>, claimed': seq<Row>)
    requires Play(cfg, START, log) == Some(Local(next, rows, claimed, 0, false, false))
    ensures claimed' == claimed + Won(rows, wins)
    ensures Play(cfg, START, log') == Some(Local(next, [], claimed', 0, false, false))
  {
    hide Play, Allowed, Next, Won;
    log', claimed' := log, claimed;
    WonNothing(wins);
    assert rows[0..] == rows && rows[..0] == [];
    for i := 0 to |rows|
      invariant claimed' == claimed + Won(rows[..i], wins)
      invariant Play(cfg, START, log') == Some(Local(next, rows[i..], claimed', 0, false, false))
    {
      var row := rows[i];
      RestOfRows(rows, i);
      ClaimAllowed(cfg, log', next, rows[i..], claimed', wins(row));
      WonStep(rows, wins, i);
      log' := log' + [Claim(row, wins(row))];
      if wins(row) {
        claimed' := claimed' + [row];
      }
    }
    assert rows[..|rows|] == rows && rows[|rows|..] == [];
  }

  lemma RestOfRows(rows: seq<Row>, i: nat)
    requires i < |rows|
    ensures rows[i..][1..] == rows[i + 1..] && rows[i..][0] == rows[i]
  {}

  lemma WonNothing(wins: Row -> bool)
    ensures Won([], wins) == []
  {}

  lemma WonStep(rows: seq<Row>, wins: Row -> bool, i: nat)
    requires i < |rows|
    ensures Won(rows[..i + 1], wins) == if wins(rows[i]) then Won(rows[..i], wins) + [rows[i]] else Won(rows[..i], wins)
  {
    assert rows[..i + 1] == rows[..i] + [rows[i]];
    FilterConcat(rows[..i], [rows[i]], wins);
    FilterCons(rows[i], [], wins);
  }

  lemma NothingPlayed(cfg: Config)
    ensures Play(cfg, START, []) == Some(Local(0, [], [], 0, false, false))
  {}

  lemma SelectAllowed(cfg: Config, log: seq<Event>, k: nat, claimed: seq<Row>, rows: seq<Row>)
    requires Play(cfg, START, log) == Some(Local(k, [], claimed, 0, false, false))
    requires k < |cfg.sources| && |claimed| + |rows| <= cfg.max && forall r :: r in rows ==> r.src == k
    ensures Play(cfg, START, log + [Select(k, rows)]) == Some(Local(k + 1, rows, claimed, 0, false, false))
  {
    PlayOne(cfg, START, log, Select(k, rows));
  }

  lemma ClaimAllowed(cfg: Config, log: seq<Event>, next: nat, queue: seq<Row>, claimed: seq<Row>, won: bool)
    requires queue != [] && Play(cfg, START, log) == Some(Local(next, queue, claimed, 0, false, false))
    ensures Play(cfg, START, log + [Claim(queue[0], won)]) ==
            Some(Local(next, queue[1..], if won then claimed + [queue[0]] else claimed, 0, false, false))
  {
    PlayOne(cfg, START, log, Claim(queue[0], won));
  }

  lemma NoRecsYet(cfg: Config, claimed: seq<Row>)
    ensures Recs(cfg, Local(|cfg.sources|, [], claimed, 0, false, false)) == []
  {
    assert Take(claimed, 0) == [];
  }

  lemma FinishAllowed(cfg: Config, log: seq<Event>, claimed: seq<Row>, i: nat)
    requires i < |claimed| && Play(cfg, START, log) == Some(Local(|cfg.sources|, [], claimed, i, false, false))
    ensures Play(cfg, START, log + [Finish(claimed[i], cfg.FinalStatus(claimed[i]))]) ==
            Some(Local(|cfg.sources|, [], claimed, i + 1, false, false))
    ensures Recs(cfg, Local(|cfg.sources|, [], claimed, i + 1, false, false)) ==
            Recs(cfg, Local(|cfg.sources|, [], claimed, i, false, false))
            + if cfg.Actionable(claimed[i]) then [claimed[i]] else []
  {
    var row := claimed[i];
    hide Play, Allowed, Next, Filter;
    FinishPlays(cfg, log, claimed, i);
    assert Take(claimed, i + 1) == Take(claimed, i) + [row];
    FilterConcat(Take(claimed, i), [row], Actionables(cfg));
    FilterCons(row, [], Actionables(cfg));
    assert Filter([], Actionables(cfg)) == [] by { FilterAll([], Actionables(cfg)); }
    assert [row] + [] == [row];
  }

  lemma FinishPlays(cfg: Config, log: seq<Event>, claimed: seq<Row>, i: nat)
    requires i < |claimed| && Play(cfg, START, log) == Some(Local(|cfg.sources|, [], claimed, i, false, false))
    ensures Play(cfg, START, log + [Finish(claimed[i], cfg.FinalStatus(claimed[i]))]) ==
            Some(Local(|cfg.sources|, [], claimed, i + 1, false, false))
  {
    PlayOne(cfg, START, log, Finish(claimed[i], cfg.FinalStatus(claimed[i])));
  }

  lemma EmitAllowed(cfg: Config, log: seq<Event>, claimed: seq<Row>, recs: seq<Row>)
    requires Play(cfg, START, log) == Some(Local(|cfg.sources|, [], claimed, |claimed|, false, false))
    requires recs == Recs(cfg, Local(|cfg.sources|, [], claimed, |claimed|, false, false))
    ensures Play(cfg, START, log + [Emit(recs)]) == Some(Local(|cfg.sources|, [], claimed, |claimed|, true, false))
  {
    PlayOne(cfg, START, log, Emit(recs));
  }
}
