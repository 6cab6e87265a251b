/** What one triage run claims and writes, in the configured statuses and the order of the reports. */
module FeedbackRules {
  import opened Sequences
  import opened FeedbackClaim

  // ------------------------------------------------------------------ what a run writes

  /** The status a report ends in: the working one if it is to be investigated, the one for missing information, or the
      rejected one. */
  predicate EndsIn(cfg: Config, r: Row, status: string) {
    r.src < |cfg.sources|
    && status == match cfg.classify(r)
                 case Investigate => cfg.sources[r.src].working
                 case NeedsInfo => cfg.sources[r.src].needsInfo
                 case _ => cfg.sources[r.src].rejected
  }

  lemma EndsInIff(cfg: Config, r: Row, status: string)
    requires r.src < |cfg.sources|
    ensures EndsIn(cfg, r, status) <==> status == cfg.FinalStatus(r)
  {}

  lemma Snoc<T>(s: seq<T>, x: T)
    requires s != []
    ensures x in s <==> x in s[..|s| - 1] || x == s[|s| - 1]
  {
    assert s == s[..|s| - 1] + [s[|s| - 1]];
  }

  /** The claims in the log of a run are the rows it holds, and the final statuses those of the rows it has finished. */
  lemma {:induction false} LogHolds(cfg: Config, log: seq<Event>, l: Local, row: Row, status: string)
    requires Play(cfg, START, log) == Some(l) && row.src < |cfg.sources|
    ensures Claim(row, true) in log <==> row in l.claimed
    ensures l.finished <= |l.claimed|
    ensures Finish(row, status) in log <==> row in l.claimed[..l.finished] && EndsIn(cfg, row, status)
  {
    hide Config.FinalStatus, Recs;
    if log != [] {
      var init, ev := log[..|log| - 1], log[|log| - 1];
      var m := Play(cfg, START, init).value;
      LogHolds(cfg, init, m, row, status);
      Snoc(log, Claim(row, true));
      Snoc(log, Finish(row, status));
      EndsInIff(cfg, row, status);
      if ev.Finish? {
        assert l.claimed[..l.finished] == m.claimed[..m.finished] + [m.claimed[m.finished]];
      } else if ev.Claim? && ev.won {
        assert l.claimed == m.claimed + [ev.row];
        assert l.claimed[..l.finished] == m.claimed[..m.finished];
      }
    }
  }

  /** A run that came to its end wrote, on each row it claimed and no other, the status of what it was judged to be. */
  lemma RunWrites(cfg: Config, log: seq<Event>, l: Local, row: Row, status: string)
    requires Play(cfg, START, log) == Some(l) && l.emitted && row.src < |cfg.sources|
    ensures Finish(row, status) in log <==> Claim(row, true) in log && EndsIn(cfg, row, status)
  {
    LogHolds(cfg, log, l, row, status);
    AllFinished(cfg, log, l);
    assert l.claimed[..|l.claimed|] == l.claimed;
  }

  lemma {:induction false} AllFinished(cfg: Config, log: seq<Event>, l: Local)
    requires Play(cfg, START, log) == Some(l)
    ensures l.emitted ==> l.finished == |l.claimed|
    ensures l.emitted <==> exists recs :: Emit(recs) in log
  {
    hide Recs, Config.FinalStatus;
    if log != [] {
      var init, ev := log[..|log| - 1], log[|log| - 1];
      AllFinished(cfg, init, Play(cfg, START, init).value);
      assert log == init + [ev];
      assert ev in log;
    }
  }

  /** Its recommendations are exactly the claimed rows to be investigated. */
  lemma RunEmits(cfg: Config, log: seq<Event>, l: Local, recs: seq<Row>, row: Row)
    requires Play(cfg, START, log) == Some(l) && Emit(recs) in log
    ensures row in recs <==> row in l.claimed && cfg.classify(row) == Investigate
  {
    hide Config.FinalStatus, Filter;
    var init, ev := log[..|log| - 1], log[|log| - 1];
    var m := Play(cfg, START, init).value;
    Snoc(log, Emit(recs));
    AllFinished(cfg, init, m);
    assert Emit(recs) !in init;
    assert Take(m.claimed, |m.claimed|) == m.claimed;
    FilterIn(m.claimed, Actionables(cfg));
  }

  // ------------------------------------------------------------------ what a run claims

  /** The ids of a source that a run reads: as many as it may still claim. */
  function Read(cfg: Config, selects: nat -> seq<string>, wins: Row -> bool, k: nat): seq<string> {
    var was := |ClaimedAfter(cfg, selects, wins, k)|;
    Take(selects(k), if was <= cfg.max then cfg.max - was else 0)
  }

  /** A run claims exactly the rows it reads and wins, source by source. */
  lemma {:induction false} ClaimedAre(cfg: Config, selects: nat -> seq<string>, wins: Row -> bool, n: nat, row: Row)
    ensures row in ClaimedAfter(cfg, selects, wins, n) <==>
            row.src < n && row.id in Read(cfg, selects, wins, row.src) && wins(row)
  {
    if n > 0 {
      ClaimedAre(cfg, selects, wins, n - 1, row);
      var ids := Read(cfg, selects, wins, n - 1);
      FilterIn(RowsOf(n - 1, ids), wins);
      RowsAre(n - 1, ids, row);
    }
  }

  lemma RowsAre(src: nat, ids: seq<string>, row: Row)
    ensures row in RowsOf(src, ids) <==> row.src == src && row.id in ids
  {
    if row.src == src && row.id in ids {
      var i :| 0 <= i < |ids| && ids[i] == row.id;
      assert RowsOf(src, ids)[i] == row;
    }
  }

  /** The oldest reports of a source come first: a run that claims a later one claims every earlier one it can win. */
  lemma OldestFirst(cfg: Config, selects: nat -> seq<string>, wins: Row -> bool, n: nat, k: nat, i: nat, j: nat)
    requires i < j < |selects(k)| && NoDup(selects(k)) && wins(Row(k, selects(k)[i]))
    requires Row(k, selects(k)[j]) in ClaimedAfter(cfg, selects, wins, n)
    ensures Row(k, selects(k)[i]) in ClaimedAfter(cfg, selects, wins, n)
  {
    hide ClaimedAfter;
    ClaimedAre(cfg, selects, wins, n, Row(k, selects(k)[i]));
    ClaimedAre(cfg, selects, wins, n, Row(k, selects(k)[j]));
    var read := Read(cfg, selects, wins, k);
    assert forall m :: 0 <= m < |read| ==> read[m] == selects(k)[m];
    var m :| 0 <= m < |read| && read[m] == selects(k)[j];
    assert read[i] == selects(k)[i];
  }

  function Waiting(selects: nat -> seq<string>, n: nat): nat {
    if n == 0 then 0 else Waiting(selects, n - 1) + |selects(n - 1)|
  }

  /** If no more reports are waiting than a run may take, it claims every one it can win. */
  lemma RoomForAll(cfg: Config, selects: nat -> seq<string>, wins: Row -> bool, n: nat, row: Row)
    requires Waiting(selects, n) <= cfg.max
    ensures row in ClaimedAfter(cfg, selects, wins, n) <==> row.src < n && row.id in selects(row.src) && wins(row)
  {
    ClaimedAre(cfg, selects, wins, n, row);
    if row.src < n {
      FewClaimed(cfg, selects, wins, row.src);
      WaitingGrows(selects, row.src + 1, n);
    }
  }

  lemma {:induction false} FewClaimed(cfg: Config, selects: nat -> seq<string>, wins: Row -> bool, k: nat)
    ensures |ClaimedAfter(cfg, selects, wins, k)| <= Waiting(selects, k)
  {
    if k > 0 {
      FewClaimed(cfg, selects, wins, k - 1);
      WonIsFewer(RowsOf(k - 1, Read(cfg, selects, wins, k - 1)), wins);
    }
  }

  lemma {:induction false} WaitingGrows(selects: nat -> seq<string>, k: nat, n: nat)
    requires k <= n
    ensures Waiting(selects, k) <= Waiting(selects, n)
    decreases n
  {
    if k < n {
      WaitingGrows(selects, k, n - 1);
    }
  }
}
