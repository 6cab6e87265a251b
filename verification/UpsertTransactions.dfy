/** What a batch leaves in the database, and how far its reported counts can be trusted. */
module UpsertTransactions {
  import opened Sequences
  import opened DbAdapter

  /** Every row executed, none rolled back. */
  function Fold<T>(exec: (T, Row) -> (T, bool), t: T, batch: seq<Attempt>): T {
    if batch == [] then t else exec(Fold(exec, t, batch[..|batch| - 1]), batch[|batch| - 1].row).0
  }

  function InsertCount<T>(exec: (T, Row) -> (T, bool), t: T, batch: seq<Attempt>): nat {
    if batch == [] then 0
    else
      var init := batch[..|batch| - 1];
      InsertCount(exec, t, init) + if exec(Fold(exec, t, init), batch[|batch| - 1].row).1 then 1 else 0
  }

  function AfterLastFailure(p: Plan, batch: seq<Attempt>): seq<Attempt> {
    if batch == [] || Fails(p, batch[|batch| - 1]) then []
    else AfterLastFailure(p, batch[..|batch| - 1]) + [batch[|batch| - 1]]
  }

  lemma {:induction false} AfterLastFailureIsSuffix(p: Plan, batch: seq<Attempt>)
    ensures var s := AfterLastFailure(p, batch);
            && |s| <= |batch| && s == batch[|batch| - |s|..]
            && (forall a :: a in s ==> !Fails(p, a))
            && (|s| < |batch| ==> Fails(p, batch[|batch| - |s| - 1]))
  {
    if batch != [] && !Fails(p, batch[|batch| - 1]) {
      AfterLastFailureIsSuffix(p, batch[..|batch| - 1]);
    }
  }

  /** The committed table is the old one with exactly the rows after the last failing row applied. */
  lemma {:induction false} CommitsRowsAfterLastFailure<T>(p: Plan, exec: (T, Row) -> (T, bool), t: T,
                                                          batch: seq<Attempt>)
    ensures Run(p, exec, t, batch).pending == Fold(exec, t, AfterLastFailure(p, batch))
  {
    hide Fails;
    if batch != [] {
      var init, a := batch[..|batch| - 1], batch[|batch| - 1];
      CommitsRowsAfterLastFailure(p, exec, t, init);
      if !Fails(p, a) {
        var s := AfterLastFailure(p, init);
        assert (s + [a])[..|s|] == s;
      }
    }
  }

  lemma {:induction false} NoFailureKeepsAll(p: Plan, batch: seq<Attempt>)
    requires forall a :: a in batch ==> !Fails(p, a)
    ensures AfterLastFailure(p, batch) == batch
  {
    hide Fails;
    if batch != [] {
      var init := batch[..|batch| - 1];
      assert batch == init + [batch[|batch| - 1]];
      NoFailureKeepsAll(p, init);
    }
  }

  predicate SuccessBeforeFailure(p: Plan, batch: seq<Attempt>) {
    exists i, j :: 0 <= i < j < |batch| && !Fails(p, batch[i]) && Fails(p, batch[j])
  }

  function Failing(p: Plan): Attempt -> bool {
    (a: Attempt) => Fails(p, a)
  }

  /** inserted + updated + failed is the number of rows, whatever fails, and the samples are the first five failures. */
  lemma {:induction false} CountsCoverTheBatch<T>(p: Plan, exec: (T, Row) -> (T, bool), t: T, batch: seq<Attempt>)
    ensures var r := Run(p, exec, t, batch).result;
            var failing := Filter(batch, Failing(p));
            && r.inserted + r.updated + r.failed == |batch| && r.failed == |failing|
            && r.samples.Some? && |r.samples.value| == |Take(failing, SAMPLES)|
            && forall i :: 0 <= i < |r.samples.value| ==> r.samples.value[i] == failing[i].row.Keys
  {
    hide Fails, Filter;
    FilterNothing(p);
    if batch != [] {
      var init, a := batch[..|batch| - 1], batch[|batch| - 1];
      CountsCoverTheBatch(p, exec, t, init);
      assert batch == init + [a];
      FilterConcat(init, [a], Failing(p));
      FilterCons(a, [], Failing(p));
      assert [a] + [] == [a];
    }
  }

  lemma FilterNothing(p: Plan)
    ensures Filter([], Failing(p)) == []
  {}

  /** The counts describe the committed rows exactly when no row succeeds before one that fails;
      otherwise they also count rows that were rolled back. */
  lemma {:induction false} CountsAreCommittedIff<T>(p: Plan, exec: (T, Row) -> (T, bool), t: T, batch: seq<Attempt>)
    ensures var r, kept := Run(p, exec, t, batch).result, AfterLastFailure(p, batch);
            && InsertCount(exec, t, kept) <= r.inserted
            && |kept| - InsertCount(exec, t, kept) <= r.updated
            && (r.inserted == InsertCount(exec, t, kept) && r.updated == |kept| - InsertCount(exec, t, kept)
                <==> !SuccessBeforeFailure(p, batch))
  {
    hide Fails, SuccessBeforeFailure;
    if batch == [] {
      NoneEarlier(p, batch);
    } else {
      var init, a := batch[..|batch| - 1], batch[|batch| - 1];
      CountsAreCommittedIff(p, exec, t, init);
      EarlierSuccess(p, batch);
      if Fails(p, a) {
        NoSuccessNoCount(p, exec, t, init);
      } else {
        CommitsRowsAfterLastFailure(p, exec, t, init);
        var s := AfterLastFailure(p, init);
        assert (s + [a])[..|s|] == s;
      }
    }
  }

  lemma NoneEarlier(p: Plan, batch: seq<Attempt>)
    requires |batch| <= 1
    ensures !SuccessBeforeFailure(p, batch)
  {}

  lemma EarlierSuccess(p: Plan, batch: seq<Attempt>)
    requires batch != []
    ensures var init, a := batch[..|batch| - 1], batch[|batch| - 1];
            SuccessBeforeFailure(p, batch) <==>
            SuccessBeforeFailure(p, init) || (Fails(p, a) && exists x :: x in init && !Fails(p, x))
  {
    hide Fails;
    var init, a := batch[..|batch| - 1], batch[|batch| - 1];
    if SuccessBeforeFailure(p, batch) {
      var i, j :| 0 <= i < j < |batch| && !Fails(p, batch[i]) && Fails(p, batch[j]);
      assert init[i] == batch[i] && init[i] in init;
      if j < |init| {
        assert init[j] == batch[j];
      }
    }
    if SuccessBeforeFailure(p, init) {
      var i, j :| 0 <= i < j < |init| && !Fails(p, init[i]) && Fails(p, init[j]);
      assert init[i] == batch[i] && init[j] == batch[j];
    }
    if Fails(p, a) {
      if x :| x in init && !Fails(p, x) {
        var i :| 0 <= i < |init| && init[i] == x;
        assert batch[i] == x;
      }
    }
  }

  lemma {:induction false} NoSuccessNoCount<T>(p: Plan, exec: (T, Row) -> (T, bool), t: T, batch: seq<Attempt>)
    ensures var r := Run(p, exec, t, batch).result;
            r.inserted + r.updated == 0 <==> forall x :: x in batch ==> Fails(p, x)
  {
    hide Fails;
    if batch != [] {
      NoSuccessNoCount(p, exec, t, batch[..|batch| - 1]);
      assert batch == batch[..|batch| - 1] + [batch[|batch| - 1]];
    }
  }

  // ------------------------------------------------------------------ Postgres: the table as a keyed map

  function Keys(p: Plan, batch: seq<Attempt>): set<Row> { set a | a in batch :: p.Key(a.row) }

  lemma KeysSnoc(p: Plan, batch: seq<Attempt>)
    requires batch != []
    ensures Keys(p, batch) == Keys(p, batch[..|batch| - 1]) + {p.Key(batch[|batch| - 1].row)}
  {
    var init, a := batch[..|batch| - 1], batch[|batch| - 1];
    assert forall x :: x in batch <==> x in init || x == a;
  }

  lemma UpsertAdds(p: Plan, t: Table, row: Row)
    ensures Upsert(p, t, row).Keys == t.Keys + {p.Key(row)}
  {}

  lemma OneMoreKey(after: set<Row>, table: set<Row>, keys: set<Row>, k: Row)
    requires after == table + keys
    ensures after + {k} == table + (keys + {k})
    ensures |(keys + {k}) - table| == |keys - table| + if k in after then 0 else 1
  {
    if k in after {
      assert (keys + {k}) - table == keys - table;
    } else {
      assert (keys + {k}) - table == (keys - table) + {k};
    }
  }

  /** Applying rows adds exactly their keys, and one insert is counted for each key that was new. */
  lemma {:induction false} InsertsAreNewKeys(p: Plan, t: Table, batch: seq<Attempt>)
    ensures Fold(PgExec(p), t, batch).Keys == t.Keys + Keys(p, batch)
    ensures InsertCount(PgExec(p), t, batch) == |Keys(p, batch) - t.Keys|
  {
    hide Upsert, Plan.Key, Fold, InsertCount, Keys;
    if batch == [] {
      NoRows(p, t);
    } else {
      var init, row := batch[..|batch| - 1], batch[|batch| - 1].row;
      InsertsAreNewKeys(p, t, init);
      KeysSnoc(p, batch);
      UpsertAdds(p, Fold(PgExec(p), t, init), row);
      OneMoreKey(Fold(PgExec(p), t, init).Keys, t.Keys, Keys(p, init), p.Key(row));
      FoldSnoc(p, t, batch);
    }
  }

  lemma NoRows(p: Plan, t: Table)
    ensures Keys(p, []) == {} && Fold(PgExec(p), t, []) == t && InsertCount(PgExec(p), t, []) == 0
  {}

  lemma FoldSnoc(p: Plan, t: Table, batch: seq<Attempt>)
    requires batch != []
    ensures var init, row := batch[..|batch| - 1], batch[|batch| - 1].row;
            && Fold(PgExec(p), t, batch) == Upsert(p, Fold(PgExec(p), t, init), row)
            && InsertCount(PgExec(p), t, batch) ==
               InsertCount(PgExec(p), t, init) + if p.Key(row) in Fold(PgExec(p), t, init) then 0 else 1
  {
    hide Upsert, Plan.Key;
  }

  /** With no failing row the batch is applied whole, and inserted is the number of new keys. */
  lemma CleanBatch(p: Plan, t: Table, batch: seq<Attempt>)
    requires forall a :: a in batch ==> !Fails(p, a)
    ensures Run(p, PgExec(p), t, batch).pending == Fold(PgExec(p), t, batch)
    ensures Run(p, PgExec(p), t, batch).result.inserted == |Keys(p, batch) - t.Keys|
    ensures Run(p, PgExec(p), t, batch).result.failed == 0
  {
    hide Fails;
    CommitsRowsAfterLastFailure(p, PgExec(p), t, batch);
    NoFailureKeepsAll(p, batch);
    CountsAreCommittedIff(p, PgExec(p), t, batch);
    InsertsAreNewKeys(p, t, batch);
    CountsCoverTheBatch(p, PgExec(p), t, batch);
  }

  function RowsFor(p: Plan, batch: seq<Attempt>, k: Row): seq<Row> {
    if batch == [] then []
    else
      var rest := RowsFor(p, batch[..|batch| - 1], k);
      if p.Key(batch[|batch| - 1].row) == k then rest + [batch[|batch| - 1].row] else rest
  }

  lemma {:induction false} RowsForKeys(p: Plan, batch: seq<Attempt>, k: Row)
    ensures RowsFor(p, batch, k) != [] <==> k in Keys(p, batch)
    ensures (forall a :: a in batch ==> p.cols <= a.row.Keys) ==> forall r :: r in RowsFor(p, batch, k) ==>
            p.cols <= r.Keys
  {
    if batch != [] {
      RowsForKeys(p, batch[..|batch| - 1], k);
      KeysSnoc(p, batch);
      assert batch == batch[..|batch| - 1] + [batch[|batch| - 1]];
    }
  }

  /** What the batch leaves under one key: the stored row (or the first row of the batch), with the
      update columns of the last row. */
  function Left(p: Plan, t: Table, batch: seq<Attempt>, k: Row): Row
    requires k in t.Keys + Keys(p, batch)
  {
    var rows := RowsFor(p, batch, k);
    if rows == [] then (if k in t then t[k] else map[])
    else (if k in t then t[k] else Only(rows[0], p.cols)) + Only(rows[|rows| - 1], p.Updates())
  }

  lemma {:induction false} FoldAt(p: Plan, t: Table, batch: seq<Attempt>, k: Row)
    requires k in t.Keys + Keys(p, batch)
    requires forall a :: a in batch ==> p.cols <= a.row.Keys
    ensures k in Fold(PgExec(p), t, batch) && Fold(PgExec(p), t, batch)[k] == Left(p, t, batch, k)
  {
    hide Plan.Key, Upsert, Left;
    if batch == [] {
      assert Keys(p, batch) == {};
      LeftNothing(p, t, k);
    } else {
      var init := batch[..|batch| - 1];
      assert forall a :: a in init ==> a in batch;
      InsertsAreNewKeys(p, t, init);
      FoldSnoc(p, t, batch);
      KeysSnoc(p, batch);
      if k in t.Keys + Keys(p, init) {
        FoldAt(p, t, init, k);
      }
      LeftStep(p, t, batch, k, Fold(PgExec(p), t, init));
    }
  }

  lemma LeftNothing(p: Plan, t: Table, k: Row)
    requires k in t.Keys + Keys(p, [])
    ensures k in t && Left(p, t, [], k) == t[k]
  {}

  /** One more row moves what is left under a key from the earlier rows' to all rows'. */
  lemma LeftStep(p: Plan, t: Table, batch: seq<Attempt>, k: Row, f: Table)
    requires batch != [] && k in t.Keys + Keys(p, batch)
    requires forall a :: a in batch ==> p.cols <= a.row.Keys
    requires f.Keys == t.Keys + Keys(p, batch[..|batch| - 1])
    requires k in f ==> f[k] == Left(p, t, batch[..|batch| - 1], k)
    ensures k in Upsert(p, f, batch[|batch| - 1].row)
    ensures Upsert(p, f, batch[|batch| - 1].row)[k] == Left(p, t, batch, k)
  {
    hide Plan.Key, Only, Plan.Updates, Keys;
    var init, row := batch[..|batch| - 1], batch[|batch| - 1].row;
    KeysSnoc(p, batch);
    RowsForKeys(p, init, k);
    assert batch[|batch| - 1] in batch;
    assert forall a :: a in init ==> a in batch;
    var was := RowsFor(p, init, k);
    if p.Key(row) == k {
      assert RowsFor(p, batch, k) == was + [row];
      LeftPut(p, t, was, row, k, f);
    } else {
      assert RowsFor(p, batch, k) == was;
    }
  }

  lemma LeftPut(p: Plan, t: Table, was: seq<Row>, row: Row, k: Row, f: Table)
    requires p.Key(row) == k && p.cols <= row.Keys && forall r :: r in was ==> p.cols <= r.Keys
    requires k in f <==> k in t || was != []
    requires k in f && was == [] ==> f[k] == t[k]
    requires was != [] ==> f[k] == (if k in t then t[k] else Only(was[0], p.cols)) + Only(was[|was| - 1], p.Updates())
    ensures Upsert(p, f, row)[k] == (if k in t then t[k] else Only((was + [row])[0], p.cols)) + Only(row, p.Updates())
  {
    hide Plan.Key, Only, Plan.Updates;
    if was != [] {
      LastWins(p, if k in t then t[k] else Only(was[0], p.cols), was[|was| - 1], row);
    } else if k !in t {
      OnlyOnce(p, row);
    }
  }

  lemma LastWins(p: Plan, base: Row, r1: Row, r2: Row)
    requires p.cols <= r2.Keys && p.cols <= r1.Keys
    ensures base + Only(r1, p.Updates()) + Only(r2, p.Updates()) == base + Only(r2, p.Updates())
  {}

  lemma OnlyOnce(p: Plan, row: Row)
    ensures Only(row, p.cols) + Only(row, p.Updates()) == Only(row, p.cols)
  {}

  /** created_at, the key columns and every column the batch does not carry keep their stored value. */
  lemma StoredColumnsKept(p: Plan, t: Table, batch: seq<Attempt>, k: Row, c: string)
    requires k in t && c in t[k] && c !in p.Updates()
    requires forall a :: a in batch ==> p.cols <= a.row.Keys
    ensures k in Fold(PgExec(p), t, batch)
    ensures c in Fold(PgExec(p), t, batch)[k] && Fold(PgExec(p), t, batch)[k][c] == t[k][c]
    ensures "created_at" !in p.Updates() && forall key :: key in p.keys ==> key !in p.Updates()
  {
    FoldAt(p, t, batch, k);
  }

  /** Writing the same batch again changes nothing and inserts nothing. */
  lemma SameBatchAgain(p: Plan, t: Table, batch: seq<Attempt>)
    requires forall a :: a in batch ==> p.cols <= a.row.Keys
    ensures var once := Fold(PgExec(p), t, batch);
            Fold(PgExec(p), once, batch) == once && InsertCount(PgExec(p), once, batch) == 0
  {
    hide Plan.Key, Upsert, Fold, InsertCount;
    var once := Fold(PgExec(p), t, batch);
    InsertsAreNewKeys(p, t, batch);
    InsertsAreNewKeys(p, once, batch);
    assert Keys(p, batch) - once.Keys == {};
    assert once.Keys + Keys(p, batch) == once.Keys;
    forall k | k in once.Keys ensures Fold(PgExec(p), once, batch)[k] == once[k] {
      FoldAt(p, t, batch, k);
      FoldAt(p, once, batch, k);
      LeftAgain(p, t, once, batch, k);
    }
  }

  lemma LeftAgain(p: Plan, t: Table, once: Table, batch: seq<Attempt>, k: Row)
    requires k in t.Keys + Keys(p, batch) && k in once && once[k] == Left(p, t, batch, k)
    requires forall a :: a in batch ==> p.cols <= a.row.Keys
    ensures Left(p, once, batch, k) == once[k]
  {
    hide Plan.Key, Only, Plan.Updates;
    RowsForKeys(p, batch, k);
    var rows := RowsFor(p, batch, k);
    if rows != [] {
      var last := rows[|rows| - 1];
      LastWins(p, if k in t then t[k] else Only(rows[0], p.cols), last, last);
    }
  }

  /** Retrying a batch that went through whole reports no insert and leaves the table as it is. */
  lemma RetryOfCleanBatch(t: Table, batch: seq<Attempt>, keys: seq<string>)
    requires batch != [] && forall a :: a in batch ==> !Fails(PlanOf(batch, keys), a)
    ensures var first := BatchResult(PgExec, t, batch, keys);
            var second := BatchResult(PgExec, first.pending, batch, keys);
            second.pending == first.pending && second.result.inserted == 0 && second.result.updated == |batch|
  {
    hide Fold, InsertCount, Run;
    var p := PlanOf(batch, keys);
    CleanBatch(p, t, batch);
    var once := Fold(PgExec(p), t, batch);
    CleanBatch(p, once, batch);
    InsertsAreNewKeys(p, once, batch);
    CountsCoverTheBatch(p, PgExec(p), once, batch);
    SameBatchAgain(p, t, batch);
  }

  /** The reported counts are the rows really added to and changed in the table exactly when no row
      succeeds before one that fails. */
  lemma ReportedCountsIff(t: Table, batch: seq<Attempt>, keys: seq<string>)
    requires batch != []
    ensures var p := PlanOf(batch, keys);
            var o := BatchResult(PgExec, t, batch, keys);
            var added := |o.pending.Keys - t.Keys|;
            o.result.inserted == added && o.result.updated == |AfterLastFailure(p, batch)| - added
            <==> !SuccessBeforeFailure(p, batch)
  {
    hide Fails, SuccessBeforeFailure, Fold, InsertCount, Run, AfterLastFailure;
    var p := PlanOf(batch, keys);
    var kept := AfterLastFailure(p, batch);
    CommitsRowsAfterLastFailure(p, PgExec(p), t, batch);
    CountsAreCommittedIff(p, PgExec(p), t, batch);
    InsertsAreNewKeys(p, t, kept);
    assert (t.Keys + Keys(p, kept)) - t.Keys == Keys(p, kept) - t.Keys;
  }

  // ------------------------------------------------------------------ Azure SQL refines the same map

  predicate KeyUnique(p: Plan, t: seq<Row>) {
    forall i, j :: 0 <= i < j < |t| ==> p.Key(t[i]) != p.Key(t[j])
  }

  predicate Keyed(p: Plan, t: seq<Row>) {
    forall r :: r in t ==> ToSet(p.keys) <= r.Keys
  }

  predicate RowAt(p: Plan, t: seq<Row>, k: Row) {
    exists r :: r in t && p.Key(r) == k
  }

  /** The bag of rows holds, under each key, the row the map holds, and nothing else. */
  predicate Represents(p: Plan, t: seq<Row>, m: Table) {
    && KeyUnique(p, t) && Keyed(p, t)
    && (forall r :: r in t ==> p.Key(r) in m && m[p.Key(r)] == r)
    && (forall k :: k in m ==> RowAt(p, t, k))
  }

  lemma UpdateKeepsKey(p: Plan, r: Row, row: Row)
    requires ToSet(p.keys) <= r.Keys
    ensures p.Key(r + Only(row, p.Updates())) == p.Key(r)
    ensures ToSet(p.keys) <= (r + Only(row, p.Updates())).Keys
  {
    assert forall c :: c in p.keys ==> c in ToSet(p.keys);
  }

  lemma InsertKeepsKey(p: Plan, row: Row)
    requires p.WellFormed() && p.cols <= row.Keys
    ensures p.Key(Only(row, p.cols)) == p.Key(row)
    ensures ToSet(p.keys) <= Only(row, p.cols).Keys
  {
    assert forall c :: c in p.keys ==> c in ToSet(p.keys);
  }

  /** One MERGE on a bag with unique keys is one upsert on the map it represents. */
  lemma MergeRefinesUpsert(p: Plan, t: seq<Row>, m: Table, row: Row)
    requires Represents(p, t, m) && p.WellFormed() && p.cols <= row.Keys
    ensures Represents(p, Merge(p, t, row), Upsert(p, m, row))
    ensures HasMatch(p, t, row) <==> p.Key(row) in m
  {
    hide Plan.Key, Plan.WellFormed, Only, Plan.Updates;
    if HasMatch(p, t, row) {
      MatchRefines(p, t, m, row);
    } else {
      InsertRefines(p, t, m, row);
    }
  }

  lemma MatchRefines(p: Plan, t: seq<Row>, m: Table, row: Row)
    requires Represents(p, t, m) && HasMatch(p, t, row)
    ensures Represents(p, MergeEach(p, t, row), Upsert(p, m, row))
  {
    hide Plan.Key, Plan.WellFormed, Only, Plan.Updates;
    var u := MergeEach(p, t, row);
    MatchKeys(p, t, row);
    forall i | 0 <= i < |t| ensures p.Key(u[i]) in Upsert(p, m, row) && Upsert(p, m, row)[p.Key(u[i])] == u[i] {
      assert t[i] in t;
    }
    forall k | k in Upsert(p, m, row) ensures RowAt(p, u, k) {
      MatchCovers(p, t, row, k);
      assert RowAt(p, t, k);
    }
  }

  lemma MatchKeys(p: Plan, t: seq<Row>, row: Row)
    requires Keyed(p, t)
    ensures forall i :: 0 <= i < |t| ==> p.Key(MergeEach(p, t, row)[i]) == p.Key(t[i])
    ensures Keyed(p, MergeEach(p, t, row))
  {
    hide Plan.Key, Only, Plan.Updates;
    var u := MergeEach(p, t, row);
    forall i | 0 <= i < |t| ensures p.Key(u[i]) == p.Key(t[i]) && ToSet(p.keys) <= u[i].Keys {
      assert t[i] in t;
      UpdateKeepsKey(p, t[i], row);
    }
  }

  lemma MatchCovers(p: Plan, t: seq<Row>, row: Row, k: Row)
    requires Keyed(p, t)
    ensures RowAt(p, t, k) ==> RowAt(p, MergeEach(p, t, row), k)
  {
    hide Plan.Key, Only, Plan.Updates;
    MatchKeys(p, t, row);
    if RowAt(p, t, k) {
      var r :| r in t && p.Key(r) == k;
      var i :| 0 <= i < |t| && t[i] == r;
      assert MergeEach(p, t, row)[i] in MergeEach(p, t, row);
    }
  }

  lemma InsertRefines(p: Plan, t: seq<Row>, m: Table, row: Row)
    requires Represents(p, t, m) && !HasMatch(p, t, row) && p.WellFormed() && p.cols <= row.Keys
    ensures Represents(p, t + [Only(row, p.cols)], Upsert(p, m, row))
  {
    hide Plan.Key, Plan.WellFormed, Only, Plan.Updates;
    InsertKeepsKey(p, row);
    var added := Only(row, p.cols);
    assert Upsert(p, m, row) == m[p.Key(row) := added];
    InsertRepresents(p, t, m, added);
  }

  lemma InsertRepresents(p: Plan, t: seq<Row>, m: Table, added: Row)
    requires Represents(p, t, m) && !RowAt(p, t, p.Key(added)) && ToSet(p.keys) <= added.Keys
    ensures Represents(p, t + [added], m[p.Key(added) := added])
  {
    hide Plan.Key;
    var u := t + [added];
    forall i, j | 0 <= i < j < |u| ensures p.Key(u[i]) != p.Key(u[j]) {
      assert u[i] in t;
    }
    forall r | r in u ensures r in t || r == added {}
    forall k | k in m[p.Key(added) := added] ensures RowAt(p, u, k) {
      if k == p.Key(added) {
        assert added in u;
      } else {
        assert RowAt(p, t, k);
        var r :| r in t && p.Key(r) == k;
        assert r in u;
      }
    }
  }

  /** Both adapters report the same counts and leave the same table, as long as the Azure table starts key-unique. */
  lemma {:induction false} BackendsAgree(p: Plan, t: seq<Row>, m: Table, batch: seq<Attempt>)
    requires Represents(p, t, m)
    ensures Represents(p, Run(p, AzExec(p), t, batch).pending, Run(p, PgExec(p), m, batch).pending)
    ensures Run(p, AzExec(p), t, batch).result == Run(p, PgExec(p), m, batch).result
  {
    hide Represents, Merge, Upsert, HasMatch, Plan.Key, Plan.WellFormed;
    if batch != [] {
      var init, a := batch[..|batch| - 1], batch[|batch| - 1];
      BackendsAgree(p, t, m, init);
      if !Fails(p, a) {
        MergeRefinesUpsert(p, Run(p, AzExec(p), t, init).pending, Run(p, PgExec(p), m, init).pending, a.row);
      }
    }
  }
}
