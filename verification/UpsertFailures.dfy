/** Which rows of a batch fail, and what a batch leaves, in the columns of the rows. */
module UpsertFailures {
  import opened Sequences
  import opened DbAdapter
  import opened UpsertTransactions

  /** The statement itself is malformed: no key column, a key column the first row lacks, or no column to update. */
  ghost predicate Malformed(batch: seq<Attempt>, keys: seq<string>)
    requires batch != []
  {
    || keys == []
    || (exists k :: k in keys && k !in batch[0].row)
    || (forall c :: c in batch[0].row ==> c in keys || c == "created_at")
  }

  /** The database raises on the row, the row lacks a column of the first one, or the statement is malformed. */
  ghost predicate BadRow(batch: seq<Attempt>, keys: seq<string>, i: nat) {
    i < |batch|
    && (batch[i].refused || (exists c :: c in batch[0].row && c !in batch[i].row) || Malformed(batch, keys))
  }

  lemma WellFormedIff(batch: seq<Attempt>, keys: seq<string>)
    requires batch != []
    ensures PlanOf(batch, keys).WellFormed() <==> !Malformed(batch, keys)
  {
    var p := PlanOf(batch, keys);
    assert forall k :: k in keys <==> k in ToSet(keys);
    if Malformed(batch, keys) && keys != [] && ToSet(keys) <= p.cols {
      assert p.Updates() == {};
    }
    if !Malformed(batch, keys) {
      var c :| c in batch[0].row && c !in keys && c != "created_at";
      assert c in p.Updates();
    }
  }

  lemma FailsIff(batch: seq<Attempt>, keys: seq<string>, i: nat)
    requires i < |batch|
    ensures Fails(PlanOf(batch, keys), batch[i]) <==> BadRow(batch, keys, i)
  {
    hide Plan.WellFormed, Malformed;
    WellFormedIff(batch, keys);
  }

  ghost function BadBefore(batch: seq<Attempt>, keys: seq<string>, n: nat): set<nat> {
    set i: nat | i < n && BadRow(batch, keys, i)
  }

  /** Row i is the k-th bad row, counted from 0, and has these columns. */
  ghost predicate SampledFrom(batch: seq<Attempt>, keys: seq<string>, i: nat, k: nat, columns: set<string>) {
    i < |batch| && BadRow(batch, keys, i) && |BadBefore(batch, keys, i)| == k && columns == batch[i].row.Keys
  }

  ghost predicate IsSampled(batch: seq<Attempt>, keys: seq<string>, k: nat, columns: set<string>) {
    exists i: nat :: SampledFrom(batch, keys, i, k, columns)
  }

  lemma {:induction false} CountBad(batch: seq<Attempt>, keys: seq<string>, n: nat)
    requires n <= |batch| && batch != []
    ensures |Filter(batch[..n], Failing(PlanOf(batch, keys)))| == |BadBefore(batch, keys, n)|
  {
    hide BadRow, Fails;
    var p := Failing(PlanOf(batch, keys));
    if n == 0 {
      assert BadBefore(batch, keys, 0) == {};
    } else {
      CountBad(batch, keys, n - 1);
      FailsIff(batch, keys, n - 1);
      assert batch[..n] == batch[..n - 1] + [batch[n - 1]];
      FilterConcat(batch[..n - 1], [batch[n - 1]], p);
      FilterCons(batch[n - 1], [], p);
      var was := BadBefore(batch, keys, n - 1);
      if BadRow(batch, keys, n - 1) {
        assert BadBefore(batch, keys, n) == was + {n - 1};
      } else {
        assert BadBefore(batch, keys, n) == was;
      }
    }
  }

  /** Over any backend: exactly the bad rows are counted as failed, all others as inserted or updated, and the samples
      are the columns of the first five bad rows, in order. */
  lemma FailedRowsAre<T>(exec: Plan -> (T, Row) -> (T, bool), t: T, batch: seq<Attempt>, keys: seq<string>)
    requires batch != []
    ensures var r := BatchResult(exec, t, batch, keys).result;
            && r.failed == |BadBefore(batch, keys, |batch|)|
            && r.inserted + r.updated == |batch| - r.failed
            && r.samples.Some? && |r.samples.value| == (if r.failed < 5 then r.failed else 5)
            && forall k: nat :: k < |r.samples.value| ==> IsSampled(batch, keys, k, r.samples.value[k])
  {
    hide Fails, BadRow, Filter, Run, BadBefore;
    var p := PlanOf(batch, keys);
    var failing := Failing(p);
    CountsCoverTheBatch(p, exec(p), t, batch);
    CountBad(batch, keys, |batch|);
    assert batch[..|batch|] == batch;
    var r := BatchResult(exec, t, batch, keys).result;
    var samples := r.samples.value;
    forall k: nat | k < |samples| ensures IsSampled(batch, keys, k, samples[k]) {
      var i := FilterFrom(batch, failing, k);
      CountBad(batch, keys, i);
      FailsIff(batch, keys, i);
      assert SampledFrom(batch, keys, i, k, samples[k]);
    }
  }

  lemma AfterLastFailureIs(batch: seq<Attempt>, keys: seq<string>) returns (n: nat)
    requires batch != []
    ensures n <= |batch| && AfterLastFailure(PlanOf(batch, keys), batch) == batch[n..]
    ensures n > 0 ==> BadRow(batch, keys, n - 1)
    ensures forall i: nat :: n <= i < |batch| ==> !BadRow(batch, keys, i)
  {
    hide Fails, BadRow;
    var p := PlanOf(batch, keys);
    AfterLastFailureIsSuffix(p, batch);
    n := |batch| - |AfterLastFailure(p, batch)|;
    if n > 0 {
      FailsIff(batch, keys, n - 1);
    }
    forall i: nat | n <= i < |batch| ensures !BadRow(batch, keys, i) {
      FailsIff(batch, keys, i);
      assert batch[i] == batch[n..][i - n];
    }
  }

  /** Over any backend: the committed table is the old one with the rows after the last bad one applied, so neither a
      bad row nor any row before one has an effect. */
  lemma CommittedRowsAre<T>(exec: Plan -> (T, Row) -> (T, bool), t: T, batch: seq<Attempt>, keys: seq<string>)
    requires batch != []
    ensures exists n: nat ::
              && n <= |batch| && (n > 0 ==> BadRow(batch, keys, n - 1))
              && (forall i: nat :: n <= i < |batch| ==> !BadRow(batch, keys, i))
              && BatchResult(exec, t, batch, keys).pending == Fold(exec(PlanOf(batch, keys)), t, batch[n..])
  {
    hide BadRow, Run, Fold;
    var n := AfterLastFailureIs(batch, keys);
    CommitsRowsAfterLastFailure(PlanOf(batch, keys), exec(PlanOf(batch, keys)), t, batch);
  }

  // ------------------------------------------------------------------ what a clean batch leaves

  predicate SameKey(a: Row, b: Row, keys: seq<string>) {
    forall k :: k in keys ==> k in a && k in b && a[k] == b[k]
  }

  /** The key of a row, as the table files it. */
  function KeyOf(row: Row, keys: seq<string>): Row { map k | k in row && k in keys :: row[k] }

  lemma SameKeyIff(p: Plan, a: Row, b: Row)
    requires ToSet(p.keys) <= a.Keys && ToSet(p.keys) <= b.Keys
    ensures p.Key(a) == p.Key(b) <==> SameKey(a, b, p.keys)
    ensures p.Key(a) == KeyOf(a, p.keys)
  {
    assert forall k :: k in p.keys ==> k in ToSet(p.keys);
    if p.Key(a) == p.Key(b) {
      forall k | k in p.keys ensures a[k] == b[k] {
        assert p.Key(a)[k] == p.Key(b)[k];
      }
    }
  }

  lemma {:induction false} LastForKey(p: Plan, batch: seq<Attempt>, i: nat)
    requires i < |batch| && forall j :: i < j < |batch| ==> p.Key(batch[j].row) != p.Key(batch[i].row)
    ensures var rows := RowsFor(p, batch, p.Key(batch[i].row));
            rows != [] && rows[|rows| - 1] == batch[i].row
  {
    hide Plan.Key;
    if i < |batch| - 1 {
      LastForKey(p, batch[..|batch| - 1], i);
    }
  }

  lemma {:induction false} FirstForKey(p: Plan, batch: seq<Attempt>, i: nat)
    requires i < |batch| && forall j :: 0 <= j < i ==> p.Key(batch[j].row) != p.Key(batch[i].row)
    ensures var rows := RowsFor(p, batch, p.Key(batch[i].row));
            rows != [] && rows[0] == batch[i].row
  {
    hide Plan.Key;
    if i < |batch| - 1 {
      FirstForKey(p, batch[..|batch| - 1], i);
    } else {
      NoneForKey(p, batch[..i], p.Key(batch[i].row));
    }
  }

  lemma {:induction false} NoneForKey(p: Plan, batch: seq<Attempt>, k: Row)
    requires forall a :: a in batch ==> p.Key(a.row) != k
    ensures RowsFor(p, batch, k) == []
  {
    hide Plan.Key;
    if batch != [] {
      assert batch == batch[..|batch| - 1] + [batch[|batch| - 1]];
      NoneForKey(p, batch[..|batch| - 1], k);
    }
  }

  lemma CleanIs(batch: seq<Attempt>, keys: seq<string>)
    requires batch != [] && forall i: nat :: !BadRow(batch, keys, i)
    ensures var p := PlanOf(batch, keys);
            && (forall a :: a in batch ==> !Fails(p, a) && p.cols <= a.row.Keys && ToSet(keys) <= a.row.Keys)
            && p.WellFormed()
  {
    hide BadRow;
    var p := PlanOf(batch, keys);
    forall a | a in batch ensures !Fails(p, a) {
      var i :| 0 <= i < |batch| && batch[i] == a;
      FailsIff(batch, keys, i);
    }
    FailsIff(batch, keys, 0);
  }

  /** What a clean batch leaves under the key of one of its rows. */
  lemma LeftUnderKey(t: Table, batch: seq<Attempt>, keys: seq<string>, i: nat)
    requires batch != [] && i < |batch| && forall j: nat :: !BadRow(batch, keys, j)
    ensures var p, k := PlanOf(batch, keys), KeyOf(batch[i].row, keys);
            var after := BatchResult(PgExec, t, batch, keys).pending;
            && p.Key(batch[i].row) == k && p.cols <= batch[i].row.Keys
            && k in t.Keys + Keys(p, batch) && k in after && after[k] == Left(p, t, batch, k)
            && forall j :: 0 <= j < |batch| ==>
                 (p.Key(batch[j].row) == k <==> SameKey(batch[j].row, batch[i].row, keys))
  {
    hide BadRow, Run, Fold, Plan.Key, Fails, Plan.WellFormed, KeyOf, SameKey, Left, Keys;
    var p := PlanOf(batch, keys);
    CleanIs(batch, keys);
    assert batch[i] in batch;
    SameKeyIff(p, batch[i].row, batch[i].row);
    forall j | 0 <= j < |batch|
      ensures p.Key(batch[j].row) == p.Key(batch[i].row) <==> SameKey(batch[j].row, batch[i].row, keys)
    {
      assert batch[j] in batch;
      SameKeyIff(p, batch[j].row, batch[i].row);
    }
    KeysHave(p, batch, i);
    CleanBatch(p, t, batch);
    FoldAt(p, t, batch, p.Key(batch[i].row));
  }

  lemma KeysHave(p: Plan, batch: seq<Attempt>, i: nat)
    requires i < |batch|
    ensures p.Key(batch[i].row) in Keys(p, batch)
  {
    hide Plan.Key;
    LastOfKey(p, batch, i);
    RowsForKeys(p, batch, p.Key(batch[i].row));
  }

  lemma {:induction false} LastOfKey(p: Plan, batch: seq<Attempt>, i: nat)
    requires i < |batch|
    ensures RowsFor(p, batch, p.Key(batch[i].row)) != []
  {
    hide Plan.Key;
    if i < |batch| - 1 {
      LastOfKey(p, batch[..|batch| - 1], i);
    }
  }

  /** After a batch without bad rows the last row of a key stands in the table under that key with all its columns,
      but for its key columns, created_at, and columns the batch does not carry. */
  lemma LastRowIsStored(t: Table, batch: seq<Attempt>, keys: seq<string>, i: nat, c: string)
    requires batch != [] && i < |batch| && forall j: nat :: !BadRow(batch, keys, j)
    requires forall j :: i < j < |batch| ==> !SameKey(batch[j].row, batch[i].row, keys)
    requires c in batch[0].row && c !in keys && c != "created_at"
    ensures var after, k := BatchResult(PgExec, t, batch, keys).pending, KeyOf(batch[i].row, keys);
            k in after && c in after[k] && c in batch[i].row && after[k][c] == batch[i].row[c]
  {
    hide BadRow, BatchResult, Plan.Key, Keys, KeyOf, SameKey, RowsFor;
    var p := PlanOf(batch, keys);
    LeftUnderKey(t, batch, keys, i);
    LastForKey(p, batch, i);
    assert c in p.Updates();
  }

  /** And a key that is new to the table gets a row with the columns of the batch, whose key columns and created_at are
      those of the first row with that key. */
  lemma FirstRowIsInserted(t: Table, batch: seq<Attempt>, keys: seq<string>, i: nat)
    requires batch != [] && i < |batch| && forall j: nat :: !BadRow(batch, keys, j)
    requires forall j :: 0 <= j < i ==> !SameKey(batch[j].row, batch[i].row, keys)
    requires KeyOf(batch[i].row, keys) !in t
    ensures var after, k := BatchResult(PgExec, t, batch, keys).pending, KeyOf(batch[i].row, keys);
            && k in after && after[k].Keys == batch[0].row.Keys
            && forall c :: c in batch[0].row && (c in keys || c == "created_at") ==>
                 c in batch[i].row && after[k][c] == batch[i].row[c]
  {
    hide BadRow, BatchResult, Plan.Key, Keys, KeyOf, SameKey, RowsFor;
    var p := PlanOf(batch, keys);
    LeftUnderKey(t, batch, keys, i);
    FirstForKey(p, batch, i);
  }

  /** A row already in the table keeps its key columns, its created_at and the columns the batch does not carry, and a
      row whose key the batch does not hold is left alone. */
  lemma StoredRowIsKept(t: Table, batch: seq<Attempt>, keys: seq<string>, k: Row)
    requires batch != [] && k in t && forall j: nat :: !BadRow(batch, keys, j)
    ensures var after := BatchResult(PgExec, t, batch, keys).pending;
            && k in after
            && (forall c :: c in t[k] && (c in keys || c == "created_at" || c !in batch[0].row) ==>
                  c in after[k] && after[k][c] == t[k][c])
            && ((forall i :: 0 <= i < |batch| ==> k != KeyOf(batch[i].row, keys)) ==> after[k] == t[k])
  {
    hide BadRow, Run, Fold, Fails, Plan.WellFormed, KeyOf;
    var p := PlanOf(batch, keys);
    CleanIs(batch, keys);
    CleanBatch(p, t, batch);
    FoldAt(p, t, batch, k);
    forall c | c in t[k] && (c in keys || c == "created_at" || c !in batch[0].row)
      ensures c in Fold(PgExec(p), t, batch)[k] && Fold(PgExec(p), t, batch)[k][c] == t[k][c]
    {
      StoredColumnsKept(p, t, batch, k, c);
    }
    if forall i :: 0 <= i < |batch| ==> k != KeyOf(batch[i].row, keys) {
      forall a | a in batch ensures p.Key(a.row) != k {
        var i :| 0 <= i < |batch| && batch[i] == a;
        SameKeyIff(p, a.row, a.row);
      }
      NoneForKey(p, batch, k);
    }
  }

  // ------------------------------------------------------------------ one MERGE on any bag of rows

  lemma KeyIsKeyOf(p: Plan, row: Row)
    ensures p.Key(row) == KeyOf(row, p.keys)
  {}

  /** MERGE writes the row's update columns into every row with the same key, duplicates included, and adds the row with
      the columns of the batch exactly when there is none. */
  lemma MergeWrites(p: Plan, t: seq<Row>, row: Row)
    ensures var after := Merge(p, t, row);
            && |t| <= |after|
            && (forall i :: 0 <= i < |t| ==>
                  after[i] ==
                  if KeyOf(t[i], p.keys) == KeyOf(row, p.keys)
                  then t[i] + map c | c in row && c in p.cols && c !in p.keys && c != "created_at" :: row[c]
                  else t[i])
            && (if exists r :: r in t && KeyOf(r, p.keys) == KeyOf(row, p.keys) then |after| == |t|
                else after == t + [map c | c in row && c in p.cols :: row[c]])
  {
    hide Plan.Key, KeyOf;
    forall r ensures p.Key(r) == KeyOf(r, p.keys) {
      KeyIsKeyOf(p, r);
    }
    assert Only(row, p.Updates()) == map c | c in row && c in p.cols && c !in p.keys && c != "created_at" :: row[c];
    assert Only(row, p.cols) == map c | c in row && c in p.cols :: row[c];
  }
}
