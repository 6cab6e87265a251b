/** The product-sync database adapters: a row loop with rollback inside one transaction, over
    Postgres (a table with a unique key) and Azure SQL (a bag of rows and a MERGE). */
module DbAdapter {
  import opened Sequences

  datatype Option<T> = None | Some(value: T)

  /** Column values by column name. */
  type Row = map<string, string>

  /** What a batch writes: its columns are those of its first row. */
  datatype Plan = Plan(cols: set<string>, keys: seq<string>) {
    function Updates(): set<string> { set c | c in cols && c !in keys && c != "created_at" }

    // Malformed: no key columns, a key column outside the batch, or nothing to update.
    predicate WellFormed() { keys != [] && ToSet(keys) <= cols && Updates() != {} }

    function Key(row: Row): Row { map c | c in row && c in keys :: row[c] }
  }

  /** A row of the batch; `refused` when the database raises on it. */
  datatype Attempt = Attempt(row: Row, refused: bool)

  predicate Fails(p: Plan, a: Attempt) {
    a.refused || !p.WellFormed() || !(p.cols <= a.row.Keys)
  }

  /** failed_samples is None when there was nothing to do, else the columns of the first failing rows. */
  datatype InsertResult = InsertResult(inserted: nat, updated: nat, failed: nat, samples: Option<seq<set<string>>>)

  const SAMPLES: nat := 5

  function Only(row: Row, cols: set<string>): Row { map c | c in row && c in cols :: row[c] }

  // ------------------------------------------------------------------ one statement

  /** Postgres: a table holds one row per key. */
  type Table = map<Row, Row>

  /** INSERT ... ON CONFLICT (keys) DO UPDATE. */
  function Upsert(p: Plan, t: Table, row: Row): Table {
    var k := p.Key(row);
    if k in t then t[k := t[k] + Only(row, p.Updates())] else t[k := Only(row, p.cols)]
  }

  /** MERGE: every row with the same key is updated; without one the new row is inserted. */
  function Merge(p: Plan, t: seq<Row>, row: Row): seq<Row> {
    if HasMatch(p, t, row) then MergeEach(p, t, row) else t + [Only(row, p.cols)]
  }

  predicate HasMatch(p: Plan, t: seq<Row>, row: Row) {
    exists r :: r in t && p.Key(r) == p.Key(row)
  }

  function MergeEach(p: Plan, t: seq<Row>, row: Row): seq<Row> {
    seq(|t|, i requires 0 <= i < |t| => if p.Key(t[i]) == p.Key(row) then t[i] + Only(row, p.Updates()) else t[i])
  }

  /** A backend executes one statement: the new table, and whether a row was inserted. */
  function PgExec(p: Plan): (Table, Row) -> (Table, bool) {
    (t: Table, row: Row) => (Upsert(p, t, row), p.Key(row) !in t)
  }

  function AzExec(p: Plan): (seq<Row>, Row) -> (seq<Row>, bool) {
    (t: seq<Row>, row: Row) => (Merge(p, t, row), !HasMatch(p, t, row))
  }

  // ------------------------------------------------------------------ the batch, row by row

  datatype Outcome<T> = Outcome(pending: T, result: InsertResult)

  function Run<T>(p: Plan, exec: (T, Row) -> (T, bool), t: T, batch: seq<Attempt>): Outcome<T> {
    if batch == [] then Outcome(t, InsertResult(0, 0, 0, Some([])))
    else RunRow(p, exec, t, Run(p, exec, t, batch[..|batch| - 1]), batch[|batch| - 1])
  }

  function RunRow<T>(p: Plan, exec: (T, Row) -> (T, bool), committed: T, o: Outcome<T>, a: Attempt): Outcome<T> {
    var r := o.result;
    if Fails(p, a) then
      Outcome(committed, r.(failed := r.failed + 1, samples := Some(Sampled(r.samples, a.row.Keys))))
    else
      var (t, isNew) := exec(o.pending, a.row);
      Outcome(t, if isNew then r.(inserted := r.inserted + 1) else r.(updated := r.updated + 1))
  }

  function Sampled(samples: Option<seq<set<string>>>, keys: set<string>): seq<set<string>> {
    var s := if samples.Some? then samples.value else [];
    if |s| < SAMPLES then s + [keys] else s
  }

  function PlanOf(batch: seq<Attempt>, keys: seq<string>): Plan
    requires batch != []
  {
    Plan(batch[0].row.Keys, keys)
  }

  function BatchResult<T>(exec: Plan -> (T, Row) -> (T, bool), t: T, batch: seq<Attempt>,
                          keys: seq<string>): Outcome<T> {
    if batch == [] then Outcome(t, InsertResult(0, 0, 0, None))
    else Run(PlanOf(batch, keys), exec(PlanOf(batch, keys)), t, batch)
  }

  // ------------------------------------------------------------------ the adapters

  /** Between calls the transaction is empty: nothing is pending. */
  class PostgresAdapter {
    var committed: Table
    var pending: Table

    ghost predicate Valid() reads this { pending == committed }

    constructor (table: Table)
      ensures Valid() && committed == table
    {
      committed, pending := table, table;
    }

    method UpsertRows(batch: seq<Attempt>, keys: seq<string>) returns (result: InsertResult)
      requires Valid()
      modifies this
      ensures Valid()
      ensures Outcome(committed, result) == BatchResult(PgExec, old(committed), batch, keys)
    {
      if batch == [] {
        return InsertResult(0, 0, 0, None);
      }
      var p := PlanOf(batch, keys);
      var inserted, updated, failed := 0, 0, 0;
      var samples := [];
      for i := 0 to |batch|
        invariant committed == old(committed)
        invariant Outcome(pending, InsertResult(inserted, updated, failed, Some(samples)))
                  == Run(p, PgExec(p), committed, batch[..i])
      {
        var a := batch[i];
        assert batch[..i + 1][..i] == batch[..i];
        if Fails(p, a) {
          pending := committed;
          failed := failed + 1;
          if |samples| < SAMPLES {
            samples := samples + [a.row.Keys];
          }
          continue;
        }
        var k := p.Key(a.row);
        if k in pending {
          pending := pending[k := pending[k] + Only(a.row, p.Updates())];
          updated := updated + 1;
        } else {
          pending := pending[k := Only(a.row, p.cols)];
          inserted := inserted + 1;
        }
      }
      assert batch[..|batch|] == batch;
      committed := pending;
      return InsertResult(inserted, updated, failed, Some(samples));
    }
  }

  class AzureSqlAdapter {
    var committed: seq<Row>
    var pending: seq<Row>

    ghost predicate Valid() reads this { pending == committed }

    constructor (table: seq<Row>)
      ensures Valid() && committed == table
    {
      committed, pending := table, table;
    }

    method UpsertRows(batch: seq<Attempt>, keys: seq<string>) returns (result: InsertResult)
      requires Valid()
      modifies this
      ensures Valid()
      ensures Outcome(committed, result) == BatchResult(AzExec, old(committed), batch, keys)
    {
      if batch == [] {
        return InsertResult(0, 0, 0, None);
      }
      var p := PlanOf(batch, keys);
      var inserted, updated, failed := 0, 0, 0;
      var samples := [];
      for i := 0 to |batch|
        invariant committed == old(committed)
        invariant Outcome(pending, InsertResult(inserted, updated, failed, Some(samples)))
                  == Run(p, AzExec(p), committed, batch[..i])
      {
        var a := batch[i];
        assert batch[..i + 1][..i] == batch[..i];
        if Fails(p, a) {
          pending := committed;
          failed := failed + 1;
          if |samples| < SAMPLES {
            samples := samples + [a.row.Keys];
          }
          continue;
        }
        var isNew;
        pending, isNew := ExecuteMerge(p, pending, a.row);
        if isNew {
          inserted := inserted + 1;
        } else {
          updated := updated + 1;
        }
      }
      assert batch[..|batch|] == batch;
      committed := pending;
      return InsertResult(inserted, updated, failed, Some(samples));
    }
  }

  /** The database's side of MERGE: scan the target, update the matches, insert if there were none. */
  method ExecuteMerge(p: Plan, t: seq<Row>, row: Row) returns (t': seq<Row>, isNew: bool)
    ensures t' == Merge(p, t, row)
    ensures isNew == !HasMatch(p, t, row)
  {
    t', isNew := [], true;
    for i := 0 to |t|
      invariant t' == MergeEach(p, t[..i], row)
      invariant isNew == !HasMatch(p, t[..i], row)
    {
      var r := t[i];
      assert t[..i + 1] == t[..i] + [r];
      if p.Key(r) == p.Key(row) {
        t' := t' + [r + Only(row, p.Updates())];
        isNew := false;
      } else {
        t' := t' + [r];
      }
    }
    assert t[..|t|] == t;
    if isNew {
      UnmatchedUnchanged(p, t, row);
      t' := t' + [Only(row, p.cols)];
    }
  }

  lemma UnmatchedUnchanged(p: Plan, t: seq<Row>, row: Row)
    requires !HasMatch(p, t, row)
    ensures MergeEach(p, t, row) == t
  {
    forall i | 0 <= i < |t| ensures MergeEach(p, t, row)[i] == t[i] {
      assert t[i] in t;
    }
  }
}
