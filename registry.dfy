/** The model-build registry of build_db.py: one SQLite table `model_builds`
    of (container_name, repository) rows with UNIQUE(container_name, repository).
    The table is modelled by its row sequence; a connection by the rows it
    has committed and the rows its open transaction sees. */
module Registry {
  import opened Common

  /** No pair occurs twice: the table's UNIQUE constraint. */
  predicate NoDuplicates(rows: seq<Row>)
  {
    forall i, j :: 0 <= i < j < |rows| ==> rows[i] != rows[j]
  }

  /** `INSERT OR IGNORE`: a pair already present is skipped without error. */
  function InsertOrIgnore(rows: seq<Row>, row: Row): (r: seq<Row>)
    ensures row in r
    ensures row in rows ==> r == rows
    ensures row !in rows ==> r == rows + [row]
    ensures NoDuplicates(rows) ==> NoDuplicates(r)
  {
    if row in rows then rows else rows + [row]
  }

  /** `DELETE FROM model_builds WHERE container_name = ?`. */
  function DeleteWhere(rows: seq<Row>, container: string): (r: seq<Row>)
    ensures forall i :: 0 <= i < |r| ==> r[i] in rows && r[i].0 != container
    ensures forall i :: 0 <= i < |rows| && rows[i].0 != container ==> rows[i] in r
    ensures NoDuplicates(rows) ==> NoDuplicates(r)
    decreases |rows|
  {
    if rows == [] then []
    else (if rows[0].0 != container then [rows[0]] else []) + DeleteWhere(rows[1..], container)
  }

  /** An open sqlite3 connection: what is durable and what its transaction sees. */
  datatype Connection = Connection(committed: seq<Row>, working: seq<Row>)

  /** `createConnection`: `sqlite3.connect` either fails (the error is printed
      and None returned) or opens a connection with no pending work. */
  function CreateConnection(reachable: bool, rows: seq<Row>): (c: Option<Connection>)
    ensures c.Some? <==> reachable
    ensures c.Some? ==> c.value.committed == rows && c.value.working == rows
  {
    if reachable then Some(Connection(rows, rows)) else None
  }

  /** `conn.commit()`: the transaction's view becomes durable. */
  function Commit(c: Connection): (r: Connection)
    ensures r.committed == c.working && r.working == c.working
  {
    Connection(c.working, c.working)
  }

  /** Closing (or dropping) a connection keeps only what was committed;
      an open transaction is rolled back. */
  function Close(c: Connection): (rows: seq<Row>)
    ensures rows == c.committed
  {
    c.committed
  }

  /** The durable effect of deleteModel as written: the DELETE runs inside a
      transaction that is never committed. */
  function DeleteAsWritten(rows: seq<Row>, container: string): (r: seq<Row>)
  {
    Close(Connection(rows, DeleteWhere(rows, container)))
  }

  /** The durable effect of a deleteModel that commits before closing. */
  function DeleteCommitted(rows: seq<Row>, container: string): (r: seq<Row>)
    ensures forall i :: 0 <= i < |r| ==> r[i].0 != container
  {
    Close(Commit(Connection(rows, DeleteWhere(rows, container))))
  }

  const NoConnectionMessage := "Error. Cannot create the database connection."

  class ModelRegistry {
    var tableExists: bool
    var rows: seq<Row>

    /** The table holds no duplicate pair, and no row exists before the table. */
    ghost predicate Valid()
      reads this
    {
      NoDuplicates(rows) && (!tableExists ==> rows == [])
    }

    /** A database file in which `model_builds` has not been created. */
    constructor ()
      ensures Valid() && !tableExists && rows == []
    {
      tableExists := false;
      rows := [];
    }

    /** `modelTable`: CREATE TABLE IF NOT EXISTS, or two diagnostics when no
        connection can be opened. Never raises. */
    method ModelTable(reachable: bool) returns (printed: seq<Event>)
      requires Valid()
      modifies this
      ensures Valid()
      ensures rows == old(rows)
      ensures tableExists == (old(tableExists) || reachable)
      ensures printed == if reachable then [] else [ShowError(ConnectFailed), Echo(NoConnectionMessage)]
    {
      var conn := CreateConnection(reachable, rows);
      if conn.Some? {
        tableExists := true;
        printed := [];
      } else {
        printed := [ShowError(ConnectFailed), Echo(NoConnectionMessage)];
      }
    }

    /** `createModel`: INSERT OR IGNORE, commit, close. It opens the database
        without the None check, so a failed connection raises, and so does a
        missing table. */
    method CreateModel(row: Row, reachable: bool) returns (raised: Option<Failure>)
      requires Valid()
      modifies this
      ensures Valid()
      ensures tableExists == old(tableExists)
      ensures raised == if !reachable then Some(ConnectFailed)
                        else if !tableExists then Some(NoSuchTable)
                        else None
      ensures rows == if raised.None? then InsertOrIgnore(old(rows), row) else old(rows)
    {
      if !reachable {
        return Some(ConnectFailed);
      }
      if !tableExists {
        return Some(NoSuchTable);
      }
      var conn := Connection(rows, InsertOrIgnore(rows, row));
      rows := Close(Commit(conn));
      raised := None;
    }

    /** `deleteModel` as written: the DELETE is executed but never committed,
        so when the connection is dropped the table is as before. `pending` is
        what the connection's own transaction saw. */
    method DeleteModel(container: string, reachable: bool) returns (printed: seq<Event>, raised: Option<Failure>, pending: seq<Row>)
      requires Valid()
      ensures raised == if reachable && !tableExists then Some(NoSuchTable) else None
      ensures printed == if reachable then [] else [ShowError(ConnectFailed), Echo(NoConnectionMessage)]
      ensures raised.None? && reachable ==> pending == DeleteWhere(rows, container)
      ensures raised.Some? || !reachable ==> pending == rows
    {
      var conn := CreateConnection(reachable, rows);
      printed, raised, pending := [], None, rows;
      if conn.None? {
        printed := [ShowError(ConnectFailed), Echo(NoConnectionMessage)];
      } else if !tableExists {
        raised := Some(NoSuchTable);
      } else {
        var open := Connection(conn.value.committed, DeleteWhere(conn.value.working, container));
        pending := open.working;
      }
    }

    /** deleteModel corrected to commit its DELETE. */
    method DeleteModelCommitted(container: string, reachable: bool) returns (printed: seq<Event>, raised: Option<Failure>)
      requires Valid()
      modifies this
      ensures Valid()
      ensures tableExists == old(tableExists)
      ensures raised == if reachable && !tableExists then Some(NoSuchTable) else None
      ensures printed == if reachable then [] else [ShowError(ConnectFailed), Echo(NoConnectionMessage)]
      ensures rows == if reachable && tableExists then DeleteCommitted(old(rows), container) else old(rows)
    {
      var conn := CreateConnection(reachable, rows);
      printed, raised := [], None;
      if conn.None? {
        printed := [ShowError(ConnectFailed), Echo(NoConnectionMessage)];
      } else if !tableExists {
        raised := Some(NoSuchTable);
      } else {
        rows := Close(Commit(Connection(rows, DeleteWhere(rows, container))));
      }
    }

    /** `returnModels`: every row, in stored order; raises when the database
        cannot be opened or the table does not exist. */
    method ReturnModels(reachable: bool) returns (r: Result<seq<Row>>)
      ensures r.Ok? <==> reachable && tableExists
      ensures !reachable ==> r == Err(ConnectFailed)
      ensures reachable && !tableExists ==> r == Err(NoSuchTable)
      ensures r.Ok? ==> r.value == rows
    {
      if !reachable {
        return Err(ConnectFailed);
      }
      if !tableExists {
        return Err(NoSuchTable);
      }
      r := Ok(rows);
    }
  }

  /** Re-inserting a pair that is present leaves the table as it is. */
  lemma InsertPresentIsNoOp(rows: seq<Row>, row: Row)
    requires row in rows
    ensures InsertOrIgnore(rows, row) == rows
  {
  }

  /** Insert-or-ignore is idempotent. */
  lemma InsertIdempotent(rows: seq<Row>, row: Row)
    ensures InsertOrIgnore(InsertOrIgnore(rows, row), row) == InsertOrIgnore(rows, row)
  {
  }

  /** Inserting the same pair `n + 1` times. */
  function InsertRepeatedly(rows: seq<Row>, row: Row, n: nat): (r: seq<Row>)
    decreases n
  {
    if n == 0 then InsertOrIgnore(rows, row) else InsertOrIgnore(InsertRepeatedly(rows, row, n - 1), row)
  }

  /** However many times a pair is inserted, the table then holds it exactly once. */
  lemma {:induction false} InsertRepeatedlyOnce(rows: seq<Row>, row: Row, n: nat)
    requires NoDuplicates(rows)
    ensures InsertRepeatedly(rows, row, n) == InsertOrIgnore(rows, row)
    ensures multiset(InsertRepeatedly(rows, row, n))[row] == 1
    decreases n
  {
    if n > 0 {
      InsertRepeatedlyOnce(rows, row, n - 1);
    }
    OccursOnce(InsertOrIgnore(rows, row), row);
  }

  /** A row of a duplicate-free table occurs in it exactly once. */
  lemma OccursOnce(r: seq<Row>, row: Row)
    requires NoDuplicates(r) && row in r
    ensures multiset(r)[row] == 1
  {
    var i :| 0 <= i < |r| && r[i] == row;
    assert r == r[..i] + [row] + r[i + 1..];
    assert row !in r[..i] && row !in r[i + 1..] by {
      forall k | 0 <= k < |r| && k != i ensures r[k] != row {
        if k < i { assert r[k] != r[i]; } else { assert r[i] != r[k]; }
      }
    }
    assert multiset(r) == multiset(r[..i]) + multiset{row} + multiset(r[i + 1..]);
  }

  /** Uniqueness is on the pair: one container with two repositories is two rows. */
  lemma SameContainerTwoRepositories(rows: seq<Row>, container: string, repo1: string, repo2: string)
    requires repo1 != repo2
    requires (container, repo1) !in rows && (container, repo2) !in rows
    ensures InsertOrIgnore(InsertOrIgnore(rows, (container, repo1)), (container, repo2))
         == rows + [(container, repo1), (container, repo2)]
  {
  }

  /** Deleting a container name that no row carries changes nothing. */
  lemma {:induction false} DeleteAbsentIsNoOp(rows: seq<Row>, container: string)
    requires forall i :: 0 <= i < |rows| ==> rows[i].0 != container
    ensures DeleteWhere(rows, container) == rows
    decreases |rows|
  {
    if rows != [] {
      DeleteAbsentIsNoOp(rows[1..], container);
    }
  }

  /** The rows that survive a delete keep their stored order. */
  lemma {:induction false} DeleteKeepsOrder(a: seq<Row>, b: seq<Row>, container: string)
    ensures DeleteWhere(a + b, container) == DeleteWhere(a, container) + DeleteWhere(b, container)
    decreases |a|
  {
    if a == [] {
      assert a + b == b;
    } else {
      assert (a + b)[1..] == a[1..] + b;
      DeleteKeepsOrder(a[1..], b, container);
    }
  }

  /** deleteModel as written leaves the durable table unchanged. */
  lemma DeleteAsWrittenKeepsRows(rows: seq<Row>, container: string)
    ensures DeleteAsWritten(rows, container) == rows
  {
  }

  /** The registry's own round trip, as written: after inserting
      ("resnet-container", "my-ecr-repo") and deleting "resnet-container",
      listing the table still returns the row. */
  lemma DeleteAsWrittenCounterexample()
    ensures DeleteAsWritten([("resnet-container", "my-ecr-repo")], "resnet-container")
         == [("resnet-container", "my-ecr-repo")]
    ensures DeleteCommitted([("resnet-container", "my-ecr-repo")], "resnet-container") == []
  {
    assert DeleteWhere([("resnet-container", "my-ecr-repo")], "resnet-container") == [];
  }

  /** The corrected delete removes exactly the rows of that container. */
  lemma DeleteCommittedExact(rows: seq<Row>, container: string, row: Row)
    ensures row in DeleteCommitted(rows, container) <==> row in rows && row.0 != container
  {
    var r := DeleteCommitted(rows, container);
    if row in rows && row.0 != container {
      var i :| 0 <= i < |rows| && rows[i] == row;
    }
    if row in r {
      var i :| 0 <= i < |r| && r[i] == row;
    }
  }
}
