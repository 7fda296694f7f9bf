/** The queue-status table the adapters build from scheduler output (a pandas DataFrame in
    the original), and the three questions asked of it: the rows of one user, the status of
    one job, and the statuses of a list of jobs. */
module Tables {
  import opened Wrappers

  /** One job as the scheduler reports it. `cluster` is absent for schedulers whose
      report has no cluster column. */
  datatype Row = Row(cluster: Option<string>, jobid: int, user: string, jobname: string, status: string)

  /** A status table: its column labels, in order, and its rows. */
  datatype Table = Table(columns: seq<string>, rows: seq<Row>)

  const UserColumn := "user"

  /** The rows of `rows` that belong to `user`, in their original order. */
  function RowsOfUser(rows: seq<Row>, user: string): (r: seq<Row>)
    ensures |r| <= |rows|
    ensures forall x :: x in r <==> x in rows && x.user == user
  {
    if rows == [] then []
    else (if rows[0].user == user then [rows[0]] else []) + RowsOfUser(rows[1..], user)
  }

  /** Duplicates are kept: each row of the user appears as often as in the table, and no
      other row appears. */
  lemma {:induction false} RowsOfUserCounts(rows: seq<Row>, user: string)
    ensures forall x ::
      multiset(RowsOfUser(rows, user))[x] == if x.user == user then multiset(rows)[x] else 0
  {
    if rows != [] {
      RowsOfUserCounts(rows[1..], user);
      assert rows == [rows[0]] + rows[1..];
    }
  }

  /** A single row is kept exactly when it belongs to `user`. With `RowsOfUserAppend` this
      fixes the result row by row. */
  lemma RowsOfUserSingle(x: Row, user: string)
    ensures RowsOfUser([x], user) == if x.user == user then [x] else []
  {
    assert [x][1..] == [];
  }

  /** Order is kept: the rows selected from a prefix of the table come first in the
      selection, in the same order. */
  lemma RowsOfUserPrefix(rows: seq<Row>, n: nat, user: string)
    requires n <= |rows|
    ensures RowsOfUser(rows[..n], user) <= RowsOfUser(rows, user)
  {
    assert rows == rows[..n] + rows[n..];
    RowsOfUserAppend(rows[..n], rows[n..], user);
  }

  /** Selecting a user's rows distributes over placing two row lists one after the other. */
  lemma {:induction false} RowsOfUserAppend(a: seq<Row>, b: seq<Row>, user: string)
    ensures RowsOfUser(a + b, user) == RowsOfUser(a, user) + RowsOfUser(b, user)
  {
    if a == [] {
      assert a + b == b;
    } else {
      assert (a + b)[0] == a[0];
      assert (a + b)[1..] == a[1..] + b;
      RowsOfUserAppend(a[1..], b, user);
    }
  }

  /** Selecting a user's rows twice is selecting them once. */
  lemma {:induction false} RowsOfUserIdempotent(rows: seq<Row>, user: string)
    ensures RowsOfUser(RowsOfUser(rows, user), user) == RowsOfUser(rows, user)
  {
    if rows != [] {
      RowsOfUserIdempotent(rows[1..], user);
      var head := if rows[0].user == user then [rows[0]] else [];
      RowsOfUserAppend(head, RowsOfUser(rows[1..], user), user);
      if rows[0].user == user {
        assert RowsOfUser(head, user) == head by {
          assert head[1..] == [];
        }
      }
    }
  }

  /** `df[df["user"] == user]`: the same columns, only that user's rows. */
  function FilterUser(t: Table, user: string): (r: Result<Table>)
    ensures r.Err? <==> UserColumn !in t.columns
    ensures r.Err? ==> r.error == KeyError
    ensures r.Ok? ==> r.value.columns == t.columns
    ensures r.Ok? ==> forall x :: x in r.value.rows <==> x in t.rows && x.user == user
    ensures r.Ok? ==> r.value.rows == RowsOfUser(t.rows, user)
  {
    if UserColumn !in t.columns then Err(KeyError)
    else Ok(Table(t.columns, RowsOfUser(t.rows, user)))
  }

  /** Index of the first row describing job `id`, if any. */
  function FirstRowOf(rows: seq<Row>, id: int): (i: Option<nat>)
    ensures i.None? <==> forall k :: 0 <= k < |rows| ==> rows[k].jobid != id
    ensures i.Some? ==>
              && i.value < |rows|
              && rows[i.value].jobid == id
              && forall k :: 0 <= k < i.value ==> rows[k].jobid != id
  {
    if rows == [] then None
    else if rows[0].jobid == id then Some(0)
    else match FirstRowOf(rows[1..], id)
      case None => None
      case Some(k) => Some(k + 1)
  }

  /** `get_status_of_job`: the status on the first row for the job, or None when the job
      is not in the table. */
  function StatusOfJob(t: Table, id: int): (r: Option<string>)
    ensures r.None? <==> forall k :: 0 <= k < |t.rows| ==> t.rows[k].jobid != id
    ensures r.Some? ==>
              exists k ::
                && 0 <= k < |t.rows|
                && t.rows[k].jobid == id
                && t.rows[k].status == r.value
                && forall j :: 0 <= j < k ==> t.rows[j].jobid != id
  {
    match FirstRowOf(t.rows, id)
    case None => None
    case Some(k) => Some(t.rows[k].status)
  }

  const Finished := "finished"

  /** `get_status_of_jobs`: one answer per requested job, in request order; a job the table
      does not list is reported as finished. */
  function StatusOfJobs(t: Table, ids: seq<int>): (r: seq<string>)
    ensures |r| == |ids|
    ensures forall k :: 0 <= k < |ids| ==> r[k] == StatusOfJob(t, ids[k]).GetOr(Finished)
  {
    seq(|ids|, k requires 0 <= k < |ids| => StatusOfJob(t, ids[k]).GetOr(Finished))
  }

  /** The list lookup agrees with the single lookup on listed jobs, and reports as
      finished exactly the jobs for which the single lookup has no answer. */
  lemma StatusOfJobsAgrees(t: Table, ids: seq<int>, k: nat)
    requires k < |ids|
    ensures StatusOfJob(t, ids[k]).Some? ==> StatusOfJobs(t, ids)[k] == StatusOfJob(t, ids[k]).value
    ensures StatusOfJob(t, ids[k]).None? ==> StatusOfJobs(t, ids)[k] == Finished
  {
  }

  /** Filtering a table by user never invents a status: a job's status in the filtered
      table, when it has one, is the status of one of that user's rows. */
  lemma FilteredStatusBelongsToUser(t: Table, user: string, id: int)
    requires UserColumn in t.columns
    ensures var f := FilterUser(t, user).value;
      StatusOfJob(f, id).Some? ==>
        exists x :: x in t.rows && x.user == user && x.jobid == id && x.status == StatusOfJob(f, id).value
  {
    var f := FilterUser(t, user).value;
    if StatusOfJob(f, id).Some? {
      var k :| 0 <= k < |f.rows| && f.rows[k].jobid == id && f.rows[k].status == StatusOfJob(f, id).value;
      assert f.rows[k] in f.rows;
    }
  }

  // ---------------------------------------------------------------- concatenation

  /** The labels of `b` not already in `a`, in `b`'s order. */
  function NewLabels(a: seq<string>, b: seq<string>): (r: seq<string>)
    ensures forall x :: x in r <==> x in b && x !in a
  {
    if b == [] then []
    else (if b[0] in a || b[0] in b[1..] then [] else [b[0]]) + NewLabels(a, b[1..])
  }

  /** The frames that are present. */
  function Present(frames: seq<Option<Table>>): (r: seq<Table>)
    ensures |r| <= |frames|
    ensures forall t :: t in r <==> Some(t) in frames
  {
    if frames == [] then []
    else (if frames[0].Some? then [frames[0].value] else []) + Present(frames[1..])
  }

  function AllRows(ts: seq<Table>): seq<Row> {
    if ts == [] then [] else ts[0].rows + AllRows(ts[1..])
  }

  function ColumnUnion(ts: seq<Table>, acc: seq<string>): seq<string> {
    if ts == [] then acc else ColumnUnion(ts[1..], acc + NewLabels(acc, ts[0].columns))
  }

  /** Every label of every frame is a column of the union, and nothing else is. */
  lemma {:induction false} ColumnUnionContents(ts: seq<Table>, acc: seq<string>)
    ensures forall x :: x in ColumnUnion(ts, acc) <==> x in acc || exists k :: 0 <= k < |ts| && x in ts[k].columns
  {
    if ts != [] {
      ColumnUnionContents(ts[1..], acc + NewLabels(acc, ts[0].columns));
      forall x
        ensures x in ColumnUnion(ts, acc) <==> x in acc || exists k :: 0 <= k < |ts| && x in ts[k].columns
      {
        if exists k :: 0 <= k < |ts[1..]| && x in ts[1..][k].columns {
          var k :| 0 <= k < |ts[1..]| && x in ts[1..][k].columns;
          assert x in ts[k + 1].columns;
        }
        if exists k :: 0 <= k < |ts| && x in ts[k].columns {
          var k :| 0 <= k < |ts| && x in ts[k].columns;
          if k > 0 {
            assert x in ts[1..][k - 1].columns;
          }
        }
      }
    }
  }

  /** `pandas.concat(frames, axis=0)`: frames that are None are dropped; the rows of the
      remaining frames follow one another and the columns are the union of theirs in order
      of first appearance. With nothing left to concatenate pandas raises a ValueError. */
  function Stack(frames: seq<Option<Table>>): (r: Result<Table>)
    ensures r.Err? <==> forall k :: 0 <= k < |frames| ==> frames[k].None?
    ensures r.Err? ==> r.error == ValueError
    ensures r.Ok? ==> r.value.rows == AllRows(Present(frames))
  {
    var ts := Present(frames);
    if ts == [] then
      Err(ValueError)
    else
      assert exists k :: 0 <= k < |frames| && frames[k].Some? by {
        assert Some(ts[0]) in frames;
      }
      Ok(Table(ColumnUnion(ts, []), AllRows(ts)))
  }

  /** The rows of a user in stacked frames are the user's rows of each frame, stacked. */
  lemma {:induction false} RowsOfUserAllRows(ts: seq<Table>, user: string)
    ensures RowsOfUser(AllRows(ts), user) == AllRows(seq(|ts|, k requires 0 <= k < |ts| =>
      Table(ts[k].columns, RowsOfUser(ts[k].rows, user))))
  {
    var fs := seq(|ts|, k requires 0 <= k < |ts| => Table(ts[k].columns, RowsOfUser(ts[k].rows, user)));
    if ts != [] {
      RowsOfUserAppend(ts[0].rows, AllRows(ts[1..]), user);
      RowsOfUserAllRows(ts[1..], user);
      var fs' := seq(|ts[1..]|, k requires 0 <= k < |ts[1..]| =>
        Table(ts[1..][k].columns, RowsOfUser(ts[1..][k].rows, user)));
      assert fs[1..] == fs';
    }
  }

  /** Side-by-side placement, `pandas.concat(frames, axis=1)`: the columns of all present
      frames one after the other, as many rows as the tallest frame. */
  datatype Wide = Wide(columns: seq<string>, height: nat, parts: seq<Table>)

  function Columns(ts: seq<Table>): seq<string> {
    if ts == [] then [] else ts[0].columns + Columns(ts[1..])
  }

  function Height(ts: seq<Table>): (h: nat)
    ensures forall k :: 0 <= k < |ts| ==> |ts[k].rows| <= h
    ensures ts == [] ==> h == 0
    ensures ts != [] ==> exists k :: 0 <= k < |ts| && |ts[k].rows| == h
  {
    if ts == [] then 0
    else
      var rest := Height(ts[1..]);
      if |ts[0].rows| >= rest then |ts[0].rows|
      else
        assert exists k :: 0 <= k < |ts[1..]| && |ts[1..][k].rows| == rest;
        rest
  }

  function SideBySide(frames: seq<Option<Table>>): (r: Result<Wide>)
    ensures r.Err? <==> forall k :: 0 <= k < |frames| ==> frames[k].None?
    ensures r.Ok? ==> r.value.parts == Present(frames) && r.value.columns == Columns(Present(frames))
    ensures r.Ok? ==> forall t :: t in r.value.parts ==> |t.rows| <= r.value.height
  {
    var ts := Present(frames);
    if ts == [] then
      Err(ValueError)
    else
      assert Some(ts[0]) in frames;
      Ok(Wide(Columns(ts), Height(ts), ts))
  }
}
