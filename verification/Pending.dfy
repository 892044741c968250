/**
 Rows added to a database session that are not written yet: sessions are built with
 autoflush=False (backend/db/session.py), so `db.add` leaves a row out of every SELECT until the
 commit, where the unique constraints of the membership tables (backend/db/models.py) accept all
 added rows or refuse the whole transaction.
 */
module Pending {
  import opened Options
  import opened Tiers

  /** A row added to the session: no SELECT of the session sees it before the commit writes it. */
  datatype Added = Added(id: RowId, row: Row)

  function AddedRow(adds: seq<Added>, id: RowId): Option<Row> {
    if adds == [] then None
    else
      var last := adds[|adds| - 1];
      if last.id == id then Some(last.row) else AddedRow(adds[..|adds| - 1], id)
  }

  /** The unique constraints of the two membership tables accept the added rows. */
  predicate Insertable(rows: Table, adds: seq<Added>) {
    && (forall i :: 0 <= i < |adds| ==> adds[i].id !in rows)
    && (forall i, j :: 0 <= i < j < |adds| ==> adds[i].id != adds[j].id)
  }

  /** The table once the added rows are written. */
  function Flushed(rows: Table, adds: seq<Added>): Table {
    if adds == [] then rows
    else
      var last := adds[|adds| - 1];
      Flushed(rows, adds[..|adds| - 1])[last.id := last.row]
  }

  lemma {:induction false} AddedRowMeaning(adds: seq<Added>, id: RowId)
    ensures AddedRow(adds, id).Some? <==> exists k :: 0 <= k < |adds| && adds[k].id == id
  {
    if adds != [] {
      var n := |adds| - 1;
      AddedRowMeaning(adds[..n], id);
      assert forall k :: 0 <= k < n ==> adds[..n][k] == adds[k];
    }
  }

  lemma {:induction false} AddedConcat(a: seq<Added>, b: seq<Added>, id: RowId)
    ensures AddedRow(a + b, id) == if AddedRow(b, id).Some? then AddedRow(b, id) else AddedRow(a, id)
  {
    if b == [] {
      assert a + b == a;
    } else {
      var n := |b| - 1;
      assert (a + b)[..|a + b| - 1] == a + b[..n];
      AddedConcat(a, b[..n], id);
    }
  }

  lemma {:induction false} FlushedLookup(rows: Table, adds: seq<Added>, id: RowId)
    ensures Lookup(Flushed(rows, adds), id) == if AddedRow(adds, id).Some? then AddedRow(adds, id) else Lookup(rows, id)
  {
    if adds != [] { FlushedLookup(rows, adds[..|adds| - 1], id); }
  }

  lemma {:induction false} FlushedSize(rows: Table, adds: seq<Added>)
    requires Insertable(rows, adds)
    ensures |Flushed(rows, adds)| == |rows| + |adds|
  {
    if adds != [] {
      var n := |adds| - 1;
      FlushedSize(rows, adds[..n]);
      FlushedLookup(rows, adds[..n], adds[n].id);
      AddedRowMeaning(adds[..n], adds[n].id);
    }
  }

  /** Lists of added rows that share no id can be written together. */
  lemma BothInsertable(rows: Table, a: seq<Added>, b: seq<Added>)
    requires Insertable(rows, a) && Insertable(rows, b)
    requires forall id :: AddedRow(a, id).None? || AddedRow(b, id).None?
    ensures Insertable(rows, a + b)
  {
    forall i, j | 0 <= i < |a| && 0 <= j < |b| ensures a[i].id != b[j].id {
      AddedRowMeaning(a, a[i].id);
      AddedRowMeaning(b, a[i].id);
    }
  }

  /** A row added twice cannot be written. */
  lemma AddedTwice(rows: Table, a: seq<Added>, b: seq<Added>, id: RowId)
    requires AddedRow(a, id).Some? && AddedRow(b, id).Some?
    ensures !Insertable(rows, a + b)
  {
    AddedRowMeaning(a, id);
    AddedRowMeaning(b, id);
    var i :| 0 <= i < |a| && a[i].id == id;
    var j :| 0 <= j < |b| && b[j].id == id;
    assert (a + b)[i].id == (a + b)[|a| + j].id;
  }

  lemma StaysUninsertable(rows: Table, now: Table, a: seq<Added>, b: seq<Added>)
    requires now.Keys == rows.Keys && !Insertable(rows, a)
    ensures !Insertable(now, a + b)
  {
    assert forall i :: 0 <= i < |a| ==> (a + b)[i] == a[i];
  }
}
