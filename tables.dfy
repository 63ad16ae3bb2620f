/**
 * Rows of the tasks, projects, users and teams tables. A row is its primary key and the remaining
 * columns as a JavaScript object; `update({ where: { <key>: id }, data })` writes the columns
 * named in `data` and leaves the others and the key alone.
 */
module Tables {
  import opened Wrappers
  import opened Records
  import opened Seqs

  datatype Row = Row(id: int, cols: Record)

  /** The database's primary-key constraint. */
  ghost predicate UniqueIds(rows: seq<Row>) {
    forall i, j :: 0 <= i < j < |rows| ==> rows[i].id != rows[j].id
  }

  function HasId(id: int): Row -> bool {
    (r: Row) => r.id == id
  }

  function ColumnIs(col: string, v: Value): Row -> bool {
    (r: Row) => col in r.cols && r.cols[col] == v
  }

  /** `findUnique({ where: { <key>: id } })`. */
  function Lookup(rows: seq<Row>, id: int): (r: Option<Row>)
    ensures r.Some? ==> r.value in rows && r.value.id == id
    ensures r.None? <==> forall i :: 0 <= i < |rows| ==> rows[i].id != id
  {
    match FirstMatch(rows, HasId(id))
    case None => None
    case Some(i) => Some(rows[i])
  }

  /** `update({ where: { <key>: id }, data })` on a table that has the row. */
  function UpdateById(rows: seq<Row>, id: int, data: Record): (r: seq<Row>)
    requires UniqueIds(rows)
    requires Lookup(rows, id).Some?
    ensures |r| == |rows|
    ensures forall i :: 0 <= i < |rows| ==> r[i].id == rows[i].id
    ensures forall i :: 0 <= i < |rows| && rows[i].id == id ==> r[i].cols == rows[i].cols + data
    ensures forall i :: 0 <= i < |rows| && rows[i].id != id ==> r[i] == rows[i]
  {
    var i := FirstMatch(rows, HasId(id)).value;
    rows[i := Row(id, rows[i].cols + data)]
  }

  /** An update changes no key, so keys stay unique. */
  lemma UpdateKeepsUniqueIds(rows: seq<Row>, id: int, data: Record)
    requires UniqueIds(rows) && Lookup(rows, id).Some?
    ensures UniqueIds(UpdateById(rows, id, data))
  {
  }

  /** Reading a row back after updating it shows the old columns overwritten by `data`. */
  lemma {:induction false} LookupAfterUpdate(rows: seq<Row>, id: int, data: Record)
    requires UniqueIds(rows) && Lookup(rows, id).Some?
    ensures Lookup(UpdateById(rows, id, data), id) == Some(Row(id, Lookup(rows, id).value.cols + data))
  {
    var r := UpdateById(rows, id, data);
    var i := FirstMatch(rows, HasId(id)).value;
    assert HasId(id)(r[i]);
  }

  /** Rows with another key read back as before. */
  lemma {:induction false} LookupOtherAfterUpdate(rows: seq<Row>, id: int, data: Record, other: int)
    requires UniqueIds(rows) && Lookup(rows, id).Some? && other != id
    ensures Lookup(UpdateById(rows, id, data), other) == Lookup(rows, other)
  {
    var r := UpdateById(rows, id, data);
    match FirstMatch(rows, HasId(other))
    case None =>
      assert forall i :: 0 <= i < |r| ==> r[i].id != other;
    case Some(i) =>
      assert HasId(other)(r[i]);
  }

  /** Loop form of Lookup, the ORM's scan for a key. */
  method FindById(rows: seq<Row>, id: int) returns (r: Option<Row>)
    ensures r == Lookup(rows, id)
  {
    var i := FindFirst(rows, HasId(id));
    r := if i.Some? then Some(rows[i.value]) else None;
  }
}
