/**
 * The hosted `documents` table, reduced to what the handlers rely on: rows in
 * insertion order, a unique `id` per row, insert, and update-by-id that
 * answers with the single updated row.
 */
module Table {
  import opened Wrappers
  import opened Documents

  /** Why the database rejected a request. */
  datatype DbError =
    | DuplicateKey   // an insert whose id is already taken
    | NoSingleRow    // `.single()` found no matching row
    | Unavailable    // any other backend failure

  /** The column values an update request sets; absent columns are left alone. */
  datatype Changes = Changes(
    status: Option<string>,
    metadata: Option<Metadata>,
    updatedBy: Option<string>,
    isDeleted: Option<bool>)

  const NoChanges := Changes(None, None, None, None)

  /** The primary-key constraint of the table. */
  ghost predicate UniqueIds(rows: seq<Document>) {
    forall i, j :: 0 <= i < j < |rows| ==> rows[i].id != rows[j].id
  }

  /** The position of the first row whose id is `id`, if any. */
  function Find(rows: seq<Document>, id: string): (r: Option<nat>)
    ensures r.Some? ==> r.value < |rows| && rows[r.value].id == id
    ensures r.Some? ==> forall k :: 0 <= k < r.value ==> rows[k].id != id
    ensures r.None? <==> forall k :: 0 <= k < |rows| ==> rows[k].id != id
  {
    if |rows| == 0 then None
    else if rows[0].id == id then Some(0)
    else match Find(rows[1..], id)
      case Some(k) => Some(k + 1)
      case None => None
  }

  /** Under the primary key, the row that `Find` returns is the only row with that id. */
  lemma FindIsOnly(rows: seq<Document>, id: string, k: nat)
    requires UniqueIds(rows)
    requires k < |rows| && rows[k].id == id
    ensures Find(rows, id) == Some(k)
  {
  }

  /** A row after an update: the given columns replaced, every other column kept. */
  function Apply(d: Document, c: Changes): (r: Document)
    ensures r.(status := d.status, metadata := d.metadata, updatedBy := d.updatedBy, isDeleted := d.isDeleted) == d
    ensures c.status.Some? ==> r.status == c.status.value
    ensures c.status.None? ==> r.status == d.status
    ensures c.metadata.Some? ==> r.metadata == c.metadata.value
    ensures c.metadata.None? ==> r.metadata == d.metadata
    ensures c.updatedBy.Some? ==> r.updatedBy == c.updatedBy
    ensures c.updatedBy.None? ==> r.updatedBy == d.updatedBy
    ensures r.isDeleted == c.isDeleted.GetOr(d.isDeleted)
  {
    d.(status := c.status.GetOr(d.status),
       metadata := c.metadata.GetOr(d.metadata),
       updatedBy := if c.updatedBy.Some? then c.updatedBy else d.updatedBy,
       isDeleted := c.isDeleted.GetOr(d.isDeleted))
  }

  /** The whole table after updating the row whose id is `id` (unchanged when there is none). */
  function UpdateRows(rows: seq<Document>, id: string, c: Changes): (r: seq<Document>)
    ensures |r| == |rows|
    ensures forall k :: 0 <= k < |rows| && rows[k].id != id ==> r[k] == rows[k]
    ensures forall k :: 0 <= k < |rows| && rows[k].id == id && Find(rows, id) == Some(k) ==> r[k] == Apply(rows[k], c)
    ensures forall k :: 0 <= k < |rows| ==> r[k].id == rows[k].id
  {
    match Find(rows, id)
    case Some(i) => rows[i := Apply(rows[i], c)]
    case None => rows
  }

  class DocumentTable {
    /** The rows, in insertion order. */
    var rows: seq<Document>
    /** Every row whose insert was requested, accepted or not. */
    ghost var inserts: seq<Document>
    /** Every update requested, by id and changes, accepted or not. */
    ghost var updates: seq<(string, Changes)>

    ghost predicate Valid()
      reads this
    {
      UniqueIds(rows)
    }

    constructor ()
      ensures Valid() && rows == [] && inserts == [] && updates == []
    {
      rows := [];
      inserts := [];
      updates := [];
    }

    /** `insert(record).select().single()`: the row as stored, or why it was refused. */
    method Insert(doc: Document, fails: bool) returns (err: Option<DbError>)
      requires Valid()
      modifies this`rows, this`inserts
      ensures Valid()
      ensures inserts == old(inserts) + [doc]
      ensures fails ==> err == Some(Unavailable)
      ensures !fails && Find(old(rows), doc.id).Some? ==> err == Some(DuplicateKey)
      ensures err.None? <==> !fails && Find(old(rows), doc.id).None?
      ensures rows == if err.None? then old(rows) + [doc] else old(rows)
    {
      inserts := inserts + [doc];
      if fails {
        err := Some(Unavailable);
      } else if Find(rows, doc.id).Some? {
        err := Some(DuplicateKey);
      } else {
        err := None;
        rows := rows + [doc];
      }
    }

    /** `update(changes).eq("id", id).select().single()`. */
    method Update(id: string, c: Changes, fails: bool) returns (r: Result<Document, DbError>)
      requires Valid()
      modifies this`rows, this`updates
      ensures Valid()
      ensures updates == old(updates) + [(id, c)]
      ensures fails ==> r == Failure(Unavailable)
      ensures !fails && Find(old(rows), id).None? ==> r == Failure(NoSingleRow)
      ensures r.Success? <==> !fails && Find(old(rows), id).Some?
      ensures r.Success? ==> r.value == Apply(old(rows)[Find(old(rows), id).value], c)
      ensures rows == if r.Success? then UpdateRows(old(rows), id, c) else old(rows)
    {
      updates := updates + [(id, c)];
      if fails {
        return Failure(Unavailable);
      }
      match Find(rows, id)
      case None =>
        r := Failure(NoSingleRow);
      case Some(i) =>
        r := Success(Apply(rows[i], c));
        rows := rows[i := r.value];
    }
  }
}
