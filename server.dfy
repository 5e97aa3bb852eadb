/**
 * The document endpoints of the HTTP server: upload a document record, list a
 * tenant's documents, get, patch and soft-delete one document. Each handler
 * takes the parsed request and the `documents` table and returns a status
 * code with a JSON-like body. Clocks and the database-generated id are inputs.
 */
module Server {
  import opened Wrappers
  import opened Documents
  import opened Table
  import opened Strings

  /** The body of `POST /upload-document`, field by field as the client may send it. */
  datatype UploadRequest = UploadRequest(
    filename: Option<string>,
    fileSize: Option<nat>,
    mimeType: Option<string>,
    language: Option<string>,
    tenantId: Option<string>,
    uploadedBy: Option<string>)

  /** The body of `PATCH /documents/:id`. */
  datatype PatchRequest = PatchRequest(
    status: Option<string>,
    metadata: Option<Metadata>,
    updatedBy: Option<string>)

  datatype Body =
    | Error(message: string)
    | Uploaded(document: Document)
    | Listing(documents: seq<Document>)
    | Found(document: Document)
    | Patched(document: Document)
    | Deleted

  datatype Response = Response(code: nat, body: Body)

  const MISSING_UPLOAD_FIELDS := "Missing required fields: filename and tenant_id"
  const INSERT_FAILED := "Failed to create document record"
  const MISSING_TENANT := "Missing tenant_id parameter"
  const FETCH_FAILED := "Failed to fetch documents"
  const NOT_FOUND := "Document not found"
  const UPDATE_FAILED := "Failed to update document"
  const DELETE_FAILED := "Failed to delete document"

  /** The language written when the request gives none. */
  const DEFAULT_LANGUAGE := "en"
  /** The status of every freshly uploaded document. */
  const INITIAL_STATUS := "pending"
  const PATH_ROOT := "documents/"

  // ---------------------------------------------------------------------------
  // Storage paths: `documents/<tenant_id>/<timestamp>_<filename>`
  // ---------------------------------------------------------------------------

  predicate IsDigit(c: char) {
    '0' <= c <= '9'
  }

  predicate AllDigits(s: string) {
    forall k :: 0 <= k < |s| ==> IsDigit(s[k])
  }

  function DigitChar(v: nat): (c: char)
    requires v < 10
    ensures IsDigit(c) && c as int - '0' as int == v
  {
    ('0' as int + v) as char
  }

  /** `${n}` for a non-negative integer: its decimal digits, without leading zeros. */
  function DecimalString(n: nat): (s: string)
    ensures |s| > 0 && AllDigits(s)
    ensures |s| > 1 ==> s[0] != '0'
  {
    if n < 10 then [DigitChar(n)] else DecimalString(n / 10) + [DigitChar(n % 10)]
  }

  /** The number a string of decimal digits denotes. */
  function DecimalValue(s: string): nat
    requires AllDigits(s)
  {
    if s == [] then 0 else 10 * DecimalValue(s[..|s| - 1]) + (s[|s| - 1] as int - '0' as int)
  }

  /** Printing a timestamp loses nothing: its digits read back as the same number. */
  lemma {:induction false} DecimalRoundTrip(n: nat)
    ensures DecimalValue(DecimalString(n)) == n
  {
    if n >= 10 {
      var s := DecimalString(n);
      assert s[..|s| - 1] == DecimalString(n / 10);
      DecimalRoundTrip(n / 10);
    }
  }

  /** The storage path the server derives for an upload: always under `documents/<tenant_id>/`. */
  function UploadPath(tenantId: string, timestamp: nat, filename: string): (p: string)
    ensures |p| > |PATH_ROOT + tenantId + "/"|
    ensures p[..|PATH_ROOT + tenantId + "/"|] == PATH_ROOT + tenantId + "/"
  {
    PATH_ROOT + tenantId + "/" + DecimalString(timestamp) + "_" + filename
  }

  /** Reads a storage path back into tenant id, timestamp and file name. */
  function ParseUploadPath(p: string): Option<(string, nat, string)> {
    if |p| < |PATH_ROOT| || p[..|PATH_ROOT|] != PATH_ROOT then None
    else
      var rest := p[|PATH_ROOT|..];
      match IndexOf(rest, '/')
      case None => None
      case Some(k) =>
        match ParseStamped(rest[k + 1..])
        case None => None
        case Some(stamped) => Some((rest[..k], stamped.0, stamped.1))
  }

  /** Reads `<timestamp>_<filename>` back into its two parts. */
  function ParseStamped(s: string): Option<(nat, string)> {
    match IndexOf(s, '_')
    case None => None
    case Some(m) =>
      if m > 0 && AllDigits(s[..m]) then Some((DecimalValue(s[..m]), s[m + 1..])) else None
  }

  lemma StampedRoundTrip(timestamp: nat, filename: string)
    ensures ParseStamped(DecimalString(timestamp) + "_" + filename) == Some((timestamp, filename))
  {
    var digits := DecimalString(timestamp);
    var s := digits + "_" + filename;
    assert '_' !in digits;
    IndexOfAfter(digits, '_', filename);
    assert s == digits + ['_'] + filename;
    assert s[..|digits|] == digits;
    assert s[|digits| + 1..] == filename;
    DecimalRoundTrip(timestamp);
  }

  /**
   * When the tenant id holds no `/`, the tenant, the timestamp and the
   * original file name can all be read back from the upload path.
   */
  lemma UploadPathRoundTrip(tenantId: string, timestamp: nat, filename: string)
    requires '/' !in tenantId
    ensures ParseUploadPath(UploadPath(tenantId, timestamp, filename)) == Some((tenantId, timestamp, filename))
  {
    var p := UploadPath(tenantId, timestamp, filename);
    var after := DecimalString(timestamp) + "_" + filename;
    var rest := tenantId + "/" + after;
    assert p == PATH_ROOT + rest;
    assert p[..|PATH_ROOT|] == PATH_ROOT;
    assert p[|PATH_ROOT|..] == rest;
    IndexOfAfter(tenantId, '/', after);
    assert rest == tenantId + ['/'] + after;
    assert rest[..|tenantId|] == tenantId;
    assert rest[|tenantId| + 1..] == after;
    StampedRoundTrip(timestamp, filename);
  }

  // ---------------------------------------------------------------------------
  // Listing: rows of one tenant that are not soft-deleted, newest first
  // ---------------------------------------------------------------------------

  predicate NewestFirst(s: seq<Document>) {
    forall i, j :: 0 <= i < j < |s| ==> s[i].createdAt >= s[j].createdAt
  }

  /** `.eq("tenant_id", tenantId).eq("is_deleted", false)`. */
  function VisibleTo(rows: seq<Document>, tenantId: string): (r: seq<Document>)
    ensures forall d :: d in r <==> d in rows && d.tenantId == tenantId && !d.isDeleted
    ensures forall d :: multiset(r)[d] == if d.tenantId == tenantId && !d.isDeleted then multiset(rows)[d] else 0
    ensures |r| <= |rows|
  {
    if rows == [] then []
    else
      assert rows == [rows[0]] + rows[1..];
      var tail := VisibleTo(rows[1..], tenantId);
      if rows[0].tenantId == tenantId && !rows[0].isDeleted then [rows[0]] + tail else tail
  }

  function InsertByAge(d: Document, s: seq<Document>): (r: seq<Document>)
    requires NewestFirst(s)
    ensures NewestFirst(r)
    ensures forall x :: x in r <==> x == d || x in s
  {
    if s == [] || d.createdAt >= s[0].createdAt then [d] + s
    else
      var tail := InsertByAge(d, s[1..]);
      assert forall x :: x in s[1..] ==> x.createdAt <= s[0].createdAt;
      [s[0]] + tail
  }

  lemma {:induction false} InsertByAgeAdds(d: Document, s: seq<Document>)
    requires NewestFirst(s)
    ensures multiset(InsertByAge(d, s)) == multiset(s) + multiset{d}
  {
    if s != [] && d.createdAt < s[0].createdAt {
      InsertByAgeAdds(d, s[1..]);
      assert s == [s[0]] + s[1..];
    }
  }

  /** `.order("created_at", { ascending: false })`. */
  function SortNewestFirst(s: seq<Document>): (r: seq<Document>)
    ensures NewestFirst(r)
    ensures multiset(r) == multiset(s)
  {
    if s == [] then []
    else
      assert s == [s[0]] + s[1..];
      InsertByAgeAdds(s[0], SortNewestFirst(s[1..]));
      InsertByAge(s[0], SortNewestFirst(s[1..]))
  }

  // ---------------------------------------------------------------------------
  // Patch and soft delete
  // ---------------------------------------------------------------------------

  /** The update a patch request asks for: each truthy field, and nothing else. */
  function RequestedChanges(req: PatchRequest): (c: Changes)
    ensures c.isDeleted.None?
    ensures c.status.Some? <==> Truthy(req.status)
    ensures c.updatedBy.Some? <==> Truthy(req.updatedBy)
    ensures Truthy(c.status) || c.status.None?
    ensures Truthy(c.updatedBy) || c.updatedBy.None?
  {
    Changes(
      if Truthy(req.status) then req.status else None,
      req.metadata,
      if Truthy(req.updatedBy) then req.updatedBy else None,
      None)
  }

  /** A patch touches only `status`, `metadata` and `updated_by`, each only when given. */
  lemma PatchOnlyGivenFields(d: Document, req: PatchRequest)
    ensures var r := Apply(d, RequestedChanges(req));
      && r.(status := d.status, metadata := d.metadata, updatedBy := d.updatedBy) == d
      && r.status == (if Truthy(req.status) then req.status.value else d.status)
      && r.metadata == (if req.metadata.Some? then req.metadata.value else d.metadata)
      && r.updatedBy == (if Truthy(req.updatedBy) then req.updatedBy else d.updatedBy)
  {
  }

  /** Metadata is replaced wholesale: a second patch leaves exactly its own metadata. */
  lemma MetadataReplacedWholesale(d: Document, first: Metadata, second: Metadata)
    ensures Apply(Apply(d, RequestedChanges(PatchRequest(None, Some(first), None))),
                  RequestedChanges(PatchRequest(None, Some(second), None))).metadata == second
  {
  }

  const DELETION := Changes(None, None, None, Some(true))

  /** The table after `update({ is_deleted: true }).eq("id", id)`. */
  function MarkDeleted(rows: seq<Document>, id: string): (r: seq<Document>)
    ensures |r| == |rows|
    ensures forall k :: 0 <= k < |rows| ==> r[k].(isDeleted := rows[k].isDeleted) == rows[k]
    ensures forall k :: 0 <= k < |rows| ==> (r[k].isDeleted <==> rows[k].isDeleted || Find(rows, id) == Some(k))
  {
    UpdateRows(rows, id, DELETION)
  }

  /**
   * Soft delete flips only `is_deleted` on the matching row, and deleting
   * twice is the same as deleting once (the second delete still finds the row).
   */
  lemma DeleteIdempotent(rows: seq<Document>, id: string)
    ensures Find(MarkDeleted(rows, id), id) == Find(rows, id)
    ensures MarkDeleted(MarkDeleted(rows, id), id) == MarkDeleted(rows, id)
  {
  }

  /**
   * Soft delete changes nothing but the matching row's `is_deleted` flag.
   * After it the row is hidden from every listing and from get by
   * id, while every other row keeps its visibility.
   */
  lemma DeleteHides(rows: seq<Document>, id: string, tenantId: string)
    requires UniqueIds(rows)
    ensures forall k :: 0 <= k < |rows| ==> MarkDeleted(rows, id)[k] == rows[k].(isDeleted := rows[k].isDeleted || rows[k].id == id)
    ensures forall d :: d in VisibleTo(MarkDeleted(rows, id), tenantId) ==> d.id != id
    ensures forall d :: d in VisibleTo(rows, tenantId) && d.id != id ==> d in VisibleTo(MarkDeleted(rows, id), tenantId)
  {
  }

  // ---------------------------------------------------------------------------
  // Handlers
  // ---------------------------------------------------------------------------

  /**
   * `POST /upload-document`. `newId` is the id the database generates,
   * `timestamp` the server clock used in the path, `createdAt` the
   * database's creation time, `insertFails` a backend failure.
   */
  method UploadDocument(table: DocumentTable, req: UploadRequest, newId: string, timestamp: nat,
                        createdAt: nat, insertFails: bool) returns (resp: Response)
    requires table.Valid()
    modifies table
    ensures table.Valid()
    ensures resp.code == 400 <==> !Truthy(req.filename) || !Truthy(req.tenantId)
    ensures resp.code == 400 ==> resp.body == Error(MISSING_UPLOAD_FIELDS) && table.inserts == old(table.inserts)
    ensures Truthy(req.filename) && Truthy(req.tenantId) ==>
      (resp.code == 200 <==> !insertFails && Find(old(table.rows), newId).None?)
    ensures resp.code != 200 ==> table.rows == old(table.rows)
    ensures resp.code != 200 && resp.code != 400 ==> resp == Response(500, Error(INSERT_FAILED))
    ensures resp.code == 200 ==> resp.body.Uploaded? && table.rows == old(table.rows) + [resp.body.document]
    ensures resp.code == 200 ==> var d := resp.body.document;
      && d.id == newId
      && Some(d.tenantId) == req.tenantId && Some(d.filename) == req.filename
      && d.uploadedBy == req.uploadedBy && d.createdBy == req.uploadedBy && d.updatedBy.None?
      && d.storagePath == UploadPath(d.tenantId, timestamp, d.filename)
      && d.fileSize == req.fileSize && d.mimeType == req.mimeType
      && d.language == Some(if Truthy(req.language) then req.language.value else DEFAULT_LANGUAGE)
      && d.status == INITIAL_STATUS && d.metadata == map[] && !d.isDeleted
      && d.createdAt == createdAt
  {
    if !Truthy(req.filename) || !Truthy(req.tenantId) {
      return Response(400, Error(MISSING_UPLOAD_FIELDS));
    }
    var tenantId, filename := req.tenantId.value, req.filename.value;
    var storagePath := UploadPath(tenantId, timestamp, filename);
    var language := if Truthy(req.language) then req.language.value else DEFAULT_LANGUAGE;
    var doc := Document(newId, tenantId, req.uploadedBy, req.uploadedBy, None, filename, storagePath,
                        req.fileSize, req.mimeType, Some(language), INITIAL_STATUS, map[], false, createdAt);
    var err := table.Insert(doc, insertFails);
    if err.Some? {
      return Response(500, Error(INSERT_FAILED));
    }
    resp := Response(200, Uploaded(doc));
  }

  /** `GET /documents?tenant_id=`. */
  method ListDocuments(table: DocumentTable, tenantId: Option<string>, queryFails: bool) returns (resp: Response)
    requires table.Valid()
    ensures !Truthy(tenantId) ==> resp == Response(400, Error(MISSING_TENANT))
    ensures Truthy(tenantId) && queryFails ==> resp == Response(500, Error(FETCH_FAILED))
    ensures Truthy(tenantId) && !queryFails ==> resp.code == 200 && resp.body.Listing?
    ensures resp.code == 200 ==> var docs := resp.body.documents;
      && (forall d :: d in docs <==> d in table.rows && d.tenantId == tenantId.value && !d.isDeleted)
      && multiset(docs) == multiset(VisibleTo(table.rows, tenantId.value))
      && NewestFirst(docs)
  {
    if !Truthy(tenantId) {
      return Response(400, Error(MISSING_TENANT));
    }
    if queryFails {
      return Response(500, Error(FETCH_FAILED));
    }
    var visible := VisibleTo(table.rows, tenantId.value);
    var docs := SortNewestFirst(visible);
    assert forall d :: d in docs <==> d in multiset(visible);
    resp := Response(200, Listing(docs));
  }

  /** `GET /documents/:id`: a soft-deleted row is not found. */
  method GetDocument(table: DocumentTable, id: string, queryFails: bool) returns (resp: Response)
    requires table.Valid()
    ensures resp.code == 200 <==>
      !queryFails && exists k :: 0 <= k < |table.rows| && table.rows[k].id == id && !table.rows[k].isDeleted
    ensures resp.code == 200 ==>
      resp.body.Found? && resp.body.document in table.rows && resp.body.document.id == id && !resp.body.document.isDeleted
    ensures resp.code != 200 ==> resp == Response(404, Error(NOT_FOUND))
  {
    if queryFails {
      return Response(404, Error(NOT_FOUND));
    }
    match Find(table.rows, id)
    case None =>
      resp := Response(404, Error(NOT_FOUND));
    case Some(i) =>
      if table.rows[i].isDeleted {
        forall k | 0 <= k < |table.rows| && table.rows[k].id == id
          ensures table.rows[k].isDeleted
        {
          FindIsOnly(table.rows, id, k);
        }
        resp := Response(404, Error(NOT_FOUND));
      } else {
        resp := Response(200, Found(table.rows[i]));
      }
  }

  /** `PATCH /documents/:id`: no tenant, soft-delete or status-transition check. */
  method PatchDocument(table: DocumentTable, id: string, req: PatchRequest, fails: bool) returns (resp: Response)
    requires table.Valid()
    modifies table`rows, table`updates
    ensures table.Valid()
    ensures table.updates == old(table.updates) + [(id, RequestedChanges(req))]
    ensures resp.code == 200 <==> !fails && Find(old(table.rows), id).Some?
    ensures resp.code == 200 ==>
      && table.rows == UpdateRows(old(table.rows), id, RequestedChanges(req))
      && resp.body == Patched(Apply(old(table.rows)[Find(old(table.rows), id).value], RequestedChanges(req)))
    ensures resp.code != 200 ==> resp == Response(500, Error(UPDATE_FAILED)) && table.rows == old(table.rows)
  {
    var changes := NoChanges;
    if Truthy(req.status) {
      changes := changes.(status := req.status);
    }
    if req.metadata.Some? {
      changes := changes.(metadata := req.metadata);
    }
    if Truthy(req.updatedBy) {
      changes := changes.(updatedBy := req.updatedBy);
    }
    assert changes == RequestedChanges(req);
    var r := table.Update(id, changes, fails);
    match r
    case Success(d) =>
      resp := Response(200, Patched(d));
    case Failure(_) =>
      resp := Response(500, Error(UPDATE_FAILED));
  }

  /** `DELETE /documents/:id`: a soft delete; repeating it still succeeds. */
  method DeleteDocument(table: DocumentTable, id: string, fails: bool) returns (resp: Response)
    requires table.Valid()
    modifies table`rows, table`updates
    ensures table.Valid()
    ensures table.updates == old(table.updates) + [(id, DELETION)]
    ensures resp.code == 200 <==> !fails && Find(old(table.rows), id).Some?
    ensures resp.code == 200 ==> resp.body == Deleted && table.rows == MarkDeleted(old(table.rows), id)
    ensures resp.code != 200 ==> resp == Response(500, Error(DELETE_FAILED)) && table.rows == old(table.rows)
  {
    var r := table.Update(id, DELETION, fails);
    if r.Failure? {
      return Response(500, Error(DELETE_FAILED));
    }
    resp := Response(200, Deleted);
  }
}
