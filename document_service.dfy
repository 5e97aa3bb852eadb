/**
 * The client-side document service: `uploadDocument` writes the file to the
 * `documents` bucket under `<tenantId>/<fileId>.<ext>`, then inserts the
 * record, and removes the object again when the insert fails. The generated
 * file id and the backend failures are inputs.
 */
module DocumentService {
  import opened Wrappers
  import opened Documents
  import opened Strings
  import opened Table
  import opened Storage

  /** Why `uploadDocument` threw. */
  datatype ServiceError =
    | UploadFailed(storageCause: StorageError)
    | RecordFailed(dbCause: DbError)

  const INITIAL_STATUS := "pending"

  // ---------------------------------------------------------------------------
  // Storage path and file extension
  // ---------------------------------------------------------------------------

  /** `s.split('.')`. */
  function SplitDots(s: string): (parts: seq<string>)
    ensures |parts| >= 1
    ensures forall k :: 0 <= k < |parts| ==> '.' !in parts[k]
    ensures |parts| == 1 <==> '.' !in s
    ensures |parts| == 1 ==> parts[0] == s
  {
    if s == [] then [""]
    else
      var tail := SplitDots(s[1..]);
      if s[0] == '.' then [""] + tail
      else [[s[0]] + tail[0]] + tail[1..]
  }

  /** `parts.join('.')`. */
  function JoinDots(parts: seq<string>): string
    requires |parts| >= 1
  {
    if |parts| == 1 then parts[0] else parts[0] + "." + JoinDots(parts[1..])
  }

  /** Splitting on dots loses nothing: joining the parts gives the name back. */
  lemma {:induction false} SplitJoin(s: string)
    ensures JoinDots(SplitDots(s)) == s
  {
    if s != [] {
      var tail := SplitDots(s[1..]);
      SplitJoin(s[1..]);
      if s[0] == '.' {
        assert ([""] + tail)[1..] == tail;
      } else if |tail| > 1 {
        var parts := [[s[0]] + tail[0]] + tail[1..];
        assert parts[1..] == tail[1..];
        assert s == [s[0]] + s[1..];
      }
    }
  }

  /** `file.name.split('.').pop() || ''` (the fallback never changes the value). */
  function Extension(name: string): (ext: string)
    ensures '.' !in ext
  {
    var parts := SplitDots(name);
    var last := parts[|parts| - 1];
    if last != "" then last else ""
  }

  /** The last part of a split is the text after the last dot. */
  lemma {:induction false} LastPartAfterLastDot(s: string)
    ensures var parts := SplitDots(s); var last := parts[|parts| - 1];
      && |last| <= |s| && s[|s| - |last|..] == last
      && (|last| < |s| ==> s[|s| - |last| - 1] == '.')
  {
    if s != [] {
      LastPartAfterLastDot(s[1..]);
      var tail := SplitDots(s[1..]);
      assert s == [s[0]] + s[1..];
    }
  }

  /**
   * The extension is the text after the last `.`: it holds no dot, it ends
   * the name, and a dot precedes it unless it is the whole name. A name
   * without a dot is its own extension, and the extension is empty exactly
   * when the name is empty or ends with a dot.
   */
  lemma ExtensionAfterLastDot(name: string)
    ensures var ext := Extension(name);
      && '.' !in ext
      && |ext| <= |name| && name[|name| - |ext|..] == ext
      && (|ext| < |name| ==> name[|name| - |ext| - 1] == '.')
      && ('.' !in name ==> ext == name)
      && (ext == "" <==> name == "" || name[|name| - 1] == '.')
  {
    LastPartAfterLastDot(name);
    var ext := Extension(name);
    if ext == "" && name != "" {
      assert name[|name| - 1] == '.';
    }
    if name != "" && name[|name| - 1] == '.' {
      assert ext == "";
    }
  }

  /** `${tenantId}/${fileId}.${fileExtension}`. */
  function StoragePath(tenantId: string, fileId: string, name: string): (path: string)
    ensures |path| > |tenantId|
    ensures path[..|tenantId| + 1] == tenantId + "/"
  {
    tenantId + "/" + fileId + "." + Extension(name)
  }

  /** Reads a storage path back into tenant id, file id and extension. */
  function ParseStoragePath(path: string): Option<(string, string, string)> {
    match IndexOf(path, '/')
    case None => None
    case Some(k) =>
      var rest := path[k + 1..];
      match IndexOf(rest, '.')
      case None => None
      case Some(m) => Some((path[..k], rest[..m], rest[m + 1..]))
  }

  /**
   * The file id, which is also the record's id, is embedded in the storage
   * path and reads back from it, as do the tenant and the extension.
   */
  lemma StoragePathRoundTrip(tenantId: string, fileId: string, name: string)
    requires '/' !in tenantId && '.' !in fileId
    ensures ParseStoragePath(StoragePath(tenantId, fileId, name)) == Some((tenantId, fileId, Extension(name)))
  {
    var ext := Extension(name);
    var rest := fileId + "." + ext;
    var path := StoragePath(tenantId, fileId, name);
    assert path == tenantId + ['/'] + rest;
    IndexOfAfter(tenantId, '/', rest);
    assert path[..|tenantId|] == tenantId;
    assert path[|tenantId| + 1..] == rest;
    assert rest == fileId + ['.'] + ext;
    IndexOfAfter(fileId, '.', ext);
    assert rest[..|fileId|] == fileId;
    assert rest[|fileId| + 1..] == ext;
  }

  // ---------------------------------------------------------------------------
  // uploadDocument
  // ---------------------------------------------------------------------------

  /** The record `uploadDocument` inserts; the database stamps `createdAt`. */
  function NewRecord(file: File, tenantId: string, fileId: string, createdAt: nat): (d: Document)
    ensures '/' !in tenantId && '.' !in fileId ==>
      ParseStoragePath(d.storagePath) == Some((d.tenantId, d.id, Extension(d.filename)))
    ensures d.status == INITIAL_STATUS && d.metadata == map[] && !d.isDeleted
  {
    var d := Document(fileId, tenantId, None, None, None, file.name, StoragePath(tenantId, fileId, file.name),
                      Some(file.size), Some(file.mimeType), None, INITIAL_STATUS, map[], false, createdAt);
    if '/' !in tenantId && '.' !in fileId then
      StoragePathRoundTrip(tenantId, fileId, file.name);
      d
    else
      d
  }

  /**
   * Upload, then insert, then compensate. `fileId` is the generated UUID,
   * `createdAt` the database's clock; the three flags are backend failures.
   */
  method UploadDocument(bucket: Bucket, table: DocumentTable, file: File, tenantId: string, fileId: string,
                        createdAt: nat, uploadFails: bool, insertFails: bool, removeFails: bool)
    returns (r: Result<Document, ServiceError>)
    requires table.Valid()
    modifies bucket, table
    ensures table.Valid()
    ensures var path := StoragePath(tenantId, fileId, file.name);
      // the storage upload comes first and never overwrites
      && |bucket.calls| > |old(bucket.calls)| && bucket.calls[|old(bucket.calls)|] == Put(path)
      && (r.Failure? && r.error.UploadFailed? <==> uploadFails || path in old(bucket.objects))
      && (!uploadFails && path in old(bucket.objects) ==> r == Failure(UploadFailed(AlreadyExists)))
      // a failed upload: nothing else happens, and no insert is attempted
      && (r.Failure? && r.error.UploadFailed? ==>
            && bucket.calls == old(bucket.calls) + [Put(path)]
            && bucket.objects == old(bucket.objects)
            && table.inserts == old(table.inserts) && table.rows == old(table.rows))
      // a failed insert: exactly one remove of [path], and no row
      && (r.Failure? && r.error.RecordFailed? ==>
            && bucket.calls == old(bucket.calls) + [Put(path), StorageCall.Remove([path])]
            && bucket.objects == (if removeFails then old(bucket.objects)[path := file.content] else old(bucket.objects))
            && table.inserts == old(table.inserts) + [NewRecord(file, tenantId, fileId, createdAt)]
            && table.rows == old(table.rows))
      // success: one object, one row, and the row is returned
      && (r.Success? ==>
            && bucket.calls == old(bucket.calls) + [Put(path)]
            && bucket.objects == old(bucket.objects)[path := file.content]
            && table.inserts == old(table.inserts) + [r.value]
            && table.rows == old(table.rows) + [r.value])
    ensures r.Success? <==>
      !uploadFails && StoragePath(tenantId, fileId, file.name) !in old(bucket.objects) &&
      !insertFails && Find(old(table.rows), fileId).None?
    ensures r.Success? ==> var d := r.value;
      && d.id == fileId && d.tenantId == tenantId && d.filename == file.name
      && d.storagePath == StoragePath(tenantId, fileId, file.name)
      && d.fileSize == Some(file.size) && d.mimeType == Some(file.mimeType)
      && d.status == INITIAL_STATUS && d.metadata == map[] && !d.isDeleted
      && d.createdAt == createdAt
    ensures r.Success? && '/' !in tenantId && '.' !in fileId ==>
      ParseStoragePath(r.value.storagePath) == Some((tenantId, r.value.id, Extension(file.name)))
  {
    var storagePath := StoragePath(tenantId, fileId, file.name);
    var uploadError := bucket.Upload(storagePath, file.content, uploadFails);
    if uploadError.Some? {
      return Failure(UploadFailed(uploadError.value));
    }
    var record := NewRecord(file, tenantId, fileId, createdAt);
    var insertError := table.Insert(record, insertFails);
    if insertError.Some? {
      var _ := bucket.Remove([storagePath], removeFails);
      assert old(bucket.objects)[storagePath := file.content] - {storagePath} == old(bucket.objects);
      return Failure(RecordFailed(insertError.value));
    }
    if '/' !in tenantId && '.' !in fileId {
      StoragePathRoundTrip(tenantId, fileId, file.name);
    }
    r := Success(record);
  }
}
