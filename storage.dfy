/**
 * The `documents` storage bucket: objects keyed by path, written with
 * `upsert: false`, so an upload never replaces an existing object.
 */
module Storage {
  import opened Wrappers
  import opened Documents

  /** Why the object store refused a request. */
  datatype StorageError = AlreadyExists | StorageUnavailable

  /** A request issued to the bucket, as the bucket saw it. */
  datatype StorageCall = Put(path: string) | Remove(paths: seq<string>)

  class Bucket {
    var objects: map<string, seq<Byte>>
    /** Every request issued to the bucket, in order. */
    ghost var calls: seq<StorageCall>

    constructor ()
      ensures objects == map[] && calls == []
    {
      objects := map[];
      calls := [];
    }

    /** `upload(path, file, { upsert: false })`. */
    method Upload(path: string, content: seq<Byte>, fails: bool) returns (err: Option<StorageError>)
      modifies this
      ensures calls == old(calls) + [Put(path)]
      ensures fails ==> err == Some(StorageUnavailable)
      ensures !fails && path in old(objects) ==> err == Some(AlreadyExists)
      ensures err.None? <==> !fails && path !in old(objects)
      ensures objects == if err.None? then old(objects)[path := content] else old(objects)
    {
      calls := calls + [Put(path)];
      if fails {
        err := Some(StorageUnavailable);
      } else if path in objects {
        err := Some(AlreadyExists);
      } else {
        err := None;
        objects := objects[path := content];
      }
    }

    /** `remove(paths)`: paths that name no object are ignored. */
    method Remove(paths: seq<string>, fails: bool) returns (err: Option<StorageError>)
      modifies this
      ensures calls == old(calls) + [StorageCall.Remove(paths)]
      ensures err.None? <==> !fails
      ensures objects == if fails then old(objects) else old(objects) - (set p | p in paths)
    {
      calls := calls + [StorageCall.Remove(paths)];
      if fails {
        err := Some(StorageUnavailable);
      } else {
        err := None;
        objects := objects - (set p | p in paths);
      }
    }
  }
}
