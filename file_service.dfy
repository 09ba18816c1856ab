/** The in-memory file store: a flat list of file records, changed in place
    by push (create), index assignment (update) and splice (delete). Ids and
    timestamps, which the source draws from the clock, are parameters. */
module FileStore {
  import opened Values
  import opened RecordList

  /** The record `create` stores: a generated `id` and `uploadedAt` with the
      caller's fields spread over them, so the caller's fields win. */
  function NewFile(fileData: Record, freshId: string, now: string): (r: Record)
    ensures Get(r, "id") == (if "id" in fileData then fileData["id"] else Str(freshId))
    ensures Get(r, "uploadedAt") == (if "uploadedAt" in fileData then fileData["uploadedAt"] else Str(now))
    ensures forall k :: k in fileData ==> k in r && r[k] == fileData[k]
    ensures r.Keys == fileData.Keys + {"id", "uploadedAt"}
  {
    Spread(map["id" := Str(freshId), "uploadedAt" := Str(now)], fileData)
  }

  class FileService {
    var files: seq<Record>

    constructor (initial: seq<Record>)
      ensures files == initial
    {
      files := initial;
    }

    method GetAll() returns (r: seq<Record>)
      ensures r == files
    {
      r := files;
    }

    /** A copy of the first record with this id, or null. */
    method GetById(id: Value) returns (r: Option<Record>)
      ensures r.None? <==> forall j :: 0 <= j < |files| ==> Get(files[j], "id") != id
      ensures r.Some? ==> r.value == files[IndexOfId(files, id)]
    {
      r := FindById(files, id);
    }

    method Create(fileData: Record, freshId: string, now: string) returns (r: Record)
      modifies this
      ensures r == NewFile(fileData, freshId, now)
      ensures files == old(files) + [r]
    {
      r := NewFile(fileData, freshId, now);
      files := files + [r];
    }

    /** Merges `updates` into the first record with this id; fails with
        "File not found" and changes nothing when there is none. */
    method Update(id: Value, updates: Record) returns (r: Result<Record>)
      modifies this
      ensures old(IndexOfId(files, id)) == -1 ==> r == Err("File not found") && files == old(files)
      ensures old(IndexOfId(files, id)) != -1 ==>
                var i := old(IndexOfId(files, id));
                && files == old(files)[i := Spread(old(files)[i], updates)]
                && r == Ok(files[i])
    {
      var index := IndexOfId(files, id);
      if index == -1 {
        return Err("File not found");
      }
      files := files[index := Spread(files[index], updates)];
      r := Ok(files[index]);
    }

    /** Removes and returns the first record with this id; fails with
        "File not found" and changes nothing when there is none. */
    method Delete(id: Value) returns (r: Result<Record>)
      modifies this
      ensures old(IndexOfId(files, id)) == -1 ==> r == Err("File not found") && files == old(files)
      ensures old(IndexOfId(files, id)) != -1 ==>
                var i := old(IndexOfId(files, id));
                && r == Ok(old(files)[i])
                && files == RemoveAt(old(files), i)
    {
      var index := IndexOfId(files, id);
      if index == -1 {
        return Err("File not found");
      }
      r := Ok(files[index]);
      files := RemoveAt(files, index);
    }

    /** Copies of the stored records whose `status` equals the argument, in storage order. */
    method GetByStatus(status: Value) returns (r: seq<Record>)
      ensures r == WithField(files, "status", status)
    {
      r := WithField(files, "status", status);
    }
  }
}
