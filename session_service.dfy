/** The in-memory upload-session store: a flat list of session records,
    changed in place by push, index assignment and splice. */
module SessionStore {
  import opened Values
  import opened RecordList

  /** The record `create` stores: generated `id` and `startTime`, `completed`
      defaulting to false, and the caller's fields spread last so they win. */
  function NewSession(sessionData: Record, freshId: string, now: string): (r: Record)
    ensures Get(r, "completed") == (if "completed" in sessionData then sessionData["completed"] else Bool(false))
    ensures Get(r, "id") == (if "id" in sessionData then sessionData["id"] else Str(freshId))
    ensures Get(r, "startTime") == (if "startTime" in sessionData then sessionData["startTime"] else Str(now))
    ensures forall k :: k in sessionData ==> k in r && r[k] == sessionData[k]
    ensures r.Keys == sessionData.Keys + {"id", "startTime", "completed"}
  {
    Spread(map["id" := Str(freshId), "startTime" := Str(now), "completed" := Bool(false)], sessionData)
  }

  class UploadSessionService {
    var sessions: seq<Record>

    constructor (initial: seq<Record>)
      ensures sessions == initial
    {
      sessions := initial;
    }

    method GetAll() returns (r: seq<Record>)
      ensures r == sessions
    {
      r := sessions;
    }

    /** A copy of the first session with this id, or null. */
    method GetById(id: Value) returns (r: Option<Record>)
      ensures r.None? <==> forall j :: 0 <= j < |sessions| ==> Get(sessions[j], "id") != id
      ensures r.Some? ==> r.value == sessions[IndexOfId(sessions, id)]
    {
      r := FindById(sessions, id);
    }

    method Create(sessionData: Record, freshId: string, now: string) returns (r: Record)
      modifies this
      ensures r == NewSession(sessionData, freshId, now)
      ensures sessions == old(sessions) + [r]
    {
      r := NewSession(sessionData, freshId, now);
      sessions := sessions + [r];
    }

    /** Merges `updates` into the first session with this id; fails with
        "Upload session not found" and changes nothing when there is none. */
    method Update(id: Value, updates: Record) returns (r: Result<Record>)
      modifies this
      ensures old(IndexOfId(sessions, id)) == -1 ==>
                r == Err("Upload session not found") && sessions == old(sessions)
      ensures old(IndexOfId(sessions, id)) != -1 ==>
                var i := old(IndexOfId(sessions, id));
                && sessions == old(sessions)[i := Spread(old(sessions)[i], updates)]
                && r == Ok(sessions[i])
    {
      var index := IndexOfId(sessions, id);
      if index == -1 {
        return Err("Upload session not found");
      }
      sessions := sessions[index := Spread(sessions[index], updates)];
      r := Ok(sessions[index]);
    }

    /** Removes and returns the first session with this id; fails with
        "Upload session not found" and changes nothing when there is none. */
    method Delete(id: Value) returns (r: Result<Record>)
      modifies this
      ensures old(IndexOfId(sessions, id)) == -1 ==>
                r == Err("Upload session not found") && sessions == old(sessions)
      ensures old(IndexOfId(sessions, id)) != -1 ==>
                var i := old(IndexOfId(sessions, id));
                && r == Ok(old(sessions)[i])
                && sessions == RemoveAt(old(sessions), i)
    {
      var index := IndexOfId(sessions, id);
      if index == -1 {
        return Err("Upload session not found");
      }
      r := Ok(sessions[index]);
      sessions := RemoveAt(sessions, index);
    }
  }

}
