/** The list operations the file and upload-session stores perform on their
    flat arrays of records: lookup by `id`, filtering by a field, removal at
    a position. Both stores compare ids with `===`, without coercion. */
module RecordList {
  import opened Values

  /** `findIndex(r => r.id === id)`: the first position whose `id` equals `id`, or -1. */
  function IndexOfId(s: seq<Record>, id: Value): (i: int)
    ensures -1 <= i < |s|
    ensures 0 <= i ==> Get(s[i], "id") == id
    ensures forall j :: 0 <= j < |s| && (i == -1 || j < i) ==> Get(s[j], "id") != id
  {
    if s == [] then -1
    else if Get(s[0], "id") == id then 0
    else
      var k := IndexOfId(s[1..], id);
      if k == -1 then -1 else k + 1
  }

  /** `find(r => r.id === id)` followed by a copy, or `null` when nothing matches. */
  function FindById(s: seq<Record>, id: Value): (r: Option<Record>)
    ensures r.None? <==> forall j :: 0 <= j < |s| ==> Get(s[j], "id") != id
    ensures r.Some? ==> exists i :: 0 <= i < |s| && s[i] == r.value && Get(s[i], "id") == id
                                   && forall j :: 0 <= j < i ==> Get(s[j], "id") != id
  {
    var i := IndexOfId(s, id);
    if i == -1 then None else Some(s[i])
  }

  /** `splice(i, 1)` at a valid position. */
  function RemoveAt(s: seq<Record>, i: nat): (r: seq<Record>)
    requires i < |s|
    ensures |r| == |s| - 1
    ensures forall j :: 0 <= j < i ==> r[j] == s[j]
    ensures forall j :: i <= j < |r| ==> r[j] == s[j + 1]
  {
    s[..i] + s[i + 1..]
  }

  /** `filter(r => r[key] === v)`, keeping storage order. */
  function WithField(s: seq<Record>, key: string, v: Value): (r: seq<Record>)
    ensures |r| <= |s|
    ensures forall x :: x in r <==> x in s && Get(x, key) == v
  {
    if s == [] then []
    else if Get(s[0], key) == v then [s[0]] + WithField(s[1..], key, v)
    else WithField(s[1..], key, v)
  }

  /** Filtering distributes over concatenation, so the filter keeps the
      relative storage order of the records it selects. */
  lemma {:induction false} WithFieldConcat(a: seq<Record>, b: seq<Record>, key: string, v: Value)
    ensures WithField(a + b, key, v) == WithField(a, key, v) + WithField(b, key, v)
  {
    if a == [] {
      assert a + b == b;
    } else {
      assert (a + b)[1..] == a[1..] + b;
      WithFieldConcat(a[1..], b, key, v);
    }
  }

  /** Appending a record whose id is new and then removing the first record
      with that id restores the list: create followed by delete is a no-op. */
  lemma AppendThenRemoveRestores(s: seq<Record>, rec: Record, id: Value)
    requires IndexOfId(s, id) == -1
    requires Get(rec, "id") == id
    ensures IndexOfId(s + [rec], id) == |s|
    ensures RemoveAt(s + [rec], |s|) == s
  {
    var t := s + [rec];
    assert t[|s|] == rec;
    assert t[..|s|] == s;
  }

  /** Replacing the record at the first match by a merge that leaves `id`
      alone keeps that record the first match. */
  lemma UpdateKeepsPosition(s: seq<Record>, id: Value, updates: Record)
    requires IndexOfId(s, id) != -1
    requires "id" !in updates
    ensures var i := IndexOfId(s, id);
            IndexOfId(s[i := Spread(s[i], updates)], id) == i
  {
    var i := IndexOfId(s, id);
    var t := s[i := Spread(s[i], updates)];
    assert Get(t[i], "id") == id;
  }
}
