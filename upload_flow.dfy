/** The upload component's state and its changes: the list of in-flight
    uploads, updated by id (append, progress, remove on success, mark
    failed), the simulated progress, the persisting of a finished upload
    through the file store, the merge of results into the file list, the
    folder filter and the delete handler. `Promise.all` runs the uploads of
    a batch concurrently; here they run one after another, and the
    commutation lemmas below show that steps on different uploads may be
    reordered without changing the list. */
module UploadFlow {
  import opened Values
  import opened RecordList
  import opened FileStore
  import opened UploadValidation

  datatype Status = Uploading | Failed

  /** An entry of `uploadingFiles`. */
  datatype InFlight = InFlight(id: nat, name: string, size: nat, fileType: string, progress: nat, status: Status)

  /** The entry `uploadFile` appends before the first progress step. */
  function Pending(file: LocalFile, uploadId: nat): (u: InFlight)
    ensures u.id == uploadId && u.progress == 0 && u.status == Uploading
  {
    InFlight(uploadId, file.name, file.size, file.fileType, 0, Uploading)
  }

  /** `prev.map(f => f.id === uploadId ? { ...f, progress } : f)`. */
  function WithProgress(s: seq<InFlight>, uploadId: nat, progress: nat): (r: seq<InFlight>)
    ensures |r| == |s|
  {
    if s == [] then []
    else [if s[0].id == uploadId then s[0].(progress := progress) else s[0]] + WithProgress(s[1..], uploadId, progress)
  }

  /** Position by position, the entries of this upload get the new
      progress and the others are kept. */
  lemma {:induction false} WithProgressAt(s: seq<InFlight>, uploadId: nat, progress: nat, k: nat)
    requires k < |s|
    ensures WithProgress(s, uploadId, progress)[k]
         == if s[k].id == uploadId then s[k].(progress := progress) else s[k]
  {
    if k > 0 {
      WithProgressAt(s[1..], uploadId, progress, k - 1);
    }
  }

  /** `prev.map(f => f.id === uploadId ? { ...f, status: 'failed' } : f)`. */
  function MarkedFailed(s: seq<InFlight>, uploadId: nat): (r: seq<InFlight>)
    ensures |r| == |s|
  {
    if s == [] then []
    else [if s[0].id == uploadId then s[0].(status := Failed) else s[0]] + MarkedFailed(s[1..], uploadId)
  }

  /** Position by position, the entries of this upload are marked failed
      and the others are kept. */
  lemma {:induction false} MarkedFailedAt(s: seq<InFlight>, uploadId: nat, k: nat)
    requires k < |s|
    ensures MarkedFailed(s, uploadId)[k] == if s[k].id == uploadId then s[k].(status := Failed) else s[k]
  {
    if k > 0 {
      MarkedFailedAt(s[1..], uploadId, k - 1);
    }
  }

  /** `prev.filter(f => f.id !== uploadId)`. */
  function WithoutUpload(s: seq<InFlight>, uploadId: nat): (r: seq<InFlight>)
    ensures |r| <= |s|
  {
    if s == [] then []
    else (if s[0].id == uploadId then [] else [s[0]]) + WithoutUpload(s[1..], uploadId)
  }

  /** An entry survives the removal exactly when it belongs to another upload. */
  lemma {:induction false} WithoutUploadMembers(s: seq<InFlight>, uploadId: nat, u: InFlight)
    ensures u in WithoutUpload(s, uploadId) <==> u in s && u.id != uploadId
  {
    if s != [] {
      WithoutUploadMembers(s[1..], uploadId, u);
      assert s == [s[0]] + s[1..];
    }
  }

  /** One update of `uploadingFiles`. */
  datatype Step = Add(item: InFlight) | Progress(uploadId: nat, progress: nat) | Remove(uploadId: nat) | Fail(uploadId: nat)

  function StepId(st: Step): nat
  {
    match st
    case Add(u) => u.id
    case Progress(id, _) => id
    case Remove(id) => id
    case Fail(id) => id
  }

  function Apply(s: seq<InFlight>, st: Step): seq<InFlight>
  {
    match st
    case Add(u) => s + [u]
    case Progress(id, p) => WithProgress(s, id, p)
    case Remove(id) => WithoutUpload(s, id)
    case Fail(id) => MarkedFailed(s, id)
  }

  /** The entries of one upload. */
  function EntriesOf(s: seq<InFlight>, uploadId: nat): seq<InFlight>
  {
    if s == [] then []
    else (if s[0].id == uploadId then [s[0]] else []) + EntriesOf(s[1..], uploadId)
  }

  lemma EntriesOfAppend(s: seq<InFlight>, u: InFlight, uploadId: nat)
    ensures EntriesOf(s + [u], uploadId) == EntriesOf(s, uploadId) + (if u.id == uploadId then [u] else [])
  {
    EntriesOfConcat(s, [u], uploadId);
    assert [u][1..] == [];
  }

  lemma {:induction false} EntriesOfConcat(x: seq<InFlight>, y: seq<InFlight>, uploadId: nat)
    ensures EntriesOf(x + y, uploadId) == EntriesOf(x, uploadId) + EntriesOf(y, uploadId)
  {
    if x == [] {
      assert x + y == y;
    } else {
      var head := if x[0].id == uploadId then [x[0]] else [];
      assert (x + y)[0] == x[0] && (x + y)[1..] == x[1..] + y;
      assert EntriesOf(x + y, uploadId) == head + EntriesOf(x[1..] + y, uploadId);
      EntriesOfConcat(x[1..], y, uploadId);
      assert head + (EntriesOf(x[1..], uploadId) + EntriesOf(y, uploadId))
          == (head + EntriesOf(x[1..], uploadId)) + EntriesOf(y, uploadId);
    }
  }

  /** A step keyed by one upload leaves the entries of every other upload
      exactly as they were. */
  lemma {:induction false} StepLeavesOthers(s: seq<InFlight>, st: Step, other: nat)
    requires StepId(st) != other
    ensures EntriesOf(Apply(s, st), other) == EntriesOf(s, other)
  {
    if st.Add? {
      EntriesOfAppend(s, st.item, other);
    } else if s != [] {
      StepLeavesOthers(s[1..], st, other);
      ConsSplit(s, st);
      EntriesOfConcat(Apply([s[0]], st), Apply(s[1..], st), other);
      assert EntriesOf(Apply([s[0]], st), other) == EntriesOf([s[0]], other) by {
        assert [s[0]][1..] == [];
      }
    }
  }

  /** Two steps on different uploads, of which at most one appends, can be
      taken in either order. */
  lemma {:induction false} StepsCommute(s: seq<InFlight>, a: Step, b: Step)
    requires StepId(a) != StepId(b) && !(a.Add? && b.Add?)
    ensures Apply(Apply(s, a), b) == Apply(Apply(s, b), a)
  {
    if a.Add? {
      AppendCommutes(s, a.item, b);
    } else if b.Add? {
      AppendCommutes(s, b.item, a);
    } else if s != [] {
      StepsCommute(s[1..], a, b);
      SingleCommute(s[0], a, b);
      assert Apply(Apply(s, a), b) == Apply(Apply([s[0]], a), b) + Apply(Apply(s[1..], a), b) by {
        ConsSplit(s, a);
        ConsSplitSeq(Apply([s[0]], a), Apply(s[1..], a), b);
      }
      assert Apply(Apply(s, b), a) == Apply(Apply([s[0]], b), a) + Apply(Apply(s[1..], b), a) by {
        ConsSplit(s, b);
        ConsSplitSeq(Apply([s[0]], b), Apply(s[1..], b), a);
      }
    }
  }

  /** Two non-appending steps on different uploads commute on one entry. */
  lemma SingleCommute(x: InFlight, a: Step, b: Step)
    requires StepId(a) != StepId(b) && !a.Add? && !b.Add?
    ensures Apply(Apply([x], a), b) == Apply(Apply([x], b), a)
  {
    assert [x][1..] == [];
    if x.id == StepId(a) {
      assert Apply([x], b) == [x];
    } else if x.id == StepId(b) {
      assert Apply([x], a) == [x];
    } else {
      assert Apply([x], a) == [x] && Apply([x], b) == [x];
    }
  }

  /** A non-appending step distributes over concatenation. */
  lemma ConsSplitSeq(x: seq<InFlight>, y: seq<InFlight>, st: Step)
    requires !st.Add?
    ensures Apply(x + y, st) == Apply(x, st) + Apply(y, st)
  {
    match st
    case Progress(id, p) => WithProgressConcat(x, y, id, p);
    case Remove(id) => WithoutUploadConcat(x, y, id);
    case Fail(id) => MarkedFailedConcat(x, y, id);
  }

  lemma {:induction false} WithProgressConcat(x: seq<InFlight>, y: seq<InFlight>, id: nat, p: nat)
    ensures WithProgress(x + y, id, p) == WithProgress(x, id, p) + WithProgress(y, id, p)
  {
    if x == [] {
      assert x + y == y;
    } else {
      assert (x + y)[0] == x[0] && (x + y)[1..] == x[1..] + y;
      WithProgressConcat(x[1..], y, id, p);
    }
  }

  lemma {:induction false} MarkedFailedConcat(x: seq<InFlight>, y: seq<InFlight>, id: nat)
    ensures MarkedFailed(x + y, id) == MarkedFailed(x, id) + MarkedFailed(y, id)
  {
    if x == [] {
      assert x + y == y;
    } else {
      assert (x + y)[0] == x[0] && (x + y)[1..] == x[1..] + y;
      MarkedFailedConcat(x[1..], y, id);
    }
  }

  lemma {:induction false} WithoutUploadConcat(x: seq<InFlight>, y: seq<InFlight>, id: nat)
    ensures WithoutUpload(x + y, id) == WithoutUpload(x, id) + WithoutUpload(y, id)
  {
    if x == [] {
      assert x + y == y;
    } else {
      var head := if x[0].id == id then [] else [x[0]];
      assert (x + y)[0] == x[0] && (x + y)[1..] == x[1..] + y;
      WithoutUploadConcat(x[1..], y, id);
      assert head + (WithoutUpload(x[1..], id) + WithoutUpload(y, id))
          == (head + WithoutUpload(x[1..], id)) + WithoutUpload(y, id);
    }
  }

  lemma ConsSplit(s: seq<InFlight>, st: Step)
    requires !st.Add? && s != []
    ensures Apply(s, st) == Apply([s[0]], st) + Apply(s[1..], st)
  {
    assert [s[0]][1..] == [];
  }

  /** Appending an entry commutes with a step on another upload. */
  lemma AppendCommutes(s: seq<InFlight>, u: InFlight, st: Step)
    requires !st.Add? && StepId(st) != u.id
    ensures Apply(Apply(s, Add(u)), st) == Apply(Apply(s, st), Add(u))
  {
    ConsSplitSeq(s, [u], st);
    assert Apply([u], st) == [u] by {
      assert [u][1..] == [];
    }
  }

  /** No entry of the list belongs to this upload. */
  predicate Absent(s: seq<InFlight>, uploadId: nat)
  {
    forall k :: 0 <= k < |s| ==> s[k].id != uploadId
  }

  /** Progress updates to one upload overwrite each other: the last wins. */
  lemma ProgressLastWins(s: seq<InFlight>, uploadId: nat, p: nat, q: nat)
    ensures WithProgress(WithProgress(s, uploadId, p), uploadId, q) == WithProgress(s, uploadId, q)
  {
    var once := WithProgress(s, uploadId, p);
    forall k | 0 <= k < |s|
      ensures WithProgress(once, uploadId, q)[k] == WithProgress(s, uploadId, q)[k]
    {
      WithProgressAt(s, uploadId, p, k);
      WithProgressAt(once, uploadId, q, k);
      WithProgressAt(s, uploadId, q, k);
    }
  }

  /** Removing an upload that has no entry changes nothing. */
  lemma {:induction false} WithoutAbsent(s: seq<InFlight>, uploadId: nat)
    requires Absent(s, uploadId)
    ensures WithoutUpload(s, uploadId) == s
  {
    if s != [] {
      WithoutAbsent(s[1..], uploadId);
    }
  }

  /** What the environment decides for one upload: the id `uploadFile`
      draws, the object URL, whether persisting it throws, and the id and
      timestamp the file store draws. */
  datatype Outcome = Outcome(uploadId: nat, url: Value, fails: bool, freshId: string, now: string)

  /** The entry a failed upload leaves behind: all progress steps ran, then
      it was marked failed. */
  function FailedEntry(file: LocalFile, uploadId: nat): (u: InFlight)
    ensures u.id == uploadId && u.status == Failed && u.progress == 100
  {
    Pending(file, uploadId).(progress := 100, status := Failed)
  }

  /** The in-flight list after one `uploadFile`: appended, advanced to 100,
      then removed on success or marked failed. */
  function AfterUpload(s: seq<InFlight>, file: LocalFile, o: Outcome): (r: seq<InFlight>)
    ensures |r| <= |s| + 1
    ensures o.fails ==> |r| == |s| + 1
  {
    var advanced := WithProgress(s + [Pending(file, o.uploadId)], o.uploadId, 100);
    if o.fails then MarkedFailed(advanced, o.uploadId) else WithoutUpload(advanced, o.uploadId)
  }

  lemma AdvanceFresh(s: seq<InFlight>, file: LocalFile, uploadId: nat)
    requires Absent(s, uploadId)
    ensures WithProgress(s + [Pending(file, uploadId)], uploadId, 100) == s + [Pending(file, uploadId).(progress := 100)]
  {
    var t := s + [Pending(file, uploadId)];
    forall k | 0 <= k < |t|
      ensures WithProgress(t, uploadId, 100)[k] == (s + [Pending(file, uploadId).(progress := 100)])[k]
    {
      WithProgressAt(t, uploadId, 100, k);
    }
  }

  /** A successful upload with a fresh id leaves the in-flight list as it
      found it. */
  lemma SuccessfulUploadLeavesNoTrace(s: seq<InFlight>, file: LocalFile, o: Outcome)
    requires Absent(s, o.uploadId) && !o.fails
    ensures AfterUpload(s, file, o) == s
  {
    var u := Pending(file, o.uploadId).(progress := 100);
    AdvanceFresh(s, file, o.uploadId);
    ConsSplitSeq(s, [u], Remove(o.uploadId));
    WithoutAbsent(s, o.uploadId);
    assert WithoutUpload([u], o.uploadId) == [] by {
      assert [u][1..] == [];
    }
  }

  /** A failed upload with a fresh id leaves exactly one entry behind, at
      the end, marked failed with full progress. */
  lemma FailedUploadLeavesFailedEntry(s: seq<InFlight>, file: LocalFile, o: Outcome)
    requires Absent(s, o.uploadId) && o.fails
    ensures AfterUpload(s, file, o) == s + [FailedEntry(file, o.uploadId)]
  {
    AdvanceFresh(s, file, o.uploadId);
    var t := s + [Pending(file, o.uploadId).(progress := 100)];
    forall k | 0 <= k < |t|
      ensures MarkedFailed(t, o.uploadId)[k] == (s + [FailedEntry(file, o.uploadId)])[k]
    {
      MarkedFailedAt(t, o.uploadId, k);
    }
  }

  /** The in-flight list after a batch run one upload after another. */
  function AfterUploads(s: seq<InFlight>, valid: seq<LocalFile>, env: seq<Outcome>): (r: seq<InFlight>)
    requires |valid| == |env|
    ensures |r| <= |s| + |valid|
  {
    if valid == [] then s
    else
      var n := |valid| - 1;
      AfterUpload(AfterUploads(s, valid[..n], env[..n]), valid[n], env[n])
  }

  /** The failed entries of a batch, in upload order. */
  function FailedEntries(valid: seq<LocalFile>, env: seq<Outcome>): (r: seq<InFlight>)
    requires |valid| == |env|
    ensures forall k :: 0 <= k < |r| ==> exists j :: 0 <= j < |env| && env[j].uploadId == r[k].id
  {
    if valid == [] then []
    else
      var n := |valid| - 1;
      var before := FailedEntries(valid[..n], env[..n]);
      assert forall k :: 0 <= k < |before| ==> exists j :: 0 <= j < n && env[j].uploadId == before[k].id by {
        forall k | 0 <= k < |before| ensures exists j :: 0 <= j < n && env[j].uploadId == before[k].id {
          var j :| 0 <= j < n && env[..n][j].uploadId == before[k].id;
        }
      }
      before + (if env[n].fails then [FailedEntry(valid[n], env[n].uploadId)] else [])
  }

  /** Upload ids drawn for a batch are pairwise different and unused. */
  predicate FreshIds(s: seq<InFlight>, env: seq<Outcome>)
  {
    && (forall i, j :: 0 <= i < j < |env| ==> env[i].uploadId != env[j].uploadId)
    && (forall i :: 0 <= i < |env| ==> Absent(s, env[i].uploadId))
  }

  /** Failed entries carry only the batch's own upload ids. */
  lemma FailedEntriesAvoid(valid: seq<LocalFile>, env: seq<Outcome>, id: nat)
    requires |valid| == |env|
    requires forall j :: 0 <= j < |env| ==> env[j].uploadId != id
    ensures Absent(FailedEntries(valid, env), id)
  {
    var f := FailedEntries(valid, env);
    forall k | 0 <= k < |f| ensures f[k].id != id {
      var j :| 0 <= j < |env| && env[j].uploadId == f[k].id;
    }
  }

  /** With fresh, distinct upload ids, a batch leaves the entries that were
      there and, after them, one failed entry per failed upload: successful
      uploads leave no trace. */
  lemma {:induction false} BatchLeavesOnlyFailures(s: seq<InFlight>, valid: seq<LocalFile>, env: seq<Outcome>)
    requires |valid| == |env| && FreshIds(s, env)
    ensures AfterUploads(s, valid, env) == s + FailedEntries(valid, env)
  {
    if valid != [] {
      var n := |valid| - 1;
      var id := env[n].uploadId;
      assert FreshIds(s, env[..n]) by {
        forall i | 0 <= i < n ensures Absent(s, env[..n][i].uploadId) {
          assert env[..n][i] == env[i];
        }
      }
      BatchLeavesOnlyFailures(s, valid[..n], env[..n]);
      var before := s + FailedEntries(valid[..n], env[..n]);
      assert Absent(before, id) by {
        FailedEntriesAvoid(valid[..n], env[..n], id);
        assert Absent(s, id);
      }
      if env[n].fails {
        FailedUploadLeavesFailedEntry(before, valid[n], env[n]);
      } else {
        SuccessfulUploadLeavesNoTrace(before, valid[n], env[n]);
      }
    }
  }

  /** The record `uploadFile` hands to the file store. */
  function UploadRecord(file: LocalFile, folderId: Value, url: Value): (r: Record)
    ensures Get(r, "folderId") == folderId && Get(r, "status") == Str("completed")
    ensures Get(r, "progress") == Num(100) && Get(r, "name") == Str(file.name)
  {
    map["name" := Str(file.name), "size" := Num(file.size), "type" := Str(file.fileType),
        "status" := Str("completed"), "progress" := Num(100), "folderId" := folderId, "url" := url]
  }

  /** What `uploadFile` resolves to: the stored copy, or null when
      persisting threw. */
  function UploadResult(file: LocalFile, o: Outcome, folderId: Value): (r: Option<Record>)
    ensures r.None? <==> o.fails
    ensures r.Some? ==> Get(r.value, "folderId") == folderId && Get(r.value, "id") == Str(o.freshId)
  {
    if o.fails then None else Some(NewFile(UploadRecord(file, folderId, o.url), o.freshId, o.now))
  }

  /** The results of a batch, in file order (`Promise.all` keeps it). */
  function UploadResults(valid: seq<LocalFile>, env: seq<Outcome>, folderId: Value): (r: seq<Option<Record>>)
    requires |valid| == |env|
    ensures |r| == |valid|
    ensures forall k :: 0 <= k < |r| ==> r[k] == UploadResult(valid[k], env[k], folderId)
  {
    if valid == [] then []
    else
      var n := |valid| - 1;
      UploadResults(valid[..n], env[..n], folderId) + [UploadResult(valid[n], env[n], folderId)]
  }

  /** `filter(f => f !== null)`. */
  function Present(rs: seq<Option<Record>>): (r: seq<Record>)
    ensures |r| <= |rs|
    ensures forall x :: x in r <==> Some(x) in rs
  {
    if rs == [] then []
    else Present(rs[..|rs| - 1]) + (if rs[|rs| - 1].Some? then [rs[|rs| - 1].value] else [])
  }

  /** The files the grid shows: all of them when no folder is selected,
      otherwise those whose `folderId` is the selected one. */
  function FilteredFiles(files: seq<Record>, selected: Value): (r: seq<Record>)
    ensures selected == Null ==> r == files
    ensures selected != Null ==> forall x :: x in r <==> x in files && Get(x, "folderId") == selected
  {
    if selected == Null then files else WithField(files, "folderId", selected)
  }

  /** `files.filter(f => f.id !== fileId)`. */
  function WithoutId(s: seq<Record>, id: Value): (r: seq<Record>)
    ensures |r| <= |s|
    ensures forall x :: x in r <==> x in s && Get(x, "id") != id
  {
    if s == [] then []
    else (if Get(s[0], "id") == id then [] else [s[0]]) + WithoutId(s[1..], id)
  }

  /** A file uploaded while a folder is selected is shown in that folder's
      view (and in the unfiltered view when none is). */
  lemma UploadedIsVisible(files: seq<Record>, file: LocalFile, o: Outcome, folderId: Value)
    requires !o.fails
    ensures UploadResult(file, o, folderId).value in FilteredFiles(files + [UploadResult(file, o, folderId).value], folderId)
  {
    var r := UploadResult(file, o, folderId).value;
    assert r in files + [r];
  }

  /** After deleting by id, no shown file has that id, and every other file
      is still shown. */
  lemma DeletedNotShown(files: seq<Record>, id: Value, selected: Value)
    ensures forall x :: x in FilteredFiles(WithoutId(files, id), selected) ==> Get(x, "id") != id
    ensures forall x :: x in FilteredFiles(files, selected) && Get(x, "id") != id ==> x in FilteredFiles(WithoutId(files, id), selected)
  {
  }

  /** The progress values `uploadFile` reports: 0, 10, ..., 100. */
  function ProgressValues(): (r: seq<nat>)
    ensures |r| == 11 && r[0] == 0 && r[10] == 100
    ensures forall k :: 0 <= k < 10 ==> r[k] < r[k + 1]
    ensures forall k :: 0 <= k < 11 ==> r[k] == 10 * k
  {
    seq(11, k => 10 * k)
  }

  lemma ResultsStep(valid: seq<LocalFile>, env: seq<Outcome>, folderId: Value, i: nat)
    requires |valid| == |env| && i < |valid|
    ensures UploadResults(valid[..i + 1], env[..i + 1], folderId)
         == UploadResults(valid[..i], env[..i], folderId) + [UploadResult(valid[i], env[i], folderId)]
  {
    assert valid[..i + 1][..i] == valid[..i] && env[..i + 1][..i] == env[..i];
  }

  lemma AfterUploadsStep(s: seq<InFlight>, valid: seq<LocalFile>, env: seq<Outcome>, i: nat)
    requires |valid| == |env| && i < |valid|
    ensures AfterUploads(s, valid[..i + 1], env[..i + 1])
         == AfterUpload(AfterUploads(s, valid[..i], env[..i]), valid[i], env[i])
  {
    assert valid[..i + 1][..i] == valid[..i] && env[..i + 1][..i] == env[..i];
  }

  lemma PresentSnoc(rs: seq<Option<Record>>, r: Option<Record>)
    ensures Present(rs + [r]) == Present(rs) + (if r.Some? then [r.value] else [])
  {
    assert (rs + [r])[..|rs|] == rs;
  }

  lemma AppendAssoc(a: seq<Record>, b: seq<Record>, c: seq<Record>)
    ensures (a + b) + c == a + (b + c)
  {
  }

  class MainFeature {
    /** The `files` prop, replaced through `onFilesUpdate`. */
    var files: seq<Record>
    /** `uploadingFiles`. */
    var uploading: seq<InFlight>
    /** `selectedFolderId`: `Null` for all files, otherwise a folder id. */
    var selectedFolderId: Value
    const service: FileService

    constructor (initial: seq<Record>, service: FileService)
      ensures files == initial && uploading == [] && selectedFolderId == Null
      ensures this.service == service
    {
      files := initial;
      uploading := [];
      selectedFolderId := Null;
      this.service := service;
    }

    /** `handleFolderSelect`. */
    method SelectFolder(folderId: Value)
      modifies this
      ensures selectedFolderId == folderId
      ensures files == old(files) && uploading == old(uploading)
    {
      selectedFolderId := folderId;
    }

    /** The simulated transfer: progress 0, 10, ..., 100 for one upload. */
    method SimulateProgress(uploadId: nat) returns (reported: seq<nat>)
      modifies this
      ensures reported == ProgressValues()
      ensures uploading == WithProgress(old(uploading), uploadId, 100)
      ensures files == old(files) && selectedFolderId == old(selectedFolderId)
    {
      reported := [];
      var i := 0;
      ghost var j := 0;
      while i <= 100
        invariant i == 10 * j && 0 <= j <= 11
        invariant reported == ProgressValues()[..j]
        invariant j == 0 ==> uploading == old(uploading)
        invariant j > 0 ==> uploading == WithProgress(old(uploading), uploadId, i - 10)
        invariant files == old(files) && selectedFolderId == old(selectedFolderId)
      {
        if j > 0 {
          ProgressLastWins(old(uploading), uploadId, i - 10, i);
        }
        uploading := WithProgress(uploading, uploadId, i);
        assert ProgressValues()[..j + 1] == ProgressValues()[..j] + [i];
        reported := reported + [i];
        i := i + 10;
        j := j + 1;
      }
      assert ProgressValues()[..j] == ProgressValues();
    }

    /** `uploadFile`: registers the upload, runs the progress steps, then
        stores the record through the file store and drops the entry, or,
        when storing throws, marks the entry failed and resolves to null. */
    method UploadFile(file: LocalFile, o: Outcome) returns (saved: Option<Record>)
      modifies this, service
      ensures saved == UploadResult(file, o, old(selectedFolderId))
      ensures uploading == AfterUpload(old(uploading), file, o)
      ensures service.files == old(service.files) + (if saved.Some? then [saved.value] else [])
      ensures files == old(files) && selectedFolderId == old(selectedFolderId)
    {
      var uploadId := o.uploadId;
      uploading := uploading + [Pending(file, uploadId)];
      var _ := SimulateProgress(uploadId);
      if o.fails {
        uploading := MarkedFailed(uploading, uploadId);
        saved := None;
      } else {
        var fileData := UploadRecord(file, selectedFolderId, o.url);
        var stored := service.Create(fileData, o.freshId, o.now);
        uploading := WithoutUpload(uploading, uploadId);
        saved := Some(stored);
      }
    }

    /** The `Promise.all` over `uploadFile`, run one upload after another,
        followed by the filter that drops the uploads that resolved to null. */
    method UploadAll(validFiles: seq<LocalFile>, env: seq<Outcome>) returns (stored: seq<Record>)
      requires |env| == |validFiles|
      modifies this, service
      ensures stored == Present(UploadResults(validFiles, env, old(selectedFolderId)))
      ensures service.files == old(service.files) + stored
      ensures uploading == AfterUploads(old(uploading), validFiles, env)
      ensures files == old(files) && selectedFolderId == old(selectedFolderId)
    {
      var folderId := selectedFolderId;
      var results: seq<Option<Record>> := [];
      var i := 0;
      while i < |validFiles|
        invariant 0 <= i <= |validFiles|
        invariant results == UploadResults(validFiles[..i], env[..i], folderId)
        invariant uploading == AfterUploads(old(uploading), validFiles[..i], env[..i])
        invariant service.files == old(service.files) + Present(results)
        invariant files == old(files) && selectedFolderId == folderId
      {
        ghost var storedBefore := service.files;
        var r := UploadFile(validFiles[i], env[i]);
        ResultsStep(validFiles, env, folderId, i);
        AfterUploadsStep(old(uploading), validFiles, env, i);
        ghost var tail: seq<Record> := if r.Some? then [r.value] else [];
        assert service.files == old(service.files) + Present(results + [r]) by {
          PresentSnoc(results, r);
          AppendAssoc(old(service.files), Present(results), tail);
        }
        results := results + [r];
        i := i + 1;
      }
      assert results == UploadResults(validFiles, env, folderId)
          && uploading == AfterUploads(old(uploading), validFiles, env) by {
        assert validFiles[..i] == validFiles && env[..i] == env;
      }
      stored := Present(results);
    }

    /** `handleFiles`: validates the batch, and when some file passes,
        uploads those files and appends the stored copies to the file list.
        Returns the error lines it reports and the number uploaded. */
    method HandleFiles(fileList: seq<LocalFile>, env: seq<Outcome>) returns (errors: seq<string>, uploadedCount: nat)
      requires |env| == |ValidFiles(fileList)|
      modifies this, service
      ensures errors == ErrorLines(fileList)
      ensures var stored := Present(UploadResults(ValidFiles(fileList), env, old(selectedFolderId)));
              && files == old(files) + stored
              && service.files == old(service.files) + stored
              && uploadedCount == |stored|
      ensures uploading == AfterUploads(old(uploading), ValidFiles(fileList), env)
      ensures selectedFolderId == old(selectedFolderId)
    {
      var validFiles;
      validFiles, errors := Partition(fileList);
      if |validFiles| == 0 {
        uploadedCount := 0;
        assert files == old(files) + [];
        return;
      }
      var stored := UploadAll(validFiles, env);
      files := files + stored;
      uploadedCount := |stored|;
    }

    /** `handleDeleteFile`: deletes through the file store and, only when
        that succeeds, drops every file with this id from the list. */
    method HandleDeleteFile(fileId: Value) returns (ok: bool)
      modifies this, service
      ensures ok <==> old(IndexOfId(service.files, fileId)) != -1
      ensures ok ==> files == WithoutId(old(files), fileId)
      ensures !ok ==> files == old(files) && service.files == old(service.files)
      ensures ok ==> service.files == RemoveAt(old(service.files), old(IndexOfId(service.files, fileId)))
      ensures uploading == old(uploading) && selectedFolderId == old(selectedFolderId)
    {
      var r := service.Delete(fileId);
      if r.Err? {
        return false;
      }
      files := WithoutId(files, fileId);
      ok := true;
    }
  }
}
