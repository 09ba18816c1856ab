/** The home page's summary figures over the file list: how many files,
    their total size and how many were uploaded today. They are computed
    when the page loads the files and again whenever the upload component
    hands back a new list. */
module HomeStats {
  import opened Values
  import opened RecordList
  import opened FileStore
  import opened UploadFlow

  datatype Stats = Stats(totalFiles: nat, totalSize: int, todayUploads: nat)

  /** `file.size || 0` as an addend: a number counts as itself, `true` as 1,
      every falsy value as 0. */
  function SizeOf(file: Record): (n: int)
    ensures Get(file, "size").Num? ==> n == Get(file, "size").n
    ensures !Get(file, "size").Num? && Get(file, "size") != Bool(true) ==> n == 0
  {
    match Get(file, "size")
    case Num(n) => n
    case Bool(b) => if b then 1 else 0
    case _ => 0
  }

  /** `reduce((acc, file) => acc + (file.size || 0), 0)`, folded from the left. */
  function TotalSize(fs: seq<Record>): (t: int)
    ensures fs == [] ==> t == 0
    ensures |fs| == 1 ==> t == SizeOf(fs[0])
  {
    if fs == [] then 0 else TotalSize(fs[..|fs| - 1]) + SizeOf(fs[|fs| - 1])
  }

  /** `filter(file => isToday(file.uploadedAt)).length`; whether a timestamp
      falls on the current calendar day is a parameter. */
  function TodayUploads(fs: seq<Record>, isToday: Value -> bool): (n: nat)
    ensures n <= |fs|
  {
    if fs == [] then 0
    else TodayUploads(fs[..|fs| - 1], isToday) + (if isToday(Get(fs[|fs| - 1], "uploadedAt")) then 1 else 0)
  }

  /** The figures `loadFiles` and `handleFilesUpdate` set. */
  function StatsOf(fs: seq<Record>, isToday: Value -> bool): (s: Stats)
    ensures s.totalFiles == |fs| && s.todayUploads <= s.totalFiles
  {
    Stats(|fs|, TotalSize(fs), TodayUploads(fs, isToday))
  }

  /** An empty list gives the initial figures. */
  lemma EmptyStats(isToday: Value -> bool)
    ensures StatsOf([], isToday) == Stats(0, 0, 0)
  {
  }

  /** With every size a non-negative number, the total is non-negative, and
      a list holding some positive size has a positive total. */
  lemma {:induction false} TotalSizeSign(fs: seq<Record>)
    requires forall k :: 0 <= k < |fs| ==> SizeOf(fs[k]) >= 0
    ensures TotalSize(fs) >= 0
    ensures (exists k :: 0 <= k < |fs| && SizeOf(fs[k]) > 0) ==> TotalSize(fs) > 0
  {
    if fs != [] {
      var n := |fs| - 1;
      TotalSizeSign(fs[..n]);
      if exists k :: 0 <= k < |fs| && SizeOf(fs[k]) > 0 {
        var k :| 0 <= k < |fs| && SizeOf(fs[k]) > 0;
        if k < n {
          assert fs[..n][k] == fs[k];
        }
      }
    }
  }

  /** The figures add up over concatenation: appending files adds their
      sizes and their uploads of today. */
  lemma {:induction false} StatsConcat(a: seq<Record>, b: seq<Record>, isToday: Value -> bool)
    ensures TotalSize(a + b) == TotalSize(a) + TotalSize(b)
    ensures TodayUploads(a + b, isToday) == TodayUploads(a, isToday) + TodayUploads(b, isToday)
    decreases |b|
  {
    if b == [] {
      assert a + b == a;
    } else {
      var c := b[..|b| - 1];
      assert (a + b)[..|a + b| - 1] == a + c;
      assert (a + b)[|a + b| - 1] == b[|b| - 1];
      StatsConcat(a, c, isToday);
    }
  }

  /** One file prepended contributes its own size and, when uploaded
      today, one upload. */
  lemma StatsCons(x: Record, s: seq<Record>, isToday: Value -> bool)
    ensures TotalSize([x] + s) == SizeOf(x) + TotalSize(s)
    ensures TodayUploads([x] + s, isToday) == (if isToday(Get(x, "uploadedAt")) then 1 else 0) + TodayUploads(s, isToday)
  {
    StatsConcat([x], s, isToday);
    assert [x][..0] == [] && [x][0] == x;
  }

  /** Deleting a file by id (`filter(f => f.id !== fileId)`) takes away
      exactly the files with that id, their sizes and their uploads of
      today. */
  lemma {:induction false} StatsAfterDelete(s: seq<Record>, id: Value, isToday: Value -> bool)
    ensures |s| == |WithoutId(s, id)| + |WithField(s, "id", id)|
    ensures TotalSize(s) == TotalSize(WithoutId(s, id)) + TotalSize(WithField(s, "id", id))
    ensures TodayUploads(s, isToday) == TodayUploads(WithoutId(s, id), isToday) + TodayUploads(WithField(s, "id", id), isToday)
  {
    if s != [] {
      var x, rest := s[0], s[1..];
      var kept, gone := WithoutId(rest, id), WithField(rest, "id", id);
      StatsAfterDelete(rest, id, isToday);
      assert s == [x] + rest;
      StatsCons(x, rest, isToday);
      if Get(x, "id") == id {
        assert WithoutId(s, id) == kept;
        assert WithField(s, "id", id) == [x] + gone;
        StatsCons(x, gone, isToday);
      } else {
        assert WithoutId(s, id) == [x] + kept;
        assert WithField(s, "id", id) == gone;
        StatsCons(x, kept, isToday);
      }
    }
  }

  class HomePage {
    var files: seq<Record>
    var loading: bool
    var error: Option<string>
    var stats: Stats
    const service: FileService

    /** The first render: no files, not loading, no error, zero figures. */
    constructor (service: FileService)
      ensures this.service == service
      ensures files == [] && !loading && error.None? && stats == Stats(0, 0, 0)
    {
      this.service := service;
      files := [];
      loading := false;
      error := None;
      stats := Stats(0, 0, 0);
    }

    /** `loadFiles`: shows every stored file and its figures. */
    method LoadFiles(isToday: Value -> bool)
      modifies this
      ensures files == service.files
      ensures stats == StatsOf(files, isToday)
      ensures !loading && error == old(error)
    {
      loading := true;
      var result := service.GetAll();
      files := result;
      stats := StatsOf(result, isToday);
      loading := false;
    }

    /** `handleFilesUpdate`: the list the upload component hands back
        replaces the shown one and the figures are recomputed. */
    method HandleFilesUpdate(updatedFiles: seq<Record>, isToday: Value -> bool)
      modifies this
      ensures files == updatedFiles
      ensures stats == StatsOf(updatedFiles, isToday)
      ensures loading == old(loading) && error == old(error)
    {
      files := updatedFiles;
      stats := StatsOf(updatedFiles, isToday);
    }
  }
}
