/** The checks the upload component applies to a dropped or selected batch
    before anything is uploaded: a type allow-list, then a size limit, and
    the split of the batch into files to upload and error lines. */
module UploadValidation {
  import opened Values

  /** A browser `File` as the component reads it. */
  datatype LocalFile = LocalFile(name: string, size: nat, fileType: string)

  const AllowedTypes: seq<string> := [
    "image/jpeg", "image/png", "image/gif", "image/webp",
    "application/pdf", "text/plain", "application/msword",
    "application/" + "vnd.openxmlformats-officedocument." + "wordprocessingml.document",
    "video/mp4", "video/webm", "audio/mp3", "audio/wav"
  ]

  /** 10 MB. */
  const MaxFileSize: nat := 10 * 1024 * 1024

  function TypeError(fileType: string): string
  {
    "File type " + fileType + " is not supported"
  }

  /** `maxFileSize / (1024 * 1024)` is 10, so the message names 10MB. */
  const SizeError: string := "File size must be less than 10MB"

  /** `validateFile`: no message iff the type is allowed and the size is at
      most the limit; the type is checked first. */
  function ValidateFile(file: LocalFile): (r: Option<string>)
    ensures r.None? <==> file.fileType in AllowedTypes && file.size <= MaxFileSize
    ensures file.fileType !in AllowedTypes ==> r == Some(TypeError(file.fileType))
    ensures file.fileType in AllowedTypes && file.size > MaxFileSize ==> r == Some(SizeError)
  {
    if file.fileType !in AllowedTypes then Some(TypeError(file.fileType))
    else if file.size > MaxFileSize then Some(SizeError)
    else None
  }

  /** A file of exactly 10 MB passes; one byte more fails with the size
      message; a file failing both checks gets the type message. */
  lemma SizeLimitBoundary(name: string)
    ensures ValidateFile(LocalFile(name, 10485760, "image/png")).None?
    ensures ValidateFile(LocalFile(name, 10485761, "image/png")) == Some(SizeError)
    ensures ValidateFile(LocalFile(name, 10485761, "image/bmp")) == Some(TypeError("image/bmp"))
  {
    assert "image/png" == AllowedTypes[1];
    assert "image/bmp" != AllowedTypes[0];
    assert "image/bmp" !in AllowedTypes by {
      forall k | 0 <= k < |AllowedTypes| ensures AllowedTypes[k] != "image/bmp" {
        assert AllowedTypes[k][6] != 'b' || |AllowedTypes[k]| != 9;
      }
    }
  }

  /** The error line `handleFiles` collects for a rejected file. */
  function ErrorLine(file: LocalFile): (r: string)
    requires ValidateFile(file).Some?
    ensures file.fileType !in AllowedTypes ==> r == file.name + ": " + TypeError(file.fileType)
    ensures file.fileType in AllowedTypes ==> r == file.name + ": " + SizeError
  {
    file.name + ": " + ValidateFile(file).value
  }

  /** The files that pass validation, in input order. */
  function ValidFiles(s: seq<LocalFile>): (r: seq<LocalFile>)
    ensures forall f :: f in r <==> f in s && ValidateFile(f).None?
  {
    if s == [] then []
    else ValidFiles(s[..|s| - 1]) + (if ValidateFile(s[|s| - 1]).None? then [s[|s| - 1]] else [])
  }

  /** The files that fail validation, in input order. */
  function Rejected(s: seq<LocalFile>): (r: seq<LocalFile>)
    ensures forall f :: f in r <==> f in s && ValidateFile(f).Some?
  {
    if s == [] then []
    else Rejected(s[..|s| - 1]) + (if ValidateFile(s[|s| - 1]).Some? then [s[|s| - 1]] else [])
  }

  /** The error lines of a batch: one per rejected file, in input order,
      each the file's name, ": " and its message. */
  function ErrorLines(s: seq<LocalFile>): (r: seq<string>)
    ensures |r| <= |s|
  {
    if s == [] then []
    else ErrorLines(s[..|s| - 1]) + (if ValidateFile(s[|s| - 1]).Some? then [ErrorLine(s[|s| - 1])] else [])
  }

  /** There is one error line per rejected file, in the same order. */
  lemma {:induction false} ErrorLinesMatchRejected(s: seq<LocalFile>)
    ensures |ErrorLines(s)| == |Rejected(s)|
    ensures forall k :: 0 <= k < |ErrorLines(s)| ==> ErrorLines(s)[k] == ErrorLine(Rejected(s)[k])
  {
    if s != [] {
      ErrorLinesMatchRejected(s[..|s| - 1]);
    }
  }

  /** Every file of the batch goes to exactly one side. */
  lemma {:induction false} PartitionCounts(s: seq<LocalFile>)
    ensures |ValidFiles(s)| + |Rejected(s)| == |s|
  {
    if s != [] {
      PartitionCounts(s[..|s| - 1]);
    }
  }

  /** Splitting distributes over concatenation, so both sides keep the
      relative input order. */
  lemma {:induction false} ValidFilesConcat(a: seq<LocalFile>, b: seq<LocalFile>)
    ensures ValidFiles(a + b) == ValidFiles(a) + ValidFiles(b)
    decreases |b|
  {
    if b == [] {
      assert a + b == a;
    } else {
      var c := b[..|b| - 1];
      assert (a + b)[..|a + b| - 1] == a + c;
      ValidFilesConcat(a, c);
    }
  }

  lemma {:induction false} RejectedConcat(a: seq<LocalFile>, b: seq<LocalFile>)
    ensures Rejected(a + b) == Rejected(a) + Rejected(b)
    decreases |b|
  {
    if b == [] {
      assert a + b == a;
    } else {
      var c := b[..|b| - 1];
      assert (a + b)[..|a + b| - 1] == a + c;
      RejectedConcat(a, c);
    }
  }

  /** `handleFiles`' first loop: each file is validated and pushed onto
      `validFiles` or, as an error line, onto `errors`. */
  method Partition(fileList: seq<LocalFile>) returns (validFiles: seq<LocalFile>, errors: seq<string>)
    ensures validFiles == ValidFiles(fileList)
    ensures errors == ErrorLines(fileList)
    ensures |validFiles| + |errors| == |fileList|
  {
    validFiles, errors := [], [];
    var i := 0;
    while i < |fileList|
      invariant 0 <= i <= |fileList|
      invariant validFiles == ValidFiles(fileList[..i])
      invariant errors == ErrorLines(fileList[..i])
      invariant |validFiles| + |errors| == i
    {
      var file := fileList[i];
      PartitionStep(fileList, i);
      var error := ValidateFile(file);
      if error.Some? {
        errors := errors + [ErrorLine(file)];
      } else {
        validFiles := validFiles + [file];
      }
      i := i + 1;
    }
    assert validFiles == ValidFiles(fileList) && errors == ErrorLines(fileList) by {
      assert fileList[..i] == fileList;
    }
  }

  lemma PartitionStep(fileList: seq<LocalFile>, i: nat)
    requires i < |fileList|
    ensures ValidFiles(fileList[..i + 1])
         == ValidFiles(fileList[..i]) + (if ValidateFile(fileList[i]).None? then [fileList[i]] else [])
    ensures ErrorLines(fileList[..i + 1])
         == ErrorLines(fileList[..i]) + (if ValidateFile(fileList[i]).Some? then [ErrorLine(fileList[i])] else [])
  {
    assert fileList[..i + 1][..i] == fileList[..i];
  }

  /** The icon name `getFileIcon` picks for a type (`None` for a missing one). */
  function FileIcon(fileType: Option<string>): (icon: string)
    ensures icon in {"Image", "Video", "Music", "FileText", "File"}
    ensures fileType.Some? && "image/" <= fileType.value ==> icon == "Image"
    ensures fileType.None? ==> icon == "File"
    ensures fileType.Some? && "video/" <= fileType.value ==> icon == "Video"
    ensures fileType.Some? && "audio/" <= fileType.value ==> icon == "Music"
    ensures fileType == Some("application/pdf") ==> icon == "FileText"
    ensures icon == "File" <==>
              fileType.None? ||
              (!("image/" <= fileType.value) && !("video/" <= fileType.value) &&
               !("audio/" <= fileType.value) && fileType.value != "application/pdf")
  {
    if fileType.None? then "File"
    else
      // the four tests exclude one another: the first two characters differ
      var v := fileType.value;
      if "image/" <= v then
        assert v[0] == 'i';
        "Image"
      else if "video/" <= v then
        assert v[0] == 'v';
        "Video"
      else if "audio/" <= v then
        assert v[0] == 'a' && v[1] == 'u';
        "Music"
      else if v == "application/pdf" then "FileText"
      else "File"
  }

  /** A string is no extension of a prefix it differs from at position `j`. */
  lemma DiffersAt(p: string, s: string, j: nat)
    requires j < |p| && j < |s| && p[j] != s[j]
    ensures !(p <= s)
  {
  }

  /** The four allowed image types get the image icon. */
  lemma ImageTypeIcons()
    ensures forall k :: 0 <= k < 4 ==> FileIcon(Some(AllowedTypes[k])) == "Image"
  {
    forall k | 0 <= k < 4 ensures "image/" <= AllowedTypes[k] {
      assert AllowedTypes[k][..6] == "image/";
    }
  }

  /** Of the allowed document types, PDF gets the text icon, while plain
      text and both Word formats fall through to the generic icon. */
  lemma DocumentTypeIcons()
    ensures FileIcon(Some(AllowedTypes[4])) == "FileText"
    ensures forall k :: 5 <= k < 8 ==> FileIcon(Some(AllowedTypes[k])) == "File"
  {
    var t := AllowedTypes;
    DiffersAt("image/", t[4], 0);
    DiffersAt("video/", t[4], 0);
    DiffersAt("audio/", t[4], 1);
    DiffersAt("image/", t[5], 0);
    DiffersAt("video/", t[5], 0);
    DiffersAt("audio/", t[5], 0);
    DiffersAt("application/pdf", t[5], 0);
    DiffersAt("image/", t[6], 0);
    DiffersAt("video/", t[6], 0);
    DiffersAt("audio/", t[6], 1);
    DiffersAt("application/pdf", t[6], 12);
    DiffersAt("image/", t[7], 0);
    DiffersAt("video/", t[7], 0);
    DiffersAt("audio/", t[7], 1);
    DiffersAt("application/pdf", t[7], 12);
  }

  /** The allowed video and audio types get the video and music icons. */
  lemma MediaTypeIcons()
    ensures forall k :: 8 <= k < 10 ==> FileIcon(Some(AllowedTypes[k])) == "Video"
    ensures forall k :: 10 <= k < 12 ==> FileIcon(Some(AllowedTypes[k])) == "Music"
  {
    var t := AllowedTypes;
    DiffersAt("image/", t[8], 0);
    DiffersAt("image/", t[9], 0);
    assert t[8][..6] == "video/" && t[9][..6] == "video/";
    DiffersAt("image/", t[10], 0);
    DiffersAt("video/", t[10], 0);
    DiffersAt("image/", t[11], 0);
    DiffersAt("video/", t[11], 0);
    assert t[10][..6] == "audio/" && t[11][..6] == "audio/";
  }
}
