/**
 Document uploads on complaint creation: the file-type filter, the per-request
 file count, and the comma-joined `documents` column that the complaint detail
 view splits back into links.
 */
module Uploads {
  import opened Wrappers
  import opened Text

  /** One uploaded part: the client's file name and MIME type, and the name the
      disk storage gave the saved file (time and randomness based, chosen outside
      this model). */
  datatype Upload = Upload(originalName: string, mimeType: string, storedName: string)

  /** The alternatives of the pattern `/jpeg|jpg|png|gif|pdf|doc|docx/`. */
  const AllowedTypes: seq<string> := ["jpeg", "jpg", "png", "gif", "pdf", "doc", "docx"]

  /** At most this many files may be sent in the `documents` field. */
  const MaxDocuments := 5

  const InvalidTypeError := "Invalid file type. Only images and documents are allowed."
  const UnexpectedFileError := "Unexpected field"

  /** `allowedTypes.test(s)`: the pattern has no anchors, so it succeeds as soon as
      one alternative occurs anywhere in `s`. */
  function MatchesAllowedType(s: string): (b: bool)
    ensures b <==> exists t | t in AllowedTypes :: Contains(s, t)
  {
    var b := Contains(s, "jpeg") || Contains(s, "jpg") || Contains(s, "png") || Contains(s, "gif")
             || Contains(s, "pdf") || Contains(s, "doc") || Contains(s, "docx");
    assert forall k | 0 <= k < |AllowedTypes| :: AllowedTypes[k] in AllowedTypes;
    assert AllowedTypes[0] == "jpeg" && AllowedTypes[1] == "jpg" && AllowedTypes[2] == "png"
        && AllowedTypes[3] == "gif" && AllowedTypes[4] == "pdf" && AllowedTypes[5] == "doc"
        && AllowedTypes[6] == "docx";
    b
  }

  /** The `docx` alternative never decides anything: every text containing it contains `doc`. */
  lemma DocxIsRedundant(s: string)
    requires Contains(s, "docx")
    ensures Contains(s, "doc")
  {
    ContainsInfix("", "doc", "x");
    assert "" + "doc" + "x" == "docx";
    ContainsTransitive(s, "docx", "doc");
  }

  /** The position of the last `c` in `s`, or -1. */
  function LastIndexOf(s: string, c: char): (i: int)
    ensures -1 <= i < |s|
    ensures i >= 0 ==> s[i] == c
    ensures forall j | i < j < |s| :: s[j] != c
  {
    if |s| == 0 then -1
    else if s[|s| - 1] == c then |s| - 1
    else LastIndexOf(s[..|s| - 1], c)
  }

  function DropTrailingSlashes(s: string): (r: string)
    ensures |r| <= |s| && r == s[..|r|]
    ensures r == [] || r[|r| - 1] != '/'
  {
    if |s| > 0 && s[|s| - 1] == '/' then DropTrailingSlashes(s[..|s| - 1]) else s
  }

  /** The last path component, ignoring trailing slashes: the text after the last
      '/' of the path with its trailing slashes dropped. */
  function BaseName(path: string): (b: string)
    ensures '/' !in b
  {
    var t := DropTrailingSlashes(path);
    t[LastIndexOf(t, '/') + 1..]
  }

  /** Only slashes are dropped: the removed tail is a run of '/'. */
  lemma {:induction false} DroppedAreSlashes(s: string)
    ensures forall k | |DropTrailingSlashes(s)| <= k < |s| :: s[k] == '/'
    decreases |s|
  {
    if |s| > 0 && s[|s| - 1] == '/' {
      DroppedAreSlashes(s[..|s| - 1]);
    }
  }

  /** The base name is the text after the last '/' of the path once its trailing
      slashes are dropped, or all of that text when it has no '/'. */
  lemma BaseNameIsLastComponent(path: string)
    ensures var t := DropTrailingSlashes(path);
            var b := BaseName(path);
            && |b| <= |t| && b == t[|t| - |b|..]
            && (|b| < |t| ==> t[|t| - |b| - 1] == '/')
  {
  }

  /** `path.extname` (POSIX): from the last '.' of the last path component to its end;
      empty when that component has no '.', starts with its only counted '.', or is `..`. */
  function ExtName(path: string): (ext: string)
    ensures ext == [] || (ext[0] == '.' && '.' !in ext[1..] && '/' !in ext)
    ensures ext != [] ==> |ext| < |BaseName(path)| && ext == BaseName(path)[|BaseName(path)| - |ext|..]
  {
    var base := BaseName(path);
    var dot := LastIndexOf(base, '.');
    if dot <= 0 || base == ".." then "" else base[dot..]
  }

  /** The extension is non-empty exactly when the last path component has a '.' after
      its first character and is not `..`; with the contract of ExtName this makes it
      the text from the last such '.' to the end. */
  lemma ExtNameNonEmpty(path: string)
    ensures ExtName(path) != [] <==> (exists i | 0 < i < |BaseName(path)| :: BaseName(path)[i] == '.') && BaseName(path) != ".."
  {
    var base := BaseName(path);
    var dot := LastIndexOf(base, '.');
    if exists i | 0 < i < |base| :: base[i] == '.' {
      var i :| 0 < i < |base| && base[i] == '.';
      assert dot >= i;
    }
  }

  /** The multer `fileFilter`: both the lower-cased extension and the MIME type must
      contain an allowed alternative. */
  predicate Accepted(file: Upload) {
    MatchesAllowedType(Lower(ExtName(file.originalName))) && MatchesAllowedType(file.mimeType)
  }

  /** The filter's verdict on each part, in order. */
  function Verdicts(files: seq<Upload>): (v: seq<bool>)
    ensures |v| == |files|
    ensures forall k | 0 <= k < |files| :: v[k] == Accepted(files[k])
  {
    if |files| == 0 then []
    else
      [Accepted(files[0])] + Verdicts(files[1..])
  }

  /** Multer receiving the parts of `upload.array('documents', 5)` in order: each part
      first uses up one of the five places, then passes the filter; the first part
      that fails aborts the request with that error. */
  function ReceiveFiles(files: seq<Upload>): (error: Option<string>)
    ensures error.None? <==> |files| <= MaxDocuments && forall k | 0 <= k < |files| :: Accepted(files[k])
    ensures error == Some(InvalidTypeError)
            <==> exists k | 0 <= k < |files| && k < MaxDocuments :: !Accepted(files[k])
    ensures error.Some? ==> error.value == InvalidTypeError || error.value == UnexpectedFileError
  {
    var v := Verdicts(files);
    var r := FirstFailure(v, 0);
    assert r == Some(InvalidTypeError) ==> exists k | 0 <= k < |files| && k < MaxDocuments :: !Accepted(files[k]) by {
      if r == Some(InvalidTypeError) {
        var k :| 0 <= k < |v| && k < MaxDocuments && !v[k];
        assert !Accepted(files[k]);
      }
    }
    r
  }

  /** The scan over the verdicts from part `k` on, all earlier parts having passed. */
  function FirstFailure(v: seq<bool>, k: nat): (error: Option<string>)
    requires k <= |v|
    requires forall j | 0 <= j < k :: j < MaxDocuments && v[j]
    ensures error.None? <==> |v| <= MaxDocuments && forall j | k <= j < |v| :: v[j]
    ensures error == Some(InvalidTypeError) <==> exists j | k <= j < |v| && j < MaxDocuments :: !v[j]
    ensures error.Some? ==> error.value == InvalidTypeError || error.value == UnexpectedFileError
    decreases |v| - k
  {
    if k == |v| then
      assert k > 0 ==> v[k - 1] && k - 1 < MaxDocuments;
      None
    else if k >= MaxDocuments then Some(UnexpectedFileError)
    else if !v[k] then Some(InvalidTypeError)
    else FirstFailure(v, k + 1)
  }

  /** `req.files.map(file => file.filename).join(',')`: the `documents` column. */
  function StoredNames(files: seq<Upload>): (names: seq<string>)
    ensures |names| == |files|
    ensures forall k | 0 <= k < |files| :: names[k] == files[k].storedName
  {
    if |files| == 0 then [] else [files[0].storedName] + StoredNames(files[1..])
  }

  function DocumentsColumn(files: seq<Upload>): string {
    Join(StoredNames(files), ',')
  }

  /** The complaint detail view: an empty column shows no documents section, any
      other value is split on ','. */
  function ShownDocuments(column: string): seq<string> {
    if column == "" then [] else Split(column, ',')
  }

  /** The stored list reads back as the list of saved file names, provided no saved
      name is empty or contains ','. No files are stored as '' and show no section. */
  lemma DocumentsRoundTrip(files: seq<Upload>)
    requires forall k | 0 <= k < |files| :: files[k].storedName != "" && ',' !in files[k].storedName
    ensures ShownDocuments(DocumentsColumn(files)) == StoredNames(files)
    ensures files == [] ==> DocumentsColumn(files) == ""
  {
    var names := StoredNames(files);
    if |names| > 0 {
      SplitJoin(names, ',');
      assert |Join(names, ',')| >= |names[0]| by {
        if |names| > 1 {
          assert Join(names, ',') == names[0] + [','] + Join(names[1..], ',');
        }
      }
    }
  }

  // ---------------------------------------------------------------- saved file names

  /** The name the disk storage gives a part of the `documents` field: the field
      name, `Date.now()`, a rounded random number, and the extension of the
      client's file name, which is copied as it is. */
  function DiskName(stamp: nat, draw: nat, originalName: string): string {
    "documents-" + Decimal(stamp) + "-" + Decimal(draw) + ExtName(originalName)
  }

  /** The extension is copied into the saved name, so a ',' in it reaches the
      comma-joined column, which then splits into more names than files. */
  lemma CommaExtensionBreaksDocuments(stamp: nat, draw: nat, originalName: string, mimeType: string)
    requires ',' in ExtName(originalName)
    ensures var u := Upload(originalName, mimeType, DiskName(stamp, draw, originalName));
            ShownDocuments(DocumentsColumn([u])) != StoredNames([u])
  {
    var name := DiskName(stamp, draw, originalName);
    var u := Upload(originalName, mimeType, name);
    assert StoredNames([u]) == [name];
    assert ',' in name;
    assert DocumentsColumn([u]) == name;
  }

  /** A name "stem.ext" whose stem and extension hold no '.' or '/' has the
      extension ".ext", whatever else the extension holds. */
  lemma ExtNameOfSimpleName(stem: string, ext: string)
    requires stem != [] && '.' !in stem && '/' !in stem && '.' !in ext && '/' !in ext
    ensures ExtName(stem + "." + ext) == "." + ext
  {
    var s := stem + "." + ext;
    assert s[|s| - 1] != '/';
    assert DropTrailingSlashes(s) == s;
    assert LastIndexOf(s, '/') == -1;
    assert BaseName(s) == s;
    assert s[|stem|] == '.';
    assert forall j | |stem| < j < |s| :: s[j] == ext[j - |stem| - 1];
    assert LastIndexOf(s, '.') == |stem|;
    assert s[0] != '.';
    assert s[|stem|..] == "." + ext;
  }

  /** Such a name passes the filter when its extension starts with an allowed type
      and the MIME type mentions it too, so whatever follows, a ',' included, reaches
      the saved name. */
  lemma CommaExtensionIsAccepted(stem: string, rest: string, mimeType: string, storedName: string)
    requires stem != [] && '.' !in stem && '/' !in stem && '.' !in rest && '/' !in rest
    requires ',' in rest && Contains(mimeType, "pdf")
    ensures ',' in ExtName(stem + "." + ("pdf" + rest))
    ensures Accepted(Upload(stem + "." + ("pdf" + rest), mimeType, storedName))
  {
    var ext := "pdf" + rest;
    assert '.' !in ext && '/' !in ext by {
      assert '.' !in "pdf" && '/' !in "pdf";
    }
    ExtNameOfSimpleName(stem, ext);
    DottedPdfMatches(rest);
    PdfMatches(mimeType);
    CommaSurvives(ext, rest);
  }

  lemma CommaSurvives(ext: string, rest: string)
    requires ext == "pdf" + rest && ',' in rest
    ensures ',' in "." + ext
  {
    var k :| 0 <= k < |rest| && rest[k] == ',';
    assert ("." + ext)[k + 4] == ',';
  }

  /** ".pdf" followed by anything passes the extension test. */
  lemma DottedPdfMatches(rest: string)
    ensures MatchesAllowedType(Lower("." + ("pdf" + rest)))
  {
    var p := ".pdf";
    assert "." + ("pdf" + rest) == p + rest;
    LowerAppend(p, rest);
    assert Lower(p) == p by {
      assert forall i | 0 <= i < |p| :: LowerChar(p[i]) == p[i];
    }
    ContainsInfix(".", "pdf", Lower(rest));
    assert "." + "pdf" + Lower(rest) == p + Lower(rest);
    PdfMatches(p + Lower(rest));
  }

  /** The instance: "scan.pdf,1" sent as application/pdf. */
  lemma ScanPdfIsAccepted(storedName: string)
    ensures ',' in ExtName("scan.pdf,1")
    ensures Accepted(Upload("scan.pdf,1", "application/pdf", storedName))
  {
    var stem, rest := "scan", ",1";
    assert stem + "." + ("pdf" + rest) == "scan.pdf,1";
    assert forall i | 0 <= i < |stem| :: stem[i] != '.' && stem[i] != '/';
    assert rest[0] == ',' && rest[1] != '.' && rest[1] != '/';
    ContainsInfix("application/", "pdf", "");
    assert "application/" + "pdf" + "" == "application/pdf";
    CommaExtensionIsAccepted(stem, rest, "application/pdf", storedName);
  }

  lemma PdfMatches(s: string)
    requires Contains(s, "pdf")
    ensures MatchesAllowedType(s)
  {
  }

  /** `text` with every `c` removed. */
  function Without(text: string, c: char): (r: string)
    ensures c !in r && |r| <= |text|
    ensures c !in text ==> r == text
  {
    if |text| == 0 then ""
    else (if text[0] == c then "" else [text[0]]) + Without(text[1..], c)
  }

  /** The saved name with the ','s of the extension dropped; names without a ',' are
      unchanged. */
  function SafeDiskName(stamp: nat, draw: nat, originalName: string): (n: string)
    ensures n != "" && ',' !in n
    ensures ',' !in ExtName(originalName) ==> n == DiskName(stamp, draw, originalName)
  {
    DiskPrefixHasNoComma(stamp, draw);
    "documents-" + Decimal(stamp) + "-" + Decimal(draw) + Without(ExtName(originalName), ',')
  }

  lemma DiskPrefixHasNoComma(stamp: nat, draw: nat)
    ensures ',' !in "documents-" + Decimal(stamp) + "-" + Decimal(draw)
  {
  }

  /** With the safe names the documents column always reads back as the saved names,
      one per file. */
  lemma SafeNamesRoundTrip(files: seq<Upload>, stamps: seq<nat>, draws: seq<nat>)
    requires |stamps| == |files| && |draws| == |files|
    requires forall k | 0 <= k < |files| :: files[k].storedName == SafeDiskName(stamps[k], draws[k], files[k].originalName)
    ensures ShownDocuments(DocumentsColumn(files)) == StoredNames(files)
  {
    DocumentsRoundTrip(files);
  }
}
