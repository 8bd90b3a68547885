/** `getFileTypeIcon`: the icon category for a transferred file, chosen from
    its lowercased MIME type by an ordered chain of tests, with a fallback on
    the file name's extension when no MIME type is known. */
module FileTypeIcon {
  import opened Common

  /** The icon components the classifier returns (`File` is `Generic`). */
  datatype FileIcon = Video | Audio | Image | Text | Code | PieChart | Archive | Generic

  /** The two top-level types of the exact-match lists. */
  const App := "application/"
  const Txt := "text/"

  /** `m` is `top` followed by one of `subtypes`: the exact-match lists are
      written this way, each as its "application/" and its "text/" part. */
  predicate HasType(m: string, top: string, subtypes: set<string>) {
    StartsWith(m, top) && m[|top|..] in subtypes
  }

  /** "application/rtf", matched together with the "text/" prefix. */
  const AppRtf: set<string> := {"rtf"}

  /** The "code files" list. */
  const AppCode: set<string> := {"json", "javascript", "xml"}
  const TextCode: set<string> := {"javascript", "typescript", "css", "html", "xml"}

  /** The "office documents" list. */
  const AppOffice: set<string> := {
    "pdf", "msword",
    "vnd.openxmlformats-officedocument.wordprocessingml.document",
    "vnd.ms-powerpoint",
    "vnd.openxmlformats-officedocument.presentationml.presentation"}

  /** The "spreadsheets" list. */
  const AppSheet: set<string> := {"vnd.ms-excel", "vnd.openxmlformats-officedocument.spreadsheetml.sheet"}
  const TextSheet: set<string> := {"csv"}

  /** The "archive files" list. */
  const AppArchive: set<string> := {"zip", "x-rar-compressed", "x-7z-compressed", "gzip", "x-tar"}

  const VideoExts: set<string> := {"mp4", "mov", "avi", "mkv", "webm"}
  const AudioExts: set<string> := {"mp3", "wav", "flac", "aac"}
  const ImageExts: set<string> := {"jpg", "jpeg", "png", "gif", "webp", "svg", "ico", "heic", "heif"}
  const CodeExts: set<string> := {"js", "ts", "jsx", "tsx", "css", "html", "json", "xml"}
  const ArchiveExts: set<string> := {"zip", "rar", "7z", "tar", "gz"}
  const SheetExts: set<string> := {"xlsx", "xls", "csv"}

  /** The MIME tests in source order, on an already lowercased type; `None`
      when no test matches. */
  function MimeIcon(m: string): (r: Option<FileIcon>)
    ensures r != Some(Generic)
    ensures r.None? <==>
      && !StartsWith(m, "video/") && !StartsWith(m, "audio/") && !StartsWith(m, "image/") && !StartsWith(m, Txt)
      && !HasType(m, App, AppRtf + AppCode + AppOffice + AppSheet + AppArchive)
  {
    if StartsWith(m, "video/") then Some(Video)
    else if StartsWith(m, "audio/") then Some(Audio)
    else if StartsWith(m, "image/") then Some(Image)
    else if StartsWith(m, Txt) || HasType(m, App, AppRtf) then Some(Text)
    else if HasType(m, App, AppCode) || HasType(m, Txt, TextCode) then Some(Code)
    else if HasType(m, App, AppOffice) then Some(Text)
    else if HasType(m, App, AppSheet) || HasType(m, Txt, TextSheet) then Some(PieChart)
    else if HasType(m, App, AppArchive) then Some(Archive)
    else None
  }

  /** What `split(".").pop()` yields: the text after the last dot, or the
      whole name when it has none. */
  function LastSegment(s: string): (r: string)
    ensures |r| <= |s| && r == s[|s| - |r|..]
    ensures forall i :: 0 <= i < |r| ==> r[i] != '.'
    ensures |r| < |s| ==> s[|s| - |r| - 1] == '.'
  {
    if s == [] then []
    else if s[|s| - 1] == '.' then []
    else LastSegment(s[..|s| - 1]) + [s[|s| - 1]]
  }

  /** The extension switch on an already lowercased extension. */
  function ExtensionIcon(ext: string): (r: FileIcon)
    ensures r == Video <==> ext in VideoExts
    ensures r == Audio <==> ext in AudioExts
    ensures r == Image <==> ext in ImageExts
    ensures r == Code <==> ext in CodeExts
    ensures r == Archive <==> ext in ArchiveExts
    ensures r == PieChart <==> ext in SheetExts
    ensures r == Generic <==> ext !in VideoExts + AudioExts + ImageExts + CodeExts + ArchiveExts + SheetExts
    ensures r != Text
  {
    if ext in VideoExts then Video
    else if ext in AudioExts then Audio
    else if ext in ImageExts then Image
    else if ext in CodeExts then Code
    else if ext in ArchiveExts then Archive
    else if ext in SheetExts then PieChart
    else Generic
  }

  /** The MIME type the classifier tests: the file's `type`, lowercased, or
      "" when no file is given. */
  function LoweredType(fileType: Option<string>): (m: string)
    ensures |m| == if fileType.Some? then |fileType.value| else 0
  {
    if fileType.Some? then ToLower(fileType.value) else ""
  }

  /** `getFileTypeIcon({file, fileName})`. `fileType` is the file's `type`
      when a file is given; `fileName` is the optional name. */
  function GetFileTypeIcon(fileType: Option<string>, fileName: Option<string>): (r: FileIcon)
    ensures MimeIcon(LoweredType(fileType)).Some? ==> r == MimeIcon(LoweredType(fileType)).value
    ensures LoweredType(fileType) != "" && MimeIcon(LoweredType(fileType)).None? ==> r == Generic
    ensures LoweredType(fileType) == "" && (fileName.None? || fileName.value == "") ==> r == Generic
  {
    var mime := LoweredType(fileType);
    match MimeIcon(mime)
    case Some(icon) => icon
    case None =>
      if mime == "" && fileName.Some? && fileName.value != "" then
        ExtensionIcon(ToLower(LastSegment(fileName.value)))
      else Generic
  }

  // ---------------------------------------------------------------------------
  // Which types reach which icon

  /** A prefix fixes a string's first two characters. */
  lemma PrefixChars(m: string, p: string)
    requires |p| >= 2 && StartsWith(m, p)
    ensures |m| >= 2 && m[0] == p[0] && m[1] == p[1]
  {
    assert m[0] == m[..|p|][0] && m[1] == m[..|p|][1];
  }

  /** The four family prefixes and "application/" exclude each other. */
  lemma PrefixesExclusive(m: string)
    ensures StartsWith(m, "video/") ==> !StartsWith(m, "audio/") && !StartsWith(m, "image/") && !StartsWith(m, Txt) && !StartsWith(m, App)
    ensures StartsWith(m, "audio/") ==> !StartsWith(m, "image/") && !StartsWith(m, Txt) && !StartsWith(m, App)
    ensures StartsWith(m, "image/") ==> !StartsWith(m, Txt) && !StartsWith(m, App)
    ensures StartsWith(m, Txt) ==> !StartsWith(m, App)
  {
    if StartsWith(m, "video/") { PrefixChars(m, "video/"); }
    if StartsWith(m, "audio/") { PrefixChars(m, "audio/"); }
    if StartsWith(m, "image/") { PrefixChars(m, "image/"); }
    if StartsWith(m, Txt) { PrefixChars(m, Txt); }
  }

  /** The three media prefixes decide their icons, in both directions, and
      the chain never yields the generic icon itself (that is the caller's
      fallback). */
  lemma MediaPrefixesDecide(m: string)
    ensures MimeIcon(m) == Some(Video) <==> StartsWith(m, "video/")
    ensures MimeIcon(m) == Some(Audio) <==> StartsWith(m, "audio/")
    ensures MimeIcon(m) == Some(Image) <==> StartsWith(m, "image/")
    ensures MimeIcon(m) != Some(Generic)
  {
    PrefixesExclusive(m);
  }

  /** Text is reached by every "text/" type, by RTF and by the office
      documents, and by nothing else. */
  lemma TextCharacterized(m: string)
    ensures MimeIcon(m) == Some(Text) <==> StartsWith(m, Txt) || HasType(m, App, AppRtf + AppOffice)
  {
    PrefixesExclusive(m);
  }

  /** Code is reached exactly by the "application/" entries of its list. */
  lemma CodeCharacterized(m: string)
    ensures MimeIcon(m) == Some(Code) <==> HasType(m, App, AppCode)
  {
    PrefixesExclusive(m);
  }

  /** PieChart is reached exactly by the two Excel types. */
  lemma SheetCharacterized(m: string)
    ensures MimeIcon(m) == Some(PieChart) <==> HasType(m, App, AppSheet)
  {
    PrefixesExclusive(m);
  }

  /** Archive is reached exactly by the five archive types. */
  lemma ArchiveCharacterized(m: string)
    ensures MimeIcon(m) == Some(Archive) <==> HasType(m, App, AppArchive)
  {
    PrefixesExclusive(m);
  }

  /** The extension fallback is used only when no MIME type is known and a
      non-empty name is given; then the extension decides alone. A known MIME
      type, recognised or not, makes the name irrelevant. */
  lemma FallbackOnlyWithoutMime(fileType: Option<string>, fileName: Option<string>, other: Option<string>)
    ensures LoweredType(fileType) == "" && fileName.Some? && fileName.value != "" ==>
      GetFileTypeIcon(fileType, fileName) == ExtensionIcon(ToLower(LastSegment(fileName.value)))
    ensures LoweredType(fileType) != "" ==> GetFileTypeIcon(fileType, fileName) == GetFileTypeIcon(fileType, other)
  {
    if LoweredType(fileType) == "" {
      EmptyTypeUnmatched();
    }
  }

  /** No MIME test matches the empty type. */
  lemma EmptyTypeUnmatched()
    ensures MimeIcon("") == None
  {
    assert !StartsWith("", "video/") && !StartsWith("", "audio/") && !StartsWith("", "image/");
    assert !StartsWith("", Txt) && !StartsWith("", App);
  }

  /** The extension is what follows the last dot: a name's extension is
      unaffected by anything written before that dot. */
  lemma {:induction false} LastSegmentAfterDot(prefix: string, ext: string)
    requires forall i :: 0 <= i < |ext| ==> ext[i] != '.'
    ensures LastSegment(prefix + "." + ext) == ext
    ensures LastSegment(ext) == ext
    decreases |ext|
  {
    if ext != [] {
      var init := ext[..|ext| - 1];
      assert (prefix + "." + ext)[..|prefix + "." + ext| - 1] == prefix + "." + init;
      assert ext == init + [ext[|ext| - 1]];
      LastSegmentAfterDot(prefix, init);
    } else {
      assert (prefix + "." + ext) == prefix + ".";
    }
  }

  // ---------------------------------------------------------------------------
  // The code and spreadsheet tests reached for their "text/" entries

  /** The MIME chain with the code and spreadsheet tests placed before the
      "text/" prefix, so that each listed type reaches the icon of the list it
      appears in. */
  function MimeIconFixed(m: string): Option<FileIcon> {
    if StartsWith(m, "video/") then Some(Video)
    else if StartsWith(m, "audio/") then Some(Audio)
    else if StartsWith(m, "image/") then Some(Image)
    else if HasType(m, App, AppCode) || HasType(m, Txt, TextCode) then Some(Code)
    else if HasType(m, App, AppSheet) || HasType(m, Txt, TextSheet) then Some(PieChart)
    else if StartsWith(m, Txt) || HasType(m, App, AppRtf) then Some(Text)
    else if HasType(m, App, AppOffice) then Some(Text)
    else if HasType(m, App, AppArchive) then Some(Archive)
    else None
  }

  /** Reordering the tests changes which icon a type gets, never whether it
      gets one. */
  lemma FixedMatchesSameTypes(m: string)
    ensures MimeIconFixed(m).None? <==> MimeIcon(m).None?
  {
  }

  /** `getFileTypeIcon` over the corrected chain: a type no test matches
      takes the same fallbacks as the classifier as written, the extension
      switch without a type and the generic icon otherwise. */
  function GetFileTypeIconFixed(fileType: Option<string>, fileName: Option<string>): (r: FileIcon)
    ensures MimeIconFixed(LoweredType(fileType)).Some? ==> r == MimeIconFixed(LoweredType(fileType)).value
    ensures LoweredType(fileType) != "" && MimeIconFixed(LoweredType(fileType)).None? ==> r == Generic
    ensures MimeIconFixed(LoweredType(fileType)).None? ==> r == GetFileTypeIcon(fileType, fileName)
  {
    FixedMatchesSameTypes(LoweredType(fileType));
    var mime := LoweredType(fileType);
    match MimeIconFixed(mime)
    case Some(icon) => icon
    case None =>
      if mime == "" && fileName.Some? && fileName.value != "" then
        ExtensionIcon(ToLower(LastSegment(fileName.value)))
      else Generic
  }

  /** As written, the "text/" entries of the code and spreadsheet lists are
      classified as Text, never as Code or PieChart. */
  lemma TextPrefixShadowsLists(m: string)
    requires HasType(m, Txt, TextCode + TextSheet)
    ensures MimeIcon(m) == Some(Text)
  {
    PrefixesExclusive(m);
  }

  /** Reordered, every entry of the code list reaches Code and every entry of
      the spreadsheet list reaches PieChart, and the two chains differ on
      those "text/" entries and nowhere else. */
  lemma FixedReachesLists(m: string)
    ensures HasType(m, App, AppCode) || HasType(m, Txt, TextCode) ==> MimeIconFixed(m) == Some(Code)
    ensures HasType(m, App, AppSheet) || HasType(m, Txt, TextSheet) ==> MimeIconFixed(m) == Some(PieChart)
    ensures MimeIconFixed(m) != MimeIcon(m) <==> HasType(m, Txt, TextCode + TextSheet)
  {
    PrefixesExclusive(m);
  }
}
