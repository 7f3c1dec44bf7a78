// The client's file-icon classifier: the lower-cased extension against
// fixed lists, and the MIME type's prefix for the media and text kinds.
module FileIcons {
  import opened Wrappers
  import opened Text

  datatype Icon = FileAudio | FileVideo | FileImage | FileSpreadsheet | Presentation | FileText | Archive | FileCode | FileIcon

  // The lists are only ever asked for membership, so they are sets.
  const AudioExtensions: set<string> := {"mp3", "wav", "flac", "m4a", "aac", "ogg", "wma", "aiff", "alac"}
  const VideoExtensions: set<string> := {"mp4", "mkv", "avi", "mov", "webm", "flv", "wmv", "m4v"}
  const ImageExtensions: set<string> :=
    {"png", "jpg", "jpeg", "gif", "svg", "webp", "bmp", "ico", "heic", "heif", "tif", "tiff"}
  const SpreadsheetExtensions: set<string> := {"xls", "xlsx", "csv", "ods"}
  const PresentationExtensions: set<string> := {"ppt", "pptx", "odp"}
  const DocumentExtensions: set<string> := {"pdf", "doc", "docx", "txt", "md", "markdown", "odt", "rtf"}
  const ArchiveExtensions: set<string> := {"zip", "rar", "7z", "tar", "gz", "bz2", "xz", "iso"}
  const CodeExtensions: set<string> :=
    {"js", "ts", "jsx", "tsx", "html", "css", "json", "py", "rb", "go", "rs", "php", "sh", "sql", "yml", "yaml",
     "xml", "c", "cpp", "h", "hpp", "cs", "java", "kt", "kts", "swift", "dart", "r"}

  /** `fileName.split('.').pop()?.toLowerCase()`: the last '.'-separated
    * piece, lower-cased. */
  function Extension(fileName: string): string
  {
    var pieces := Split(fileName, '.');
    Lower(pieces[|pieces| - 1])
  }

  /** `mimeType?.startsWith(prefix)` for an optional MIME type. */
  predicate MimeStarts(mimeType: Option<string>, prefix: string)
  {
    mimeType.Some? && StartsWith(mimeType.value, prefix)
  }

  /** The extension lists that decide alone. */
  predicate ExtensionOnly(icon: Icon)
  {
    icon == FileSpreadsheet || icon == Presentation || icon == Archive || icon == FileCode
  }

  /** The list of extensions behind each icon; the default has none. */
  function ExtensionsOf(icon: Icon): set<string>
  {
    match icon
    case FileAudio => AudioExtensions
    case FileVideo => VideoExtensions
    case FileImage => ImageExtensions
    case FileSpreadsheet => SpreadsheetExtensions
    case Presentation => PresentationExtensions
    case FileText => DocumentExtensions
    case Archive => ArchiveExtensions
    case FileCode => CodeExtensions
    case FileIcon => {}
  }

  /** Whether the MIME type alone selects this icon. */
  predicate MimeSelects(icon: Icon, mimeType: Option<string>)
  {
    match icon
    case FileAudio => MimeStarts(mimeType, "audio/")
    case FileVideo => MimeStarts(mimeType, "video/")
    case FileImage => MimeStarts(mimeType, "image/")
    case FileText => mimeType == Some("application/pdf") || MimeStarts(mimeType, "text/")
    case _ => false
  }

  /** The extension is in none of the lists. */
  predicate Unlisted(e: string)
  {
    && e !in AudioExtensions && e !in VideoExtensions && e !in ImageExtensions && e !in SpreadsheetExtensions
    && e !in PresentationExtensions && e !in DocumentExtensions && e !in ArchiveExtensions && e !in CodeExtensions
  }

  /** The MIME type selects one of the icons it can select. */
  predicate MediaOrTextMime(mimeType: Option<string>)
  {
    MimeSelects(FileAudio, mimeType) || MimeSelects(FileVideo, mimeType) || MimeSelects(FileImage, mimeType)
    || MimeSelects(FileText, mimeType)
  }

  /** The categories in the order the classifier tries them. */
  const Order: seq<Icon> := [FileAudio, FileVideo, FileImage, FileSpreadsheet, Presentation, FileText, Archive, FileCode]

  /** `getFileIcon`. */
  function GetFileIcon(fileName: string, mimeType: Option<string>): (icon: Icon)
    ensures ExtensionOnly(icon) ==> Extension(fileName) in ExtensionsOf(icon)
    ensures icon != FileIcon ==> Extension(fileName) in ExtensionsOf(icon) || MimeSelects(icon, mimeType)
    ensures icon == FileIcon <==> Unlisted(Extension(fileName)) && !MediaOrTextMime(mimeType)
  {
    var extension := Extension(fileName);
    if extension in AudioExtensions || MimeStarts(mimeType, "audio/") then FileAudio
    else if extension in VideoExtensions || MimeStarts(mimeType, "video/") then FileVideo
    else if extension in ImageExtensions || MimeStarts(mimeType, "image/") then FileImage
    else if extension in SpreadsheetExtensions then FileSpreadsheet
    else if extension in PresentationExtensions then Presentation
    else if extension in DocumentExtensions || mimeType == Some("application/pdf") || MimeStarts(mimeType, "text/") then FileText
    else if extension in ArchiveExtensions then Archive
    else if extension in CodeExtensions then FileCode
    else FileIcon
  }

  /** The first category in the order whose test passes is the answer: no
    * earlier category's test passes. */
  lemma FirstMatchWins(fileName: string, mimeType: Option<string>, i: nat)
    requires i < |Order| && GetFileIcon(fileName, mimeType) == Order[i]
    ensures forall j :: 0 <= j < i ==>
      Extension(fileName) !in ExtensionsOf(Order[j]) && !MimeSelects(Order[j], mimeType)
  {
  }

  /** The last piece of a name after its last '.'. */
  lemma {:induction false} SplitLastPiece(a: string, b: string, sep: char)
    requires sep !in b
    ensures |Split(a + [sep] + b, sep)| >= 2
    ensures var p := Split(a + [sep] + b, sep); p[|p| - 1] == b
    decreases |a|
  {
    if |a| == 0 {
      assert a + [sep] + b == [sep] + b;
      assert ([sep] + b)[1..] == b;
      SplitNoSeparator(b, sep);
    } else {
      assert (a + [sep] + b)[1..] == a[1..] + [sep] + b;
      SplitLastPiece(a[1..], b, sep);
    }
  }

  /** The extension is the lower-cased piece after the last '.', and a name
    * without '.' is its own extension. */
  lemma ExtensionOfName(base: string, ext: string)
    requires '.' !in ext
    ensures Extension(base + "." + ext) == Lower(ext)
    ensures Extension(ext) == Lower(ext)
  {
    SplitLastPiece(base, ext, '.');
    SplitNoSeparator(ext, '.');
  }

  /** A media MIME type, or the PDF type, decides when the extension is in
    * no list. */
  lemma MediaMimeDecides(fileName: string, mimeType: Option<string>)
    requires Unlisted(Extension(fileName))
    ensures MimeStarts(mimeType, "audio/") ==> GetFileIcon(fileName, mimeType) == FileAudio
    ensures MimeStarts(mimeType, "video/") ==> GetFileIcon(fileName, mimeType) == FileVideo
    ensures MimeStarts(mimeType, "image/") ==> GetFileIcon(fileName, mimeType) == FileImage
    ensures mimeType == Some("application/pdf") ==> GetFileIcon(fileName, mimeType) == FileText
  {
    if mimeType.Some? {
      var m := mimeType.value;
      if StartsWith(m, "video/") || StartsWith(m, "image/") || m == "application/pdf" {
        assert !StartsWith(m, "audio/") by { assert m[0] != 'a' || m[1] != 'u'; }
      }
      if StartsWith(m, "image/") || m == "application/pdf" {
        assert !StartsWith(m, "video/") by { assert m[0] != 'v'; }
      }
      if m == "application/pdf" {
        assert !StartsWith(m, "image/") by { assert m[0] != 'i'; }
      }
    }
  }

  /** Without a MIME type, each listed extension gives its own list's icon,
    * whatever the order of the tests. */
  lemma ListedExtensionGivesItsIcon(fileName: string, icon: Icon)
    requires icon in Order && Extension(fileName) in ExtensionsOf(icon)
    ensures GetFileIcon(fileName, None) == icon
  {
    ListsDisjoint();
  }

  /** No extension is in two lists. */
  lemma ListsDisjoint()
    ensures AudioExtensions !! VideoExtensions
    ensures AudioExtensions !! ImageExtensions && VideoExtensions !! ImageExtensions
    ensures AudioExtensions !! SpreadsheetExtensions && VideoExtensions !! SpreadsheetExtensions && ImageExtensions !! SpreadsheetExtensions
    ensures AudioExtensions !! PresentationExtensions && VideoExtensions !! PresentationExtensions && ImageExtensions !! PresentationExtensions && SpreadsheetExtensions !! PresentationExtensions
    ensures AudioExtensions !! DocumentExtensions && VideoExtensions !! DocumentExtensions && ImageExtensions !! DocumentExtensions && SpreadsheetExtensions !! DocumentExtensions && PresentationExtensions !! DocumentExtensions
    ensures AudioExtensions !! ArchiveExtensions && VideoExtensions !! ArchiveExtensions && ImageExtensions !! ArchiveExtensions && SpreadsheetExtensions !! ArchiveExtensions && PresentationExtensions !! ArchiveExtensions && DocumentExtensions !! ArchiveExtensions
    ensures AudioExtensions !! CodeExtensions && VideoExtensions !! CodeExtensions && ImageExtensions !! CodeExtensions && SpreadsheetExtensions !! CodeExtensions && PresentationExtensions !! CodeExtensions && DocumentExtensions !! CodeExtensions && ArchiveExtensions !! CodeExtensions
  {
    AudioApartVideo();
    AudioApartImage(); VideoApartImage();
    AudioApartSpreadsheet(); VideoApartSpreadsheet(); ImageApartSpreadsheet();
    AudioApartPresentation(); VideoApartPresentation(); ImageApartPresentation(); SpreadsheetApartPresentation();
    AudioApartDocument(); VideoApartDocument(); ImageApartDocument(); SpreadsheetApartDocument(); PresentationApartDocument();
    AudioApartArchive(); VideoApartArchive(); ImageApartArchive(); SpreadsheetApartArchive(); PresentationApartArchive(); DocumentApartArchive();
    AudioApartCode(); VideoApartCode(); ImageApartCode(); SpreadsheetApartCode(); PresentationApartCode(); DocumentApartCode(); ArchiveApartCode();
  }

  // One pair of lists at a time, so that each proof stays small.

  lemma AudioApartVideo()
    ensures AudioExtensions !! VideoExtensions
  {
  }

  lemma AudioApartImage()
    ensures AudioExtensions !! ImageExtensions
  {
  }

  lemma VideoApartImage()
    ensures VideoExtensions !! ImageExtensions
  {
  }

  lemma AudioApartSpreadsheet()
    ensures AudioExtensions !! SpreadsheetExtensions
  {
  }

  lemma VideoApartSpreadsheet()
    ensures VideoExtensions !! SpreadsheetExtensions
  {
  }

  lemma ImageApartSpreadsheet()
    ensures ImageExtensions !! SpreadsheetExtensions
  {
  }

  lemma AudioApartPresentation()
    ensures AudioExtensions !! PresentationExtensions
  {
  }

  lemma VideoApartPresentation()
    ensures VideoExtensions !! PresentationExtensions
  {
  }

  lemma ImageApartPresentation()
    ensures ImageExtensions !! PresentationExtensions
  {
  }

  lemma SpreadsheetApartPresentation()
    ensures SpreadsheetExtensions !! PresentationExtensions
  {
  }

  lemma AudioApartDocument()
    ensures AudioExtensions !! DocumentExtensions
  {
  }

  lemma VideoApartDocument()
    ensures VideoExtensions !! DocumentExtensions
  {
  }

  lemma ImageApartDocument()
    ensures ImageExtensions !! DocumentExtensions
  {
  }

  lemma SpreadsheetApartDocument()
    ensures SpreadsheetExtensions !! DocumentExtensions
  {
  }

  lemma PresentationApartDocument()
    ensures PresentationExtensions !! DocumentExtensions
  {
  }

  lemma AudioApartArchive()
    ensures AudioExtensions !! ArchiveExtensions
  {
  }

  lemma VideoApartArchive()
    ensures VideoExtensions !! ArchiveExtensions
  {
  }

  lemma ImageApartArchive()
    ensures ImageExtensions !! ArchiveExtensions
  {
  }

  lemma SpreadsheetApartArchive()
    ensures SpreadsheetExtensions !! ArchiveExtensions
  {
  }

  lemma PresentationApartArchive()
    ensures PresentationExtensions !! ArchiveExtensions
  {
  }

  lemma DocumentApartArchive()
    ensures DocumentExtensions !! ArchiveExtensions
  {
  }

  lemma AudioApartCode()
    ensures AudioExtensions !! CodeExtensions
  {
  }

  lemma VideoApartCode()
    ensures VideoExtensions !! CodeExtensions
  {
  }

  lemma ImageApartCode()
    ensures ImageExtensions !! CodeExtensions
  {
  }

  lemma SpreadsheetApartCode()
    ensures SpreadsheetExtensions !! CodeExtensions
  {
  }

  lemma PresentationApartCode()
    ensures PresentationExtensions !! CodeExtensions
  {
  }

  lemma DocumentApartCode()
    ensures DocumentExtensions !! CodeExtensions
  {
  }

  lemma ArchiveApartCode()
    ensures ArchiveExtensions !! CodeExtensions
  {
  }
}
