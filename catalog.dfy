/**
 * The format catalog: the supported input and output extensions per file
 * category, the icon table, file-type determination by extension, and the
 * recommended default output format.
 */
module Catalog {
  import opened Wrappers
  import Text
  import Paths

  datatype Category = Image | Audio | Video | Document

  /** The iteration order of the supported-formats table. */
  const CATEGORIES: seq<Category> := [Image, Audio, Video, Document]

  function Rank(c: Category): nat {
    match c
    case Image => 0
    case Audio => 1
    case Video => 2
    case Document => 3
  }

  /** Input extensions accepted per category. */
  function Inputs(c: Category): seq<string> {
    match c
    case Image => [".jpg", ".jpeg", ".png", ".bmp", ".gif", ".webp", ".ico"]
    case Audio => [".mp3", ".wav", ".flac", ".ogg", ".m4a", ".mp4", ".aac", ".ape", ".wv"]
    case Video => [".mp4", ".avi", ".mov", ".mkv", ".wmv", ".flv"]
    case Document => [".pdf", ".doc", ".docx", ".txt"]
  }

  /** Output extensions offered per category. */
  function Outputs(c: Category): seq<string> {
    match c
    case Image => [".jpg", ".jpeg", ".png", ".webp", ".pdf"]
    case Audio => [".mp3", ".wav", ".flac", ".ogg", ".m4a"]
    case Video => [".mp4", ".avi", ".mov", ".mkv", ".wmv"]
    case Document => [".pdf", ".docx", ".txt", ".jpg"]
  }

  /** The lower-cased extension of a path, as every lookup uses it. */
  function LowerExt(path: string): string {
    Text.Lower(Paths.Ext(path))
  }

  /** The first category, in table order, whose input list holds `ext`. */
  function ClassifyExtension(ext: string): (r: Option<Category>)
    ensures r.None? <==> forall c :: ext !in Inputs(c)
    ensures r.Some? ==> ext in Inputs(r.value) && forall c :: Rank(c) < Rank(r.value) ==> ext !in Inputs(c)
  {
    if ext in Inputs(Image) then Some(Image)
    else if ext in Inputs(Audio) then Some(Audio)
    else if ext in Inputs(Video) then Some(Video)
    else if ext in Inputs(Document) then Some(Document)
    else None
  }

  /**
   * The category of an existing file, judged by its lower-cased extension
   * only; None for a missing file or an unlisted extension.
   */
  function DetermineFileType(path: string, existing: set<string>): Option<Category> {
    if path !in existing then None else ClassifyExtension(LowerExt(path))
  }

  /**
   * The file type is `c` exactly when the file exists, its extension is an
   * input of `c`, and no category earlier in the table claims it.
   */
  lemma DetermineFileTypeIff(path: string, existing: set<string>, c: Category)
    ensures DetermineFileType(path, existing) == Some(c) <==>
      && path in existing
      && LowerExt(path) in Inputs(c)
      && forall d :: Rank(d) < Rank(c) ==> LowerExt(path) !in Inputs(d)
  {
  }

  /** A missing file, or one whose extension no category lists, has no type. */
  lemma DetermineFileTypeNone(path: string, existing: set<string>)
    ensures DetermineFileType(path, existing) == None <==>
      path !in existing || forall c :: LowerExt(path) !in Inputs(c)
  {
  }

  /** `.mp4` is listed for both audio and video; audio comes first, so it always wins. */
  lemma Mp4IsAudio(path: string, existing: set<string>)
    requires path in existing && LowerExt(path) == ".mp4"
    ensures DetermineFileType(path, existing) == Some(Audio)
  {
  }

  /** `.mp4` is the only extension two categories share. */
  lemma OnlyMp4Shared(ext: string, c: Category, d: Category)
    requires c != d && ext in Inputs(c) && ext in Inputs(d)
    ensures ext == ".mp4" && {c, d} == {Audio, Video}
  {
    if ext in Inputs(Image) {
      ImageInputsUnshared(ext);
    } else if ext in Inputs(Document) {
      DocumentInputsUnshared(ext);
    } else {
      AudioVideoShared(ext);
    }
  }

  lemma ImageInputsUnshared(ext: string)
    requires ext in Inputs(Image)
    ensures ext !in Inputs(Audio) && ext !in Inputs(Video) && ext !in Inputs(Document)
  {
  }

  lemma DocumentInputsUnshared(ext: string)
    requires ext in Inputs(Document)
    ensures ext !in Inputs(Audio) && ext !in Inputs(Video)
  {
  }

  lemma AudioVideoShared(ext: string)
    requires ext in Inputs(Audio) && ext in Inputs(Video)
    ensures ext == ".mp4"
  {
  }

  // ---- icons -------------------------------------------------------------

  type IconEntry = (string, string)

  const IMAGE_ICONS: seq<IconEntry> := [
    (".jpg", "image"), (".jpeg", "image"), (".png", "image"), (".bmp", "image"), (".gif", "gif"),
    (".webp", "image"), (".ico", "image"), (".tif", "image"), (".tiff", "image"), (".svg", "image"),
    (".psd", "image"), (".eps", "image"), (".raw", "image"), (".cr2", "image"), (".nef", "image"),
    (".orf", "image")]

  const DOCUMENT_ICONS: seq<IconEntry> := [
    (".pdf", "picture_as_pdf"), (".doc", "description"), (".docx", "description"),
    (".txt", "text_snippet"), (".rtf", "text_snippet"), (".odt", "description"),
    (".xls", "table_chart"), (".xlsx", "table_chart"), (".csv", "table_chart"),
    (".ppt", "slideshow"), (".pptx", "slideshow"), (".odp", "slideshow"),
    (".md", "article"), (".tex", "article"), (".epub", "book"), (".mobi", "book")]

  const AUDIO_ICONS: seq<IconEntry> := [
    (".mp3", "audiotrack"), (".wav", "audiotrack"), (".flac", "audiotrack"), (".ogg", "audiotrack"),
    (".m4a", "audiotrack"), (".aac", "audiotrack"), (".ape", "audiotrack"), (".wv", "audiotrack"),
    (".wma", "audiotrack"), (".mp2", "audiotrack"), (".amr", "audiotrack")]

  const VIDEO_ICONS: seq<IconEntry> := [
    (".mp4", "videocam"), (".avi", "videocam"), (".mov", "videocam"), (".mkv", "videocam"),
    (".wmv", "videocam"), (".flv", "videocam"), (".webm", "videocam"), (".3gp", "videocam"),
    (".m4v", "videocam"), (".mpg", "videocam"), (".mpeg", "videocam"), (".ogv", "videocam")]

  const ARCHIVE_ICONS: seq<IconEntry> := [
    (".zip", "folder_zip"), (".rar", "folder_zip"), (".7z", "folder_zip"), (".tar", "folder_zip"),
    (".gz", "folder_zip"), (".bz2", "folder_zip"), (".xz", "folder_zip"), (".zipx", "folder_zip")]

  const OTHER_ICONS: seq<IconEntry> := [
    (".exe", "application"), (".dll", "application"), (".so", "application"), (".dmg", "application"),
    (".iso", "disc_full"), (".img", "disc_full"), (".torrent", "cloud_download"),
    (".json", "code"), (".xml", "code"), (".html", "code"), (".css", "code"), (".js", "code"),
    (".py", "code"), (".java", "code"), (".c", "code"), (".cpp", "code"), (".h", "code"),
    (".hpp", "code"), (".go", "code"), (".php", "code"), (".sql", "code"), (".sh", "code"),
    (".bat", "code"), (".ps1", "code"), (".apk", "android"), (".ipa", "apple"), (".app", "apple"),
    (".crx", "extension"), (".xpi", "extension"), (".ico", "extension"), (".svg", "extension"),
    (".ttf", "font_download"), (".otf", "font_download"), (".woff", "font_download"),
    (".woff2", "font_download")]

  /** The icon table's entries in the order they are written, duplicates included. */
  const ICON_ENTRIES: seq<IconEntry> :=
    IMAGE_ICONS + DOCUMENT_ICONS + AUDIO_ICONS + VIDEO_ICONS + ARCHIVE_ICONS + OTHER_ICONS

  const DEFAULT_ICON := "insert_drive_file"

  /** The dictionary a literal with these entries builds: each entry overwrites the key's earlier value. */
  function BuildMap(e: seq<IconEntry>): map<string, string>
    decreases |e|
  {
    if e == [] then map[] else BuildMap(e[..|e| - 1])[e[|e| - 1].0 := e[|e| - 1].1]
  }

  /** A key is in the dictionary exactly when some entry names it. */
  lemma {:induction false} BuildMapKeys(e: seq<IconEntry>, k: string)
    ensures k in BuildMap(e) <==> exists i :: 0 <= i < |e| && e[i].0 == k
    decreases |e|
  {
    if e != [] {
      var p := e[..|e| - 1];
      BuildMapKeys(p, k);
      if k in BuildMap(p) {
        var i :| 0 <= i < |p| && p[i].0 == k;
        assert e[i].0 == k;
      }
      if i :| 0 <= i < |e| && e[i].0 == k {
        if i < |p| { assert p[i].0 == k; }
      }
    }
  }

  /** The last entry for a key decides its value: later duplicates win. */
  lemma {:induction false} BuildMapLastWins(e: seq<IconEntry>, j: nat)
    requires j < |e|
    requires forall i :: j < i < |e| ==> e[i].0 != e[j].0
    ensures e[j].0 in BuildMap(e) && BuildMap(e)[e[j].0] == e[j].1
    decreases |e|
  {
    if j < |e| - 1 {
      var p := e[..|e| - 1];
      assert forall i :: j < i < |p| ==> p[i].0 == e[i].0;
      BuildMapLastWins(p, j);
    }
  }

  /** FILE_TYPE_ICONS as the program sees it. */
  function IconTable(): map<string, string> {
    BuildMap(ICON_ENTRIES)
  }

  /** The icon for an extension that is already lower-cased. */
  function IconFor(ext: string): string {
    var t := IconTable();
    if ext in t then t[ext] else DEFAULT_ICON
  }

  /** The icon for a file, by its lower-cased extension. */
  function GetFileIcon(path: string): string {
    IconFor(LowerExt(path))
  }

  lemma IcoAndSvgUseLaterEntries()
    ensures IconFor(".ico") == "extension"
    ensures IconFor(".svg") == "extension"
  {
    var e := ICON_ENTRIES;
    assert |e| == 98;
    assert e[92] == (".ico", "extension") && e[93] == (".svg", "extension");
    assert e[94].0 == ".ttf" && e[95].0 == ".otf" && e[96].0 == ".woff" && e[97].0 == ".woff2";
    BuildMapLastWins(e, 92);
    BuildMapLastWins(e, 93);
  }

  /** The shape every key of the icon table has: a dot, then a character other than a dot. */
  predicate OneDotKey(k: string) {
    |k| >= 2 && k[0] == '.' && k[1] != '.'
  }

  predicate OneDotKeys(e: seq<IconEntry>) {
    forall i :: 0 <= i < |e| ==> OneDotKey(e[i].0)
  }

  lemma OneDotKeysAppend(a: seq<IconEntry>, b: seq<IconEntry>)
    requires OneDotKeys(a) && OneDotKeys(b)
    ensures OneDotKeys(a + b)
  {
    assert forall i :: |a| <= i < |a + b| ==> (a + b)[i] == b[i - |a|];
  }

  lemma IconEntriesOneDot()
    ensures OneDotKeys(ICON_ENTRIES)
  {
    SectionsOneDot();
    OneDotKeysAppend(IMAGE_ICONS, DOCUMENT_ICONS);
    OneDotKeysAppend(IMAGE_ICONS + DOCUMENT_ICONS, AUDIO_ICONS);
    OneDotKeysAppend(IMAGE_ICONS + DOCUMENT_ICONS + AUDIO_ICONS, VIDEO_ICONS);
    OneDotKeysAppend(IMAGE_ICONS + DOCUMENT_ICONS + AUDIO_ICONS + VIDEO_ICONS, ARCHIVE_ICONS);
    OneDotKeysAppend(IMAGE_ICONS + DOCUMENT_ICONS + AUDIO_ICONS + VIDEO_ICONS + ARCHIVE_ICONS, OTHER_ICONS);
  }

  lemma SectionsOneDot()
    ensures OneDotKeys(IMAGE_ICONS) && OneDotKeys(DOCUMENT_ICONS) && OneDotKeys(AUDIO_ICONS)
    ensures OneDotKeys(VIDEO_ICONS) && OneDotKeys(ARCHIVE_ICONS) && OneDotKeys(OTHER_ICONS)
  {
    MediaSectionsOneDot();
    OtherSectionsOneDot();
  }

  lemma MediaSectionsOneDot()
    ensures OneDotKeys(IMAGE_ICONS) && OneDotKeys(DOCUMENT_ICONS) && OneDotKeys(AUDIO_ICONS)
  {
    assert OneDotKeys(IMAGE_ICONS);
    assert OneDotKeys(DOCUMENT_ICONS);
  }

  lemma OtherSectionsOneDot()
    ensures OneDotKeys(VIDEO_ICONS) && OneDotKeys(ARCHIVE_ICONS) && OneDotKeys(OTHER_ICONS)
  {
    assert OneDotKeys(VIDEO_ICONS);
    assert OneDotKeys(ARCHIVE_ICONS);
    CodeSectionOneDot();
  }

  lemma CodeSectionOneDot()
    ensures OneDotKeys(OTHER_ICONS)
  {
  }

  /** No key of the icon table begins with two dots. */
  lemma IconKeysHaveOneDot(k: string)
    requires k in IconTable()
    ensures OneDotKey(k)
  {
    IconEntriesOneDot();
    var e := ICON_ENTRIES;
    BuildMapKeys(e, k);
    var i :| 0 <= i < |e| && e[i].0 == k;
  }

  /** Every catalog output is a lower-case dot-extension with nothing after its one dot but letters and digits. */
  predicate DotExtension(e: string) {
    |e| >= 2 && e[0] == '.' && forall i :: 0 < i < |e| ==> e[i] != '.' && e[i] != '/'
  }

  lemma OutputsAreDotExtensions(c: Category, fmt: string)
    requires fmt in Outputs(c)
    ensures DotExtension(fmt) && Text.Lower(fmt) == fmt
  {
  }

  // ---- the converted-file icon ----------------------------------------------

  /**
   * The icon shown for the converted file as the program computes it: a dot
   * is put in front of the lower-cased format; no format hides the icon.
   */
  function ConvertedFileIconAsWritten(fmt: string): Option<string> {
    if fmt == [] then None else Some(IconFor("." + Text.Lower(fmt)))
  }

  /**
   * The formats the program passes are extensions that already start with a
   * dot, so the key looked up starts with two dots, is never in the table,
   * and every output format gets the default icon.
   */
  lemma ConvertedFileIconAlwaysDefault(c: Category, fmt: string)
    requires fmt in Outputs(c)
    ensures ConvertedFileIconAsWritten(fmt) == Some(DEFAULT_ICON)
  {
    OutputsAreDotExtensions(c, fmt);
    var key := "." + Text.Lower(fmt);
    assert key[1] == '.';
    if key in IconTable() {
      IconKeysHaveOneDot(key);
    }
  }

  /** The extension a format names: the format itself when it has its dot, one dot added otherwise. */
  function FormatExtension(fmt: string): string {
    var l := Text.Lower(fmt);
    if l != [] && l[0] == '.' then l else "." + l
  }

  /** The converted-file icon, looked up under the extension the format names. */
  function ConvertedFileIcon(fmt: string): Option<string> {
    if fmt == [] then None else Some(IconFor(FormatExtension(fmt)))
  }

  /**
   * The icon shown for the converted file is the icon the file written by
   * the conversion gets: the input's stem with the chosen extension.
   */
  lemma ConvertedFileIconMatchesOutput(c: Category, fmt: string, input: string)
    requires fmt in Outputs(c) && Paths.Ext(input) != []
    ensures ConvertedFileIcon(fmt) == Some(GetFileIcon(Paths.Stem(input) + fmt))
  {
    OutputsAreDotExtensions(c, fmt);
    Paths.ExtOfReplaced(input, fmt);
  }

  // ---- the recommended output format ---------------------------------------

  /** The preferred output formats per category, best first. */
  function Recommendations(c: Category): seq<string> {
    match c
    case Image => [".pdf", ".png", ".jpg", ".webp"]
    case Audio => [".mp3", ".flac", ".wav"]
    case Video => [".mp4", ".mkv", ".avi"]
    case Document => [".pdf", ".docx", ".txt"]
  }

  /** The position in `prefs` of the first format `available` holds. */
  function FirstAvailable(prefs: seq<string>, available: seq<string>): (r: Option<nat>)
    ensures r.Some? ==> (r.value < |prefs| && prefs[r.value] in available
      && forall k :: 0 <= k < r.value ==> prefs[k] !in available)
    ensures r.None? ==> forall k :: 0 <= k < |prefs| ==> prefs[k] !in available
    decreases |prefs|
  {
    if prefs == [] then None
    else if prefs[0] in available then Some(0)
    else match FirstAvailable(prefs[1..], available)
      case None => None
      case Some(k) => Some(k + 1)
  }

  /**
   * The default output format: the first recommended format on offer, else
   * the first format on offer, else the empty string.
   */
  function RecommendedFormat(c: Category, available: seq<string>): string {
    var prefs := Recommendations(c);
    match FirstAvailable(prefs, available)
    case Some(k) => prefs[k]
    case None => if available != [] then available[0] else ""
  }

  /**
   * The recommendation is on offer whenever anything is; it is a preferred
   * format whenever one is on offer, with every better one missing; and it
   * is the first format on offer when none of the preferred ones is.
   */
  lemma RecommendedFormatSpec(c: Category, available: seq<string>)
    ensures var r := RecommendedFormat(c, available);
      && (available != [] <==> r in available)
      && (available == [] ==> r == "")
      && ((exists k :: 0 <= k < |Recommendations(c)| && Recommendations(c)[k] in available) ==>
            exists k :: 0 <= k < |Recommendations(c)| && Recommendations(c)[k] == r
              && forall j :: 0 <= j < k ==> Recommendations(c)[j] !in available)
      && ((forall k :: 0 <= k < |Recommendations(c)| ==> Recommendations(c)[k] !in available) && available != [] ==>
            r == available[0])
  {
    var prefs := Recommendations(c);
    var f := FirstAvailable(prefs, available);
    if f.Some? {
      var k := f.value;
      assert prefs[k] == RecommendedFormat(c, available);
    }
  }

  /** Every preferred format is an output the category offers. */
  lemma RecommendationsAreOutputs(c: Category)
    ensures forall k :: 0 <= k < |Recommendations(c)| ==> Recommendations(c)[k] in Outputs(c)
  {
  }

  /** With the full list of outputs on offer, the first preferred format is chosen. */
  lemma RecommendedDefaults()
    ensures RecommendedFormat(Image, Outputs(Image)) == ".pdf"
    ensures RecommendedFormat(Audio, Outputs(Audio)) == ".mp3"
    ensures RecommendedFormat(Video, Outputs(Video)) == ".mp4"
    ensures RecommendedFormat(Document, Outputs(Document)) == ".pdf"
  {
  }

  /** What choosing a file type sets up: the formats offered, the default and its icon. */
  datatype FormatChoice = FormatChoice(options: seq<string>, default: string, icon: Option<string>)

  /**
   * The format selectors for a detected file type: the category's outputs,
   * with the recommended one selected and its icon shown; an undetected
   * type empties both selectors and selects nothing.
   */
  function FormatOptions(fileType: Option<Category>): (r: Option<FormatChoice>)
    ensures fileType.None? <==> r.None?
    ensures r.Some? ==> (r.value.options == Outputs(fileType.value)
      && r.value.default == RecommendedFormat(fileType.value, Outputs(fileType.value))
      && r.value.default in r.value.options
      && r.value.icon == Some(IconFor(r.value.default)))
  {
    match fileType
    case None => None
    case Some(c) =>
      var d := RecommendedFormat(c, Outputs(c));
      RecommendedFormatSpec(c, Outputs(c));
      OutputsAreDotExtensions(c, d);
      Some(FormatChoice(Outputs(c), d, ConvertedFileIcon(d)))
  }
}
