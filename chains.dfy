/**
 * The decision tables of the conversion worker: the document route table,
 * the ordered FFmpeg executable search, the office-suite lookup, the text
 * encoding probe, and the format choices the audio and video backends make.
 */
module Chains {
  import opened Wrappers
  import Paths
  import Catalog

  // ---- document routes ------------------------------------------------------

  /** The document conversions the worker knows. */
  datatype DocRoute = PdfToImage | ImageToPdf | TxtToPdf | PdfToTxt | DocToPdf | DocxToPdf | PdfToDocx

  /** The input extensions the image-to-PDF route accepts. */
  const IMAGE_TO_PDF_INPUTS: seq<string> := [".jpg", ".jpeg", ".png", ".webp", ".bmp", ".tiff"]

  /** The route for a pair of lower-cased extensions, tried in the order the worker tests them. */
  function RouteDocument(extIn: string, extOut: string): Option<DocRoute> {
    if extIn == ".pdf" && extOut in [".jpg", ".jpeg"] then Some(PdfToImage)
    else if extIn in IMAGE_TO_PDF_INPUTS && extOut == ".pdf" then Some(ImageToPdf)
    else if extIn == ".txt" && extOut == ".pdf" then Some(TxtToPdf)
    else if extIn == ".pdf" && extOut == ".txt" then Some(PdfToTxt)
    else if extIn == ".doc" && extOut == ".pdf" then Some(DocToPdf)
    else if extIn == ".docx" && extOut == ".pdf" then Some(DocxToPdf)
    else if extIn == ".pdf" && extOut == ".docx" then Some(PdfToDocx)
    else None
  }

  /** Each route is taken for exactly its own pairs of extensions. */
  lemma RouteDocumentIff(extIn: string, extOut: string, r: DocRoute)
    ensures RouteDocument(extIn, extOut) == Some(r) <==>
      match r
      case PdfToImage => extIn == ".pdf" && (extOut == ".jpg" || extOut == ".jpeg")
      case ImageToPdf => extIn in IMAGE_TO_PDF_INPUTS && extOut == ".pdf"
      case TxtToPdf => extIn == ".txt" && extOut == ".pdf"
      case PdfToTxt => extIn == ".pdf" && extOut == ".txt"
      case DocToPdf => extIn == ".doc" && extOut == ".pdf"
      case DocxToPdf => extIn == ".docx" && extOut == ".pdf"
      case PdfToDocx => extIn == ".pdf" && extOut == ".docx"
  {
  }

  /** The catalog's document input and output pairs that have a route. */
  function ConvertibleDocumentPairs(): set<(string, string)> {
    set i, o | i in Catalog.Inputs(Catalog.Document) && o in Catalog.Outputs(Catalog.Document)
      && RouteDocument(i, o).Some? :: (i, o)
  }

  /**
   * Of the 16 pairs the catalog offers for documents only six have a
   * route; `.doc` to `.txt` and `.pdf` to `.pdf`, for instance, have none.
   */
  lemma CatalogDocumentPairs()
    ensures ConvertibleDocumentPairs() ==
      {(".pdf", ".docx"), (".pdf", ".txt"), (".pdf", ".jpg"),
       (".doc", ".pdf"), (".docx", ".pdf"), (".txt", ".pdf")}
    ensures |Catalog.Inputs(Catalog.Document)| * |Catalog.Outputs(Catalog.Document)| == 16
    ensures RouteDocument(".doc", ".txt").None? && RouteDocument(".pdf", ".pdf").None?
  {
    var s := ConvertibleDocumentPairs();
    var t := {(".pdf", ".docx"), (".pdf", ".txt"), (".pdf", ".jpg"), (".doc", ".pdf"), (".docx", ".pdf"), (".txt", ".pdf")};
    PdfPairsRouted();
    OfficePairsRouted();
    forall p | p in s
      ensures p in t
    {
      RoutedDocumentPair(p.0, p.1);
    }
  }

  lemma PdfPairsRouted()
    ensures var s := ConvertibleDocumentPairs();
      (".pdf", ".docx") in s && (".pdf", ".txt") in s && (".pdf", ".jpg") in s
  {
    assert RouteDocument(".pdf", ".docx").Some? && RouteDocument(".pdf", ".txt").Some?;
    assert RouteDocument(".pdf", ".jpg").Some?;
  }

  lemma OfficePairsRouted()
    ensures var s := ConvertibleDocumentPairs();
      (".doc", ".pdf") in s && (".docx", ".pdf") in s && (".txt", ".pdf") in s
  {
    assert RouteDocument(".doc", ".pdf").Some? && RouteDocument(".docx", ".pdf").Some?;
    assert RouteDocument(".txt", ".pdf").Some?;
  }

  lemma RoutedDocumentPair(i: string, o: string)
    requires i in Catalog.Inputs(Catalog.Document) && o in Catalog.Outputs(Catalog.Document)
    requires RouteDocument(i, o).Some?
    ensures (i, o) in {(".pdf", ".docx"), (".pdf", ".txt"), (".pdf", ".jpg"), (".doc", ".pdf"), (".docx", ".pdf"), (".txt", ".pdf")}
  {
    if i == ".pdf" {
    } else if i == ".doc" {
    } else if i == ".docx" {
    } else {
      assert i == ".txt";
    }
  }

  // ---- the FFmpeg executable ---------------------------------------------------

  /** Where the worker looks for FFmpeg when it is not on the search path, in order. */
  function FfmpegCandidates(moduleDir: string): seq<string> {
    ["ffmpeg", "./ffmpeg", "./ffmpeg.exe", Paths.Join(moduleDir, "ffmpeg"), Paths.Join(moduleDir, "ffmpeg.exe")]
  }

  /** The position of the first candidate that exists or that the search path resolves. */
  function FirstUsable(cands: seq<string>, existing: set<string>, which: map<string, string>): (r: Option<nat>)
    ensures r.Some? ==> (r.value < |cands| && (cands[r.value] in existing || cands[r.value] in which)
      && forall k :: 0 <= k < r.value ==> cands[k] !in existing && cands[k] !in which)
    ensures r.None? ==> forall k :: 0 <= k < |cands| ==> cands[k] !in existing && cands[k] !in which
    decreases |cands|
  {
    if cands == [] then None
    else if cands[0] in existing || cands[0] in which then Some(0)
    else match FirstUsable(cands[1..], existing, which)
      case None => None
      case Some(k) => Some(k + 1)
  }

  /**
   * The FFmpeg command: what the search path gives for `ffmpeg`, else the
   * first usable candidate; `which` maps each name the search path
   * resolves to the path it resolves to.
   */
  function FfmpegPath(existing: set<string>, which: map<string, string>, moduleDir: string): Option<string> {
    if "ffmpeg" in which then Some(which["ffmpeg"])
    else
      var cands := FfmpegCandidates(moduleDir);
      match FirstUsable(cands, existing, which)
      case Some(k) => Some(cands[k])
      case None => None
  }

  /**
   * FFmpeg on the search path always wins; otherwise the candidate chosen is
   * usable and every earlier candidate is not; and there is no command
   * exactly when no candidate is usable.
   */
  lemma FfmpegPathSpec(existing: set<string>, which: map<string, string>, moduleDir: string)
    ensures var p := FfmpegPath(existing, which, moduleDir);
      var cands := FfmpegCandidates(moduleDir);
      && ("ffmpeg" in which ==> p == Some(which["ffmpeg"]))
      && ("ffmpeg" !in which ==>
            && (p.None? <==> forall k :: 0 <= k < |cands| ==> cands[k] !in existing && cands[k] !in which)
            && (p.Some? ==> exists k :: (0 <= k < |cands| && cands[k] == p.value
                  && (cands[k] in existing || cands[k] in which)
                  && forall j :: 0 <= j < k ==> cands[j] !in existing && cands[j] !in which)))
  {
    var cands := FfmpegCandidates(moduleDir);
    var f := FirstUsable(cands, existing, which);
    if "ffmpeg" !in which && f.Some? {
      assert cands[f.value] == FfmpegPath(existing, which, moduleDir).value;
    }
  }

  // ---- the office suite --------------------------------------------------------

  /** The LibreOffice command: `libreoffice` if the search path has it, else `soffice`. */
  function OfficeTool(which: map<string, string>): (r: Option<string>)
  {
    if "libreoffice" in which then Some(which["libreoffice"])
    else if "soffice" in which then Some(which["soffice"])
    else None
  }

  /** The names the worker asks the search path for, in order, to run LibreOffice. */
  const OFFICE_NAMES: seq<string> := ["libreoffice", "soffice"]

  /**
   * The LibreOffice command is what the search path gives for the first of
   * its names the search path resolves: the same first-usable search as
   * FFmpeg's, with no file checked on disk.
   */
  lemma OfficeToolSearch(which: map<string, string>)
    ensures OfficeTool(which) == match FirstUsable(OFFICE_NAMES, {}, which)
      case Some(k) => Some(which[OFFICE_NAMES[k]])
      case None => None
  {
    var f := FirstUsable(OFFICE_NAMES, {}, which);
    if f.Some? {
      assert OFFICE_NAMES[f.value] in which;
      if f.value == 1 {
        assert "libreoffice" !in which;
      }
    }
  }

  /** The file LibreOffice writes: the input's stem with `.pdf`, in the output's directory. */
  function OfficeOutput(input: string, output: string): string {
    Paths.Join(Paths.DirName(output), Paths.Stem(Paths.BaseName(input)) + ".pdf")
  }

  // ---- reading the text file ------------------------------------------------------

  datatype Encoding = Utf8 | Gbk | Gb2312 | Latin1

  /** The encodings tried, in order. */
  const ENCODINGS: seq<Encoding> := [Utf8, Gbk, Gb2312, Latin1]

  /**
   * The first encoding, in order, that reads the file; `decoded` maps each
   * encoding that reads it to the lines it reads.
   */
  function FirstDecoding(decoded: map<Encoding, seq<string>>): (r: Option<Encoding>)
    ensures r.Some? ==> r.value in decoded
    ensures r.None? <==> Utf8 !in decoded && Gbk !in decoded && Gb2312 !in decoded && Latin1 !in decoded
    ensures r == Some(Gbk) ==> Utf8 !in decoded
    ensures r == Some(Gb2312) ==> Utf8 !in decoded && Gbk !in decoded
    ensures r == Some(Latin1) ==> Utf8 !in decoded && Gbk !in decoded && Gb2312 !in decoded
  {
    if Utf8 in decoded then Some(Utf8)
    else if Gbk in decoded then Some(Gbk)
    else if Gb2312 in decoded then Some(Gb2312)
    else if Latin1 in decoded then Some(Latin1)
    else None
  }

  // ---- audio and video backends --------------------------------------------------

  /** The pydub export format and bitrate for a lower-cased output extension. */
  function PydubExport(ext: string): (string, Option<string>) {
    if ext == ".mp3" then ("mp3", Some("192k"))
    else if ext == ".wav" then ("wav", None)
    else if ext == ".flac" then ("flac", None)
    else if ext == ".ogg" then ("ogg", None)
    else if ext == ".m4a" then ("mp4", None)
    else ("mp3", Some("192k"))
  }

  /**
   * Every audio output of the catalog is exported in the format its
   * extension names, except `.m4a`, which goes out as `mp4`; anything else
   * falls back to 192k MP3, the only format given a bitrate.
   */
  lemma PydubExportSpec(ext: string)
    ensures var (format, bitrate) := PydubExport(ext);
      && (ext in Catalog.Outputs(Catalog.Audio) && ext != ".m4a" ==> format == ext[1..])
      && (ext == ".m4a" ==> format == "mp4")
      && (ext !in Catalog.Outputs(Catalog.Audio) ==> format == "mp3")
      && (bitrate.Some? <==> format == "mp3")
  {
  }

  /** What the miniaudio backend does with the decoded audio. */
  datatype MiniaudioAction = WriteWave | CopyInput

  /** miniaudio writes WAVE for a `.wav` output and copies the input for any other. */
  function MiniaudioPlan(outExt: string): (r: MiniaudioAction)
  {
    if outExt == ".wav" then WriteWave else CopyInput
  }

  /** Whether MoviePy is given explicit H.264/AAC codecs: exactly for the catalog's video outputs. */
  function MoviepyExplicitCodecs(outExt: string): (r: bool)
    ensures r <==> outExt in Catalog.Outputs(Catalog.Video)
  {
    outExt in [".mp4", ".avi", ".mov", ".mkv", ".wmv"]
  }
}
