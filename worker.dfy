/**
 * The conversion worker. Every conversion step is an async generator in the
 * program; here each one is a function from the job, the environment the
 * libraries run in and the cancellation schedule to the values it yields
 * and how it ends. The worker's own state, the `progress` and `cancelled`
 * fields, is the class at the end of the module.
 */
module Worker {
  import opened Wrappers
  import Text
  import Paths
  import Catalog
  import Layout
  import Chains

  // ---- what the libraries and the file system do ---------------------------

  /**
   * How an optional backend fares: it cannot be imported or cannot load the
   * input (nothing yielded), it loads the input and then fails to write (50
   * yielded), or it converts (50 and 70 yielded).
   */
  datatype Attempt = NotLoaded | FailsAfterLoad | Converts

  /** The outcome of every library call and file-system query a conversion makes. */
  datatype Env = Env(
    existing: set<string>,                     // paths that exist before the conversion writes anything
    appears: set<string>,                      // paths that exist once the libraries have written
    which: map<string, string>,                // what the search path resolves each command name to
    windows: bool,                             // the platform is Windows
    moduleDir: string,                         // the directory the program is installed in
    imageOpens: bool, imageSaves: bool,        // PIL opens the input, PIL writes the output
    pydub: Attempt, miniaudio: Attempt,        // the two audio libraries
    copyOk: bool,                              // copying the input file to the output succeeds
    moviepyAvailable: bool, moviepy: Attempt,  // MoviePy was importable at start-up, and how it fares
    ffmpegModule: bool, ffmpegRuns: bool,      // ffmpeg-python imports, and the FFmpeg run succeeds
    pdf: Option<seq<string>>,                  // the text of each page of the input PDF; None if it does not open
    decoded: map<Chains.Encoding, seq<string>>, // the lines each encoding that reads the text file reads
    fontRegisters: bool,                       // registering the SimSun font succeeds
    wordConverts: bool,                        // Word automation converts the document
    officeRuns: bool, renameOk: bool,          // LibreOffice exits with 0, and renaming its output succeeds
    docx2pdfInstalled: bool, docx2pdfConverts: bool,
    docxSaves: bool                            // python-docx writes the document
  )

  // ---- errors -----------------------------------------------------------------

  /** The step whose handler wrapped an error in its own message. */
  datatype Stage =
    | Run | ImageStep | AudioStep | VideoStep | VideoLibraries | FfmpegCall | DocumentStep
    | Route(route: Chains.DocRoute)

  datatype Cause =
    | UnknownFileType
    | FileNotFound(path: string)
    | UnsupportedImage(ext: string)
    | OpenFailed
    | SaveFailed
    | CopyFailed
    | FfmpegModuleMissing
    | NoFfmpeg
    | FfmpegFailed
    | UnsupportedDocument(extIn: string, extOut: string)
    | NotAsyncIterable
    | Undecodable
    | NoPdfPages
    | OutputMissing(path: string)
    | DocNeedsTools
    | DocxNeedsLibrary
    | ConvertFailed
    | Wrapped(stage: Stage, cause: Cause)

  // ---- traces ------------------------------------------------------------------

  /** A yielded value: `Assigned` also stores it in the worker's `progress` field, `Literal` does not. */
  datatype Emit = Assigned(value: int) | Literal(value: int)

  function Values(out: seq<Emit>): seq<int> {
    seq(|out|, i requires 0 <= i < |out| => out[i].value)
  }

  function Literals(vs: seq<int>): seq<Emit> {
    seq(|vs|, i requires 0 <= i < |vs| => Literal(vs[i]))
  }

  /**
   * When the user cancels: never, or once the consumer has taken `taken`
   * values. A check of the `cancelled` flag made after `n` values have been
   * yielded sees the cancellation exactly when `taken <= n`.
   */
  datatype Cancel = Never | After(taken: nat)

  predicate Observed(cancel: Cancel, n: nat) {
    cancel.After? && cancel.taken <= n
  }

  /** What a successful step produced. */
  datatype Product =
    | SavedImage
    | PydubExported(format: string, bitrate: Option<string>)
    | MiniaudioWrote(action: Chains.MiniaudioAction)
    | Copied
    | MoviepyWrote(explicitCodecs: bool)
    | FfmpegWrote(command: string)
    | PageImages(files: seq<(string, string)>)
    | ImagePdf
    | TextPdf(events: seq<Layout.Draw>)
    | PdfTextFile(text: string)
    | WordSaved
    | OfficeSaved(command: string)
    | Docx2pdfSaved
    | DocxFile(blocks: seq<Layout.Block>)

  /** How a generator ends: it returns (with no product when it stopped for a cancellation), or raises. */
  datatype Status = Returned(product: Option<Product>) | Raised(error: Cause)

  datatype Gen = Gen(out: seq<Emit>, status: Status)

  /** The worker's fixed fields; `None` stands for any file type outside the four categories. */
  datatype Job = Job(input: string, output: string, fileType: Option<Catalog.Category>)

  const SKIPPED := Gen([], Returned(None))

  function A(v: int): Emit { Assigned(v) }

  function L(v: int): Emit { Literal(v) }

  // ---- the category steps -------------------------------------------------------

  /** Converting an image with PIL. */
  function ConvertImage(job: Job, env: Env, cancel: Cancel, k: nat): Gen {
    if Observed(cancel, k) then SKIPPED
    else if !env.imageOpens then Gen([A(30)], Raised(Wrapped(ImageStep, OpenFailed)))
    else if !env.imageSaves then Gen([A(30), A(70)], Raised(Wrapped(ImageStep, SaveFailed)))
    else Gen([A(30), A(70)], Returned(Some(SavedImage)))
  }

  /** The values an optional backend yields before it converts or gives up. */
  function AttemptOut(a: Attempt): seq<Emit> {
    match a
    case NotLoaded => []
    case FailsAfterLoad => [A(50)]
    case Converts => [A(50), A(70)]
  }

  /** Converting audio: pydub, then miniaudio, then a plain copy of the input. */
  function ConvertAudio(job: Job, env: Env, cancel: Cancel, k: nat): Gen {
    if Observed(cancel, k) then SKIPPED
    else
      var outExt := Text.Lower(Paths.Ext(job.output));
      var pre := [A(30)] + AttemptOut(env.pydub);
      if env.pydub == Converts then
        var (format, bitrate) := Chains.PydubExport(outExt);
        Gen(pre, Returned(Some(PydubExported(format, bitrate))))
      else
        var pre2 := pre + AttemptOut(env.miniaudio);
        if env.miniaudio == Converts then Gen(pre2, Returned(Some(MiniaudioWrote(Chains.MiniaudioPlan(outExt)))))
        else if env.copyOk then Gen(pre2 + [A(50), A(70)], Returned(Some(Copied)))
        else Gen(pre2 + [A(50)], Raised(Wrapped(AudioStep, CopyFailed)))
  }

  /** Converting video: MoviePy when it was importable, then FFmpeg; there is no copy fallback. */
  function ConvertVideo(job: Job, env: Env, cancel: Cancel, k: nat): Gen {
    if Observed(cancel, k) then SKIPPED
    else
      var outExt := Text.Lower(Paths.Ext(job.output));
      var pre := [A(30)] + (if env.moviepyAvailable then AttemptOut(env.moviepy) else []);
      if env.moviepyAvailable && env.moviepy == Converts then
        Gen(pre, Returned(Some(MoviepyWrote(Chains.MoviepyExplicitCodecs(outExt)))))
      else if !env.ffmpegModule then
        Gen(pre, Raised(Wrapped(VideoStep, Wrapped(VideoLibraries, FfmpegModuleMissing))))
      else match Chains.FfmpegPath(env.existing, env.which, env.moduleDir)
        case None => Gen(pre, Raised(Wrapped(VideoStep, Wrapped(VideoLibraries, NoFfmpeg))))
        case Some(command) =>
          if env.ffmpegRuns then Gen(pre + [A(70)], Returned(Some(FfmpegWrote(command))))
          else Gen(pre, Raised(Wrapped(VideoStep, Wrapped(VideoLibraries, Wrapped(FfmpegCall, FfmpegFailed)))))
  }

  // ---- the document routes ---------------------------------------------------------

  /** PDF pages to images (no values yielded). */
  function PdfToImageStep(job: Job, env: Env, cancel: Cancel, k: nat): Gen {
    var stage := Route(Chains.PdfToImage);
    if Observed(cancel, k) then SKIPPED
    else if job.input !in env.existing then Gen([], Raised(FileNotFound(job.input)))
    else match env.pdf
      case None => Gen([], Raised(Wrapped(stage, OpenFailed)))
      case Some(pages) =>
        if pages == [] then Gen([], Raised(Wrapped(stage, NoPdfPages)))
        else
          var names := Layout.PageImageNames(job.output, |pages|);
          match Layout.FirstMissing(names, env.appears)
          case Some(i) => Gen([], Raised(Wrapped(stage, OutputMissing(names[i]))))
          case None =>
            var format := Layout.ImageSaveFormat(job.output);
            Gen([], Returned(Some(PageImages(seq(|pages|, i requires 0 <= i < |pages| => (names[i], format))))))
  }

  /** An image to a one-page PDF (no values yielded). */
  function ImageToPdfStep(job: Job, env: Env, cancel: Cancel, k: nat): Gen {
    var stage := Route(Chains.ImageToPdf);
    var extIn := Text.Lower(Paths.Ext(job.input));
    if Observed(cancel, k) then SKIPPED
    else if job.input !in env.existing then Gen([], Raised(FileNotFound(job.input)))
    else if extIn !in Chains.IMAGE_TO_PDF_INPUTS then Gen([], Raised(UnsupportedImage(extIn)))
    else if !env.imageOpens then Gen([], Raised(Wrapped(stage, OpenFailed)))
    else if !env.imageSaves then Gen([], Raised(Wrapped(stage, SaveFailed)))
    else if job.output !in env.appears then Gen([], Raised(Wrapped(stage, OutputMissing(job.output))))
    else Gen([], Returned(Some(ImagePdf)))
  }

  /** Where Windows keeps the SimSun font. */
  const SIMSUN_PATH := "C:/Windows/Fonts/simsun.ttc"

  /** The font the text is drawn in: SimSun when it is there and registers, else Helvetica. */
  function TextFont(env: Env): string {
    if env.windows && SIMSUN_PATH in env.existing && env.fontRegisters then "SimSun" else "Helvetica"
  }

  /** A text file to a PDF (no values yielded). */
  function TxtToPdfStep(job: Job, env: Env, cancel: Cancel, k: nat): Gen {
    var stage := Route(Chains.TxtToPdf);
    if Observed(cancel, k) then SKIPPED
    else if job.input !in env.existing then Gen([], Raised(FileNotFound(job.input)))
    else match Chains.FirstDecoding(env.decoded)
      case None => Gen([], Raised(Wrapped(stage, Undecodable)))
      case Some(encoding) =>
        var events := Layout.Layout(env.decoded[encoding], Layout.LETTER_HEIGHT, TextFont(env));
        if job.output !in env.appears then Gen([], Raised(Wrapped(stage, OutputMissing(job.output))))
        else Gen([], Returned(Some(TextPdf(events))))
  }

  /** A PDF to a text file (no values yielded). */
  function PdfToTxtStep(job: Job, env: Env, cancel: Cancel, k: nat): Gen {
    var stage := Route(Chains.PdfToTxt);
    if Observed(cancel, k) then SKIPPED
    else if job.input !in env.existing then Gen([], Raised(FileNotFound(job.input)))
    else match env.pdf
      case None => Gen([], Raised(Wrapped(stage, OpenFailed)))
      case Some(pages) =>
        if job.output !in env.appears then Gen([], Raised(Wrapped(stage, OutputMissing(job.output))))
        else Gen([], Returned(Some(PdfTextFile(Layout.PdfText(pages)))))
  }

  /** A `.doc` file to PDF: Word on Windows, then LibreOffice, then an error naming what to install. */
  function DocToPdfStep(job: Job, env: Env, cancel: Cancel, k: nat): Gen {
    if Observed(cancel, k + 1) then Gen([L(10)], Returned(None))
    else if env.windows && env.wordConverts then Gen([L(10), L(30), L(90), L(100)], Returned(Some(WordSaved)))
    else match Chains.OfficeTool(env.which)
      case Some(command) =>
        if env.officeRuns && Chains.OfficeOutput(job.input, job.output) in env.appears && env.renameOk then
          Gen([L(10), L(30), L(90), L(100)], Returned(Some(OfficeSaved(command))))
        else Gen([L(10), L(30)], Raised(Wrapped(Route(Chains.DocToPdf), DocNeedsTools)))
      case None => Gen([L(10), L(30)], Raised(Wrapped(Route(Chains.DocToPdf), DocNeedsTools)))
  }

  /** A `.docx` file to PDF with docx2pdf. */
  function DocxToPdfStep(job: Job, env: Env, cancel: Cancel, k: nat): Gen {
    var stage := Route(Chains.DocxToPdf);
    if Observed(cancel, k + 1) then Gen([L(10)], Returned(None))
    else if !env.docx2pdfInstalled then Gen([L(10)], Raised(DocxNeedsLibrary))
    else if job.input !in env.existing then Gen([L(10), L(30)], Raised(Wrapped(stage, FileNotFound(job.input))))
    else if !env.docx2pdfConverts then Gen([L(10), L(30)], Raised(Wrapped(stage, ConvertFailed)))
    else if job.output !in env.appears then Gen([L(10), L(30), L(90)], Raised(Wrapped(stage, OutputMissing(job.output))))
    else Gen([L(10), L(30), L(90), L(100)], Returned(Some(Docx2pdfSaved)))
  }

  /** A PDF to a DOCX document, one heading, paragraph and page break per page. */
  function PdfToDocxStep(job: Job, env: Env, cancel: Cancel, k: nat): Gen {
    var stage := Route(Chains.PdfToDocx);
    if Observed(cancel, k + 1) then Gen([L(10)], Returned(None))
    else if job.input !in env.existing then Gen([L(10), L(20)], Raised(FileNotFound(job.input)))
    else match env.pdf
      case None => Gen([L(10), L(20)], Raised(Wrapped(stage, OpenFailed)))
      case Some(pages) =>
        var written := [L(10), L(20), L(30)] + Literals(Layout.DocxProgress(|pages|));
        if !env.docxSaves then Gen(written, Raised(Wrapped(stage, SaveFailed)))
        else if job.output !in env.appears then Gen(written + [L(95)], Raised(Wrapped(stage, OutputMissing(job.output))))
        else Gen(written + [L(95), L(100)], Returned(Some(DocxFile(Layout.DocxBlocks(pages)))))
  }

  /**
   * A route's step. The PDF-to-image, text-to-PDF and PDF-to-text steps
   * yield nothing, so they are coroutines rather than generators: with
   * `iterated` they are driven by `async for` as the program does it, which
   * raises before their body runs; otherwise they are awaited.
   */
  function RouteStep(r: Chains.DocRoute, job: Job, env: Env, cancel: Cancel, k: nat, iterated: bool): Gen {
    match r
    case PdfToImage => if iterated then Gen([], Raised(NotAsyncIterable)) else PdfToImageStep(job, env, cancel, k)
    case ImageToPdf => ImageToPdfStep(job, env, cancel, k)
    case TxtToPdf => if iterated then Gen([], Raised(NotAsyncIterable)) else TxtToPdfStep(job, env, cancel, k)
    case PdfToTxt => if iterated then Gen([], Raised(NotAsyncIterable)) else PdfToTxtStep(job, env, cancel, k)
    case DocToPdf => DocToPdfStep(job, env, cancel, k)
    case DocxToPdf => DocxToPdfStep(job, env, cancel, k)
    case PdfToDocx => PdfToDocxStep(job, env, cancel, k)
  }

  /** The document step: route on the lower-cased extensions, run the route, then 70. */
  function DocumentStepWith(job: Job, env: Env, cancel: Cancel, k: nat, iterated: bool): Gen {
    if Observed(cancel, k) then SKIPPED
    else
      var extIn, extOut := Text.Lower(Paths.Ext(job.input)), Text.Lower(Paths.Ext(job.output));
      match Chains.RouteDocument(extIn, extOut)
      case None => Gen([A(30)], Raised(Wrapped(DocumentStep, UnsupportedDocument(extIn, extOut))))
      case Some(r) => FrameRoute(r, RouteStep(r, job, env, cancel, k + 1, iterated))
  }

  /** What the document step makes of its route's step: 30 before it, 70 after it unless it raised, errors wrapped. */
  function FrameRoute(r: Chains.DocRoute, sub: Gen): Gen {
    if sub.status.Raised? then Gen([A(30)] + sub.out, Raised(Wrapped(DocumentStep, sub.status.error)))
    else
      var after := if r == Chains.ImageToPdf then [L(70)] else [];
      Gen([A(30)] + sub.out + after + [A(70)], sub.status)
  }

  /** The document step as the program is written: three routes are iterated although they are coroutines. */
  function ConvertDocumentAsWritten(job: Job, env: Env, cancel: Cancel, k: nat): Gen {
    DocumentStepWith(job, env, cancel, k, true)
  }

  /** The document step with every coroutine route awaited. */
  function ConvertDocument(job: Job, env: Env, cancel: Cancel, k: nat): Gen {
    DocumentStepWith(job, env, cancel, k, false)
  }

  function ConvertCategory(c: Catalog.Category, job: Job, env: Env, cancel: Cancel, k: nat): Gen {
    match c
    case Image => ConvertImage(job, env, cancel, k)
    case Audio => ConvertAudio(job, env, cancel, k)
    case Video => ConvertVideo(job, env, cancel, k)
    case Document => ConvertDocument(job, env, cancel, k)
  }

  /**
   * The whole conversion: 10, the category's step, then 100 unless the
   * cancellation was seen; every error comes out wrapped once more.
   */
  function RunConversion(job: Job, env: Env, cancel: Cancel): Gen {
    match job.fileType
    case None => Gen([A(10)], Raised(Wrapped(Run, UnknownFileType)))
    case Some(c) => FinishRun(ConvertCategory(c, job, env, cancel, 1), cancel)
  }

  /** What the run makes of its category step: 10 before it, 100 after it unless cancelled, errors wrapped. */
  function FinishRun(sub: Gen, cancel: Cancel): Gen {
    if sub.status.Raised? then Gen([A(10)] + sub.out, Raised(Wrapped(Run, sub.status.error)))
    else if Observed(cancel, 1 + |sub.out|) then Gen([A(10)] + sub.out, sub.status)
    else Gen([A(10)] + sub.out + [A(100)], sub.status)
  }

  // ---- properties of the traces -----------------------------------------------------

  predicate InRange(vs: seq<int>, lo: int, hi: int) {
    forall i :: 0 <= i < |vs| ==> lo <= vs[i] <= hi
  }

  predicate NonDecreasing(vs: seq<int>) {
    forall i, j :: 0 <= i <= j < |vs| ==> vs[i] <= vs[j]
  }

  /** No value a step yields is the run's own closing 100. */
  predicate NoClosing(out: seq<Emit>) {
    forall i :: 0 <= i < |out| ==> out[i] != Assigned(100)
  }

  lemma ValuesAppend(a: seq<Emit>, b: seq<Emit>)
    ensures Values(a + b) == Values(a) + Values(b)
  {
  }

  lemma LiteralsValues(vs: seq<int>)
    ensures Values(Literals(vs)) == vs
    ensures NoClosing(Literals(vs))
  {
  }

  /** A trace that stays within 10 to 100 and holds no closing 100. */
  predicate Shaped(out: seq<Emit>) {
    InRange(Values(out), 10, 100) && NoClosing(out)
  }

  lemma ShapedAppend(a: seq<Emit>, b: seq<Emit>)
    requires Shaped(a) && Shaped(b)
    ensures Shaped(a + b)
  {
    ValuesAppend(a, b);
  }

  lemma ImageShape(job: Job, env: Env, cancel: Cancel, k: nat)
    ensures Shaped(ConvertImage(job, env, cancel, k).out)
  {
  }

  /** The values an audio step yields when it runs: they depend on the backends' outcomes only. */
  function AudioTrace(env: Env): seq<Emit> {
    var pre := [A(30)] + AttemptOut(env.pydub);
    if env.pydub == Converts then pre
    else
      var pre2 := pre + AttemptOut(env.miniaudio);
      if env.miniaudio == Converts then pre2
      else if env.copyOk then pre2 + [A(50), A(70)]
      else pre2 + [A(50)]
  }

  /** The values a video step yields when it runs, given whether an FFmpeg executable was found. */
  function VideoTrace(env: Env, found: bool): seq<Emit> {
    var pre := [A(30)] + (if env.moviepyAvailable then AttemptOut(env.moviepy) else []);
    if env.moviepyAvailable && env.moviepy == Converts then pre
    else if env.ffmpegModule && found && env.ffmpegRuns then pre + [A(70)]
    else pre
  }

  lemma AudioOut(job: Job, env: Env, cancel: Cancel, k: nat)
    ensures ConvertAudio(job, env, cancel, k).out == if Observed(cancel, k) then [] else AudioTrace(env)
  {
  }

  lemma VideoOut(job: Job, env: Env, cancel: Cancel, k: nat)
    ensures ConvertVideo(job, env, cancel, k).out
      == if Observed(cancel, k) then [] else VideoTrace(env, Chains.FfmpegPath(env.existing, env.which, env.moduleDir).Some?)
  {
  }

  /** Each value is at least the one before it. */
  predicate StepsUp(vs: seq<int>) {
    forall i :: 0 < i < |vs| ==> vs[i - 1] <= vs[i]
  }

  /** Values that never drop from one to the next never drop at all. */
  lemma {:induction false} StepsUpSorted(vs: seq<int>)
    requires StepsUp(vs)
    ensures NonDecreasing(vs)
    decreases |vs|
  {
    if |vs| > 1 {
      var p := vs[..|vs| - 1];
      assert StepsUp(p);
      StepsUpSorted(p);
      forall i, j | 0 <= i <= j < |vs|
        ensures vs[i] <= vs[j]
      {
        if j < |vs| - 1 {
          assert p[i] <= p[j];
        } else if i < j {
          assert p[i] <= p[|p| - 1];
        }
      }
    }
  }

  /** 30 first, then 50s, with a 70 allowed only as the last value: the shape of every media trace. */
  predicate Climbs(out: seq<Emit>) {
    && |out| >= 1 && out[0] == A(30)
    && forall i :: 0 < i < |out| ==> out[i] == A(50) || (out[i] == A(70) && i == |out| - 1)
  }

  lemma ClimbsSorted(out: seq<Emit>)
    requires Climbs(out)
    ensures Shaped(out) && MediaTrace(out)
  {
    var vs := Values(out);
    assert StepsUp(vs);
    StepsUpSorted(vs);
  }

  /** Appending 50s keeps a trace that has no 70 yet climbing. */
  lemma ClimbsThen(pre: seq<Emit>, tail: seq<Emit>)
    requires Climbs(pre) && A(70) !in pre
    requires forall i :: 0 <= i < |tail| ==> tail[i] == A(50) || (tail[i] == A(70) && i == |tail| - 1)
    ensures Climbs(pre + tail)
  {
    assert forall i :: 0 <= i < |pre| ==> (pre + tail)[i] == pre[i];
    assert forall i :: |pre| <= i < |pre + tail| ==> (pre + tail)[i] == tail[i - |pre|];
  }

  /** What a backend that did not convert leaves behind: nothing, or one 50. */
  lemma AttemptFailedOut(a: Attempt)
    requires a != Converts
    ensures AttemptOut(a) == [] || AttemptOut(a) == [A(50)]
  {
  }

  /** An audio trace stays within 30 to 70, in order. */
  lemma AudioTraceSorted(env: Env)
    ensures Shaped(AudioTrace(env)) && MediaTrace(AudioTrace(env))
  {
    var pre := [A(30)] + AttemptOut(env.pydub);
    ClimbsThen([A(30)], AttemptOut(env.pydub));
    if env.pydub != Converts {
      AttemptFailedOut(env.pydub);
      var pre2 := pre + AttemptOut(env.miniaudio);
      ClimbsThen(pre, AttemptOut(env.miniaudio));
      if env.miniaudio != Converts {
        AttemptFailedOut(env.miniaudio);
        ClimbsThen(pre2, if env.copyOk then [A(50), A(70)] else [A(50)]);
      }
    }
    ClimbsSorted(AudioTrace(env));
  }

  /** A video trace stays within 30 to 70, in order. */
  lemma VideoTraceSorted(env: Env, found: bool)
    ensures Shaped(VideoTrace(env, found)) && MediaTrace(VideoTrace(env, found))
  {
    var tried := if env.moviepyAvailable then AttemptOut(env.moviepy) else [];
    ClimbsThen([A(30)], tried);
    if !(env.moviepyAvailable && env.moviepy == Converts) {
      if env.moviepyAvailable {
        AttemptFailedOut(env.moviepy);
      }
      ClimbsThen([A(30)] + tried, [A(70)]);
    }
    ClimbsSorted(VideoTrace(env, found));
  }

  lemma AudioShape(job: Job, env: Env, cancel: Cancel, k: nat)
    ensures Shaped(ConvertAudio(job, env, cancel, k).out)
  {
    AudioOut(job, env, cancel, k);
    AudioTraceSorted(env);
  }

  lemma VideoShape(job: Job, env: Env, cancel: Cancel, k: nat)
    ensures Shaped(ConvertVideo(job, env, cancel, k).out)
  {
    VideoOut(job, env, cancel, k);
    VideoTraceSorted(env, Chains.FfmpegPath(env.existing, env.which, env.moduleDir).Some?);
  }

  lemma PdfToDocxShape(job: Job, env: Env, cancel: Cancel, k: nat)
    ensures Shaped(PdfToDocxStep(job, env, cancel, k).out)
  {
    if !Observed(cancel, k + 1) && job.input in env.existing && env.pdf.Some? {
      var progress := Layout.DocxProgress(|env.pdf.value|);
      Layout.DocxProgressShape(|env.pdf.value|);
      LiteralsValues(progress);
      var written := [L(10), L(20), L(30)] + Literals(progress);
      ShapedAppend([L(10), L(20), L(30)], Literals(progress));
      ShapedAppend(written, [L(95)]);
      ShapedAppend(written, [L(95), L(100)]);
    }
  }

  lemma RouteShape(r: Chains.DocRoute, job: Job, env: Env, cancel: Cancel, k: nat, iterated: bool)
    ensures Shaped(RouteStep(r, job, env, cancel, k, iterated).out)
  {
    match r
    case PdfToImage =>
    case ImageToPdf =>
    case TxtToPdf =>
    case PdfToTxt =>
    case DocToPdf => DocToPdfShape(job, env, cancel, k);
    case DocxToPdf => DocxToPdfShape(job, env, cancel, k);
    case PdfToDocx => PdfToDocxShape(job, env, cancel, k);
  }

  lemma DocToPdfShape(job: Job, env: Env, cancel: Cancel, k: nat)
    ensures Shaped(DocToPdfStep(job, env, cancel, k).out)
  {
    DocToPdfOut(job, env, cancel, k);
    DocToPdfOutsShaped();
  }

  /** The `.doc` route yields 10; or 10 and 30 before failing; or 10, 30, 90 and 100. */
  lemma DocToPdfOut(job: Job, env: Env, cancel: Cancel, k: nat)
    ensures var o := DocToPdfStep(job, env, cancel, k).out;
      o == [L(10)] || o == [L(10), L(30)] || o == [L(10), L(30), L(90), L(100)]
  {
  }

  lemma DocToPdfOutsShaped()
    ensures Shaped([L(10)]) && Shaped([L(10), L(30)]) && Shaped([L(10), L(30), L(90), L(100)])
  {
  }

  lemma DocxToPdfShape(job: Job, env: Env, cancel: Cancel, k: nat)
    ensures Shaped(DocxToPdfStep(job, env, cancel, k).out)
  {
  }

  lemma DocumentShape(job: Job, env: Env, cancel: Cancel, k: nat, iterated: bool)
    ensures Shaped(DocumentStepWith(job, env, cancel, k, iterated).out)
  {
    var extIn, extOut := Text.Lower(Paths.Ext(job.input)), Text.Lower(Paths.Ext(job.output));
    var route := Chains.RouteDocument(extIn, extOut);
    if !Observed(cancel, k) && route.Some? {
      var r := route.value;
      var sub := RouteStep(r, job, env, cancel, k + 1, iterated);
      RouteShape(r, job, env, cancel, k + 1, iterated);
      FrameShape(r, sub);
    }
  }

  lemma FrameShape(r: Chains.DocRoute, sub: Gen)
    requires Shaped(sub.out)
    ensures Shaped(FrameRoute(r, sub).out)
  {
    var after: seq<Emit> := if r == Chains.ImageToPdf then [L(70)] else [];
    ShapedAppend([A(30)], sub.out);
    ShapedAppend([A(30)] + sub.out, after);
    ShapedAppend([A(30)] + sub.out + after, [A(70)]);
  }

  /** Every value a category step yields lies between 10 and 100, and none is the closing 100. */
  lemma StepShape(c: Catalog.Category, job: Job, env: Env, cancel: Cancel, k: nat)
    ensures Shaped(ConvertCategory(c, job, env, cancel, k).out)
  {
    match c
    case Image => ImageShape(job, env, cancel, k);
    case Audio => AudioShape(job, env, cancel, k);
    case Video => VideoShape(job, env, cancel, k);
    case Document => DocumentShape(job, env, cancel, k, false);
  }

  /** Every value the run yields lies between 10 and 100, and the first is always 10. */
  lemma RunValuesInRange(job: Job, env: Env, cancel: Cancel)
    ensures var g := RunConversion(job, env, cancel);
      |g.out| >= 1 && g.out[0] == Assigned(10) && InRange(Values(g.out), 10, 100)
  {
    if job.fileType.Some? {
      var sub := ConvertCategory(job.fileType.value, job, env, cancel, 1);
      StepShape(job.fileType.value, job, env, cancel, 1);
      ShapedAppend([A(10)], sub.out);
      ValuesAppend([A(10)] + sub.out, [A(100)]);
    }
  }

  /**
   * The closing 100 is yielded only by a run that raised nothing and did
   * not see a cancellation, and then it is the last value; a run that
   * raised nothing and has no closing 100 saw a cancellation.
   */
  lemma RunClosesAt100(job: Job, env: Env, cancel: Cancel)
    ensures var g := RunConversion(job, env, cancel);
      && (Assigned(100) in g.out ==>
            g.status.Returned? && g.out[|g.out| - 1] == Assigned(100) && !Observed(cancel, |g.out| - 1))
      && (g.status.Returned? && Assigned(100) !in g.out ==> Observed(cancel, |g.out|))
      && (g.status.Raised? ==> Assigned(100) !in g.out)
  {
    if job.fileType.Some? {
      StepShape(job.fileType.value, job, env, cancel, 1);
      FinishClosesAt100(ConvertCategory(job.fileType.value, job, env, cancel, 1), cancel);
    }
  }

  lemma FinishClosesAt100(sub: Gen, cancel: Cancel)
    requires NoClosing(sub.out)
    ensures var g := FinishRun(sub, cancel);
      && (Assigned(100) in g.out ==>
            g.status.Returned? && g.out[|g.out| - 1] == Assigned(100) && !Observed(cancel, |g.out| - 1))
      && (g.status.Returned? && Assigned(100) !in g.out ==> Observed(cancel, |g.out|))
      && (g.status.Raised? ==> Assigned(100) !in g.out)
  {
    var g := FinishRun(sub, cancel);
    assert forall i :: 0 < i <= |sub.out| ==> g.out[i] == sub.out[i - 1];
  }

  /** Every error the run raises comes out wrapped by the run's own handler. */
  lemma RunErrorsWrapped(job: Job, env: Env, cancel: Cancel)
    ensures var g := RunConversion(job, env, cancel);
      g.status.Raised? ==> g.status.error.Wrapped? && g.status.error.stage == Run
  {
  }

  /** A step that ends without a product stopped for a cancellation it saw after its last value. */
  predicate StoppedForCancel(g: Gen, cancel: Cancel, k: nat) {
    g.status == Returned(None) ==> Observed(cancel, k + |g.out|)
  }

  lemma RouteStoppedForCancel(r: Chains.DocRoute, job: Job, env: Env, cancel: Cancel, k: nat, iterated: bool)
    ensures StoppedForCancel(RouteStep(r, job, env, cancel, k, iterated), cancel, k)
  {
  }

  lemma DocumentStoppedForCancel(job: Job, env: Env, cancel: Cancel, k: nat, iterated: bool)
    ensures StoppedForCancel(DocumentStepWith(job, env, cancel, k, iterated), cancel, k)
  {
    var extIn, extOut := Text.Lower(Paths.Ext(job.input)), Text.Lower(Paths.Ext(job.output));
    var route := Chains.RouteDocument(extIn, extOut);
    if !Observed(cancel, k) && route.Some? {
      RouteStoppedForCancel(route.value, job, env, cancel, k + 1, iterated);
    }
  }

  lemma StepStoppedForCancel(c: Catalog.Category, job: Job, env: Env, cancel: Cancel, k: nat)
    ensures StoppedForCancel(ConvertCategory(c, job, env, cancel, k), cancel, k)
  {
    if c == Catalog.Document {
      DocumentStoppedForCancel(job, env, cancel, k, false);
    }
  }

  /** A run that ends without a product saw the cancellation before it finished. */
  lemma NoProductMeansCancelled(job: Job, env: Env, cancel: Cancel)
    ensures var g := RunConversion(job, env, cancel);
      g.status == Returned(None) ==> Observed(cancel, |g.out|)
  {
    if job.fileType.Some? {
      StepStoppedForCancel(job.fileType.value, job, env, cancel, 1);
    }
  }

  /** A worker of a known category that is cancelled before its step starts yields 10 and nothing else. */
  lemma CancelledBeforeDispatch(job: Job, env: Env, t: nat)
    requires job.fileType.Some? && t <= 1
    ensures RunConversion(job, env, After(t)) == Gen([A(10)], Returned(None))
  {
  }

  /** Image, audio and video steps yield 30 to 70 in order. */
  predicate MediaTrace(out: seq<Emit>) {
    NonDecreasing(Values(out)) && InRange(Values(out), 30, 70)
  }

  lemma ImageSorted(job: Job, env: Env, cancel: Cancel, k: nat)
    ensures MediaTrace(ConvertImage(job, env, cancel, k).out)
  {
  }

  lemma AudioSorted(job: Job, env: Env, cancel: Cancel, k: nat)
    ensures MediaTrace(ConvertAudio(job, env, cancel, k).out)
  {
    AudioOut(job, env, cancel, k);
    AudioTraceSorted(env);
  }

  lemma VideoSorted(job: Job, env: Env, cancel: Cancel, k: nat)
    ensures MediaTrace(ConvertVideo(job, env, cancel, k).out)
  {
    VideoOut(job, env, cancel, k);
    VideoTraceSorted(env, Chains.FfmpegPath(env.existing, env.which, env.moduleDir).Some?);
  }

  lemma SortedBetween(lo: int, vs: seq<int>, hi: int)
    requires NonDecreasing(vs) && InRange(vs, lo, hi) && lo <= hi
    ensures NonDecreasing([lo] + vs + [hi])
  {
  }

  /** Image, audio and video runs never go back: their values are non-decreasing. */
  lemma MediaRunSorted(job: Job, env: Env, cancel: Cancel)
    requires job.fileType.Some? && job.fileType.value != Catalog.Document
    ensures NonDecreasing(Values(RunConversion(job, env, cancel).out))
  {
    var c := job.fileType.value;
    match c {
      case Image => ImageSorted(job, env, cancel, 1);
      case Audio => AudioSorted(job, env, cancel, 1);
      case Video => VideoSorted(job, env, cancel, 1);
    }
    FinishSorted(ConvertCategory(c, job, env, cancel, 1), cancel);
  }

  lemma FinishSorted(sub: Gen, cancel: Cancel)
    requires MediaTrace(sub.out)
    ensures NonDecreasing(Values(FinishRun(sub, cancel).out))
  {
    ValuesAppend([A(10)], sub.out);
    ValuesAppend([A(10)] + sub.out, [A(100)]);
    SortedBetween(10, Values(sub.out), 100);
    assert NonDecreasing([10] + Values(sub.out));
  }

  /** The `.doc` to `.pdf` document step that converts: 30, the route's 10, 30, 90, 100, then 70. */
  lemma DocToPdfStepTrace(job: Job, env: Env, k: nat)
    requires Text.Lower(Paths.Ext(job.input)) == ".doc" && Text.Lower(Paths.Ext(job.output)) == ".pdf"
    requires (env.windows && env.wordConverts)
      || (Chains.OfficeTool(env.which).Some? && env.officeRuns
          && Chains.OfficeOutput(job.input, job.output) in env.appears && env.renameOk)
    ensures var sub := ConvertDocument(job, env, Never, k);
      sub.out == [A(30), L(10), L(30), L(90), L(100), A(70)] && sub.status.Returned? && sub.status.product.Some?
  {
    assert Chains.RouteDocument(".doc", ".pdf") == Some(Chains.DocToPdf);
    DocToPdfConverts(job, env, k + 1);
    RoutedDocument(job, env, k, Chains.DocToPdf);
  }

  /** Word, or else LibreOffice, converting yields the route's 10, 30, 90 and 100. */
  lemma DocToPdfConverts(job: Job, env: Env, k: nat)
    requires (env.windows && env.wordConverts)
      || (Chains.OfficeTool(env.which).Some? && env.officeRuns
          && Chains.OfficeOutput(job.input, job.output) in env.appears && env.renameOk)
    ensures var step := DocToPdfStep(job, env, Never, k);
      step.out == [L(10), L(30), L(90), L(100)] && step.status.Returned? && step.status.product.Some?
  {
  }

  /** An awaited route other than image to PDF that does not raise is framed by 30 and 70. */
  lemma RoutedDocument(job: Job, env: Env, k: nat, r: Chains.DocRoute)
    requires Chains.RouteDocument(Text.Lower(Paths.Ext(job.input)), Text.Lower(Paths.Ext(job.output))) == Some(r)
    requires r != Chains.ImageToPdf
    requires !RouteStep(r, job, env, Never, k + 1, false).status.Raised?
    ensures var sub := RouteStep(r, job, env, Never, k + 1, false);
      var g := ConvertDocument(job, env, Never, k);
      g.out == [A(30)] + sub.out + [A(70)] && g.status == sub.status
  {
  }

  /**
   * A `.doc` to `.pdf` run that converts yields 10, 30, 10, 30, 90, 100, 70,
   * 100: document runs are not monotone.
   */
  lemma DocToPdfTrace(job: Job, env: Env)
    requires job.fileType == Some(Catalog.Document)
    requires Text.Lower(Paths.Ext(job.input)) == ".doc" && Text.Lower(Paths.Ext(job.output)) == ".pdf"
    requires (env.windows && env.wordConverts)
      || (Chains.OfficeTool(env.which).Some? && env.officeRuns
          && Chains.OfficeOutput(job.input, job.output) in env.appears && env.renameOk)
    ensures var g := RunConversion(job, env, Never);
      && Values(g.out) == [10, 30, 10, 30, 90, 100, 70, 100]
      && g.status.Returned? && g.status.product.Some?
      && !NonDecreasing(Values(g.out))
  {
    DocToPdfStepTrace(job, env, 1);
    var sub := ConvertDocument(job, env, Never, 1);
    RunOfDocument(job, env, Never);
    FinishWithoutCancel(sub);
    DocRunValues([A(10)] + sub.out + [A(100)]);
  }

  /** A document run is the document step finished by the run. */
  lemma RunOfDocument(job: Job, env: Env, cancel: Cancel)
    requires job.fileType == Some(Catalog.Document)
    ensures RunConversion(job, env, cancel) == FinishRun(ConvertDocument(job, env, cancel, 1), cancel)
  {
  }

  /** A run nobody cancels around a step that does not raise: 10, the step's values, then 100. */
  lemma FinishWithoutCancel(sub: Gen)
    requires !sub.status.Raised?
    ensures FinishRun(sub, Never) == Gen([A(10)] + sub.out + [A(100)], sub.status)
  {
  }

  lemma DocRunValues(out: seq<Emit>)
    requires out == [A(10), A(30), L(10), L(30), L(90), L(100), A(70), A(100)]
    ensures Values(out) == [10, 30, 10, 30, 90, 100, 70, 100]
    ensures !NonDecreasing(Values(out))
  {
    var vs := Values(out);
    assert vs[5] == 100 && vs[6] == 70;
  }

  // ---- the fallback chains -----------------------------------------------------------

  /**
   * Audio tries pydub, then miniaudio, then a copy, and stops at the first
   * that converts; it fails only when the copy fails too.
   */
  lemma AudioChain(job: Job, env: Env, cancel: Cancel, k: nat)
    requires !Observed(cancel, k)
    ensures var g := ConvertAudio(job, env, cancel, k);
      && (env.pydub == Converts ==> g.status.Returned? && g.status.product.Some? && g.status.product.value.PydubExported?)
      && (env.pydub != Converts && env.miniaudio == Converts ==>
            g.status == Returned(Some(MiniaudioWrote(Chains.MiniaudioPlan(Text.Lower(Paths.Ext(job.output)))))))
      && (env.pydub != Converts && env.miniaudio != Converts && env.copyOk ==> g.status == Returned(Some(Copied)))
      && (g.status.Raised? <==> env.pydub != Converts && env.miniaudio != Converts && !env.copyOk)
  {
  }

  /** The file written holds the input's bytes unchanged rather than audio encoded in the output's format. */
  predicate CopiesInput(p: Product) {
    p == Copied || p == MiniaudioWrote(Chains.CopyInput)
  }

  /**
   * Without pydub, the only conversion audio makes is miniaudio re-encoding
   * to WAVE: any other output that the step reports as written is the
   * input copied under the new name, so every catalog audio output other
   * than `.wav` is then a copy.
   */
  lemma AudioWithoutPydub(job: Job, env: Env, cancel: Cancel, k: nat)
    requires !Observed(cancel, k) && env.pydub != Converts
    ensures var g := ConvertAudio(job, env, cancel, k);
      var ext := Text.Lower(Paths.Ext(job.output));
      && (g.status.Returned? ==>
            && g.status.product.Some?
            && (CopiesInput(g.status.product.value) <==> !(env.miniaudio == Converts && ext == ".wav")))
      && (g.status.Returned? && ext in Catalog.Outputs(Catalog.Audio) && ext != ".wav" ==>
            CopiesInput(g.status.product.value))
  {
  }

  /**
   * Video tries MoviePy (when it was importable), then FFmpeg at the path
   * the search finds; it has no copy fallback, so every product is one of
   * the two.
   */
  lemma VideoChain(job: Job, env: Env, cancel: Cancel, k: nat)
    requires !Observed(cancel, k)
    ensures var g := ConvertVideo(job, env, cancel, k);
      var moviepyWorks := env.moviepyAvailable && env.moviepy == Converts;
      var path := Chains.FfmpegPath(env.existing, env.which, env.moduleDir);
      && (g.status.Returned? <==> moviepyWorks || (env.ffmpegModule && path.Some? && env.ffmpegRuns))
      && (g.status.Returned? ==>
            (&& g.status.product.Some?
             && (g.status.product.value.MoviepyWrote? <==> moviepyWorks)
             && (g.status.product.value.FfmpegWrote? <==> !moviepyWorks)))
      && (g.status.Returned? && !moviepyWorks ==> g.status.product == Some(FfmpegWrote(path.value)))
  {
  }

  /**
   * A `.doc` file goes through Word on Windows first, then through
   * LibreOffice (the `libreoffice` command before `soffice`), and fails
   * only when neither produced the PDF.
   */
  lemma DocToPdfChain(job: Job, env: Env, cancel: Cancel, k: nat)
    requires !Observed(cancel, k + 1)
    ensures var g := DocToPdfStep(job, env, cancel, k);
      var word := env.windows && env.wordConverts;
      var office := Chains.OfficeTool(env.which).Some? && env.officeRuns
        && Chains.OfficeOutput(job.input, job.output) in env.appears && env.renameOk;
      && (g.status == Returned(Some(WordSaved)) <==> word)
      && (!word && office ==> g.status == Returned(Some(OfficeSaved(Chains.OfficeTool(env.which).value))))
      && (g.status.Raised? <==> !word && !office)
  {
  }

  // ---- document routing -----------------------------------------------------------

  /** A document step raises "unsupported conversion" exactly when no route takes the pair of extensions. */
  lemma DocumentRouting(job: Job, env: Env, cancel: Cancel, k: nat)
    requires !Observed(cancel, k)
    ensures var extIn, extOut := Text.Lower(Paths.Ext(job.input)), Text.Lower(Paths.Ext(job.output));
      var unsupported := Raised(Wrapped(DocumentStep, UnsupportedDocument(extIn, extOut)));
      ConvertDocument(job, env, cancel, k).status == unsupported <==> Chains.RouteDocument(extIn, extOut).None?
  {
    var extIn, extOut := Text.Lower(Paths.Ext(job.input)), Text.Lower(Paths.Ext(job.output));
    match Chains.RouteDocument(extIn, extOut)
    case None =>
    case Some(r) => RouteNeverUnsupported(r, job, env, cancel, k + 1);
  }

  /** No awaited route raises the "unsupported conversion" error itself. */
  lemma RouteNeverUnsupported(r: Chains.DocRoute, job: Job, env: Env, cancel: Cancel, k: nat)
    ensures var s := RouteStep(r, job, env, cancel, k, false);
      s.status.Raised? ==> !s.status.error.UnsupportedDocument?
  {
    match r
    case PdfToImage =>
    case ImageToPdf =>
    case TxtToPdf =>
    case PdfToTxt =>
    case DocToPdf =>
    case DocxToPdf =>
    case PdfToDocx =>
  }

  /** The three routes that lead to coroutines: PDF to image, text to PDF and PDF to text. */
  predicate CoroutineRoute(r: Chains.DocRoute) {
    r == Chains.PdfToImage || r == Chains.TxtToPdf || r == Chains.PdfToTxt
  }

  /**
   * As written, a PDF-to-image, text-to-PDF or PDF-to-text conversion fails
   * whatever the files and libraries: iterating a coroutine with `async for`
   * raises before the conversion body runs.
   */
  lemma CoroutineRoutesAlwaysFail(job: Job, env: Env, cancel: Cancel, k: nat)
    requires !Observed(cancel, k)
    requires var r := Chains.RouteDocument(Text.Lower(Paths.Ext(job.input)), Text.Lower(Paths.Ext(job.output)));
      r.Some? && CoroutineRoute(r.value)
    ensures ConvertDocumentAsWritten(job, env, cancel, k) == Gen([A(30)], Raised(Wrapped(DocumentStep, NotAsyncIterable)))
  {
  }

  /** Awaited, the text-to-PDF route lays the decoded text out in the chosen font. */
  lemma AwaitedTextToPdf(job: Job, env: Env, k: nat)
    requires job.input in env.existing && job.output in env.appears
    requires Text.Lower(Paths.Ext(job.input)) == ".txt" && Text.Lower(Paths.Ext(job.output)) == ".pdf"
    requires Chains.FirstDecoding(env.decoded).Some?
    ensures ConvertDocument(job, env, Never, k).status
      == Returned(Some(TextPdf(Layout.Layout(env.decoded[Chains.FirstDecoding(env.decoded).value],
           Layout.LETTER_HEIGHT, TextFont(env)))))
  {
    assert Chains.RouteDocument(".txt", ".pdf") == Some(Chains.TxtToPdf);
    var sub := TxtToPdfStep(job, env, Never, k + 1);
    assert sub.status == Returned(Some(TextPdf(Layout.Layout(env.decoded[Chains.FirstDecoding(env.decoded).value],
      Layout.LETTER_HEIGHT, TextFont(env)))));
    assert RouteStep(Chains.TxtToPdf, job, env, Never, k + 1, false) == sub;
  }

  /** Awaited, the PDF-to-text route writes the text of every page. */
  lemma AwaitedPdfToText(job: Job, env: Env, k: nat)
    requires job.input in env.existing && job.output in env.appears
    requires Text.Lower(Paths.Ext(job.input)) == ".pdf" && Text.Lower(Paths.Ext(job.output)) == ".txt"
    requires env.pdf.Some?
    ensures ConvertDocument(job, env, Never, k).status == Returned(Some(PdfTextFile(Layout.PdfText(env.pdf.value))))
  {
    assert Chains.RouteDocument(".pdf", ".txt") == Some(Chains.PdfToTxt);
    var sub := PdfToTxtStep(job, env, Never, k + 1);
    assert sub.status == Returned(Some(PdfTextFile(Layout.PdfText(env.pdf.value))));
    assert RouteStep(Chains.PdfToTxt, job, env, Never, k + 1, false) == sub;
  }

  /** Awaited, the PDF-to-JPEG route saves one image per page once every page's file appears. */
  lemma AwaitedPdfToImages(job: Job, env: Env, k: nat)
    requires job.input in env.existing
    requires Text.Lower(Paths.Ext(job.input)) == ".pdf" && Text.Lower(Paths.Ext(job.output)) in [".jpg", ".jpeg"]
    requires env.pdf.Some? && env.pdf.value != []
    requires forall i :: 0 <= i < |env.pdf.value| ==> Layout.PageImageName(job.output, i, |env.pdf.value|) in env.appears
    ensures var g := ConvertDocument(job, env, Never, k);
      g.status.Returned? && g.status.product.Some? && g.status.product.value.PageImages?
      && |g.status.product.value.files| == |env.pdf.value|
  {
    assert Chains.RouteDocument(".pdf", Text.Lower(Paths.Ext(job.output))) == Some(Chains.PdfToImage);
    var n := |env.pdf.value|;
    var names := Layout.PageImageNames(job.output, n);
    assert forall i :: 0 <= i < |names| ==> names[i] in env.appears;
    Layout.FirstMissingNone(names, env.appears);
    var sub := PdfToImageStep(job, env, Never, k + 1);
    assert sub.status.Returned? && sub.status.product.Some? && sub.status.product.value.PageImages?
      && |sub.status.product.value.files| == n;
    assert RouteStep(Chains.PdfToImage, job, env, Never, k + 1, false) == sub;
  }

  /**
   * With the coroutines awaited, the three routes convert when the files and
   * libraries cooperate: the text is laid out, the PDF's text extracted,
   * and one image saved per page.
   */
  lemma AwaitedRoutesConvert(job: Job, env: Env, k: nat)
    requires job.input in env.existing && job.output in env.appears
    ensures var extIn, extOut := Text.Lower(Paths.Ext(job.input)), Text.Lower(Paths.Ext(job.output));
      var g := ConvertDocument(job, env, Never, k);
      && (extIn == ".txt" && extOut == ".pdf" && Chains.FirstDecoding(env.decoded).Some? ==>
            g.status == Returned(Some(TextPdf(Layout.Layout(env.decoded[Chains.FirstDecoding(env.decoded).value],
              Layout.LETTER_HEIGHT, TextFont(env))))))
      && (extIn == ".pdf" && extOut == ".txt" && env.pdf.Some? ==>
            g.status == Returned(Some(PdfTextFile(Layout.PdfText(env.pdf.value)))))
      && (extIn == ".pdf" && extOut in [".jpg", ".jpeg"] && env.pdf.Some? && env.pdf.value != []
          && (forall i :: 0 <= i < |env.pdf.value| ==> Layout.PageImageName(job.output, i, |env.pdf.value|) in env.appears) ==>
            g.status.Returned? && g.status.product.Some? && g.status.product.value.PageImages?
            && |g.status.product.value.files| == |env.pdf.value|)
  {
    var extIn, extOut := Text.Lower(Paths.Ext(job.input)), Text.Lower(Paths.Ext(job.output));
    if extIn == ".txt" && extOut == ".pdf" && Chains.FirstDecoding(env.decoded).Some? {
      AwaitedTextToPdf(job, env, k);
    }
    if extIn == ".pdf" && extOut == ".txt" && env.pdf.Some? {
      AwaitedPdfToText(job, env, k);
    }
    if extIn == ".pdf" && extOut in [".jpg", ".jpeg"] && env.pdf.Some? && env.pdf.value != []
      && forall i :: 0 <= i < |env.pdf.value| ==> Layout.PageImageName(job.output, i, |env.pdf.value|) in env.appears
    {
      AwaitedPdfToImages(job, env, k);
    }
  }

  // ---- the worker object ----------------------------------------------------------

  /**
   * A conversion worker: the job it was made for, the last progress value it
   * stored, and the flag the user sets to cancel it.
   */
  class ConversionWorker {
    const input: string
    const output: string
    const fileType: Option<Catalog.Category>
    var progress: int
    var cancelled: bool

    constructor(input: string, output: string, fileType: Option<Catalog.Category>)
      ensures this.input == input && this.output == output && this.fileType == fileType
      ensures progress == 0 && !cancelled
    {
      this.input := input;
      this.output := output;
      this.fileType := fileType;
      progress := 0;
      cancelled := false;
    }

    /** The job the worker was made for. */
    function Work(): Job {
      Job(input, output, fileType)
    }
  }
}
