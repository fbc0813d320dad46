/**
 * The application object: the uploaded input, the output directory, the
 * format selectors, the temporary files it must clean up and the worker of
 * the conversion in progress. The widgets it updates are not modelled; the
 * consumer loop's outcome stands for the message the user is shown.
 */
module App {
  import opened Wrappers
  import Text
  import Paths
  import Catalog
  import Worker

  // ---- paths ----------------------------------------------------------------------

  /** Where an upload named `name` is stored: the `temp` directory under the working directory. */
  function TempPath(cwd: string, name: string): string {
    Paths.Join(Paths.Join(cwd, "temp"), name)
  }

  /** A stored upload keeps its name, so it is classified by the name's own extension. */
  lemma UploadKeepsName(cwd: string, name: string, existing: set<string>)
    requires Paths.NoSlash(name)
    ensures Paths.BaseName(TempPath(cwd, name)) == name
    ensures Catalog.DetermineFileType(TempPath(cwd, name), existing + {TempPath(cwd, name)})
      == Catalog.ClassifyExtension(Text.Lower(Paths.Ext(name)))
  {
    var path := TempPath(cwd, name);
    Paths.BaseNameOfJoin(Paths.Join(cwd, "temp"), name);
    Paths.ExtOfBaseName(path);
  }

  /**
   * The extension the output gets: the converted-file selector's value when
   * it is set and non-empty, else the settings selector's; an unset
   * selector formats as the text `None`.
   */
  function SelectedExtension(outputSelect: Option<string>, select: Option<string>): string {
    if outputSelect.Some? && outputSelect.value != "" then outputSelect.value
    else match select
      case None => "None"
      case Some(v) => v
  }

  /** The output path: the input's stem plus `ext`, in the chosen directory or the input's own. */
  function OutputPath(input: string, outputDir: Option<string>, ext: string): string {
    var dir := if outputDir.Some? && outputDir.value != "" then outputDir.value else Paths.DirName(input);
    Paths.Join(dir, Paths.Stem(Paths.BaseName(input)) + ext)
  }

  /** With no output directory and the input's own extension, the output path is the input path. */
  lemma OutputPathSameDir(input: string, outputDir: Option<string>)
    requires Paths.NoDoubleSlash(input)
    requires outputDir.None? || outputDir.value == ""
    ensures OutputPath(input, outputDir, Paths.Ext(input)) == input
  {
    var b := Paths.BaseName(input);
    Paths.ExtOfBaseName(input);
    Paths.StemExtRoundTrip(b);
    assert Paths.Stem(b) + Paths.Ext(input) == b;
    Paths.JoinDirBase(input);
    assert OutputPath(input, outputDir, Paths.Ext(input)) == Paths.Join(Paths.DirName(input), b);
  }

  /** The output's file name is the input's stem followed by the extension. */
  lemma OutputPathName(input: string, outputDir: Option<string>, ext: string)
    requires Paths.NoSlash(ext)
    ensures Paths.BaseName(OutputPath(input, outputDir, ext)) == Paths.Stem(Paths.BaseName(input)) + ext
  {
    var b := Paths.BaseName(input);
    var name := Paths.Stem(b) + ext;
    Paths.StemExtRoundTrip(b);
    assert forall i :: 0 <= i < |Paths.Stem(b)| ==> Paths.Stem(b)[i] == b[i];
    assert forall i :: 0 <= i < |name| ==> name[i] != '/' by {
      forall i | 0 <= i < |name|
        ensures name[i] != '/'
      {
        if i < |Paths.Stem(b)| {
          assert name[i] == b[i];
        } else {
          assert name[i] == ext[i - |Paths.Stem(b)|];
        }
      }
    }
    var dir := if outputDir.Some? && outputDir.value != "" then outputDir.value else Paths.DirName(input);
    Paths.BaseNameOfJoin(dir, name);
  }

  /**
   * A catalog format replaces the input's extension: the output has exactly
   * that extension, so its category's icon and type follow the format.
   */
  lemma OutputPathExtension(input: string, outputDir: Option<string>, c: Catalog.Category, fmt: string)
    requires fmt in Catalog.Outputs(c)
    requires Paths.Ext(input) != []
    ensures Paths.Ext(OutputPath(input, outputDir, fmt)) == fmt
  {
    Catalog.OutputsAreDotExtensions(c, fmt);
    var b := Paths.BaseName(input);
    Paths.ExtOfBaseName(input);
    OutputPathName(input, outputDir, fmt);
    Paths.ExtOfBaseName(OutputPath(input, outputDir, fmt));
    Paths.ExtOfReplaced(b, fmt);
  }

  // ---- file sizes ---------------------------------------------------------------

  const SIZE_UNITS: seq<string> := ["B", "KB", "MB", "GB"]

  function Pow1024(i: nat): (p: nat)
    ensures p >= 1
  {
    if i == 0 then 1 else 1024 * Pow1024(i - 1)
  }

  /** The unit a size is shown in: the largest of B, KB, MB and GB not larger than it. */
  function UnitIndex(size: int): (i: nat)
    ensures i < |SIZE_UNITS|
    ensures i > 0 ==> size >= Pow1024(i)
    ensures i < 3 ==> size < Pow1024(i + 1)
  {
    if size >= 1024 * 1024 * 1024 then 3
    else if size >= 1024 * 1024 then 2
    else if size >= 1024 then 1
    else 0
  }

  /** A formatted size: `0 B`, or a value and its unit (the one-decimal rendering is not modelled). */
  datatype SizeText = ZeroBytes | Scaled(value: real, unit: string)

  lemma ScaledAtLeast(size: int, p: nat)
    requires p >= 1
    ensures (size as real / p as real >= 1024.0) <==> size >= 1024 * p
  {
  }

  /**
   * Divides by 1024 while the value is at least 1024 and a larger unit is
   * left: the value shown is the size in the unit `UnitIndex` picks, and it
   * lies in [1, 1024) for every positive size below 1024 GB.
   */
  method FormatFileSize(size: int) returns (r: SizeText)
    ensures size == 0 ==> r == ZeroBytes
    ensures size != 0 ==>
      (r.Scaled? && r.unit == SIZE_UNITS[UnitIndex(size)] && r.value == size as real / Pow1024(UnitIndex(size)) as real)
    ensures 1 <= size < 1024 * Pow1024(3) ==> r.Scaled? && 1.0 <= r.value < 1024.0
  {
    if size == 0 {
      return ZeroBytes;
    }
    var value := size as real;
    var i := 0;
    while value >= 1024.0 && i < |SIZE_UNITS| - 1
      invariant 0 <= i <= UnitIndex(size)
      invariant value == size as real / Pow1024(i) as real
      decreases 3 - i
    {
      ScaledAtLeast(size, Pow1024(i));
      value := value / 1024.0;
      i := i + 1;
    }
    ScaledAtLeast(size, Pow1024(i));
    assert i == UnitIndex(size);
    r := Scaled(value, SIZE_UNITS[i]);
    if 1 <= size < 1024 * Pow1024(3) {
      assert size >= Pow1024(i);
      assert value >= 1.0;
    }
  }

  // ---- temporary files ------------------------------------------------------------

  /** The temporary files whose removal fails: those that exist and cannot be removed, in order. */
  function FailedRemovals(files: seq<string>, existing: set<string>, undeletable: set<string>): (r: seq<string>)
    ensures forall f :: f in r ==> f in files && f in existing && f in undeletable
    ensures forall f :: f in files && f in existing && f in undeletable ==> f in r
  {
    if files == [] then []
    else
      var last := files[|files| - 1];
      FailedRemovals(files[..|files| - 1], existing, undeletable)
        + (if last in existing && last in undeletable then [last] else [])
  }

  /**
   * Removes each file that still exists; a removal that fails is recorded
   * and the loop goes on. Every listed file is gone afterwards except those
   * that could not be removed, and no other file is touched.
   */
  method RemoveFiles(files: seq<string>, existing: set<string>, undeletable: set<string>)
    returns (remaining: set<string>, failures: seq<string>)
    ensures remaining == existing - (set f | f in files && f !in undeletable)
    ensures forall f :: f in files ==> (f in remaining <==> f in existing && f in undeletable)
    ensures failures == FailedRemovals(files, existing, undeletable)
  {
    remaining, failures := existing, [];
    var i := 0;
    while i < |files|
      invariant 0 <= i <= |files|
      invariant remaining == existing - (set f | f in files[..i] && f !in undeletable)
      invariant failures == FailedRemovals(files[..i], existing, undeletable)
    {
      var f := files[i];
      assert files[..i + 1][..i] == files[..i];
      if f in remaining {
        if f in undeletable {
          failures := failures + [f];
        } else {
          remaining := remaining - {f};
        }
      }
      i := i + 1;
    }
    assert files[..i] == files;
  }

  // ---- the consumer loop --------------------------------------------------------------

  /** What the user is told once the consumer loop ends. */
  datatype Outcome = Succeeded(product: Option<Worker.Product>) | Failed(error: Worker.Cause) | Cancelled

  /** The progress value a worker holds after `out` was produced, starting from `init`. */
  function LastAssigned(out: seq<Worker.Emit>, init: int): int {
    if out == [] then init
    else if out[|out| - 1].Assigned? then out[|out| - 1].value
    else LastAssigned(out[..|out| - 1], init)
  }

  /**
   * How many values the generator produced: the consumer stops on the value
   * it receives after the user cancelled, and the generator produces nothing
   * after that.
   */
  function Produced(g: Worker.Gen, cancel: Worker.Cancel): nat {
    if cancel.After? && cancel.taken < |g.out| then cancel.taken + 1 else |g.out|
  }

  /**
   * The consumer loop as a function of the trace: the values shown on the
   * progress bar and the outcome. A raise that ends the loop is a failure
   * even when the flag is set; a flag set once the loop has ended is a
   * cancellation.
   */
  function Consume(g: Worker.Gen, cancel: Worker.Cancel): (seq<int>, Outcome) {
    var vs := Worker.Values(g.out);
    if cancel.After? && cancel.taken < |g.out| then (vs[..cancel.taken], Cancelled)
    else if g.status.Raised? then (vs, Failed(g.status.error))
    else if cancel.After? && cancel.taken == |g.out| then (vs, Cancelled)
    else (vs, Succeeded(g.status.product))
  }

  /**
   * What the user sees of a run: a prefix of its values; without a
   * cancellation, all of them and never "cancelled"; a success carries a
   * product, starts at 10 and ends at 100, which is also the worker's last
   * progress value; every failure is the run's own wrapped error.
   */
  lemma ConsumeRun(job: Worker.Job, env: Worker.Env, cancel: Worker.Cancel, init: int)
    ensures var g := Worker.RunConversion(job, env, cancel);
      var (shown, outcome) := Consume(g, cancel);
      && shown <= Worker.Values(g.out)
      && (cancel.Never? ==> !outcome.Cancelled? && shown == Worker.Values(g.out))
      && (outcome.Cancelled? ==> cancel.After? && |shown| <= cancel.taken)
      && (outcome.Failed? ==> outcome.error.Wrapped? && outcome.error.stage == Worker.Run)
      && (outcome.Succeeded? ==>
            (&& outcome.product.Some?
             && |shown| >= 2 && shown[0] == 10 && shown[|shown| - 1] == 100
             && LastAssigned(g.out[..Produced(g, cancel)], init) == 100))
  {
    var g := Worker.RunConversion(job, env, cancel);
    Worker.RunValuesInRange(job, env, cancel);
    Worker.RunClosesAt100(job, env, cancel);
    Worker.RunErrorsWrapped(job, env, cancel);
    Worker.NoProductMeansCancelled(job, env, cancel);
    var (shown, outcome) := Consume(g, cancel);
    if outcome.Succeeded? {
      assert !Worker.Observed(cancel, |g.out|);
      assert g.out[|g.out| - 1] == Worker.Assigned(100);
      assert |g.out| >= 2;
      assert g.out[..Produced(g, cancel)] == g.out;
    }
  }

  // ---- the application -----------------------------------------------------------------

  /** How `start_conversion` ends: one of its three refusals, or a worker made for the job. */
  datatype StartResult = NoInputFile | InputMissing | UnsupportedType | Started(job: Worker.Job)

  class QconvertoApp {
    var inputFile: Option<string>
    var outputDir: Option<string>
    var worker: Option<Worker.ConversionWorker>
    var tempFiles: seq<string>
    var formatOptions: seq<string>
    var formatSelect: Option<string>
    var outputFormatOptions: seq<string>
    var outputFormatSelect: Option<string>
    var convertedIcon: string
    var conversionInProgress: bool

    constructor()
      ensures inputFile.None? && outputDir.None? && worker.None? && tempFiles == []
      ensures formatOptions == [] && formatSelect.None? && outputFormatOptions == [] && outputFormatSelect.None?
      ensures convertedIcon == Catalog.DEFAULT_ICON && !conversionInProgress
    {
      inputFile, outputDir, worker, tempFiles := None, None, None, [];
      formatOptions, formatSelect, outputFormatOptions, outputFormatSelect := [], None, [], None;
      convertedIcon := Catalog.DEFAULT_ICON;
      conversionInProgress := false;
    }

    /**
     * Both selectors offer the category's outputs with the recommended one
     * selected, and its icon is shown. The icon is the corrected one: the
     * lookup as written would show the default icon for every format.
     */
    method UpdateFormatOptions(c: Catalog.Category)
      modifies this`formatOptions, this`formatSelect, this`outputFormatOptions, this`outputFormatSelect, this`convertedIcon
      ensures formatOptions == outputFormatOptions == Catalog.Outputs(c)
      ensures formatSelect == outputFormatSelect == Some(Catalog.RecommendedFormat(c, Catalog.Outputs(c)))
      ensures formatSelect.value in formatOptions
      ensures convertedIcon == Catalog.IconFor(formatSelect.value)
      ensures Catalog.ConvertedFileIconAsWritten(formatSelect.value) == Some(Catalog.DEFAULT_ICON)
    {
      var choice := Catalog.FormatOptions(Some(c)).value;
      Catalog.ConvertedFileIconAlwaysDefault(c, choice.default);
      formatOptions, outputFormatOptions := choice.options, choice.options;
      formatSelect, outputFormatSelect := Some(choice.default), Some(choice.default);
      convertedIcon := choice.icon.value;
    }

    /**
     * Stores an upload under the `temp` directory, makes it the input,
     * records it for cleanup, and sets up the selectors when its type is
     * known (an unknown type leaves them as they were). Returns the files
     * that exist afterwards.
     */
    method HandleFileUpload(name: Option<string>, cwd: string, existing: set<string>) returns (disk: set<string>)
      modifies this`inputFile, this`tempFiles, this`formatOptions, this`formatSelect,
        this`outputFormatOptions, this`outputFormatSelect, this`convertedIcon
      ensures name.None? ==>
        (&& disk == existing && inputFile == old(inputFile) && tempFiles == old(tempFiles)
         && formatOptions == old(formatOptions) && formatSelect == old(formatSelect)
         && outputFormatOptions == old(outputFormatOptions) && outputFormatSelect == old(outputFormatSelect)
         && convertedIcon == old(convertedIcon))
      ensures name.Some? ==>
        (var path := TempPath(cwd, name.value);
         var t := Catalog.DetermineFileType(path, disk);
         && disk == existing + {path}
         && inputFile == Some(path)
         && tempFiles == old(tempFiles) + [path]
         && (t.Some? ==>
               && formatOptions == outputFormatOptions == Catalog.Outputs(t.value)
               && formatSelect == outputFormatSelect == Some(Catalog.RecommendedFormat(t.value, Catalog.Outputs(t.value)))
               && convertedIcon == Catalog.IconFor(formatSelect.value)
               && Catalog.ConvertedFileIconAsWritten(formatSelect.value) == Some(Catalog.DEFAULT_ICON))
         && (t.None? ==>
               && formatOptions == old(formatOptions) && formatSelect == old(formatSelect)
               && outputFormatOptions == old(outputFormatOptions) && outputFormatSelect == old(outputFormatSelect)
               && convertedIcon == old(convertedIcon)))
    {
      if name.None? {
        return existing;
      }
      var path := TempPath(cwd, name.value);
      disk := existing + {path};
      inputFile := Some(path);
      tempFiles := tempFiles + [path];
      var t := Catalog.DetermineFileType(path, disk);
      if t.Some? {
        UpdateFormatOptions(t.value);
      }
    }

    /**
     * Checks that there is an input, that it exists and that its type is
     * known, in that order; then makes a worker for the input, the output
     * path and the type, and marks a conversion in progress.
     */
    method StartConversion(existing: set<string>) returns (r: StartResult)
      modifies this`worker, this`conversionInProgress
      ensures old(inputFile).None? || old(inputFile).value == "" ==> r == NoInputFile
      ensures r == NoInputFile ==> old(inputFile).None? || old(inputFile).value == ""
      ensures r == InputMissing <==> r != NoInputFile && inputFile.value !in existing
      ensures r.Started? ==>
        (var input := inputFile.value;
         var ext := SelectedExtension(outputFormatSelect, formatSelect);
         var t := Catalog.DetermineFileType(input, existing);
         && t.Some?
         && r.job == Worker.Job(input, OutputPath(input, outputDir, ext), t)
         && worker.Some? && fresh(worker.value) && worker.value.Work() == r.job
         && worker.value.progress == 0 && !worker.value.cancelled
         && conversionInProgress)
      ensures r == UnsupportedType ==> Catalog.DetermineFileType(inputFile.value, existing).None?
      ensures !r.Started? ==> worker == old(worker) && conversionInProgress == old(conversionInProgress)
    {
      if inputFile.None? || inputFile.value == "" {
        return NoInputFile;
      }
      var input := inputFile.value;
      if input !in existing {
        return InputMissing;
      }
      var output := OutputPath(input, outputDir, SelectedExtension(outputFormatSelect, formatSelect));
      var t := Catalog.DetermineFileType(input, existing);
      if t.None? {
        return UnsupportedType;
      }
      conversionInProgress := true;
      var w := new Worker.ConversionWorker(input, output, t);
      worker := Some(w);
      r := Started(w.Work());
    }

    /** Sets the worker's cancellation flag, if there is a worker; nothing else changes. */
    method CancelConversion()
      modifies if worker.Some? then {worker.value} else {}
      ensures worker.Some? ==> worker.value.cancelled && worker.value.progress == old(worker.value.progress)
    {
      if worker.Some? {
        worker.value.cancelled := true;
      }
    }

    /**
     * Drives the worker's run, whose trace is `Worker.RunConversion` of its
     * job; the user's cancellation arrives after `cancel.taken` values were
     * taken. The outcome is the one `Consume` describes, the worker holds
     * the last value it stored, and the conversion is over.
     */
    method RunConversionWithProgress(env: Worker.Env, cancel: Worker.Cancel) returns (outcome: Outcome)
      requires worker.Some? && !worker.value.cancelled
      modifies this`conversionInProgress, worker.value
      ensures var w := worker.value;
        var g := Worker.RunConversion(w.Work(), env, cancel);
        && outcome == Consume(g, cancel).1
        && w.progress == LastAssigned(g.out[..Produced(g, cancel)], old(w.progress))
        && w.cancelled == (cancel.After? && cancel.taken <= |g.out|)
        && !conversionInProgress
    {
      var g := Worker.RunConversion(worker.value.Work(), env, cancel);
      outcome := ConsumeTrace(g, cancel);
      conversionInProgress := false;
    }

    /**
     * The `async for` over a trace `g`: each value is produced (stored in
     * the worker when the generator assigns it), then the consumer stops if
     * the flag is set.
     */
    method ConsumeTrace(g: Worker.Gen, cancel: Worker.Cancel) returns (outcome: Outcome)
      requires worker.Some? && !worker.value.cancelled
      modifies worker.value
      ensures var w := worker.value;
        && outcome == Consume(g, cancel).1
        && w.progress == LastAssigned(g.out[..Produced(g, cancel)], old(w.progress))
        && w.cancelled == (cancel.After? && cancel.taken <= |g.out|)
    {
      var w := worker.value;
      var i := 0;
      while i < |g.out|
        invariant 0 <= i <= |g.out|
        invariant worker == Some(w)
        invariant cancel.After? ==> i <= cancel.taken
        invariant !w.cancelled
        invariant w.progress == LastAssigned(g.out[..i], old(w.progress))
      {
        if cancel == Worker.After(i) {
          CancelConversion();
        }
        assert g.out[..i + 1][..i] == g.out[..i];
        if g.out[i].Assigned? {
          w.progress := g.out[i].value;
        }
        if w.cancelled {
          break;
        }
        i := i + 1;
      }
      if i == |g.out| && cancel == Worker.After(i) {
        CancelConversion();
      }
      if i == |g.out| && g.status.Raised? {
        outcome := Failed(g.status.error);
      } else if w.cancelled {
        outcome := Cancelled;
      } else {
        outcome := Succeeded(g.status.product);
      }
      if i == |g.out| {
        assert g.out[..i] == g.out;
      }
    }

    /** Removes the temporary files that exist and can be removed, and forgets all of them. */
    method CleanupTempFiles(existing: set<string>, undeletable: set<string>)
      returns (remaining: set<string>, failures: seq<string>)
      modifies this`tempFiles
      ensures remaining == existing - (set f | f in old(tempFiles) && f !in undeletable)
      ensures failures == FailedRemovals(old(tempFiles), existing, undeletable)
      ensures tempFiles == []
    {
      remaining, failures := RemoveFiles(tempFiles, existing, undeletable);
      tempFiles := [];
    }

    /**
     * Cancels a conversion in progress, cleans up the temporary files and
     * forgets the input, the output directory and the worker. The program
     * then stops on a label it never created, before it clears the settings
     * selector, so both selectors keep their options and values.
     */
    method ResetApp(existing: set<string>, undeletable: set<string>)
      returns (remaining: set<string>, failures: seq<string>)
      modifies this, if conversionInProgress && worker.Some? then {worker.value} else {}
      ensures old(conversionInProgress) && old(worker).Some? ==> old(worker).value.cancelled
      ensures old(worker).Some? ==> old(worker).value.progress == old(worker.value.progress)
      ensures remaining == existing - (set f | f in old(tempFiles) && f !in undeletable)
      ensures failures == FailedRemovals(old(tempFiles), existing, undeletable)
      ensures inputFile.None? && outputDir.None? && worker.None? && tempFiles == [] && !conversionInProgress
      ensures formatOptions == old(formatOptions) && formatSelect == old(formatSelect)
      ensures outputFormatOptions == old(outputFormatOptions) && outputFormatSelect == old(outputFormatSelect)
      ensures convertedIcon == old(convertedIcon)
    {
      if conversionInProgress {
        CancelConversion();
      }
      remaining, failures := CleanupTempFiles(existing, undeletable);
      inputFile, outputDir, worker, conversionInProgress := None, None, None, false;
    }
  }
}
