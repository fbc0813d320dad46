# Qconverto conversion core, modelled in Dafny

Qconverto is a web front end for converting files. It converts images,
audio, video and documents. The program picks a conversion by the file's
extension and calls codec libraries for the work (PIL, pydub, miniaudio,
MoviePy, FFmpeg, PyMuPDF, reportlab, python-docx, docx2pdf, Word
automation and LibreOffice). This project models the logic around those
libraries, all of it from `main.py`:

- **The format catalog** (`catalog.dfy`):
  - the input and output extensions of each category;
  - file-type detection;
  - the extension-to-icon table;
  - the recommended output format;
  - the icon shown for a chosen format.
- **Path handling** (`paths.dfy`):
  - POSIX `splitext`, `basename`, `dirname` and `join` as pure string functions (`text.dfy` holds the ASCII case mapping, Python's `strip` and decimal formatting);
  - the output path of a conversion and the temporary path of an upload, in `app.dfy`.
- **The document layouts** (`layout.dfy`):
  - the text-to-PDF wrapping and pagination loop, as a sequence of draw events;
  - the PDF-to-text concatenation;
  - the PDF-to-DOCX block structure with its progress values;
  - the per-page image names of PDF-to-image.
- **Routing and fallback chains** (`chains.dfy`):
  - the document route table;
  - the FFmpeg path search and the LibreOffice command search;
  - the order in which text encodings are tried;
  - the pydub export formats.
- **The conversion worker** (`worker.dfy`):
  - Each async generator is a function. It takes the job, an `Env` and a cancellation schedule, and gives the values the generator yields and how it ends (a product, or an error wrapped by each handler it passes through).
  - An `Env` holds the outcome of every library call and file-system check.
  - The worker object keeps its `progress` and `cancelled` fields in a class.
- **The application object** (`app.dfy`):
  - the upload, the start of a conversion, cancellation and reset;
  - the loop that consumes the worker's values;
  - temporary-file cleanup;
  - file-size formatting.

Library calls never appear as code. They are abstract outcomes: a library
loads the input or not, writes the output or not, and a path exists
afterwards or not.

## Model

| member | source | states |
|---|---|---|
| Catalog.ClassifyExtension | main.py:82-99 | the category is None exactly when no input list holds the extension; otherwise that category's list holds it and no earlier category's list does |
| Catalog.DetermineFileTypeIff | main.py:1033-1045 | the file type is `c` exactly when the file exists, its lower-cased extension is an input of `c` and no earlier category claims it |
| Catalog.DetermineFileTypeNone | main.py:1033-1045 | the file type is None exactly when the file is missing or its extension is in no input list |
| Catalog.Mp4IsAudio | main.py:87-94 | an existing `.mp4` (in any letter case) is audio, never video |
| Catalog.OnlyMp4Shared | main.py:82-99 | `.mp4` is the only extension listed as an input of two categories |
| Catalog.BuildMapKeys | main.py:102-212 | the dictionary literal's keys are exactly the keys of its entries |
| Catalog.BuildMapLastWins | main.py:102-212 | a key bound again later in the literal maps to its last value |
| Catalog.IcoAndSvgUseLaterEntries | main.py:206-207 | `.ico` and `.svg` map to `extension`, the value of their later entries |
| Catalog.IconKeysHaveOneDot | main.py:102-212 | every key of the icon table is a dot followed by characters that are not dots |
| Catalog.OutputsAreDotExtensions | main.py:82-99 | every output format is a lower-case dot-extension |
| Catalog.ConvertedFileIconAlwaysDefault | main.py:1052-1068 | as written, the icon for any catalog output format is the default icon (see Findings) |
| Catalog.ConvertedFileIconMatchesOutput | main.py:1052-1068 | corrected: the icon for a chosen format is the icon of an output file with that extension |
| Catalog.FirstAvailable | main.py:1112-1115 | the index of the first preference that is available, and None only when no preference is |
| Catalog.RecommendedFormatSpec | main.py:1099-1118 | the recommendation is available exactly when something is available; it is the first available preference, else the first available format, else the empty string |
| Catalog.RecommendationsAreOutputs | main.py:1102-1107 | every recommended format is an output of its category |
| Catalog.RecommendedDefaults | main.py:1099-1118 | the shipped catalog recommends `.pdf`, `.mp3`, `.mp4` and `.pdf` |
| Catalog.FormatOptions | main.py:1070-1097 | a detected type offers its category's outputs, with the recommended format as the default and that format's icon; an undetected type offers nothing |
| Paths.SplitExt | main.py:1038 | `splitext` splits the path into two parts that concatenate back to it; the extension is empty or a dot followed by no dot and no slash |
| Paths.BaseName | main.py:1251 | the base name holds no slash |
| Paths.JoinDirBase | main.py:1250-1255 | for a path without doubled slashes, joining its directory and base name gives the path back |
| Paths.ExtOfBaseName | main.py:1251 | a path and its base name have the same extension |
| Paths.StemExtRoundTrip | main.py:1251 | stem followed by extension is the name again |
| Paths.ExtOfReplaced | main.py:1251-1255 | replacing an existing extension by a dot-extension makes the new one the extension |
| Paths.BaseNameOfJoin | main.py:1149 | joining a slash-free name onto a directory yields a path whose base name is that name |
| Text.StripShape | main.py:717 | the stripped line is no longer than the line, neither starts nor ends with whitespace, and is empty exactly when the line is all whitespace |
| Text.ParseDecimalOfDecimal | main.py:596 | decimal formatting of a number reads back as that number |
| Text.Pad2RoundTrip | main.py:596 | the two-digit zero-padded form of a number reads back as the number |
| Text.Pad2Injective | main.py:596 | distinct numbers get distinct zero-padded forms |
| Layout.LayOutText | main.py:712-747 | the wrapping loop emits exactly the events of the `Layout` specification |
| Layout.ChunksShape | main.py:718-720 | a long line is cut into chunks of 1 to 80 characters that concatenate to the stripped line |
| Layout.LayoutDrawsEveryLine | main.py:712-747 | the strings drawn are, in order, the chunks of every stripped line |
| Layout.LayoutStaysInMargins | main.py:712-747 | on a page at least 100 high every string is drawn at x 50 and at y between 50 and height-50 |
| Layout.LineAdvance | main.py:715-747 | a line that fits drops the pen by 15 per chunk plus 15 and starts no page |
| Layout.WrapLongAdvance | main.py:718-731 | when the page has room, wrapping a long line drops the pen by 15 per chunk drawn and starts no page, and leaves at most 80 characters, none exactly when the line was empty |
| Layout.LowPenStartsPage | main.py:724-747 | a pen below 50 starts a new page and goes back to height-50; otherwise nothing changes |
| Layout.ExtractText | main.py:777-781 | the extraction loop yields the `PdfText` specification |
| Layout.PdfTextEmptyIff | main.py:777-781 | the text is empty exactly when every page's text is empty |
| Layout.PdfTextOfPage | main.py:777-781 | each non-empty page contributes its text followed by a blank line, in page order |
| Layout.BuildDocx | main.py:955-979 | the per-page loop builds the blocks and the progress values of the specification |
| Layout.DocxPageBreaks | main.py:961-979 | the document has max(pages-1, 0) page breaks |
| Layout.DocxPageHeadings | main.py:964-970 | page j gets the heading `页面 j+1` exactly when its stripped text is non-empty |
| Layout.PageHeadingInjective | main.py:968 | different pages get different headings |
| Layout.PageProgressBounds | main.py:978 | a page's progress value lies between 30 and 90 and is 90 on the last page |
| Layout.DocxProgressShape | main.py:961-979 | the progress values never decrease, stay within 30 to 90 and end at 90 |
| Layout.FirstMissing | main.py:605-610 | the index of the first expected image file that was not created, and None only when all were |
| Layout.SavePageImages | main.py:586-611 | the page loop stops at the first missing image, and until then saves page i under its name in the save format |
| Layout.PageImageNamesDistinct | main.py:593-599 | in a PDF of several pages, different pages get different names and none is the output path itself |
| Layout.JpegSaveFormat | main.py:601-603 | a `.jpg` or `.jpeg` output is saved in the JPEG format |
| Chains.RouteDocumentIff | main.py:529-559 | a route is chosen exactly for pdf→jpg/jpeg, an image extension→pdf, txt→pdf, pdf→txt, doc→pdf, docx→pdf and pdf→docx |
| Chains.CatalogDocumentPairs | main.py:529-559 | only 6 of the 16 catalog document input×output pairs have a route; `.doc`→`.txt` and `.pdf`→`.pdf` do not |
| Chains.FirstUsable | main.py:468-473 | the first candidate that exists or is on the search path, and None only when none is |
| Chains.FfmpegPathSpec | main.py:459-480 | FFmpeg is `which("ffmpeg")`, else the first usable of the five candidates, else there is none |
| Chains.OfficeToolSearch | main.py:843-848 | LibreOffice runs from the path the search path gives for the first of `libreoffice` and `soffice` that it resolves, by the same first-usable search as FFmpeg uses; it is absent when neither resolves |
| Chains.FirstDecoding | main.py:679-692 | the encoding used is the first of UTF-8, GBK, GB2312 and Latin-1 that decodes the file, and there is none only when none decodes it |
| Chains.PydubExportSpec | main.py:296-309 | a catalog audio output is exported under its own name except `.m4a`, which is exported as `mp4`; any other extension is exported as mp3; a bitrate is given exactly for mp3 |
| Chains.MoviepyExplicitCodecs | main.py:420-440 | MoviePy passes explicit codecs exactly for the catalog's video outputs |
| Worker.RunValuesInRange | main.py:226-258 | a run always yields 10 first, and every value lies between 10 and 100 |
| Worker.RunClosesAt100 | main.py:248-251 | the closing 100 appears only in a run that raised nothing and had not seen the cancellation, and then it is last; a run without error that lacks it saw the cancellation |
| Worker.FinishClosesAt100 | main.py:230-258 | around any step that yields no closing 100, the run adds 100 only after a step that raised nothing and when the cancellation was not seen, and then as its last value |
| Worker.FinishSorted | main.py:230-251 | a step whose values climb from 30 to at most 70 gives a run whose values never decrease |
| Worker.RunErrorsWrapped | main.py:253-258 | every error a run raises is wrapped by the run's own handler |
| Worker.NoProductMeansCancelled | main.py:226-263 | a run that ends without error and without a product had seen the cancellation |
| Worker.CancelledBeforeDispatch | main.py:226-263 | a worker of a known category cancelled before its step yields exactly 10 and stops |
| Worker.MediaRunSorted | main.py:226-514 | image, audio and video runs yield non-decreasing values |
| Worker.DocToPdfTrace | main.py:799-831 | a `.doc` to `.pdf` run that converts yields 10, 30, 10, 30, 90, 100, 70, 100, which is not non-decreasing |
| Worker.AudioChain | main.py:286-389 | audio tries pydub, then miniaudio, then a copy, stops at the first that works, and fails only when the copy fails |
| Worker.AudioWithoutPydub | main.py:321-389 | without pydub, a written output is the input copied unchanged unless miniaudio decoded the input and the output is `.wav`; so every catalog audio output other than `.wav` is then a copy of the input |
| Worker.VideoChain | main.py:406-511 | video tries MoviePy when it was importable, then FFmpeg at the searched path; it succeeds exactly when one of them works, and there is no copy fallback |
| Worker.DocToPdfChain | main.py:818-886 | `.doc` goes to Word first, then LibreOffice, and fails only when neither produced the PDF |
| Worker.DocumentRouting | main.py:529-564 | a document step raises "unsupported" exactly when no route takes the pair of extensions |
| Worker.CoroutineRoutesAlwaysFail | main.py:529-544 | as written, pdf→image, txt→pdf and pdf→txt always fail before converting (see Findings) |
| Worker.AwaitedRoutesConvert | main.py:566-797 | corrected: with the files and libraries cooperating, those routes produce the laid-out text, the extracted text and one image per page |
| Worker.AwaitedTextToPdf | main.py:658-758 | awaited, txt→pdf with a decodable, existing input returns the layout of the first decoding's text |
| Worker.AwaitedPdfToText | main.py:760-797 | awaited, pdf→txt of an existing, openable PDF returns the text of its pages |
| Worker.AwaitedPdfToImages | main.py:566-616 | awaited, pdf→jpg or pdf→jpeg saves exactly one image per page when every page's file appears |
| Worker.ConversionWorker.constructor | main.py:218-224 | a new worker holds its job, progress 0 and no cancellation |
| App.UploadKeepsName | main.py:1146-1166 | an upload is stored as `<cwd>/temp/<name>`, keeps its name and is classified by that name's extension |
| App.OutputPathSameDir | main.py:1250-1255 | with no output directory and the input's own extension, the output path is the input path |
| App.OutputPathName | main.py:1250-1255 | the output's file name is the input's stem followed by the selected extension |
| App.OutputPathExtension | main.py:1250-1255 | with a catalog output format selected, the output has exactly that extension |
| App.UnitIndex | main.py:1430-1439 | the unit is the largest of B, KB, MB and GB whose size does not exceed the file size |
| App.FormatFileSize | main.py:1430-1439 | zero is `0 B`; otherwise the value is the size in the unit `UnitIndex` picks, and it lies in [1, 1024) below 1024 GB |
| App.FailedRemovals | main.py:1420-1427 | a file fails to be removed exactly when it is listed, exists and cannot be removed |
| App.RemoveFiles | main.py:1420-1427 | every listed file is gone afterwards except those that cannot be removed, and no other file changes |
| App.ConsumeRun | main.py:1295-1379 | the user sees a prefix of the run's values; without a cancellation, all of them and never "cancelled"; a success has a product, shows 10 first and 100 last, and leaves the worker at 100; a failure is the run's wrapped error |
| App.QconvertoApp.constructor | main.py:1004-1011 | the app starts with no input, no worker, no temporary files and empty selectors |
| App.QconvertoApp.UpdateFormatOptions | main.py:1070-1083 | both selectors offer the category's outputs with the recommended one selected; the icon shown is the corrected one, and the lookup as written would give the default icon (see Findings) |
| App.QconvertoApp.HandleFileUpload | main.py:1120-1171 | an upload is stored, becomes the input and is recorded for cleanup; for a known type both selectors offer its outputs with the recommended one selected and the corrected icon shown, while the lookup as written would give the default icon (see Findings); an unknown type, or no file, leaves both selectors and the icon as they were |
| App.QconvertoApp.StartConversion | main.py:1233-1284 | refuses a missing input, a non-existent file and an unknown type, in that order; otherwise it makes a worker for the output path and marks a conversion in progress |
| App.QconvertoApp.CancelConversion | main.py:1381-1387 | sets the worker's flag and changes nothing else |
| App.QconvertoApp.RunConversionWithProgress | main.py:1295-1379 | the outcome is the one `Consume` gives for the worker's run; the worker holds the last value it stored; the conversion is no longer in progress |
| App.QconvertoApp.ConsumeTrace | main.py:1298-1300 | the loop stops at the first value received after the flag was set |
| App.QconvertoApp.CleanupTempFiles | main.py:1420-1428 | removes the temporary files that exist and can be removed, and forgets the list |
| App.QconvertoApp.ResetApp | main.py:1389-1406 | cancels a conversion in progress and touches the old worker only then, leaving its progress as it was; cleans up; clears the input, output directory and worker; both format selectors and the icon keep their values, because the program stops before it clears them |

## Left out

- **User interface.** The NiceGUI widgets, notifications, animations, the log, the image preview, the download button and the output-directory dialogs are not modelled. The dialogs are the only place `output_dir` is set, so it is a plain field here. The outcome of the consumer loop stands for the message the user sees.
- **asyncio.**
  - `create_task`, `asyncio.sleep` and `Task.cancel` are not modelled. Cancellation is only the worker's `cancelled` flag, set after some number of values has been taken.
  - In the program the flag can only be set while the consumer sleeps after a multiple of 10, or before the task starts. The model allows it after any value.
  - `Task.cancel` raises `CancelledError` inside the suspended task, which skips the "cancelled" branch. The model ignores this.
- **Library calls.**
  - The codec libraries, Word automation, LibreOffice, `shutil.which`, `shutil.copy2`, `os.rename` and the file-system checks are outcomes recorded in `Worker.Env`, never code.
  - The PDF's pages are their extracted text.
  - The hard dependencies (PIL, PyMuPDF, reportlab, python-docx) are assumed importable.
- **Error messages.** Message text, tracebacks and `from e` chains are left out. Errors are kinds, with one `Wrapped` layer per handler they pass through.
- **Chains.FirstDecoding:** Latin-1 decodes every byte sequence, so in the program the "cannot read the text file" error cannot occur. The model keeps that branch for an `Env` that lists no decoding.
- **Layout.PageProgress:** the value is computed with exact integer division, `(i+1)*60/total`. The program computes `int((i+1)/total*60)` in floating point, which can round one below an exact integer result.
- **App.FormatFileSize:** the value is an exact real. Floating-point rounding and the one-decimal rendering are left out.
- **Worker.ConvertAudio:** the miniaudio attempt yields 50 right after the import, before decoding. The model folds "imports but fails later" into one outcome.
- **App.QconvertoApp.StartConversion:** the exception branch around worker creation and `create_task` (main.py:1286-1293) is not modelled. Creating the worker cannot fail here.
- **Text.Lower / Text.Upper:** they map ASCII letters only, where Python's `str.lower` and `str.upper` are Unicode-aware. An extension written with a non-ASCII letter that lower-cases to an ASCII one (the Kelvin sign in `.M\u212AV`, say) is recognised by the program but classified as unknown by `Catalog.DetermineFileType`. Upper-casing that changes length (`ß` to `SS`) is also not modelled. Every extension the catalog lists is ASCII.
- **App.QconvertoApp.UpdateFormatOptions:** the converted-file icon it shows is the corrected lookup, not the program's, which always shows the default icon. Its contract states both.
- **App.QconvertoApp.HandleFileUpload:** for a known type it sets the icon through `UpdateFormatOptions`, so it too shows the corrected icon rather than the program's default one. Its contract states both.
- **App.QconvertoApp.ResetApp:** the program sets the text of `selected_file_label` (main.py:1406), an attribute it never creates, so `reset_app` raises `AttributeError` once the input, output directory, worker and task are reset. The clearing of the settings selector, the progress bar and the log after that line never happens. The model ends normally at that point, leaves the selector as it was and does not model the exception.
- **Settings and logging.** The settings dictionary, the file-size log line, `conversion_task`, the hidden/visible state of the converted-file widgets and reading the output for download are UI or logging and are not modelled.

## Findings

| source | as written | input that shows it | evidently intended | confidence | as-written member | corrected member |
|---|---|---|---|---|---|---|
| main.py:1052-1068 | the icon key is `'.' + fmt.lower()`, but every catalog format already starts with a dot, so the key is `..pdf` and the lookup always gives `insert_drive_file` | choosing an image whose recommended format is `.pdf` shows the default icon instead of `picture_as_pdf` | keep an existing leading dot, so `.pdf` looks up `.pdf` (`Catalog.ConvertedFileIcon`, which `Catalog.FormatOptions` and so `App.QconvertoApp.UpdateFormatOptions` and `App.QconvertoApp.HandleFileUpload` use; the code as written is `Catalog.ConvertedFileIconAsWritten`) | high, not executed | Catalog.ConvertedFileIconAlwaysDefault | Catalog.ConvertedFileIconMatchesOutput |
| main.py:531-543 | `_pdf_to_image`, `_txt_to_pdf` and `_pdf_to_txt` contain no `yield`, so they are coroutines, but they are driven with `async for`. That raises `TypeError` before their body runs, and the error is wrapped as a document-conversion failure | converting any PDF to `.jpg`, any `.txt` to `.pdf`, or any PDF to `.txt` | await the three coroutines, so they convert (`Worker.ConvertDocument`, which `Worker.RunConversion` uses; the code as written is `Worker.ConvertDocumentAsWritten`) | high, not executed | Worker.CoroutineRoutesAlwaysFail | Worker.AwaitedRoutesConvert |
