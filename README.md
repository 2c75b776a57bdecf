# FileExtractor: a Dafny model of the code extractor's engine

The code extractor turns a project folder into one annotated text document.
Its engine is the class `FileExtractor` in `core/file_extractor.py`, set up
from the defaults in `config.py`. The engine:

- decides which files and folders take part (`is_file_allowed`,
  `is_folder_allowed`);
- counts the files it will process (`count_files`);
- writes the document (`extract_content`). The document has a header, one
  section per visited folder, a framed block per readable file and a summary.
  Per-file errors are collected and appended to an error log. A
  cancellation flag, which another thread sets, is checked before each
  folder and each file;
- computes preview statistics for a folder (`get_summary`).

This project models that engine in Dafny and proves what it promises.

- **Filesystem.** A finite tree. Each folder has a name, an ordered list of
  files and an ordered list of subfolders. Each file has a name, an optional
  size (None when `os.path.getsize` fails) and either its bytes or the
  `OSError` text that opening it raises.
- **`os.walk`.** An explicit stack of frames, top-down and pre-order. The
  `dirs[:] = …` assignment prunes excluded folders before descent. Every walk
  loop is proved against the recursive pre-order walk `Walk.Walk`.
- **Collaborators the engine cannot see.** These are parameters (`Oracles`):
  - chardet's guess;
  - the codec (lossy decoding, or an unknown-encoding failure);
  - a failing `open` of the output file;
  - failing writes to the output file, by write number;
  - failing appends to the log, by append number;
  - the moment another thread calls `cancel_extraction`, as the first
    check-point at which the flag is seen set.
- **The class.** `FileExtractor` is a class with the source's fields. Its
  methods (`CountFiles`, `ExtractContent`, `GetSummary` and their loop
  bodies) are proved equal to specification functions:
  - `Walk.Candidates` for the count;
  - `Extraction.Extract` for the whole extraction, built from `Body`,
    `Footer`, `RunVisits`, `RunFiles` and `FileStep`;
  - `Summary.Summarize` for the statistics.

  Lemmas state the source's promises about those functions: counts agree
  across passes, pruning hides whole subtrees, the file framing
  round-trips, the counters balance, cancellation only truncates, and the
  summary statistics add up.
- **Modules.**
  - `Wrappers`, `Text`, `PathNames`, `FileSystem`, `Config`: helpers, the
    tree and the default constants.
  - `FilterPolicy`: the two filter predicates and the default-policy facts.
  - `Encoding`: `detect_encoding` and file reading.
  - `Walk`: the walk and the candidate files.
  - `Extraction`: the specification of `extract_content`.
  - `ExtractionProperties`: its properties.
  - `ExtractedFiles`: which files a call opens and writes.
  - `Summary`: `get_summary` and its properties.
  - `Extractor`: the `FileExtractor` and output-file classes.

## Model

| member | source | states |
|---|---|---|
| Extractor.FileExtractor.constructor | core/file_extractor.py:21-27 | the policy fields are the configuration defaults, the size bound is 10 × 1024 × 1024 bytes, no progress callback is installed and the cancel flag is false |
| Extractor.FileExtractor.SetProgressCallback | core/file_extractor.py:29-31 | afterwards a callback is installed exactly when one was passed; nothing else changes |
| Extractor.FileExtractor.CancelExtraction | core/file_extractor.py:33-35 | sets the cancel flag and changes nothing else |
| FilterPolicy.DefaultPolicy | core/file_extractor.py:22-25 | the default size bound is 10485760 bytes |
| Encoding.DetectEncoding | core/file_extractor.py:37-53 | `detect_encoding` never yields an empty codec name; `DetectEncodingFallback` gives its exact result |
| Encoding.ReadText | core/file_extractor.py:189-192 | reading a file fails exactly when it cannot be opened or the detected codec is unknown, and otherwise yields the decoded text |
| Encoding.DetectionPrefix | core/file_extractor.py:48-49 | the detector sees at most 8192 bytes, a prefix of the file: all of a short file, exactly 8192 bytes of a long one |
| Encoding.DetectEncodingFallback | core/file_extractor.py:37-53 | detection never fails and never yields an empty name: chardet's non-empty guess on the first 8192 bytes, else `utf-8`; an unopenable file gives `utf-8` |
| PathNames.LastDot | core/file_extractor.py:72 | the index found holds a dot and no dot follows it; no index means the name has no dot |
| PathNames.SplitExtRoundTrip | core/file_extractor.py:72 | `splitext` loses nothing: root + extension is the name |
| PathNames.ExtCharacterised | core/file_extractor.py:72 | the extension is non-empty exactly when some dot has a non-dot before it; it then is the dot-led suffix with no further dot (so `.gitignore`, `Makefile` and `...` have the empty extension) |
| Text.LowerIsLower | core/file_extractor.py:73 | lower-casing yields a lower-case string and leaves one unchanged exactly when it is already lower case |
| Text.NatToStringRoundTrip | core/file_extractor.py:148 | the decimal rendering of a count is non-empty, all digits, has no leading zero and reads back as the count |
| FilterPolicy.FileAllowed | core/file_extractor.py:55-83 | `is_file_allowed`: an accepted file has a basename outside `excluded_files`, a lower-cased extension in `allowed_extensions` and a readable size within `max_file_size`; the lemmas below give the converse |
| FilterPolicy.FolderAllowed | core/file_extractor.py:85-96 | `is_folder_allowed`: the folder's basename is not among `excluded_folders`; `FolderExcludedIff` states it |
| FilterPolicy.ExcludedNameRejected | core/file_extractor.py:65-69 | a basename in `excluded_files` is rejected whatever its extension and size |
| FilterPolicy.ExtensionCaseInsensitive | core/file_extractor.py:72-74 | acceptance depends on the extension only through its lower-cased form |
| FilterPolicy.NameWithoutExtensionRejected | core/file_extractor.py:72-74 | a name with no dot after its first non-dot character has the empty extension and is rejected when `""` is not an allowed extension |
| FilterPolicy.SizeBoundInclusive | core/file_extractor.py:76-83 | past the name and extension checks, a file is accepted exactly when its size can be read and is at most `max_file_size`; an unreadable size is a rejection |
| FilterPolicy.FolderExcludedIff | core/file_extractor.py:95-96 | a folder is rejected exactly when its basename is in `excluded_folders` |
| FilterPolicy.DefaultExtensionsWellFormed | config.py:39-83 | every default extension is non-empty, starts with `.` and is lower case; `""` is not among them |
| FilterPolicy.JsonAllowedByDefault | config.py:70 | `.json` is an allowed default extension and already lower case |
| FilterPolicy.PackageLockRejectedByName | config.py:9 | `package-lock.json` has the allowed extension `.json` and is still rejected, by name |
| FilterPolicy.PackageJsonNotExcluded | config.py:8-17 | `package.json` is not an excluded default name |
| FilterPolicy.PackageJsonAccepted | core/file_extractor.py:65-83 | under the defaults `package.json` of at most 10485760 bytes is accepted |
| FilterPolicy.DockerfileAndMakefileRejected | config.py:79-80 | `.dockerfile` and `.makefile` are listed, yet `Dockerfile` and `Makefile` are rejected whatever their size |
| FilterPolicy.DefaultFoldersPruned | config.py:19-37 | `node_modules`, `.git`, `__pycache__`, `build` and `venv` are pruned under the defaults |
| Walk.Walk | core/file_extractor.py:110-112 | the tuples `os.walk` yields, top-down and pre-order, descending only into the subfolders kept in `dirs`; the lemmas below relate it to the walker's stack and to the files of the tree |
| Walk.Kept | core/file_extractor.py:153-158 | `dirs[:] = [d for d in dirs if is_folder_allowed(d)]`, in listing order; `PrunedWalkEntries` states what the pruning hides |
| Walk.InitialStackWalk | core/file_extractor.py:110 | the walker's initial stack yields the walk of the source, and nothing for a source that is not a folder |
| Walk.PopFrame | core/file_extractor.py:110-112 | one walker step yields the top folder's tuple, whose `dirs` are the kept subfolders, and pushes only those; the rest of the walk is unchanged |
| Walk.PushFrames | core/file_extractor.py:112 | pushing the frames of the kept subfolders adds exactly their subtrees' walks, in order, ahead of the pending frames |
| Walk.FileEntries | core/file_extractor.py:114-115 | the files of one folder paired with its path, one entry per file, in listing order |
| Walk.EntriesBelow | core/file_extractor.py:110-112 | every file the walk of a folder meets lies at that folder's path or below |
| Walk.PrunedWalkEntries | core/file_extractor.py:110-112 | below a reachable folder, the pruned walk meets exactly the files of the full walk with no excluded folder on their path, in the same order |
| Walk.PrunedWalkFindsEligible | core/file_extractor.py:110-117 | the accepted files of the pruned walk are the eligible files, defined without the walker |
| Walk.EligibleAvoidsExcluded | core/file_extractor.py:153-158 | every eligible file is accepted and has no excluded folder anywhere on its path |
| Walk.CandidatesAreEligible | core/file_extractor.py:108-119 | the files `count_files` counts are the eligible files of the source folder, and none for anything else |
| Walk.CountAllowedEntries | core/file_extractor.py:114-117 | the per-folder count of accepted files equals the accepted entries of that folder |
| Walk.RemainingSplit | core/file_extractor.py:114-117 | the accepted files still ahead split into the current folder's and those of the rest of the walk |
| Extractor.FileExtractor.CountFiles | core/file_extractor.py:98-119 | returns the number of eligible files: accepted, with no excluded folder on their path |
| Extractor.OutputFile.Write | core/file_extractor.py:144 | one `write` call: it is counted, and its text is appended unless it raises |
| Extractor.OutputFile.WriteAll | core/file_extractor.py:196-200 | consecutive writes that stop at the first one that raises |
| ExtractionProperties.WriteAllEffect | core/file_extractor.py:196-200 | the output only grows, and by a prefix of what was to be written; without an error all of it is written; a raising write leaves a proper prefix; with no faulty write number in range, nothing raises |
| Extractor.FileExtractor.CheckPoint | core/file_extractor.py:154-155 | a check-point: the flag is then set if it was set or cancellation is requested at this point |
| Extractor.FileExtractor.RecordError | core/file_extractor.py:204-214 | records the error message and appends the `[ERROR]` line to the log when a log path is given and the append succeeds |
| Extractor.FileExtractor.ProcessFile | core/file_extractor.py:180-214 | the body of the file loop for an accepted file, equal to `FileStep` |
| Extractor.FileExtractor.ProcessFolderFiles | core/file_extractor.py:171-214 | the file loop of one folder, equal to `RunFiles` |
| Extractor.FileExtractor.VisitFolder | core/file_extractor.py:157-168 | one folder section, equal to `VisitStep` |
| Extractor.FileExtractor.WalkFolders | core/file_extractor.py:153-214 | the folder loop over the pruned walk, equal to `RunVisits` |
| Extractor.FileExtractor.WriteFooter | core/file_extractor.py:216-223 | the summary block, equal to `Footer` |
| Extractor.FileExtractor.WriteDocument | core/file_extractor.py:144-223 | header, folder loop and summary, equal to `Finish` |
| Extractor.FileExtractor.WriteOutput | core/file_extractor.py:143-230 | from opening the output file on, equal to `Conclude(Finish(…))` |
| Extractor.FileExtractor.ExtractContent | core/file_extractor.py:121-230 | the whole call equals `Extract` on the fields, the request and the oracles; the flag left behind is the one the call ends with |
| Extraction.Extract | core/file_extractor.py:121-230 | the whole of `extract_content` over the tree and the oracles; its properties are the `ExtractionProperties` and `ExtractedFiles` lemmas |
| ExtractionProperties.ExtractEarlyExits | core/file_extractor.py:133-144 | a missing source raises before the flag is reset and before anything is opened; a failing `open` raises after the reset with nothing written; for an existing source the flag before the call makes no difference |
| ExtractionProperties.BlockRoundTrip | core/file_extractor.py:195-200 | removing the start and end markers and the added newline from a file's block gives back its content; the block is 3 writes, or 4 when a newline is added |
| ExtractionProperties.BlockText | core/file_extractor.py:195-200 | a block's text is the start marker, the content ending in a newline (added only if missing) and the end marker for the same relative path |
| ExtractionProperties.FramingForgetsAddedNewline | core/file_extractor.py:198-199 | the document text cannot tell content without a final newline from the same content with one |
| ExtractionProperties.FileStepOutcome | core/file_extractor.py:180-214 | for an accepted file: an unreadable file writes nothing and adds its error; a readable one adds its whole block and counts as processed, or, when a write fails, part of the block and one error |
| ExtractionProperties.FileErrorCounts | core/file_extractor.py:204-214 | a per-file failure appends one error and changes nothing but the errors and the log |
| ExtractionProperties.FileStepBalanced | core/file_extractor.py:180-206 | each accepted file advances `current_file` by one and keeps processed + errors = `current_file`, with progress calls numbered 1.. against the total |
| ExtractionProperties.RunFilesBalanced | core/file_extractor.py:171-206 | the file loop keeps the balance and advances `current_file` by at most the folder's accepted files |
| ExtractionProperties.VisitStepBalanced | core/file_extractor.py:157-206 | a folder section keeps the balance |
| ExtractionProperties.RunVisitsBalanced | core/file_extractor.py:153-206 | the folder loop keeps the balance and never passes the accepted files still ahead |
| ExtractionProperties.ExtractBalanced | core/file_extractor.py:180-185 | with the output open and the tree unchanged between the counting and the writing pass (so the output file lies outside the source folder): `1 <= current_file <= total_files` at every progress call, so the percentage never exceeds 100 and never divides by zero; on return processed + errors = `current_file` |
| ExtractionProperties.FooterKeepsCounters | core/file_extractor.py:216-223 | the summary block changes no counter |
| ExtractionProperties.EmptyFolderMarked | core/file_extractor.py:164-168 | a folder with no accepted file and no kept subfolder gets its header and `(Carpeta vacía)`, and no file of it is opened or counted |
| ExtractionProperties.NoneAllowedNothingRendered | core/file_extractor.py:165-166 | such a folder contributes no accepted file and no error |
| ExtractionProperties.UndisturbedExtraction | core/file_extractor.py:121-230 | with no cancellation and no failing write, the call completes: `current_file` reaches the total, processed + errors = total, the errors are exactly the unreadable candidates, and the document is header, rendered sections, summary and closing rule |
| ExtractionProperties.CancelNoteIffFlag | core/file_extractor.py:216-223 | a completed call ends with the summary lines, the cancellation note exactly when the flag is set at the end, and the closing rule |
| ExtractionProperties.CancellationTruncates | core/file_extractor.py:153-173 | a cancelled run's document body, log, progress calls and index are prefixes of the uncancelled run's; when both complete, so are its errors |
| ExtractionProperties.CancelledBeforeFirstFolder | core/file_extractor.py:153-155 | a cancellation requested before the first check-point leaves only the header, a summary of nothing and the cancellation note |
| ExtractionProperties.FooterCancelled | core/file_extractor.py:216-223 | once the flag is set or cancellation is requested by the summary's check, at any point of the run, the summary lines of the counts so far are followed by the cancellation note and the closing rule, and no counter changes |
| ExtractedFiles.FileStepOpens | core/file_extractor.py:180-185 | each accepted file advances `current_file` by one and, when progress is reported, passes the callback a label naming that file |
| ExtractedFiles.RunFilesOpens | core/file_extractor.py:171-214 | the file loop of a folder opens a leading part of its accepted files in listing order, all of them when it ends neither cancelled nor failed, one `current_file` step and one label each |
| ExtractedFiles.VisitStepOpens | core/file_extractor.py:157-214 | a folder section opens a leading part of the folder's accepted files, none when it is marked empty, all when it ends undisturbed |
| ExtractedFiles.RunVisitsOpens | core/file_extractor.py:153-214 | the folder loop opens a leading part of the accepted files of the pruned walk, in walk order, all of them when it ends neither cancelled nor failed |
| ExtractedFiles.ExtractOpensCandidates | core/file_extractor.py:141-214 | whatever fails, the files a call opens are a leading part of the candidates `count_files` counted, in walk order, with one progress label naming each; a completed call without the flag set opens all of them, so without cancellation `current_file` reaches `total_files` even when files fail to be read or written |
| ExtractedFiles.RenderFilesAreAccepted | core/file_extractor.py:171-214 | a folder's blocks and error messages are those of its accepted files, readable and unreadable respectively, in listing order |
| ExtractedFiles.SectionShape | core/file_extractor.py:160-171 | every folder section is its header, the empty marker only when nothing is accepted and no subfolder kept, then its blocks |
| ExtractedFiles.SectionBlocksAreAccepted | core/file_extractor.py:153-214 | the blocks and errors of the folder loop are those of the accepted files of the walk, in walk order |
| ExtractedFiles.RenderIsSections | core/file_extractor.py:153-214 | the folder loop's output is, per visited folder, its header, its empty marker when it gets one, and the blocks of its readable candidates |
| ExtractedFiles.UndisturbedDocument | core/file_extractor.py:144-223 | with no cancellation and no failing write, the whole document is the header, the sections built from the candidates, the summary and the rule; without the folder headers and markers the sections are the blocks of the readable candidates in walk order |
| ExtractedFiles.UndisturbedWritesCandidates | core/file_extractor.py:153-214 | with no cancellation and no failing write, the call opens every candidate, writes the blocks of exactly the readable candidates in walk order, and records the errors of exactly the unreadable ones: no file under an excluded folder, no rejected file, none twice |
| Extractor.FileExtractor.SummarizeFile | core/file_extractor.py:260-281 | the body of the file loop of `get_summary`, equal to `TallyFile` |
| Extractor.FileExtractor.SummarizeFiles | core/file_extractor.py:260-281 | the file loop of one folder, equal to `TallyFiles` |
| Extractor.FileExtractor.SummarizeFolder | core/file_extractor.py:256-281 | one tuple of the walk: subfolder and file counts, then the files, equal to `TallyVisit` |
| Extractor.FileExtractor.GetSummary | core/file_extractor.py:232-283 | equal to `Summarize`: `{}` for a missing source, else the tallies of the unpruned walk |
| Summary.Summarize | core/file_extractor.py:232-283 | the whole of `get_summary`; its properties are the `Summary` lemmas below |
| Summary.SummarizeNonFolders | core/file_extractor.py:242-243 | a missing source gives `{}`; an existing non-folder gives the zeroed dictionary |
| Summary.SummaryCountsEverything | core/file_extractor.py:256-258 | `total_folders` is the number of folders below the root and `total_files` the number of files at any depth, nothing pruned |
| Summary.SummaryBalanced | core/file_extractor.py:262-281 | `allowed_files` counts the accepted files of the whole tree; allowed + excluded and the sum of the extension counts both equal the number of files with a readable size; `total_size` is the sum of those sizes |
| Summary.SummaryHistogram | core/file_extractor.py:271-273 | the histogram has a key exactly for each lower-cased extension of a readable file, with its number of files |
| Summary.SummaryLargest | core/file_extractor.py:267-269 | `largest_size` is the greatest readable size, no readable size exceeds it, and `largest_file` is the first file of that size in walk order, or None when no file has a positive size |
| Summary.FirstOfSizeIsFirst | core/file_extractor.py:267 | the file reported for a size is the first of that size in walk order, so ties keep the first found |
| Summary.SummaryAllowedBoundsCount | core/file_extractor.py:275-276 | the summary's `allowed_files` is at least what `count_files` returns, and the two agree when no folder name is excluded |
| Summary.TallyEntriesCounters | core/file_extractor.py:262-281 | tallying files adds the accepted files to `allowed_files`, the readable files to allowed + excluded and their sizes to `total_size`, and leaves the folder and file counts alone |
| Summary.TallyEntriesHistogram | core/file_extractor.py:271-273 | tallying files adds, for each key, the number of readable files with that key, and adds exactly those keys |
| Summary.TallyEntriesTotal | core/file_extractor.py:271-273 | each readable file adds one to the sum of the extension counts |
| Summary.TallyEntriesLargest | core/file_extractor.py:267-269 | tallying files takes the maximum of the sizes, and changes the largest file only on a strictly greater size |
| Summary.TallyVisitsEntries | core/file_extractor.py:256-281 | the folder loop is the folder and file counts plus the tallies of the walk's files in order |
| Summary.WalkListsFolders | core/file_extractor.py:256-257 | the unpruned walk lists every folder but the root once, as a subfolder of its parent |
| Summary.WalkListsFiles | core/file_extractor.py:256-258 | the unpruned walk meets every file of the tree once |
| Summary.KeptUnpruned | core/file_extractor.py:256 | without pruning, `dirs` is every subfolder |
| Summary.TotalIncrement | core/file_extractor.py:273 | `extensions[ext] = extensions.get(ext, 0) + 1` adds one to the sum of the counts |
| Summary.MaxSizeAttained | core/file_extractor.py:267-269 | a positive greatest size belongs to some file |
| Summary.MaxSizeBounds | core/file_extractor.py:267 | no readable size exceeds the greatest size |

## Left out

- The desktop interface, threads and dialogs are not part of this model.
  Another thread's `cancel_extraction` is the oracle `CancelPlan`, which
  names the first check-point at which the flag is seen set. A flag that is
  set at some point stays set until the next call resets it.
- Real I/O is left out. `os.walk`, `open`, `os.path.getsize`,
  `os.path.relpath` and `os.path.exists` become the tree datatype and
  per-file data. Relative paths are name segments joined with POSIX `/`
  separators; on Windows the source's folder headers and file markers use
  `\`. Symbolic links, folders that cannot be listed, and a tree that
  changes between the counting pass and the writing pass are not modelled.
- ExtractionProperties.ExtractBalanced: the tree is the same in both passes,
  so the bound assumes the output file (and the error log) lie outside
  `source_path`. The source opens the output with `'w'` after counting
  (`core/file_extractor.py:141-144`). With the output inside the source
  folder, for instance the default relative `codigo_extraido.txt` when the
  working directory is the source, the writing pass meets an accepted
  `.txt` file that was never counted. Then `current_file` exceeds
  `total_files`, and with no other candidate the percentage divides by zero.
  An earlier output over the size bound is rejected when counting and
  accepted once truncated, with the same effect. The document then also
  contains part of its own text.
- ExtractedFiles.ExtractOpensCandidates: it rests on the same assumption. An
  output file inside the source folder is opened as a file that was never
  counted.
- The internals of chardet and of Python's codecs are oracles. Decoding with
  `errors='replace'` is part of the decode oracle, which fails only for an
  unknown encoding name.
- Extractor.FileExtractor.SetProgressCallback: the callback is modelled only
  as whether one is installed. Each progress call is recorded as the event
  (index, total, label); the floating-point percentage is not computed. A
  callback that raises is not modelled.
- The error log is modelled as the list of lines appended. An append that
  fails is the oracle `logFault` and is swallowed, as in the source.
- Lower-casing covers the ASCII letters only. Python's `str.lower` also maps
  other letters. No default name or extension contains any, but two
  consequences remain:
  - Python lowers U+212A (KELVIN SIGN) to ASCII `k`, so the source accepts a
    file whose extension is `.\u212At` as `.kt` and one ending in
    `.ma\u212Aefile` as `.makefile`; the model rejects both;
  - the `get_summary` histogram keys differ from the source's for any
    extension with non-ASCII capital letters.
- The outer `except` that re-raises as a critical error is modelled for
  failures it can meet:
  - the output file fails to open;
  - a write outside a file block raises;
  - the percentage divides by zero.

  A failure to flush or close the output file when the `with` block exits
  (`core/file_extractor.py:144`, caught at lines 225-228) is not modelled:
  the model's output file never fails after its last write.

  Any other failure, such as running out of memory, is not modelled.
- Directory creation at import time in `config.py`, the window and colour
  constants, and the output and log file names are not part of this model.
- Three behaviours of the source worth noting, each modelled as the source
  has it:
  - the cancellation note is written without brackets;
  - `get_summary` returns an empty dictionary, not zeroed statistics, for a
    missing source;
  - a file whose size cannot be read still counts in `total_files`.
- Summary.SummaryAllowedBoundsCount: the summary classifies each file at its
  own basename and size only. It does not prune, so its `allowed_files` may
  count files under excluded folders. The model states this as an
  inequality, not as a defect.
