/**
 * The `FileExtractor` object: its configuration fields, the cancellation
 * flag that another thread sets, and the passes over a source folder.
 * Each method is proved against the function that specifies it: the count
 * against the candidates of the pruned walk, the extraction against
 * `Extract`.
 */
module Extractor {
  import opened Wrappers
  import opened FileSystem
  import opened FilterPolicy
  import opened PathNames
  import opened Encoding
  import opened Walk
  import opened Extraction
  import opened Summary
  import Config
  import Text
  import Spec = Extraction

  /** The output file opened with `open(output_path, 'w')`: what has been written and how many writes were made. */
  class OutputFile {
    const faults: nat -> Option<string>
    var chunks: seq<string>
    var attempts: nat

    constructor (faults: nat -> Option<string>)
      ensures this.faults == faults && chunks == [] && attempts == 0
    {
      this.faults := faults;
      chunks := [];
      attempts := 0;
    }

    function Written(): Stream
      reads this
    {
      Stream(chunks, attempts)
    }

    /** `output_file.write(x)`. */
    method Write(x: string) returns (err: Option<string>)
      modifies this
      ensures (Written(), err) == Spec.Write(faults, old(Written()), x)
    {
      err := faults(attempts);
      if err.None? {
        chunks := chunks + [x];
      }
      attempts := attempts + 1;
    }

    /** Consecutive writes, stopping at the first that raises. */
    method WriteAll(xs: seq<string>) returns (err: Option<string>)
      modifies this
      ensures (Written(), err) == Spec.WriteAll(faults, old(Written()), xs)
    {
      var i := 0;
      err := None;
      while i < |xs|
        invariant 0 <= i <= |xs| && err.None?
        invariant Spec.WriteAll(faults, Written(), xs[i..]) == Spec.WriteAll(faults, old(Written()), xs)
      {
        assert xs[i..][0] == xs[i] && xs[i..][1..] == xs[i + 1..];
        err := Write(xs[i]);
        if err.Some? {
          return;
        }
        i := i + 1;
      }
    }
  }

  /** One write is a sequence of writes of length one. */
  lemma WriteOne(faults: nat -> Option<string>, s: Stream, x: string)
    ensures Spec.WriteAll(faults, s, [x]) == Spec.Write(faults, s, x)
  {
    assert [x][1..] == [];
  }

  /** The counters `extract_content` keeps in local variables. */
  datatype Tally = Tally(current: nat, processed: nat, errors: seq<string>, log: seq<string>, progress: seq<Progress>)

  /** The run state the locals, the output file and the flag stand for. */
  function RunOf(s: Stream, t: Tally, checks: nat, flag: bool, fault: Option<Fault>): Run
  {
    Run(s, t.current, t.processed, t.errors, t.log, t.progress, checks, flag, fault)
  }

  class FileExtractor {
    var excludedFiles: seq<string>
    var excludedFolders: seq<string>
    var allowedExtensions: seq<string>
    var maxFileSize: int
    var hasProgressCallback: bool
    var cancelFlag: bool

    /** The defaults of the configuration, with the size limit in bytes, no callback and no cancellation. */
    constructor ()
      ensures Policy() == DefaultPolicy()
      ensures maxFileSize == 10 * 1024 * 1024
      ensures !hasProgressCallback && !cancelFlag
    {
      excludedFiles := Config.DefaultExcludedFiles;
      excludedFolders := Config.DefaultExcludedFolders;
      allowedExtensions := Config.DefaultAllowedExtensions;
      maxFileSize := Config.MaxFileSizeMb * 1024 * 1024;
      hasProgressCallback := false;
      cancelFlag := false;
    }

    /** The filter the fields configure. */
    function Policy(): Policy
      reads this`excludedFiles, this`excludedFolders, this`allowedExtensions, this`maxFileSize
    {
      FilterPolicy.Policy(excludedFiles, excludedFolders, allowedExtensions, maxFileSize)
    }

    /** `set_progress_callback`: only whether a callback is installed matters to the engine. */
    method SetProgressCallback(installed: bool)
      modifies this`hasProgressCallback
      ensures hasProgressCallback == installed
    {
      hasProgressCallback := installed;
    }

    /** `cancel_extraction`, called from another thread. */
    method CancelExtraction()
      modifies this`cancelFlag
      ensures cancelFlag
    {
      cancelFlag := true;
    }

    /**
     * `count_files`: the accepted files of the pruned walk, which are the
     * eligible files of the source folder.
     */
    method CountFiles(src: Source) returns (total: nat)
      ensures total == |Candidates(Policy(), src)|
      ensures src.Directory? ==> total == |Eligible(Policy(), src.root)|
    {
      var pr := PrunedBy(Policy());
      total := 0;
      var stack := InitialStack(src);
      InitialStackWalk(pr, src);
      while stack != []
        invariant total + Remaining(Policy(), WalkStack(pr, stack)) == |Candidates(Policy(), src)|
        decreases |WalkStack(pr, stack)|
      {
        var f := stack[0];
        var kept := Kept(pr, f.dir.subdirs);
        PopFrame(pr, stack);
        RemainingSplit(Policy(), WalkStack(pr, stack));
        var files := f.dir.files;
        var i := 0;
        while i < |files|
          invariant 0 <= i <= |files|
          invariant total + CountAllowed(Policy(), files[i..]) + Remaining(Policy(), WalkStack(pr, Frames(f.path, kept) + stack[1..]))
                    == |Candidates(Policy(), src)|
        {
          assert files[i..][1..] == files[i + 1..];
          if FileAllowed(Policy(), files[i]) {
            total := total + 1;
          }
          i := i + 1;
        }
        stack := Frames(f.path, kept) + stack[1..];
      }
      CandidatesAreEligible(Policy(), src);
    }

    /**
     * A cancellation check-point: `cancel_extraction` may have been called
     * since the previous one; the caller then reads the flag.
     */
    method CheckPoint(o: Oracles, checks: nat) returns (next: nat)
      modifies this`cancelFlag
      ensures next == checks + 1
      ensures cancelFlag == (old(cancelFlag) || o.cancel.Requested(checks))
    {
      if o.cancel.Requested(checks) {
        CancelExtraction();
      }
      next := checks + 1;
    }

    /** A per-file error: record it, and append it to the log file unless opening the log fails. */
    method RecordError(c: Context, t: Tally, path: Path, f: FileNode, reason: string) returns (t': Tally)
      ensures forall s: Stream, checks: nat, flag: bool {:trigger RunOf(s, t', checks, flag, None)} ::
        RunOf(s, t', checks, flag, None) == FileError(c, RunOf(s, t, checks, flag, None), path, f, reason)
    {
      var msg := ErrorMessage(c.req.sourcePath, path, f.name, reason);
      var log := t.log;
      if c.req.logPath.Some? && c.req.logPath.value != "" {
        if !c.o.logFault(|t.errors|) {
          log := log + ["[ERROR] " + msg + "\n"];
        }
      }
      t' := t.(errors := t.errors + [msg], log := log);
    }

    /** The body of the file loop for an accepted file. */
    method ProcessFile(c: Context, out: OutputFile, t: Tally, ghost checks: nat, path: Path, f: FileNode)
      returns (t': Tally, fault: Option<Fault>)
      requires out.faults == c.o.writeFault
      requires c.req.reportsProgress == hasProgressCallback
      modifies out
      ensures RunOf(out.Written(), t', checks, cancelFlag, fault) ==
              FileStep(c, RunOf(old(out.Written()), t, checks, cancelFlag, None), path, f)
    {
      var n := t.current + 1;
      fault := None;
      if hasProgressCallback && c.total == 0 {
        t' := t.(current := n);
        fault := Some(DivisionByZero);
        return;
      }
      var progress := t.progress;
      if hasProgressCallback {
        progress := progress + [Progress(n, c.total, "Procesando: " + f.name)];
      }
      var t1 := t.(current := n, progress := progress);
      var enc := DetectEncoding(c.o.chardet, f.data);
      var content := ReadText(c.o.decode, f.data, enc);
      if content.Failure? {
        t' := RecordError(c, t1, path, f, content.message);
        return;
      }
      var rel := RelFile(path, f.name);
      var err := out.WriteAll(Block(rel, content.value));
      if err.Some? {
        t' := RecordError(c, t1, path, f, err.value);
      } else {
        t' := t1.(processed := t1.processed + 1);
      }
    }
  
    /** The file loop of one folder: a check-point before each file, rejected files skipped. */
    method ProcessFolderFiles(c: Context, out: OutputFile, t: Tally, checks: nat, path: Path, fs: seq<FileNode>)
      returns (t': Tally, checks': nat, fault: Option<Fault>)
      requires out.faults == c.o.writeFault
      requires c.p == Policy() && c.req.reportsProgress == hasProgressCallback
      requires !cancelFlag
      modifies out, this`cancelFlag
      ensures RunOf(out.Written(), t', checks', cancelFlag, fault) ==
              RunFiles(c, RunOf(old(out.Written()), t, checks, false, None), path, fs)
    {
      t', checks', fault := t, checks, None;
      var i := 0;
      while i < |fs|
        invariant 0 <= i <= |fs| && fault.None? && !cancelFlag
        invariant RunFiles(c, RunOf(out.Written(), t', checks', false, None), path, fs[i..]) ==
                  RunFiles(c, RunOf(old(out.Written()), t, checks, false, None), path, fs)
      {
        assert fs[i..][0] == fs[i] && fs[i..][1..] == fs[i + 1..];
        checks' := CheckPoint(c.o, checks');
        if cancelFlag {
          return;
        }
        if FileAllowed(Policy(), fs[i]) {
          t', fault := ProcessFile(c, out, t', checks', path, fs[i]);
          if fault.Some? {
            return;
          }
        }
        i := i + 1;
      }
    }

    /** One folder the walk yields, after its check-point: its section header, then its empty marker or its files. */
    method VisitFolder(c: Context, out: OutputFile, t: Tally, checks: nat, v: Visit)
      returns (t': Tally, checks': nat, fault: Option<Fault>)
      requires out.faults == c.o.writeFault
      requires c.p == Policy() && c.req.reportsProgress == hasProgressCallback
      requires !cancelFlag
      modifies out, this`cancelFlag
      ensures RunOf(out.Written(), t', checks', cancelFlag, fault) ==
              VisitStep(c, RunOf(old(out.Written()), t, checks, false, None), v)
    {
      t', checks', fault := t, checks, None;
      WriteOne(c.o.writeFault, out.Written(), FolderHeader(v.path));
      var err := out.Write(FolderHeader(v.path));
      if err.Some? {
        fault := Some(WriteFailed(err.value));
        return;
      }
      if NoneAllowed(Policy(), v.dir.files) && v.kept == [] {
        WriteOne(c.o.writeFault, out.Written(), EmptyMarker);
        err := out.Write(EmptyMarker);
        if err.Some? {
          fault := Some(WriteFailed(err.value));
        }
        return;
      }
      t', checks', fault := ProcessFolderFiles(c, out, t, checks, v.path, v.dir.files);
    }

    /** The folder loop over `os.walk(source_path)`, pruning `dirs` in place before the walker descends. */
    method WalkFolders(c: Context, out: OutputFile, t: Tally, checks: nat)
      returns (t': Tally, checks': nat, fault: Option<Fault>)
      requires out.faults == c.o.writeFault
      requires c.p == Policy() && c.req.reportsProgress == hasProgressCallback
      requires !cancelFlag
      modifies out, this`cancelFlag
      ensures RunOf(out.Written(), t', checks', cancelFlag, fault) ==
              RunVisits(c, RunOf(old(out.Written()), t, checks, false, None), WalkSource(PrunedBy(c.p), c.req.source))
    {
      var pr := PrunedBy(Policy());
      t', checks', fault := t, checks, None;
      var stack := InitialStack(c.req.source);
      InitialStackWalk(pr, c.req.source);
      while stack != []
        invariant fault.None?
        invariant RunVisits(c, RunOf(out.Written(), t', checks', cancelFlag, None), WalkStack(pr, stack)) ==
                  RunVisits(c, RunOf(old(out.Written()), t, checks, false, None), WalkSource(pr, c.req.source))
        decreases |WalkStack(pr, stack)|
      {
        var f := stack[0];
        var kept := Kept(pr, f.dir.subdirs);
        PopFrame(pr, stack);
        var rest := Frames(f.path, kept) + stack[1..];
        assert ([Visit(f.path, f.dir, kept)] + WalkStack(pr, rest))[1..] == WalkStack(pr, rest);
        checks' := CheckPoint(c.o, checks');
        if cancelFlag {
          return;
        }
        t', checks', fault := VisitFolder(c, out, t', checks', Visit(f.path, f.dir, kept));
        if fault.Some? {
          return;
        }
        stack := rest;
      }
    }

    /** The closing summary; the flag is read once more for the cancellation note. */
    method WriteFooter(c: Context, out: OutputFile, t: Tally, checks: nat)
      returns (checks': nat, fault: Option<Fault>)
      requires out.faults == c.o.writeFault
      modifies out, this`cancelFlag
      ensures RunOf(out.Written(), t, checks', cancelFlag, fault) ==
              Footer(c, RunOf(old(out.Written()), t, checks, old(cancelFlag), None))
    {
      checks', fault := checks, None;
      var err := out.WriteAll(SummaryLines(t.processed, |t.errors|));
      if err.Some? {
        fault := Some(WriteFailed(err.value));
        return;
      }
      checks' := CheckPoint(c.o, checks');
      if cancelFlag {
        WriteOne(c.o.writeFault, out.Written(), CancelNote);
        err := out.Write(CancelNote);
        if err.Some? {
          fault := Some(WriteFailed(err.value));
          return;
        }
      }
      WriteOne(c.o.writeFault, out.Written(), Rule() + "\n");
      err := out.Write(Rule() + "\n");
      if err.Some? {
        fault := Some(WriteFailed(err.value));
      }
    }

    /** Everything written inside `with open(output_path, 'w')`: header, folders, summary. */
    method WriteDocument(c: Context, out: OutputFile) returns (t: Tally, checks: nat, fault: Option<Fault>)
      requires out.faults == c.o.writeFault && out.chunks == [] && out.attempts == 0
      requires c.p == Policy() && c.req.reportsProgress == hasProgressCallback
      requires !cancelFlag
      modifies out, this`cancelFlag
      ensures RunOf(out.Written(), t, checks, cancelFlag, fault) == Finish(c)
    {
      t := Tally(0, 0, [], [], []);
      checks := 0;
      fault := None;
      var err := out.WriteAll(Header(c.req.sourcePath, c.total));
      if err.Some? {
        fault := Some(WriteFailed(err.value));
      } else {
        t, checks, fault := WalkFolders(c, out, t, checks);
        if fault.None? {
          checks, fault := WriteFooter(c, out, t, checks);
        }
      }
    }

    /**
     * `extract_content(source_path, output_path, log_path)`: the whole call,
     * equal to `Extract` on the configuration, the request and the oracles;
     * the flag left behind is the one the call ends with.
     */
    method ExtractContent(sourcePath: string, src: Source, logPath: Option<string>, o: Oracles) returns (x: Extraction)
      modifies this`cancelFlag
      ensures x == Extract(Policy(), Request(sourcePath, src, logPath, hasProgressCallback), o, old(cancelFlag))
      ensures cancelFlag == x.cancelFlag
    {
      if src.Missing? {
        x := Extraction(NotFound("La carpeta de origen no existe: " + sourcePath), None, [], [], 0, cancelFlag);
        return;
      }
      cancelFlag := false;
      var total := CountFiles(src);
      if o.openError.Some? {
        x := Extraction(Critical(CriticalMessage(OpenFailed(o.openError.value))), None, [], [], 0, cancelFlag);
        return;
      }
      var c := Context(Policy(), Request(sourcePath, src, logPath, hasProgressCallback), o, total);
      x := WriteOutput(c);
    }

    /** Everything from `open(output_path, 'w')` on, once the file count is known. */
    method WriteOutput(c: Context) returns (x: Extraction)
      requires c.p == Policy() && c.req.reportsProgress == hasProgressCallback
      requires !cancelFlag
      modifies this`cancelFlag
      ensures x == Conclude(Finish(c))
      ensures cancelFlag == x.cancelFlag
    {
      var out := new OutputFile(c.o.writeFault);
      var t, checks, fault := WriteDocument(c, out);
      x := Conclude(RunOf(out.Written(), t, checks, cancelFlag, fault));
    }

    /** The body of the inner loop of `get_summary` for one file of the folder at `path`. */
    method SummarizeFile(s: Stats, path: Path, file: FileNode) returns (s': Stats)
      ensures s' == TallyFile(Policy(), s, path, file)
    {
      s' := s;
      match file.size {
        case None =>
        case Some(size) =>
          s' := s'.(totalSize := s'.totalSize + size);
          if size > s'.largestSize {
            s' := s'.(largestSize := size, largestFile := Some(RelFile(path, file.name)));
          }
          var ext := Text.Lower(Ext(file.name));
          s' := s'.(extensions := s'.extensions[ext := Get(s'.extensions, ext) + 1]);
          if FileAllowed(Policy(), file) {
            s' := s'.(allowedFiles := s'.allowedFiles + 1);
          } else {
            s' := s'.(excludedFiles := s'.excludedFiles + 1);
          }
      }
    }

    /** The inner loop of `get_summary` over the files of one folder. */
    method SummarizeFiles(s: Stats, path: Path, files: seq<FileNode>) returns (s': Stats)
      ensures s' == TallyFiles(Policy(), s, path, files)
    {
      s' := s;
      var i := 0;
      while i < |files|
        invariant 0 <= i <= |files|
        invariant TallyFiles(Policy(), s', path, files[i..]) == TallyFiles(Policy(), s, path, files)
      {
        assert files[i..][1..] == files[i + 1..];
        s' := SummarizeFile(s', path, files[i]);
        i := i + 1;
      }
    }

    /** One tuple `(root, dirs, files)` of the walk in `get_summary`. */
    method SummarizeFolder(s: Stats, path: Path, dir: DirNode, dirs: seq<DirNode>) returns (s': Stats)
      ensures s' == TallyVisit(Policy(), s, Visit(path, dir, dirs))
    {
      s' := s.(totalFolders := s.totalFolders + |dirs|, totalFiles := s.totalFiles + |dir.files|);
      s' := SummarizeFiles(s', path, dir.files);
    }

    /**
     * `get_summary`: a walk that prunes nothing and updates the summary
     * dictionary in place, per folder and then per file.
     */
    method GetSummary(src: Source) returns (summary: Option<Stats>)
      ensures summary == Summarize(Policy(), src)
    {
      if src.Missing? {
        return None;
      }
      var s := EmptyStats();
      var stack := InitialStack(src);
      InitialStackWalk(Unpruned, src);
      while stack != []
        invariant TallyVisits(Policy(), s, WalkStack(Unpruned, stack)) == TallyVisits(Policy(), EmptyStats(), WalkSource(Unpruned, src))
        decreases |WalkStack(Unpruned, stack)|
      {
        var f := stack[0];
        var dirs := f.dir.subdirs;
        KeptUnpruned(dirs);
        PopFrame(Unpruned, stack);
        TallyVisitsCons(Policy(), s, Visit(f.path, f.dir, dirs), WalkStack(Unpruned, Frames(f.path, dirs) + stack[1..]));
        s := SummarizeFolder(s, f.path, f.dir, dirs);
        stack := Frames(f.path, dirs) + stack[1..];
      }
      summary := Some(s);
    }
  }
}
