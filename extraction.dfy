/**
 * What one call of `extract_content` does, as a function of the policy, the
 * request, the tree and the oracles for everything the engine cannot see:
 * the encoding detector, the codecs, failures of the output and log files,
 * and the moments at which another thread asks for cancellation.
 *
 * The run is a sequence of steps over the pruned walk: a cancellation
 * check-point before each folder and before each file, a section per
 * visited folder, a framed block per accepted file, a per-file error when a
 * file cannot be read or its block cannot be written, and a critical failure
 * when a write outside a file block fails.
 */
module Extraction {
  import opened Wrappers
  import opened FileSystem
  import opened FilterPolicy
  import opened PathNames
  import opened Text
  import opened Encoding
  import opened Walk

  /** When another thread calls `cancel_extraction`: never, or just before check-point `k` (counted from 0). */
  datatype CancelPlan = NeverCancelled | CancelledFrom(checkpoint: nat)
  {
    predicate Requested(i: nat)
    {
      CancelledFrom? && checkpoint <= i
    }
  }

  /** Everything outside the engine, as data. */
  datatype Oracles = Oracles(
    chardet: seq<byte> -> Option<string>,        // chardet's guess on a byte prefix
    decode: (seq<byte>, string) -> Option<string>, // lossy decoding; None when the codec is unknown
    openError: Option<string>,                   // `open(output_path, 'w')` raises with this text
    writeFault: nat -> Option<string>,           // write number n to the output raises with this text
    logFault: nat -> bool,                       // append number n to the error log fails
    cancel: CancelPlan)

  /** The arguments of `extract_content`, and whether a progress callback is installed. */
  datatype Request = Request(sourcePath: string, source: Source, logPath: Option<string>, reportsProgress: bool)

  /** `if log_path:` — an empty path is falsy and disables logging. */
  predicate LogEnabled(req: Request)
  {
    req.logPath.Some? && req.logPath.value != ""
  }

  /** A progress callback call: `(current_file / total_files) * 100` and the label. */
  datatype Progress = Progress(index: nat, total: nat, status: string)

  /** The output file as written so far: the chunks written and the number of write calls made. */
  datatype Stream = Stream(chunks: seq<string>, attempts: nat)

  /** Why a run stops with a critical error. */
  datatype Fault = OpenFailed(message: string) | WriteFailed(message: string) | DivisionByZero

  /** The run's state: the output, the counters of `extract_content` and the cancellation flag. */
  datatype Run = Run(
    stream: Stream,
    current: nat,
    processed: nat,
    errors: seq<string>,
    log: seq<string>,
    progress: seq<Progress>,
    checks: nat,
    flag: bool,
    fault: Option<Fault>)

  /** The fixed inputs of one run: policy, request, oracles and the precomputed total. */
  datatype Context = Context(p: Policy, req: Request, o: Oracles, total: nat)

  /** How the call ends: it returns `(processed_files, errors)`, or it raises. */
  datatype Outcome = Completed(processed: nat, errors: seq<string>) | NotFound(message: string) | Critical(message: string)

  /**
   * Everything a call leaves behind: its outcome, the output file's chunks
   * (None when the file was never opened), the lines appended to the error
   * log, the progress calls, the final `current_file` and `cancel_flag`.
   */
  datatype Extraction = Extraction(
    outcome: Outcome,
    output: Option<seq<string>>,
    log: seq<string>,
    progress: seq<Progress>,
    attempted: nat,
    cancelFlag: bool)

  // ----- the document's fixed texts -----

  function Rule(): string { Repeat('=', 50) }

  function Header(source: string, total: nat): seq<string>
  {
    ["=== EXTRACCIÓN DE CÓDIGO ===\n",
     "Carpeta origen: " + source + "\n",
     "Total de archivos a procesar: " + NatToString(total) + "\n",
     Rule() + "\n\n"]
  }

  function FolderHeader(path: Path): string { "--- Carpeta: " + RelDir(path) + " ---\n" }

  const EmptyMarker: string := "(Carpeta vacía)\n\n"

  function StartMarker(rel: string): string { "--- Inicio del archivo: " + rel + " ---\n" }

  function EndMarker(rel: string): string { "--- Fin del archivo: " + rel + " ---\n\n" }

  /** The writes for one file: start marker, content, a newline if missing, end marker. */
  function Block(rel: string, text: string): seq<string>
  {
    [StartMarker(rel), text] + (if EndsWithNewline(text) then [] else ["\n"]) + [EndMarker(rel)]
  }

  function SummaryLines(processed: nat, errors: nat): seq<string>
  {
    ["\n" + Rule() + "\n",
     "=== RESUMEN DE EXTRACCIÓN ===\n",
     "Archivos procesados exitosamente: " + NatToString(processed) + "\n",
     "Errores encontrados: " + NatToString(errors) + "\n"]
  }

  const CancelNote: string := "NOTA: Extracción cancelada por el usuario\n"

  function ErrorMessage(source: string, path: Path, name: string, reason: string): string
  {
    "Error al procesar " + FullPath(source, path, name) + ": " + reason
  }

  function CriticalMessage(f: Fault): string
  {
    "Error crítico durante la extracción: " +
      match f
      case OpenFailed(m) => m
      case WriteFailed(m) => m
      case DivisionByZero => "division by zero"
  }

  // ----- the output stream -----

  /** One `output_file.write(s)`: the write call may raise; a failed write adds nothing. */
  function Write(faults: nat -> Option<string>, s: Stream, x: string): (Stream, Option<string>)
  {
    match faults(s.attempts)
    case Some(m) => (Stream(s.chunks, s.attempts + 1), Some(m))
    case None => (Stream(s.chunks + [x], s.attempts + 1), None)
  }

  /** Consecutive writes, stopping at the first one that raises. */
  function WriteAll(faults: nat -> Option<string>, s: Stream, xs: seq<string>): (Stream, Option<string>)
    decreases |xs|
  {
    if xs == [] then (s, None)
    else
      var (s1, err) := Write(faults, s, xs[0]);
      if err.Some? then (s1, err) else WriteAll(faults, s1, xs[1..])
  }

  /** Writes outside any file block: a failure is critical. */
  function Emit(c: Context, r: Run, xs: seq<string>): Run
  {
    var (s, err) := WriteAll(c.o.writeFault, r.stream, xs);
    r.(stream := s, fault := if err.Some? then Some(WriteFailed(err.value)) else None)
  }

  // ----- the steps of a run -----

  /** A cancellation check-point: the flag now also reflects a request made before it. */
  function Poll(c: Context, r: Run): Run
  {
    r.(checks := r.checks + 1, flag := r.flag || c.o.cancel.Requested(r.checks))
  }

  /** A per-file failure: record the message, and append it to the log unless that fails. */
  function FileError(c: Context, r: Run, path: Path, f: FileNode, reason: string): Run
  {
    var msg := ErrorMessage(c.req.sourcePath, path, f.name, reason);
    var logged := LogEnabled(c.req) && !c.o.logFault(|r.errors|);
    r.(errors := r.errors + [msg], log := if logged then r.log + ["[ERROR] " + msg + "\n"] else r.log)
  }

  /** The body of the file loop for an accepted file, from `current_file += 1` on. */
  function FileStep(c: Context, r: Run, path: Path, f: FileNode): Run
  {
    var n := r.current + 1;
    if c.req.reportsProgress && c.total == 0 then r.(current := n, fault := Some(DivisionByZero))
    else
      var r1 := r.(current := n,
                   progress := if c.req.reportsProgress
                               then r.progress + [Progress(n, c.total, "Procesando: " + f.name)]
                               else r.progress);
      var enc := DetectEncoding(c.o.chardet, f.data);
      match ReadText(c.o.decode, f.data, enc)
      case Failure(reason) => FileError(c, r1, path, f, reason)
      case Success(text) =>
        var (s, err) := WriteAll(c.o.writeFault, r1.stream, Block(RelFile(path, f.name), text));
        var r2 := r1.(stream := s);
        if err.Some? then FileError(c, r2, path, f, err.value) else r2.(processed := r2.processed + 1)
  }

  /** The file loop of one folder, from the file `fs[0]` on. */
  function RunFiles(c: Context, r: Run, path: Path, fs: seq<FileNode>): Run
    decreases |fs|
  {
    if fs == [] then r
    else
      var r1 := Poll(c, r);
      if r1.flag then r1
      else if !FileAllowed(c.p, fs[0]) then RunFiles(c, r1, path, fs[1..])
      else
        var r2 := FileStep(c, r1, path, fs[0]);
        if r2.fault.Some? then r2 else RunFiles(c, r2, path, fs[1..])
  }

  /** No file of the listing is accepted. */
  predicate NoneAllowed(p: Policy, fs: seq<FileNode>)
  {
    forall i :: 0 <= i < |fs| ==> !FileAllowed(p, fs[i])
  }

  /** One visited folder, after its check-point: its section header, then its empty marker or its files. */
  function VisitStep(c: Context, r: Run, v: Visit): Run
  {
    var r1 := Emit(c, r, [FolderHeader(v.path)]);
    if r1.fault.Some? then r1
    else if NoneAllowed(c.p, v.dir.files) && v.kept == [] then Emit(c, r1, [EmptyMarker])
    else RunFiles(c, r1, v.path, v.dir.files)
  }

  /** The folder loop over the remaining walk. */
  function RunVisits(c: Context, r: Run, vs: seq<Visit>): Run
    decreases |vs|
  {
    if vs == [] then r
    else
      var r1 := Poll(c, r);
      if r1.flag then r1
      else
        var r2 := VisitStep(c, r1, vs[0]);
        if r2.fault.Some? then r2 else RunVisits(c, r2, vs[1..])
  }

  /** The closing summary; the flag is read once more for the cancellation note. */
  function Footer(c: Context, r: Run): Run
  {
    var r1 := Emit(c, r, SummaryLines(r.processed, |r.errors|));
    if r1.fault.Some? then r1
    else
      var r2 := Poll(c, r1);
      var r3 := if r2.flag then Emit(c, r2, [CancelNote]) else r2;
      if r3.fault.Some? then r3 else Emit(c, r3, [Rule() + "\n"])
  }

  function InitialRun(): Run
  {
    Run(Stream([], 0), 0, 0, [], [], [], 0, false, None)
  }

  /** The context of a run over an existing source: `total_files` is what `count_files` returns. */
  function ContextOf(p: Policy, req: Request, o: Oracles): Context
  {
    Context(p, req, o, |Candidates(p, req.source)|)
  }

  /** The state once the header and the folder loop are done. */
  function Body(c: Context): Run
  {
    var r1 := Emit(c, InitialRun(), Header(c.req.sourcePath, c.total));
    if r1.fault.Some? then r1 else RunVisits(c, r1, WalkSource(PrunedBy(c.p), c.req.source))
  }

  /** The state once the summary is written, or at the first critical failure. */
  function Finish(c: Context): Run
  {
    var r1 := Body(c);
    if r1.fault.Some? then r1 else Footer(c, r1)
  }

  /** `extract_content(source_path, output_path, log_path)`; `flag0` is `cancel_flag` before the call. */
  function Extract(p: Policy, req: Request, o: Oracles, flag0: bool): Extraction
  {
    if req.source.Missing? then
      Extraction(NotFound("La carpeta de origen no existe: " + req.sourcePath), None, [], [], 0, flag0)
    else if o.openError.Some? then
      Extraction(Critical(CriticalMessage(OpenFailed(o.openError.value))), None, [], [], 0, false)
    else
      Conclude(Finish(ContextOf(p, req, o)))
  }

  /** What the call reports once the output file was opened and the run has ended. */
  function Conclude(r: Run): Extraction
  {
    Extraction(
      if r.fault.Some? then Critical(CriticalMessage(r.fault.value)) else Completed(r.processed, r.errors),
      Some(r.stream.chunks), r.log, r.progress, r.current, r.flag)
  }
}
