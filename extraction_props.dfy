/**
 * Properties of `extract_content`: the file framing round-trips, the
 * counters stay in balance and the progress index never passes the total,
 * an undisturbed run writes the whole document, an empty folder gets its
 * marker without a file being opened, and the summary carries the
 * cancellation note exactly when the flag is set.
 */
module ExtractionProperties {
  import opened Wrappers
  import opened FileSystem
  import opened FilterPolicy
  import opened PathNames
  import opened Text
  import opened Encoding
  import opened Walk
  import opened Extraction

  // ----- framing -----

  /** Recovers a file's content from the writes of its block, or None if they are not a block for `rel`. */
  function Unframe(rel: string, cs: seq<string>): Option<string>
  {
    if |cs| == 3 && cs[0] == StartMarker(rel) && EndsWithNewline(cs[1]) && cs[2] == EndMarker(rel) then Some(cs[1])
    else if |cs| == 4 && cs[0] == StartMarker(rel) && !EndsWithNewline(cs[1]) && cs[2] == "\n" && cs[3] == EndMarker(rel)
    then Some(cs[1])
    else None
  }

  /** Stripping the markers and the added newline from a block gives back the content. */
  lemma BlockRoundTrip(rel: string, text: string)
    ensures Unframe(rel, Block(rel, text)) == Some(text)
    ensures |Block(rel, text)| == if EndsWithNewline(text) then 3 else 4
  {
  }

  /** The text between the markers of a block: the content, newline-terminated. */
  function Framed(text: string): string
  {
    if EndsWithNewline(text) then text else text + "\n"
  }

  function Concat(cs: seq<string>): string
  {
    if cs == [] then "" else cs[0] + Concat(cs[1..])
  }

  /**
   * In the concatenated document a block reads start marker, framed content,
   * end marker; the framed content always ends with a newline and is the
   * content, or the content plus one newline.
   */
  lemma BlockText(rel: string, text: string)
    ensures Concat(Block(rel, text)) == StartMarker(rel) + Framed(text) + EndMarker(rel)
    ensures EndsWithNewline(Framed(text))
    ensures Framed(text) == text || Framed(text) == text + "\n"
  {
    var b := Block(rel, text);
    if EndsWithNewline(text) {
      assert b == [StartMarker(rel), text, EndMarker(rel)];
      assert Concat(b[2..]) == EndMarker(rel) + Concat([]);
      assert Concat(b[1..]) == text + Concat(b[2..]);
    } else {
      assert b == [StartMarker(rel), text, "\n", EndMarker(rel)];
      assert Concat(b[3..]) == EndMarker(rel) + Concat([]);
      assert Concat(b[2..]) == "\n" + Concat(b[3..]);
      assert Concat(b[1..]) == text + Concat(b[2..]);
    }
  }

  /**
   * Once the writes are concatenated, a content without a final newline and
   * the same content with one give the same text: the document alone does
   * not tell whether the newline was added.
   */
  lemma FramingForgetsAddedNewline(rel: string, text: string)
    requires !EndsWithNewline(text)
    ensures Concat(Block(rel, text)) == Concat(Block(rel, text + "\n"))
    ensures text != text + "\n"
  {
    BlockText(rel, text);
    BlockText(rel, text + "\n");
    assert EndsWithNewline(text + "\n");
  }

  // ----- writes -----

  /** A sequence of writes adds a prefix of what it writes; all of it when nothing raises. */
  lemma {:induction false} WriteAllEffect(faults: nat -> Option<string>, s: Stream, xs: seq<string>)
    ensures var (s', err) := WriteAll(faults, s, xs);
      && s.chunks <= s'.chunks
      && s'.attempts >= s.attempts
      && (err.None? ==> s'.chunks == s.chunks + xs && s'.attempts == s.attempts + |xs|)
      && (err.Some? ==> |s'.chunks| < |s.chunks| + |xs| && s'.chunks == s.chunks + xs[..|s'.chunks| - |s.chunks|])
      && ((forall i :: s.attempts <= i < s.attempts + |xs| ==> faults(i).None?) ==> err.None?)
    decreases |xs|
  {
    if xs != [] {
      var (s1, err1) := Write(faults, s, xs[0]);
      if err1.None? {
        WriteAllEffect(faults, s1, xs[1..]);
        var (s', err) := WriteAll(faults, s1, xs[1..]);
        assert s1.chunks == s.chunks + [xs[0]];
        assert xs == [xs[0]] + xs[1..];
        if err.Some? {
          var k := |s'.chunks| - |s1.chunks|;
          assert xs[..k + 1] == [xs[0]] + xs[1..][..k];
        }
      } else {
        assert xs[..0] == [];
      }
    }
  }

  // ----- counters and progress -----

  /**
   * The invariant of the counters: every attempted file was either processed
   * or recorded as an error, and the progress calls number the attempted
   * files 1, 2, 3, ... against the same total.
   */
  predicate Balanced(c: Context, r: Run)
  {
    && r.processed + |r.errors| == r.current
    && r.fault != Some(DivisionByZero)
    && (c.req.reportsProgress ==>
          |r.progress| == r.current &&
          forall i :: 0 <= i < |r.progress| ==> r.progress[i].index == i + 1 && r.progress[i].total == c.total)
    && (!c.req.reportsProgress ==> r.progress == [])
  }

  lemma EmitKeepsCounters(c: Context, r: Run, xs: seq<string>)
    ensures var r' := Emit(c, r, xs);
      r'.current == r.current && r'.processed == r.processed && r'.errors == r.errors &&
      r'.progress == r.progress && r'.log == r.log && r'.checks == r.checks && r'.flag == r.flag &&
      r'.fault != Some(DivisionByZero)
  {
  }

  /** One accepted file keeps the counters in balance and is counted as attempted. */
  lemma FileStepBalanced(c: Context, r: Run, path: Path, f: FileNode)
    requires Balanced(c, r) && r.fault.None?
    requires r.current < c.total
    ensures var r' := FileStep(c, r, path, f);
      Balanced(c, r') && r'.fault.None? && r'.current == r.current + 1 && r'.flag == r.flag && r'.checks == r.checks
  {
    var n := r.current + 1;
    var r1 := r.(current := n,
                 progress := if c.req.reportsProgress
                             then r.progress + [Progress(n, c.total, "Procesando: " + f.name)]
                             else r.progress);
    if c.req.reportsProgress {
      forall i | 0 <= i < |r1.progress|
        ensures r1.progress[i].index == i + 1 && r1.progress[i].total == c.total
      {
        if i < |r.progress| {
          assert r1.progress[i] == r.progress[i];
        }
      }
    }
    assert r1.processed + |r1.errors| + 1 == r1.current;
    match Content(c, f)
    case Failure(reason) =>
      FileErrorCounts(c, r1, path, f, reason);
    case Success(text) =>
      var (s, err) := WriteAll(c.o.writeFault, r1.stream, Block(RelFile(path, f.name), text));
      if err.Some? {
        FileErrorCounts(c, r1.(stream := s), path, f, err.value);
      }
  }

  /** A per-file failure adds one error and changes nothing but the errors and the log. */
  lemma FileErrorCounts(c: Context, r: Run, path: Path, f: FileNode, reason: string)
    ensures var r' := FileError(c, r, path, f, reason);
      && |r'.errors| == |r.errors| + 1
      && r'.errors[..|r.errors|] == r.errors
      && r' == r.(errors := r'.errors, log := r'.log)
  {
  }

  /**
   * What one accepted file leaves in the output: its whole block, and then it
   * counts as processed; or, when it cannot be read, nothing and an error
   * naming the decoder's reason; or, when a write of its block fails, a part
   * of the block and an error naming the write's failure.
   */
  lemma FileStepOutcome(c: Context, r: Run, path: Path, f: FileNode)
    requires !(c.req.reportsProgress && c.total == 0)
    ensures var r' := FileStep(c, r, path, f);
      var rt := ReadText(c.o.decode, f.data, DetectEncoding(c.o.chardet, f.data));
      var rel := RelFile(path, f.name);
      && (rt.Failure? ==>
            r'.stream == r.stream && r'.processed == r.processed &&
            r'.errors == r.errors + [ErrorMessage(c.req.sourcePath, path, f.name, rt.message)])
      && (rt.Success? ==>
            && r.stream.chunks <= r'.stream.chunks
            && (r'.processed == r.processed + 1 <==> r'.stream.chunks == r.stream.chunks + Block(rel, rt.value))
            && (r'.processed == r.processed + 1 ==> r'.errors == r.errors)
            && (r'.processed == r.processed ==>
                  |r'.errors| == |r.errors| + 1 && r'.errors[..|r.errors|] == r.errors &&
                  |r'.stream.chunks| < |r.stream.chunks| + |Block(rel, rt.value)|))
      && (r'.processed == r.processed + 1 || r'.processed == r.processed)
  {
    var rt := ReadText(c.o.decode, f.data, DetectEncoding(c.o.chardet, f.data));
    if rt.Success? {
      var rel := RelFile(path, f.name);
      var n := r.current + 1;
      var r1 := r.(current := n,
                   progress := if c.req.reportsProgress
                               then r.progress + [Progress(n, c.total, "Procesando: " + f.name)]
                               else r.progress);
      var b := Block(rel, rt.value);
      WriteAllEffect(c.o.writeFault, r1.stream, b);
      var (s, err) := WriteAll(c.o.writeFault, r1.stream, b);
      var r' := FileStep(c, r, path, f);
      if err.Some? {
        assert r'.stream == s;
        assert r'.processed == r.processed;
        assert |s.chunks| < |r.stream.chunks + b|;
        assert (r.errors + [r'.errors[|r.errors|]])[..|r.errors|] == r.errors;
      } else {
        assert r'.stream == s;
      }
    }
  }

  lemma {:induction false} RunFilesBalanced(c: Context, r: Run, path: Path, fs: seq<FileNode>)
    requires Balanced(c, r) && r.fault.None?
    requires r.current + CountAllowed(c.p, fs) <= c.total
    ensures var r' := RunFiles(c, r, path, fs);
      Balanced(c, r') && r'.fault.None? && r.current <= r'.current <= r.current + CountAllowed(c.p, fs)
    decreases |fs|
  {
    if fs != [] {
      var r1 := Poll(c, r);
      if !r1.flag {
        if !FileAllowed(c.p, fs[0]) {
          RunFilesBalanced(c, r1, path, fs[1..]);
        } else {
          FileStepBalanced(c, r1, path, fs[0]);
          RunFilesBalanced(c, FileStep(c, r1, path, fs[0]), path, fs[1..]);
        }
      }
    }
  }

  lemma VisitStepBalanced(c: Context, r: Run, v: Visit)
    requires Balanced(c, r) && r.fault.None?
    requires r.current + CountAllowed(c.p, v.dir.files) <= c.total
    ensures var r' := VisitStep(c, r, v);
      Balanced(c, r') && r.current <= r'.current <= r.current + CountAllowed(c.p, v.dir.files)
  {
    var r1 := Emit(c, r, [FolderHeader(v.path)]);
    EmitKeepsCounters(c, r, [FolderHeader(v.path)]);
    if r1.fault.None? {
      if NoneAllowed(c.p, v.dir.files) && v.kept == [] {
        EmitKeepsCounters(c, r1, [EmptyMarker]);
      } else {
        RunFilesBalanced(c, r1, v.path, v.dir.files);
      }
    }
  }

  lemma {:induction false} RunVisitsBalanced(c: Context, r: Run, vs: seq<Visit>)
    requires Balanced(c, r) && r.fault.None?
    requires r.current + Remaining(c.p, vs) <= c.total
    ensures var r' := RunVisits(c, r, vs);
      Balanced(c, r') && r.current <= r'.current <= r.current + Remaining(c.p, vs)
    decreases |vs|
  {
    if vs != [] {
      var r1 := Poll(c, r);
      if !r1.flag {
        RemainingSplit(c.p, vs);
        VisitStepBalanced(c, r1, vs[0]);
        var r2 := VisitStep(c, r1, vs[0]);
        if r2.fault.None? {
          RunVisitsBalanced(c, r2, vs[1..]);
        }
      }
    }
  }

  /**
   * Over any run, whatever the cancellations, codecs and failing writes: the
   * progress callback is never divided by a zero total, its calls number the
   * attempted files 1, 2, 3, ... out of the count of candidates (so the
   * percentage never exceeds 100), and a completed run's processed files and
   * errors add up to the files it attempted.
   */
  lemma ExtractBalanced(p: Policy, req: Request, o: Oracles, flag0: bool)
    requires !req.source.Missing? && o.openError.None?
    ensures var x := Extract(p, req, o, flag0);
      var total := |Candidates(p, req.source)|;
      && x.output.Some?
      && Finish(ContextOf(p, req, o)).fault != Some(DivisionByZero)
      && x.attempted <= total
      && (req.reportsProgress ==>
            |x.progress| == x.attempted &&
            forall i :: 0 <= i < |x.progress| ==> x.progress[i].index == i + 1 && x.progress[i].total == total)
      && (!req.reportsProgress ==> x.progress == [])
      && (x.outcome.Completed? ==> x.outcome.processed + |x.outcome.errors| == x.attempted)
  {
    var c := ContextOf(p, req, o);
    var r0 := InitialRun();
    EmitKeepsCounters(c, r0, Header(req.sourcePath, c.total));
    var r1 := Emit(c, r0, Header(req.sourcePath, c.total));
    if r1.fault.None? {
      RunVisitsBalanced(c, r1, WalkSource(PrunedBy(p), req.source));
      var b := Body(c);
      if b.fault.None? {
        FooterKeepsCounters(c, b);
      }
    }
  }

  lemma FooterKeepsCounters(c: Context, r: Run)
    requires r.fault.None?
    ensures var r' := Footer(c, r);
      r'.current == r.current && r'.processed == r.processed && r'.errors == r.errors &&
      r'.progress == r.progress && r'.log == r.log && r'.fault != Some(DivisionByZero)
  {
  }

  // ----- an undisturbed run -----

  /** Nobody cancels, the output file opens and no write to it fails. */
  ghost predicate Undisturbed(o: Oracles)
  {
    o.cancel == NeverCancelled && o.openError.None? && forall n :: o.writeFault(n).None?
  }

  /** The text read from a file, when it can be read. */
  function Content(c: Context, f: FileNode): Result<string>
  {
    ReadText(c.o.decode, f.data, DetectEncoding(c.o.chardet, f.data))
  }

  /** What an accepted, readable file contributes to the output: its block. */
  function Piece(c: Context, path: Path, f: FileNode): seq<string>
  {
    if FileAllowed(c.p, f) && Content(c, f).Success? then Block(RelFile(path, f.name), Content(c, f).value) else []
  }

  /** What an accepted, unreadable file contributes to the errors: its message. */
  function Failed(c: Context, path: Path, f: FileNode): seq<string>
  {
    if FileAllowed(c.p, f) && Content(c, f).Failure? then [ErrorMessage(c.req.sourcePath, path, f.name, Content(c, f).message)] else []
  }

  /** The blocks of a folder's listing: one per accepted, readable file, in listing order. */
  function RenderFiles(c: Context, path: Path, fs: seq<FileNode>): seq<string>
    decreases |fs|
  {
    if fs == [] then [] else Piece(c, path, fs[0]) + RenderFiles(c, path, fs[1..])
  }

  /** The error messages of a folder's listing: one per accepted file that cannot be read. */
  function Unreadable(c: Context, path: Path, fs: seq<FileNode>): seq<string>
    decreases |fs|
  {
    if fs == [] then [] else Failed(c, path, fs[0]) + Unreadable(c, path, fs[1..])
  }

  /** A folder's section: its header, then its empty marker or its blocks. */
  function RenderVisit(c: Context, v: Visit): seq<string>
  {
    [FolderHeader(v.path)] + SectionBody(c, v)
  }

  function SectionBody(c: Context, v: Visit): seq<string>
  {
    if NoneAllowed(c.p, v.dir.files) && v.kept == [] then [EmptyMarker] else RenderFiles(c, v.path, v.dir.files)
  }

  function Render(c: Context, vs: seq<Visit>): seq<string>
    decreases |vs|
  {
    if vs == [] then [] else RenderVisit(c, vs[0]) + Render(c, vs[1..])
  }

  function UnreadableAll(c: Context, vs: seq<Visit>): seq<string>
    decreases |vs|
  {
    if vs == [] then [] else Unreadable(c, vs[0].path, vs[0].dir.files) + UnreadableAll(c, vs[1..])
  }

  lemma WriteAllUndisturbed(o: Oracles, s: Stream, xs: seq<string>)
    requires Undisturbed(o)
    ensures WriteAll(o.writeFault, s, xs) == (Stream(s.chunks + xs, s.attempts + |xs|), None)
  {
    WriteAllEffect(o.writeFault, s, xs);
  }

  lemma EmitUndisturbed(c: Context, r: Run, xs: seq<string>)
    requires Undisturbed(c.o) && r.fault.None?
    ensures Emit(c, r, xs) == r.(stream := Stream(r.stream.chunks + xs, r.stream.attempts + |xs|))
  {
    WriteAllUndisturbed(c.o, r.stream, xs);
  }

  lemma FileStepUndisturbed(c: Context, r: Run, path: Path, f: FileNode)
    requires Undisturbed(c.o) && r.fault.None? && c.total > 0 && FileAllowed(c.p, f)
    ensures var r' := FileStep(c, r, path, f);
      && r'.fault.None? && r'.flag == r.flag && r'.checks == r.checks
      && r'.current == r.current + 1
      && r'.stream.chunks == r.stream.chunks + Piece(c, path, f)
      && r'.errors == r.errors + Failed(c, path, f)
  {
    if Content(c, f).Success? {
      var n := r.current + 1;
      var r1 := r.(current := n,
                   progress := if c.req.reportsProgress
                               then r.progress + [Progress(n, c.total, "Procesando: " + f.name)]
                               else r.progress);
      WriteAllUndisturbed(c.o, r1.stream, Block(RelFile(path, f.name), Content(c, f).value));
    }
  }

  /** What an undisturbed file loop over `fs` adds to the run `r` to reach `r'`. */
  predicate FilesRendered(c: Context, r: Run, path: Path, fs: seq<FileNode>, r': Run)
  {
    && r'.fault.None? && !r'.flag
    && r'.current == r.current + CountAllowed(c.p, fs)
    && r'.stream.chunks == r.stream.chunks + RenderFiles(c, path, fs)
    && r'.errors == r.errors + Unreadable(c, path, fs)
  }

  lemma {:induction false} RunFilesUndisturbed(c: Context, r: Run, path: Path, fs: seq<FileNode>)
    requires Undisturbed(c.o) && !r.flag && r.fault.None?
    requires r.current + CountAllowed(c.p, fs) <= c.total
    ensures FilesRendered(c, r, path, fs, RunFiles(c, r, path, fs))
    decreases |fs|
  {
    if fs != [] {
      var r1 := Poll(c, r);
      assert !r1.flag;
      if !FileAllowed(c.p, fs[0]) {
        RunFilesUndisturbed(c, r1, path, fs[1..]);
        ConsRendered(c, r, r1, path, fs, RunFiles(c, r1, path, fs[1..]));
      } else {
        FileStepUndisturbed(c, r1, path, fs[0]);
        var r2 := FileStep(c, r1, path, fs[0]);
        RunFilesUndisturbed(c, r2, path, fs[1..]);
        ConsRendered(c, r, r2, path, fs, RunFiles(c, r2, path, fs[1..]));
      }
    }
  }

  /** Regrouping `a + x + rest` as `a + (x + rest)`, stated over any element type. */
  lemma AppendCons<T>(a: seq<T>, x: seq<T>, rest: seq<T>, mid: seq<T>, last: seq<T>)
    requires mid == a + x && last == mid + rest
    ensures last == a + (x + rest)
  {
  }

  lemma ConsRendered(c: Context, r: Run, r2: Run, path: Path, fs: seq<FileNode>, r': Run)
    requires fs != []
    requires r2.current == r.current + (if FileAllowed(c.p, fs[0]) then 1 else 0)
    requires r2.stream.chunks == r.stream.chunks + Piece(c, path, fs[0])
    requires r2.errors == r.errors + Failed(c, path, fs[0])
    requires FilesRendered(c, r2, path, fs[1..], r')
    ensures FilesRendered(c, r, path, fs, r')
  {
    AppendCons(r.stream.chunks, Piece(c, path, fs[0]), RenderFiles(c, path, fs[1..]), r2.stream.chunks, r'.stream.chunks);
    AppendCons(r.errors, Failed(c, path, fs[0]), Unreadable(c, path, fs[1..]), r2.errors, r'.errors);
  }

  lemma VisitStepUndisturbed(c: Context, r: Run, v: Visit)
    requires Undisturbed(c.o) && !r.flag && r.fault.None?
    requires r.current + CountAllowed(c.p, v.dir.files) <= c.total
    ensures var r' := VisitStep(c, r, v);
      && r'.fault.None? && !r'.flag
      && r'.current == r.current + CountAllowed(c.p, v.dir.files)
      && r'.stream.chunks == r.stream.chunks + RenderVisit(c, v)
      && r'.errors == r.errors + Unreadable(c, v.path, v.dir.files)
  {
    EmitUndisturbed(c, r, [FolderHeader(v.path)]);
    var r1 := Emit(c, r, [FolderHeader(v.path)]);
    var r' := VisitStep(c, r, v);
    if NoneAllowed(c.p, v.dir.files) && v.kept == [] {
      EmitUndisturbed(c, r1, [EmptyMarker]);
      NoneAllowedNothingRendered(c, v.path, v.dir.files);
      assert r'.errors == r.errors + [];
    } else {
      RunFilesUndisturbed(c, r1, v.path, v.dir.files);
    }
    AppendCons(r.stream.chunks, [FolderHeader(v.path)], SectionBody(c, v), r1.stream.chunks, r'.stream.chunks);
  }

  lemma {:induction false} NoneAllowedNothingRendered(c: Context, path: Path, fs: seq<FileNode>)
    requires NoneAllowed(c.p, fs)
    ensures CountAllowed(c.p, fs) == 0 && Unreadable(c, path, fs) == []
    decreases |fs|
  {
    if fs != [] {
      assert !FileAllowed(c.p, fs[0]);
      NoneAllowedNothingRendered(c, path, fs[1..]);
    }
  }

  /** What an undisturbed folder loop over `vs` adds to the run `r` to reach `r'`. */
  predicate VisitsRendered(c: Context, r: Run, vs: seq<Visit>, r': Run)
  {
    && r'.fault.None? && !r'.flag
    && r'.current == r.current + Remaining(c.p, vs)
    && r'.stream.chunks == r.stream.chunks + Render(c, vs)
    && r'.errors == r.errors + UnreadableAll(c, vs)
  }

  lemma {:induction false} RunVisitsUndisturbed(c: Context, r: Run, vs: seq<Visit>)
    requires Undisturbed(c.o) && !r.flag && r.fault.None?
    requires r.current + Remaining(c.p, vs) <= c.total
    ensures VisitsRendered(c, r, vs, RunVisits(c, r, vs))
    decreases |vs|
  {
    if vs != [] {
      var r1 := Poll(c, r);
      assert !r1.flag;
      RemainingSplit(c.p, vs);
      VisitStepUndisturbed(c, r1, vs[0]);
      var r2 := VisitStep(c, r1, vs[0]);
      RunVisitsUndisturbed(c, r2, vs[1..]);
      ConsVisits(c, r, r2, vs, RunVisits(c, r2, vs[1..]));
    }
  }

  lemma ConsVisits(c: Context, r: Run, r2: Run, vs: seq<Visit>, r': Run)
    requires vs != []
    requires r2.current == r.current + CountAllowed(c.p, vs[0].dir.files)
    requires Remaining(c.p, vs) == CountAllowed(c.p, vs[0].dir.files) + Remaining(c.p, vs[1..])
    requires r2.stream.chunks == r.stream.chunks + RenderVisit(c, vs[0])
    requires r2.errors == r.errors + Unreadable(c, vs[0].path, vs[0].dir.files)
    requires VisitsRendered(c, r2, vs[1..], r')
    ensures VisitsRendered(c, r, vs, r')
  {
    AppendCons(r.stream.chunks, RenderVisit(c, vs[0]), Render(c, vs[1..]), r2.stream.chunks, r'.stream.chunks);
    AppendCons(r.errors, Unreadable(c, vs[0].path, vs[0].dir.files), UnreadableAll(c, vs[1..]), r2.errors, r'.errors);
  }

  /**
   * When nobody cancels and no write fails, the call completes: it opens
   * every candidate, and the output is the header, a section per visited
   * folder of the pruned walk with a block per readable accepted file, the
   * summary and the closing rule, with no cancellation note; the errors are
   * exactly the unreadable accepted files.
   */
  lemma UndisturbedExtraction(p: Policy, req: Request, o: Oracles, flag0: bool)
    requires Undisturbed(o) && !req.source.Missing?
    ensures var x := Extract(p, req, o, flag0);
      var c := ContextOf(p, req, o);
      var vs := WalkSource(PrunedBy(p), req.source);
      && x.outcome.Completed?
      && x.outcome.errors == UnreadableAll(c, vs)
      && x.outcome.processed + |x.outcome.errors| == |Candidates(p, req.source)|
      && x.attempted == |Candidates(p, req.source)|
      && !x.cancelFlag
      && x.output == Some(Header(req.sourcePath, c.total) + Render(c, vs) +
                          SummaryLines(x.outcome.processed, |x.outcome.errors|) + [Rule() + "\n"])
  {
    var c := ContextOf(p, req, o);
    BodyUndisturbed(c);
    ExtractBalanced(p, req, o, flag0);
    FooterUndisturbed(c, Body(c));
  }

  lemma BodyUndisturbed(c: Context)
    requires Undisturbed(c.o) && c.total == |Candidates(c.p, c.req.source)|
    ensures var b := Body(c);
      var vs := WalkSource(PrunedBy(c.p), c.req.source);
      && b.fault.None? && !b.flag
      && b.current == c.total
      && b.stream.chunks == Header(c.req.sourcePath, c.total) + Render(c, vs)
      && b.errors == UnreadableAll(c, vs)
  {
    var vs := WalkSource(PrunedBy(c.p), c.req.source);
    var h := Header(c.req.sourcePath, c.total);
    EmitUndisturbed(c, InitialRun(), h);
    var r1 := Emit(c, InitialRun(), h);
    assert r1.stream.chunks == h;
    RunVisitsUndisturbed(c, r1, vs);
  }

  lemma FooterUndisturbed(c: Context, b: Run)
    requires Undisturbed(c.o) && !b.flag && b.fault.None?
    ensures var f := Footer(c, b);
      && f.fault.None? && !f.flag
      && f.current == b.current && f.processed == b.processed && f.errors == b.errors
      && f.stream.chunks == b.stream.chunks + SummaryLines(b.processed, |b.errors|) + [Rule() + "\n"]
  {
    var sl := SummaryLines(b.processed, |b.errors|);
    EmitUndisturbed(c, b, sl);
    var f1 := Emit(c, b, sl);
    var f2 := Poll(c, f1);
    assert !f2.flag;
    EmitUndisturbed(c, f2, [Rule() + "\n"]);
  }

  // ----- the summary -----

  /**
   * A completed call's output ends with the summary lines, then the
   * cancellation note exactly when the flag was set at the last check-point,
   * then the closing rule.
   */
  lemma CancelNoteIffFlag(p: Policy, req: Request, o: Oracles, flag0: bool)
    requires Extract(p, req, o, flag0).outcome.Completed?
    ensures var x := Extract(p, req, o, flag0);
      && x.output.Some? && |x.output.value| >= (if x.cancelFlag then 6 else 5)
      && x.output.value[|x.output.value| - 1] == Rule() + "\n"
      && (x.output.value[|x.output.value| - 2] == CancelNote <==> x.cancelFlag)
      && x.output.value[|x.output.value| - (if x.cancelFlag then 6 else 5)..] ==
         SummaryLines(x.outcome.processed, |x.outcome.errors|) + Note(x.cancelFlag) + [Rule() + "\n"]
  {
    var c := ContextOf(p, req, o);
    var b := Body(c);
    assert b.fault.None?;
    FooterNote(c, b);
  }

  lemma FooterNote(c: Context, b: Run)
    requires b.fault.None? && Footer(c, b).fault.None?
    ensures var out := Footer(c, b).stream.chunks;
      var flag := Footer(c, b).flag;
      && |out| >= (if flag then 6 else 5)
      && out[|out| - 1] == Rule() + "\n"
      && (out[|out| - 2] == CancelNote <==> flag)
      && out[|out| - (if flag then 6 else 5)..] == SummaryLines(b.processed, |b.errors|) + Note(flag) + [Rule() + "\n"]
  {
    FooterShape(c, b);
    var sl := SummaryLines(b.processed, |b.errors|);
    assert sl[3][0] == 'E';
    NoteTail(b.stream.chunks, sl, Footer(c, b).flag, Rule() + "\n");
  }

  /** Where the note sits in `prefix + summary + note + rule`, for a summary whose last line is not the note. */
  lemma NoteTail(prefix: seq<string>, sl: seq<string>, flag: bool, rule: string)
    requires |sl| == 4 && |sl[3]| > 0 && sl[3][0] == 'E'
    ensures var out := prefix + (sl + Note(flag) + [rule]);
      && |out| >= (if flag then 6 else 5)
      && out[|out| - 1] == rule
      && (out[|out| - 2] == CancelNote <==> flag)
      && out[|out| - (if flag then 6 else 5)..] == sl + Note(flag) + [rule]
  {
    var t := sl + Note(flag) + [rule];
    Suffix(prefix, t);
    var out := prefix + t;
    assert out[|out| - 2] == t[|t| - 2];
    if !flag {
      assert t[|t| - 2] == sl[3];
      assert CancelNote[0] == 'N';
    }
  }

  /** The note written before the closing rule when the flag is set. */
  function Note(flag: bool): seq<string>
  {
    if flag then [CancelNote] else []
  }

  /** A footer that completes writes the summary, the note if the flag is set, and the rule. */
  lemma FooterShape(c: Context, b: Run)
    requires b.fault.None? && Footer(c, b).fault.None?
    ensures var f := Footer(c, b);
      f.processed == b.processed && f.errors == b.errors &&
      f.stream.chunks == b.stream.chunks + (SummaryLines(b.processed, |b.errors|) + Note(f.flag) + [Rule() + "\n"])
  {
    var sl := SummaryLines(b.processed, |b.errors|);
    WriteAllEffect(c.o.writeFault, b.stream, sl);
    var f1 := Emit(c, b, sl);
    assert f1.fault.None?;
    assert WriteAll(c.o.writeFault, b.stream, sl).1.None?;
    assert f1.stream == WriteAll(c.o.writeFault, b.stream, sl).0;
    assert f1.stream.chunks == b.stream.chunks + sl;
    var f2 := Poll(c, f1);
    var f3 := if f2.flag then Emit(c, f2, [CancelNote]) else f2;
    assert f3.fault.None?;
    WriteAllEffect(c.o.writeFault, f2.stream, [CancelNote]);
    WriteAllEffect(c.o.writeFault, f3.stream, [Rule() + "\n"]);
    var f := Footer(c, b);
    assert f3.stream.chunks == f1.stream.chunks + Note(f2.flag);
    assert f.stream.chunks == f3.stream.chunks + [Rule() + "\n"];
    Regroup3(b.stream.chunks, sl, Note(f2.flag), [Rule() + "\n"], f1.stream.chunks, f3.stream.chunks, f.stream.chunks);
  }

  lemma Regroup3<T>(a: seq<T>, x: seq<T>, y: seq<T>, z: seq<T>, m1: seq<T>, m2: seq<T>, last: seq<T>)
    requires m1 == a + x && m2 == m1 + y && last == m2 + z
    ensures last == a + (x + y + z)
  {
  }

  lemma Suffix<T>(a: seq<T>, t: seq<T>)
    ensures |a + t| >= |t|
    ensures (a + t)[|a + t| - |t|..] == t
    ensures forall k :: 0 <= k < |t| ==> (a + t)[|a| + k] == t[k]
  {
  }

  // ----- an empty folder -----

  /**
   * A folder with no accepted file and no visited subfolder gets its header
   * and the empty marker, passes no check-point and opens no file.
   */
  lemma EmptyFolderMarked(c: Context, r: Run, v: Visit)
    requires NoneAllowed(c.p, v.dir.files) && v.kept == []
    requires r.fault.None?
    requires c.o.writeFault(r.stream.attempts).None? && c.o.writeFault(r.stream.attempts + 1).None?
    ensures var r' := VisitStep(c, r, v);
      && r'.fault.None?
      && r'.stream.chunks == r.stream.chunks + [FolderHeader(v.path), EmptyMarker]
      && r'.current == r.current && r'.processed == r.processed && r'.errors == r.errors
      && r'.progress == r.progress && r'.checks == r.checks && r'.flag == r.flag
  {
    WriteAllEffect(c.o.writeFault, r.stream, [FolderHeader(v.path)]);
    var r1 := Emit(c, r, [FolderHeader(v.path)]);
    WriteAllEffect(c.o.writeFault, r1.stream, [EmptyMarker]);
  }

  // ----- cancellation truncates the run -----

  /** The same run with nobody ever calling `cancel_extraction`. */
  function Uncancelled(c: Context): Context
  {
    c.(o := c.o.(cancel := NeverCancelled))
  }

  /** The run without its cancellation bookkeeping. */
  function Strip(r: Run): Run
  {
    r.(checks := 0, flag := false)
  }

  /** Everything `a` has written, logged, recorded and reported, `b` has too, first. */
  predicate Prefix(a: Run, b: Run)
  {
    && a.stream.chunks <= b.stream.chunks && a.errors <= b.errors && a.log <= b.log
    && a.progress <= b.progress && a.current <= b.current
  }

  lemma PrefixTransitive(a: Run, b: Run, d: Run)
    requires Prefix(a, b) && Prefix(b, d)
    ensures Prefix(a, d)
  {
  }

  /** The relation between a run that may be cancelled and the uncancelled one, step by step. */
  predicate Tracks(a: Run, b: Run)
  {
    Prefix(a, b) && !b.flag && (!a.flag ==> Strip(a) == Strip(b))
  }

  lemma StripEmit(c: Context, r: Run, xs: seq<string>)
    ensures Strip(Emit(c, r, xs)) == Emit(Uncancelled(c), Strip(r), xs)
  {
  }

  lemma StripFileError(c: Context, r: Run, path: Path, f: FileNode, reason: string)
    ensures Strip(FileError(c, r, path, f, reason)) == FileError(Uncancelled(c), Strip(r), path, f, reason)
  {
  }

  lemma StripFileStep(c: Context, r: Run, path: Path, f: FileNode)
    ensures Strip(FileStep(c, r, path, f)) == FileStep(Uncancelled(c), Strip(r), path, f)
  {
    var u := Uncancelled(c);
    assert u.req == c.req && u.total == c.total;
    assert u.o.chardet == c.o.chardet && u.o.decode == c.o.decode;
    assert u.o.writeFault == c.o.writeFault && u.o.logFault == c.o.logFault;
    assert Content(u, f) == Content(c, f);
    if !(c.req.reportsProgress && c.total == 0) {
      var n := r.current + 1;
      var r1 := r.(current := n,
                   progress := if c.req.reportsProgress
                               then r.progress + [Progress(n, c.total, "Procesando: " + f.name)]
                               else r.progress);
      assert Strip(r1) == Strip(r).(current := n, progress := r1.progress);
      match Content(c, f)
      case Failure(reason) =>
        StripFileError(c, r1, path, f, reason);
      case Success(text) =>
        var (s, err) := WriteAll(c.o.writeFault, r1.stream, Block(RelFile(path, f.name), text));
        if err.Some? {
          StripFileError(c, r1.(stream := s), path, f, err.value);
        }
    }
  }

  lemma EmitGrows(c: Context, r: Run, xs: seq<string>)
    ensures Prefix(r, Emit(c, r, xs))
  {
    WriteAllEffect(c.o.writeFault, r.stream, xs);
  }

  lemma FileStepGrows(c: Context, r: Run, path: Path, f: FileNode)
    ensures Prefix(r, FileStep(c, r, path, f))
  {
    var rt := Content(c, f);
    if rt.Success? && !(c.req.reportsProgress && c.total == 0) {
      var n := r.current + 1;
      var r1 := r.(current := n,
                   progress := if c.req.reportsProgress
                               then r.progress + [Progress(n, c.total, "Procesando: " + f.name)]
                               else r.progress);
      WriteAllEffect(c.o.writeFault, r1.stream, Block(RelFile(path, f.name), rt.value));
    }
  }

  lemma {:induction false} RunFilesGrows(c: Context, r: Run, path: Path, fs: seq<FileNode>)
    ensures Prefix(r, RunFiles(c, r, path, fs))
    decreases |fs|
  {
    if fs != [] {
      var r1 := Poll(c, r);
      if !r1.flag {
        if !FileAllowed(c.p, fs[0]) {
          RunFilesGrows(c, r1, path, fs[1..]);
        } else {
          var r2 := FileStep(c, r1, path, fs[0]);
          FileStepGrows(c, r1, path, fs[0]);
          RunFilesGrows(c, r2, path, fs[1..]);
          PrefixTransitive(r, r2, RunFiles(c, r2, path, fs[1..]));
        }
      }
    }
  }

  lemma VisitStepGrows(c: Context, r: Run, v: Visit)
    ensures Prefix(r, VisitStep(c, r, v))
  {
    var r1 := Emit(c, r, [FolderHeader(v.path)]);
    EmitGrows(c, r, [FolderHeader(v.path)]);
    EmitGrows(c, r1, [EmptyMarker]);
    RunFilesGrows(c, r1, v.path, v.dir.files);
    PrefixTransitive(r, r1, VisitStep(c, r, v));
  }

  lemma {:induction false} RunVisitsGrows(c: Context, r: Run, vs: seq<Visit>)
    ensures Prefix(r, RunVisits(c, r, vs))
    decreases |vs|
  {
    if vs != [] {
      var r1 := Poll(c, r);
      if !r1.flag {
        var r2 := VisitStep(c, r1, vs[0]);
        VisitStepGrows(c, r1, vs[0]);
        RunVisitsGrows(c, r2, vs[1..]);
        PrefixTransitive(r, r2, RunVisits(c, r2, vs[1..]));
      }
    }
  }

  lemma {:induction false} RunFilesUnflagged(c: Context, r: Run, path: Path, fs: seq<FileNode>)
    requires c.o.cancel == NeverCancelled && !r.flag
    ensures !RunFiles(c, r, path, fs).flag
    decreases |fs|
  {
    if fs != [] {
      var r1 := Poll(c, r);
      RunFilesUnflagged(c, r1, path, fs[1..]);
      if FileAllowed(c.p, fs[0]) {
        RunFilesUnflagged(c, FileStep(c, r1, path, fs[0]), path, fs[1..]);
      }
    }
  }

  lemma {:induction false} RunVisitsUnflagged(c: Context, r: Run, vs: seq<Visit>)
    requires c.o.cancel == NeverCancelled && !r.flag
    ensures !RunVisits(c, r, vs).flag
    decreases |vs|
  {
    if vs != [] {
      var r1 := Poll(c, r);
      var r2 := VisitStep(c, r1, vs[0]);
      RunFilesUnflagged(c, Emit(c, r1, [FolderHeader(vs[0].path)]), vs[0].path, vs[0].dir.files);
      RunVisitsUnflagged(c, r2, vs[1..]);
    }
  }

  lemma {:induction false} RunFilesTracks(c: Context, a: Run, b: Run, path: Path, fs: seq<FileNode>)
    requires Strip(a) == Strip(b) && !a.flag && !b.flag && a.fault.None?
    ensures Tracks(RunFiles(c, a, path, fs), RunFiles(Uncancelled(c), b, path, fs))
    decreases |fs|
  {
    var c2 := Uncancelled(c);
    if fs != [] {
      var a1, b1 := Poll(c, a), Poll(c2, b);
      assert Strip(a1) == Strip(b1) && !b1.flag;
      if a1.flag {
        RunFilesGrows(c2, b, path, fs);
        RunFilesUnflagged(c2, b, path, fs);
      } else if !FileAllowed(c.p, fs[0]) {
        RunFilesTracks(c, a1, b1, path, fs[1..]);
      } else {
        var a2, b2 := FileStep(c, a1, path, fs[0]), FileStep(c2, b1, path, fs[0]);
        StripFileStep(c, a1, path, fs[0]);
        StripFileStep(c2, b1, path, fs[0]);
        assert Uncancelled(c2) == c2;
        assert Strip(a2) == Strip(b2);
        if a2.fault.None? {
          RunFilesTracks(c, a2, b2, path, fs[1..]);
        }
      }
    }
  }

  lemma VisitStepTracks(c: Context, a: Run, b: Run, v: Visit)
    requires Strip(a) == Strip(b) && !a.flag && !b.flag && a.fault.None?
    ensures Tracks(VisitStep(c, a, v), VisitStep(Uncancelled(c), b, v))
  {
    var c2 := Uncancelled(c);
    assert Uncancelled(c2) == c2;
    var a1, b1 := Emit(c, a, [FolderHeader(v.path)]), Emit(c2, b, [FolderHeader(v.path)]);
    StripEmit(c, a, [FolderHeader(v.path)]);
    StripEmit(c2, b, [FolderHeader(v.path)]);
    assert Strip(a1) == Strip(b1);
    if a1.fault.None? {
      if NoneAllowed(c.p, v.dir.files) && v.kept == [] {
        StripEmit(c, a1, [EmptyMarker]);
        StripEmit(c2, b1, [EmptyMarker]);
      } else {
        RunFilesTracks(c, a1, b1, v.path, v.dir.files);
      }
    }
  }

  lemma {:induction false} RunVisitsTracks(c: Context, a: Run, b: Run, vs: seq<Visit>)
    requires Strip(a) == Strip(b) && !a.flag && !b.flag && a.fault.None?
    ensures Tracks(RunVisits(c, a, vs), RunVisits(Uncancelled(c), b, vs))
    decreases |vs|
  {
    var c2 := Uncancelled(c);
    if vs != [] {
      var a1, b1 := Poll(c, a), Poll(c2, b);
      assert Strip(a1) == Strip(b1) && !b1.flag;
      if a1.flag {
        RunVisitsGrows(c2, b, vs);
        RunVisitsUnflagged(c2, b, vs);
      } else {
        var a2, b2 := VisitStep(c, a1, vs[0]), VisitStep(c2, b1, vs[0]);
        VisitStepTracks(c, a1, b1, vs[0]);
        if a2.flag {
          RunVisitsGrows(c2, b2, vs[1..]);
          RunVisitsUnflagged(c2, b2, vs[1..]);
          PrefixTransitive(a2, b2, RunVisits(c2, b2, vs[1..]));
        } else if a2.fault.None? {
          RunVisitsTracks(c, a2, b2, vs[1..]);
        }
      }
    }
  }

  /**
   * A cancelled call is a truncation of the uncancelled one: before its
   * summary it has written a prefix of what the uncancelled call writes
   * before its summary, and its errors, log lines, progress calls and
   * attempted files are prefixes of the uncancelled call's.
   */
  lemma CancellationTruncates(p: Policy, req: Request, o: Oracles, flag0: bool)
    requires !req.source.Missing? && o.openError.None?
    ensures var x := Extract(p, req, o, flag0);
      var y := Extract(p, req, o.(cancel := NeverCancelled), flag0);
      && Body(ContextOf(p, req, o)).stream.chunks <= Body(ContextOf(p, req, o.(cancel := NeverCancelled))).stream.chunks
      && x.log <= y.log && x.progress <= y.progress && x.attempted <= y.attempted
      && (x.outcome.Completed? && y.outcome.Completed? ==> x.outcome.errors <= y.outcome.errors)
  {
    var c := ContextOf(p, req, o);
    var c2 := ContextOf(p, req, o.(cancel := NeverCancelled));
    assert c2 == Uncancelled(c);
    BodyTracks(c);
    var a, b := Body(c), Body(c2);
    if a.fault.None? {
      FooterKeepsCounters(c, a);
    }
    if b.fault.None? {
      FooterKeepsCounters(c2, b);
    }
  }

  lemma BodyTracks(c: Context)
    ensures Prefix(Body(c), Body(Uncancelled(c)))
  {
    var c2 := Uncancelled(c);
    var h := Header(c.req.sourcePath, c.total);
    var a1, b1 := Emit(c, InitialRun(), h), Emit(c2, InitialRun(), h);
    StripEmit(c, InitialRun(), h);
    assert Strip(a1) == Strip(b1) && !a1.flag && !b1.flag;
    if a1.fault.None? {
      RunVisitsTracks(c, a1, b1, WalkSource(PrunedBy(c.p), c.req.source));
    }
  }

  // ---------------------------------------------------------------------
  // Before the folder loop
  // ---------------------------------------------------------------------

  /**
   * A missing source raises before the flag is reset and before the output
   * is opened; a failing `open` of the output raises after the reset and
   * before anything is written; once the source exists, the flag the call
   * starts with makes no difference.
   */
  lemma ExtractEarlyExits(p: Policy, req: Request, o: Oracles, flag0: bool)
    ensures req.source.Missing? ==>
      var x := Extract(p, req, o, flag0);
      x.outcome.NotFound? && x.output.None? && x.log == [] && x.progress == [] && x.cancelFlag == flag0
    ensures !req.source.Missing? && o.openError.Some? ==>
      var x := Extract(p, req, o, flag0);
      x.outcome.Critical? && x.output.None? && x.log == [] && x.progress == [] && !x.cancelFlag
    ensures !req.source.Missing? ==> Extract(p, req, o, flag0) == Extract(p, req, o, !flag0)
  {
  }

  lemma EmitFaultless(c: Context, r: Run, xs: seq<string>)
    requires r.fault.None? && forall n :: c.o.writeFault(n).None?
    ensures Emit(c, r, xs) == r.(stream := Stream(r.stream.chunks + xs, r.stream.attempts + |xs|))
  {
    WriteAllEffect(c.o.writeFault, r.stream, xs);
  }

  /**
   * A cancellation requested before the first check-point stops the call
   * before any folder section: the document is the header, the summary of
   * nothing and the cancellation note.
   */
  lemma CancelledBeforeFirstFolder(p: Policy, req: Request, o: Oracles, flag0: bool)
    requires !req.source.Missing? && o.openError.None? && o.cancel == CancelledFrom(0)
    requires forall n :: o.writeFault(n).None?
    ensures var x := Extract(p, req, o, flag0);
      && x.outcome == Completed(0, [])
      && x.cancelFlag
      && x.attempted == 0 && x.log == [] && x.progress == []
      && x.output == Some(Header(req.sourcePath, |Candidates(p, req.source)|) + (SummaryLines(0, 0) + [CancelNote] + [Rule() + "\n"]))
  {
    var c := ContextOf(p, req, o);
    var h := Header(req.sourcePath, c.total);
    var r0 := InitialRun();
    EmitFaultless(c, r0, h);
    var r1 := Emit(c, r0, h);
    assert r1.stream.chunks == h;
    var vs := WalkSource(PrunedBy(p), req.source);
    if vs != [] {
      assert RunVisits(c, r1, vs) == Poll(c, r1);
    }
    var b := Body(c);
    assert b == r1 || b == Poll(c, r1);
    assert b.processed == 0 && b.errors == [];
    FooterCancelled(c, b);
  }

  /**
   * The summary written once cancellation has been requested, at any point
   * of the run: the flag read at the summary is set, so the summary lines
   * of the counts so far are followed by the cancellation note and the rule.
   */
  lemma FooterCancelled(c: Context, r: Run)
    requires r.fault.None? && (r.flag || c.o.cancel.Requested(r.checks))
    requires forall n :: c.o.writeFault(n).None?
    ensures var f := Footer(c, r);
      && f.fault.None? && f.flag && f.processed == r.processed && f.errors == r.errors && f.current == r.current
      && f.log == r.log && f.progress == r.progress
      && f.stream.chunks == r.stream.chunks + (SummaryLines(r.processed, |r.errors|) + [CancelNote] + [Rule() + "\n"])
  {
    var sl := SummaryLines(r.processed, |r.errors|);
    EmitFaultless(c, r, sl);
    var f1 := Emit(c, r, sl);
    var f2 := Poll(c, f1);
    assert f2.flag;
    EmitFaultless(c, f2, [CancelNote]);
    var f3 := Emit(c, f2, [CancelNote]);
    EmitFaultless(c, f3, [Rule() + "\n"]);
    Regroup3(r.stream.chunks, sl, [CancelNote], [Rule() + "\n"],
             f1.stream.chunks, f3.stream.chunks, Footer(c, r).stream.chunks);
  }
}
