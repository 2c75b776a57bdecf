/**
 * Which files `extract_content` opens and writes. The folder loop hands
 * `FileStep` the accepted files of the pruned walk one by one; a check-point
 * that sees the flag or a critical failure ends the run early. So the files
 * opened are always a leading part of the candidates that `count_files`
 * counted, in walk order, and all of them when the call completes without
 * cancellation, whatever per-file errors occur.
 */
module ExtractedFiles {
  import opened Wrappers
  import opened FileSystem
  import opened FilterPolicy
  import opened PathNames
  import opened Walk
  import opened Extraction
  import opened ExtractionProperties

  // ----- the files handed to `FileStep` -----

  /** The accepted files the file loop of one folder opens, in listing order. */
  function OpenedFiles(c: Context, r: Run, path: Path, fs: seq<FileNode>): seq<Entry>
    decreases |fs|
  {
    if fs == [] then []
    else
      var r1 := Poll(c, r);
      if r1.flag then []
      else if !FileAllowed(c.p, fs[0]) then OpenedFiles(c, r1, path, fs[1..])
      else
        var r2 := FileStep(c, r1, path, fs[0]);
        [Entry(path, fs[0])] + (if r2.fault.Some? then [] else OpenedFiles(c, r2, path, fs[1..]))
  }

  /** The files one folder section opens: none when its header fails or it is marked empty. */
  function OpenedInVisit(c: Context, r: Run, v: Visit): seq<Entry>
  {
    var r1 := Emit(c, r, [FolderHeader(v.path)]);
    if r1.fault.Some? then []
    else if NoneAllowed(c.p, v.dir.files) && v.kept == [] then []
    else OpenedFiles(c, r1, v.path, v.dir.files)
  }

  /** The files the folder loop opens over the remaining walk. */
  function OpenedVisits(c: Context, r: Run, vs: seq<Visit>): seq<Entry>
    decreases |vs|
  {
    if vs == [] then []
    else
      var r1 := Poll(c, r);
      if r1.flag then []
      else
        var r2 := VisitStep(c, r1, vs[0]);
        OpenedInVisit(c, r1, vs[0]) + (if r2.fault.Some? then [] else OpenedVisits(c, r2, vs[1..]))
  }

  /** The files a whole run opens: none when the header cannot be written. */
  function Opened(c: Context): seq<Entry>
  {
    var r1 := Emit(c, InitialRun(), Header(c.req.sourcePath, c.total));
    if r1.fault.Some? then [] else OpenedVisits(c, r1, WalkSource(PrunedBy(c.p), c.req.source))
  }

  /** The labels the progress callback is given. */
  function Statuses(ps: seq<Progress>): seq<string>
  {
    if ps == [] then [] else [ps[0].status] + Statuses(ps[1..])
  }

  /** The labels announcing the files `es`, one per file. */
  function Announced(es: seq<Entry>): seq<string>
  {
    if es == [] then [] else ["Procesando: " + es[0].file.name] + Announced(es[1..])
  }

  lemma {:induction false} StatusesAppend(a: seq<Progress>, b: seq<Progress>)
    ensures Statuses(a + b) == Statuses(a) + Statuses(b)
    decreases |a|
  {
    if a == [] {
      assert a + b == b;
    } else {
      assert (a + b)[0] == a[0] && (a + b)[1..] == a[1..] + b;
      StatusesAppend(a[1..], b);
    }
  }

  lemma {:induction false} AnnouncedAppend(a: seq<Entry>, b: seq<Entry>)
    ensures Announced(a + b) == Announced(a) + Announced(b)
    decreases |a|
  {
    if a == [] {
      assert a + b == b;
    } else {
      assert (a + b)[0] == a[0] && (a + b)[1..] == a[1..] + b;
      AnnouncedAppend(a[1..], b);
    }
  }

  /** A prefix of `a + b` built from a prefix of `a` and, only once `a` is complete, a prefix of `b`. */
  lemma PrefixConcat<T>(x: seq<T>, y: seq<T>, a: seq<T>, b: seq<T>)
    requires x <= a && y <= b && (y != [] ==> x == a)
    ensures x + y <= a + b
  {
    if y != [] {
      assert (a + b)[..|x + y|] == a + b[..|y|];
    } else {
      assert x + y == x;
      assert (a + b)[..|x|] == a[..|x|];
    }
  }

  /**
   * Between `r` and `r'` exactly the files `os` were opened: `current_file`
   * advanced once per file, and, when progress is reported against a
   * non-zero total, one label per file, naming it, was passed to the callback.
   */
  predicate OpensOnly(c: Context, r: Run, os: seq<Entry>, r': Run)
  {
    && r'.current == r.current + |os|
    && (c.req.reportsProgress && c.total > 0 ==> Statuses(r'.progress) == Statuses(r.progress) + Announced(os))
  }

  lemma OpensOnlyTransitive(c: Context, r: Run, a: seq<Entry>, r2: Run, b: seq<Entry>, r': Run)
    requires OpensOnly(c, r, a, r2) && OpensOnly(c, r2, b, r')
    ensures OpensOnly(c, r, a + b, r')
  {
    AnnouncedAppend(a, b);
  }

  lemma FileStepOpens(c: Context, r: Run, path: Path, f: FileNode)
    ensures OpensOnly(c, r, [Entry(path, f)], FileStep(c, r, path, f))
  {
    var e := Entry(path, f);
    assert Announced([e]) == ["Procesando: " + f.name] + Announced([]);
    var r' := FileStep(c, r, path, f);
    if c.req.reportsProgress && c.total > 0 {
      var n := r.current + 1;
      var pr := Progress(n, c.total, "Procesando: " + f.name);
      var r1 := r.(current := n, progress := r.progress + [pr]);
      FileErrorCounts(c, r1, path, f, "");
      assert r'.progress == r1.progress;
      StatusesAppend(r.progress, [pr]);
      assert Statuses([pr]) == [pr.status] + Statuses([]);
    }
  }

  lemma PollKeepsCounters(c: Context, r: Run)
    ensures OpensOnly(c, r, [], Poll(c, r)) && (r.flag ==> Poll(c, r).flag)
  {
  }

  /** A flagged run opens nothing more and stays flagged. */
  lemma FlaggedOpensNothing(c: Context, r: Run, vs: seq<Visit>)
    requires r.flag
    ensures OpenedVisits(c, r, vs) == [] && RunVisits(c, r, vs).flag
  {
  }

  /**
   * The file loop of one folder opens a leading part of the folder's
   * accepted files, in listing order, and all of them when it ends neither
   * cancelled nor failed.
   */
  lemma {:induction false} RunFilesOpens(c: Context, r: Run, path: Path, fs: seq<FileNode>)
    ensures var r' := RunFiles(c, r, path, fs);
      var os := OpenedFiles(c, r, path, fs);
      var all := Accepted(c.p, FileEntries(path, fs));
      && os <= all
      && OpensOnly(c, r, os, r')
      && (!r'.flag && r'.fault.None? ==> os == all)
    decreases |fs|
  {
    if fs != [] {
      var r1 := Poll(c, r);
      PollKeepsCounters(c, r);
      var all := Accepted(c.p, FileEntries(path, fs));
      var rest := Accepted(c.p, FileEntries(path, fs[1..]));
      assert FileEntries(path, fs)[1..] == FileEntries(path, fs[1..]);
      assert all == (if FileAllowed(c.p, fs[0]) then [Entry(path, fs[0])] else []) + rest;
      if !r1.flag {
        if !FileAllowed(c.p, fs[0]) {
          RunFilesOpens(c, r1, path, fs[1..]);
          OpensOnlyTransitive(c, r, [], r1, OpenedFiles(c, r1, path, fs[1..]), RunFiles(c, r1, path, fs[1..]));
        } else {
          var e := Entry(path, fs[0]);
          var r2 := FileStep(c, r1, path, fs[0]);
          FileStepOpens(c, r1, path, fs[0]);
          OpensOnlyTransitive(c, r, [], r1, [e], r2);
          if r2.fault.Some? {
            assert [e] + [] == [e];
            PrefixConcat([e], [], [e], rest);
          } else {
            var tail := OpenedFiles(c, r2, path, fs[1..]);
            RunFilesOpens(c, r2, path, fs[1..]);
            OpensOnlyTransitive(c, r, [e], r2, tail, RunFiles(c, r2, path, fs[1..]));
            PrefixConcat([e], tail, [e], rest);
          }
        }
      }
    }
  }

  /** A folder section opens a leading part of the folder's accepted files, all of them when it ends undisturbed. */
  lemma VisitStepOpens(c: Context, r: Run, v: Visit)
    ensures var r' := VisitStep(c, r, v);
      var os := OpenedInVisit(c, r, v);
      var all := Accepted(c.p, FileEntries(v.path, v.dir.files));
      && os <= all
      && OpensOnly(c, r, os, r')
      && (!r'.flag && r'.fault.None? ==> os == all)
  {
    var r1 := Emit(c, r, [FolderHeader(v.path)]);
    EmitKeepsCounters(c, r, [FolderHeader(v.path)]);
    if r1.fault.None? {
      if NoneAllowed(c.p, v.dir.files) && v.kept == [] {
        EmitKeepsCounters(c, r1, [EmptyMarker]);
        NoneAllowedNothingRendered(c, v.path, v.dir.files);
        CountAllowedEntries(c.p, v.path, v.dir.files);
      } else {
        RunFilesOpens(c, r1, v.path, v.dir.files);
        OpensOnlyTransitive(c, r, [], r1, OpenedFiles(c, r1, v.path, v.dir.files), VisitStep(c, r, v));
      }
    }
  }

  /**
   * The folder loop opens a leading part of the accepted files of the
   * remaining walk, in walk order, and all of them when it ends neither
   * cancelled nor failed.
   */
  lemma {:induction false} RunVisitsOpens(c: Context, r: Run, vs: seq<Visit>)
    ensures var r' := RunVisits(c, r, vs);
      var os := OpenedVisits(c, r, vs);
      var all := Accepted(c.p, Entries(vs));
      && os <= all
      && OpensOnly(c, r, os, r')
      && (!r'.flag && r'.fault.None? ==> os == all)
    decreases |vs|
  {
    if vs != [] {
      var r1 := Poll(c, r);
      PollKeepsCounters(c, r);
      if !r1.flag {
        var v := vs[0];
        var first := Accepted(c.p, FileEntries(v.path, v.dir.files));
        var rest := Accepted(c.p, Entries(vs[1..]));
        AcceptedAppend(c.p, FileEntries(v.path, v.dir.files), Entries(vs[1..]));
        var r2 := VisitStep(c, r1, v);
        var here := OpenedInVisit(c, r1, v);
        VisitStepOpens(c, r1, v);
        OpensOnlyTransitive(c, r, [], r1, here, r2);
        if r2.fault.Some? {
          assert here + [] == here;
          PrefixConcat(here, [], first, rest);
        } else {
          var tail := OpenedVisits(c, r2, vs[1..]);
          RunVisitsOpens(c, r2, vs[1..]);
          OpensOnlyTransitive(c, r, here, r2, tail, RunVisits(c, r2, vs[1..]));
          if r2.flag {
            FlaggedOpensNothing(c, r2, vs[1..]);
          }
          PrefixConcat(here, tail, first, rest);
        }
      }
    }
  }

  /** Emits and check-points can only set the flag, never clear it. */
  lemma FooterKeepsFlag(c: Context, b: Run)
    requires b.fault.None?
    ensures b.flag ==> Footer(c, b).flag
    ensures c.o.cancel == NeverCancelled && !b.flag ==> !Footer(c, b).flag
  {
  }

  /**
   * Which files a call opens, whatever the cancellations, codecs and failing
   * writes: a leading part of the candidates `count_files` counted, in walk
   * order, one `current_file` step and one progress label naming the file
   * for each; all of the candidates when the call completes without the
   * flag set, so that without cancellation a completed call reaches
   * `current_file == total_files` even when files fail to be read or written.
   */
  lemma ExtractOpensCandidates(p: Policy, req: Request, o: Oracles, flag0: bool)
    requires !req.source.Missing? && o.openError.None?
    ensures var x := Extract(p, req, o, flag0);
      var os := Opened(ContextOf(p, req, o));
      && os <= Candidates(p, req.source)
      && x.attempted == |os|
      && (req.reportsProgress ==> Statuses(x.progress) == Announced(os))
      && (x.outcome.Completed? && !x.cancelFlag ==> os == Candidates(p, req.source))
      && (o.cancel == NeverCancelled ==> !x.cancelFlag)
      && (o.cancel == NeverCancelled && x.outcome.Completed? ==> x.attempted == |Candidates(p, req.source)|)
  {
    var c := ContextOf(p, req, o);
    var x := Extract(p, req, o, flag0);
    var r0 := InitialRun();
    var vs := WalkSource(PrunedBy(p), req.source);
    var r1 := Emit(c, r0, Header(req.sourcePath, c.total));
    EmitKeepsCounters(c, r0, Header(req.sourcePath, c.total));
    ExtractBalanced(p, req, o, flag0);
    if r1.fault.None? {
      RunVisitsOpens(c, r1, vs);
      assert Statuses(r1.progress) == [];
      var b := Body(c);
      if c.o.cancel == NeverCancelled {
        RunVisitsUnflagged(c, r1, vs);
      }
      if b.fault.None? {
        FooterKeepsCounters(c, b);
        FooterKeepsFlag(c, b);
      }
      if req.reportsProgress && c.total == 0 {
        assert |Opened(c)| == 0;
        assert Statuses(x.progress) == [];
      }
    }
  }
  // ----- what an undisturbed run writes for them -----

  /** A candidate's block when it can be read, nothing otherwise. */
  function BlockOf(c: Context, e: Entry): seq<string>
  {
    if Content(c, e.file).Success? then Block(RelFile(e.path, e.file.name), Content(c, e.file).value) else []
  }

  function BlocksOf(c: Context, es: seq<Entry>): seq<string>
  {
    Joined(e => BlockOf(c, e), es)
  }

  /** A candidate's error message when it cannot be read, nothing otherwise. */
  function FailureOf(c: Context, e: Entry): seq<string>
  {
    if Content(c, e.file).Failure? then [ErrorMessage(c.req.sourcePath, e.path, e.file.name, Content(c, e.file).message)] else []
  }

  function FailuresOf(c: Context, es: seq<Entry>): seq<string>
  {
    Joined(e => FailureOf(c, e), es)
  }

  /** The pieces `f` gives for the elements of `xs`, concatenated in order. */
  function Joined<T>(f: T -> seq<string>, xs: seq<T>): seq<string>
  {
    if xs == [] then [] else f(xs[0]) + Joined(f, xs[1..])
  }

  /** The file blocks of the folder loop's output, without the section headers and empty markers. */
  function SectionBlocks(c: Context, vs: seq<Visit>): seq<string>
  {
    if vs == [] then [] else RenderFiles(c, vs[0].path, vs[0].dir.files) + SectionBlocks(c, vs[1..])
  }

  lemma {:induction false} JoinedAppend<T>(f: T -> seq<string>, a: seq<T>, b: seq<T>)
    ensures Joined(f, a + b) == Joined(f, a) + Joined(f, b)
    decreases |a|
  {
    if a == [] {
      assert a + b == b;
    } else {
      assert (a + b)[0] == a[0] && (a + b)[1..] == a[1..] + b;
      JoinedAppend(f, a[1..], b);
      Associative(f(a[0]), Joined(f, a[1..]), Joined(f, b));
    }
  }

  /** A folder's file loop writes the blocks, and records the errors, of its accepted files in listing order. */
  lemma {:induction false} RenderFilesAreAccepted(c: Context, path: Path, fs: seq<FileNode>)
    ensures RenderFiles(c, path, fs) == BlocksOf(c, Accepted(c.p, FileEntries(path, fs)))
    ensures ExtractionProperties.Unreadable(c, path, fs) == FailuresOf(c, Accepted(c.p, FileEntries(path, fs)))
    decreases |fs|
  {
    if fs != [] {
      var e := Entry(path, fs[0]);
      var rest := Accepted(c.p, FileEntries(path, fs[1..]));
      assert FileEntries(path, fs)[1..] == FileEntries(path, fs[1..]);
      RenderFilesAreAccepted(c, path, fs[1..]);
      if FileAllowed(c.p, fs[0]) {
        assert Accepted(c.p, FileEntries(path, fs)) == [e] + rest;
        assert ([e] + rest)[0] == e && ([e] + rest)[1..] == rest;
      } else {
        assert Accepted(c.p, FileEntries(path, fs)) == rest;
      }
    }
  }

  /** Every folder section is its header, then the empty marker or nothing, then its blocks. */
  lemma SectionShape(c: Context, v: Visit)
    ensures RenderVisit(c, v) ==
      [FolderHeader(v.path)] + (if NoneAllowed(c.p, v.dir.files) && v.kept == [] then [EmptyMarker] else []) +
      RenderFiles(c, v.path, v.dir.files)
  {
    var h, body := [FolderHeader(v.path)], RenderFiles(c, v.path, v.dir.files);
    if NoneAllowed(c.p, v.dir.files) && v.kept == [] {
      NoneAllowedNothingRendered(c, v.path, v.dir.files);
      CountAllowedEntries(c.p, v.path, v.dir.files);
      RenderFilesAreAccepted(c, v.path, v.dir.files);
      assert Accepted(c.p, FileEntries(v.path, v.dir.files)) == [];
      assert body == [];
      assert RenderVisit(c, v) == h + [EmptyMarker] + body;
    } else {
      assert RenderVisit(c, v) == h + [] + body;
    }
  }

  /** The folder loop writes the blocks, and records the errors, of the accepted files of the walk in walk order. */
  lemma {:induction false} SectionBlocksAreAccepted(c: Context, vs: seq<Visit>)
    ensures SectionBlocks(c, vs) == BlocksOf(c, Accepted(c.p, Entries(vs)))
    ensures UnreadableAll(c, vs) == FailuresOf(c, Accepted(c.p, Entries(vs)))
    decreases |vs|
  {
    if vs != [] {
      var v := vs[0];
      SectionBlocksAreAccepted(c, vs[1..]);
      RenderFilesAreAccepted(c, v.path, v.dir.files);
      AcceptedAppend(c.p, FileEntries(v.path, v.dir.files), Entries(vs[1..]));
      JoinedAppend(e => BlockOf(c, e), Accepted(c.p, FileEntries(v.path, v.dir.files)), Accepted(c.p, Entries(vs[1..])));
      JoinedAppend(e => FailureOf(c, e), Accepted(c.p, FileEntries(v.path, v.dir.files)), Accepted(c.p, Entries(vs[1..])));
    }
  }

  /**
   * When nobody cancels and no write fails, the call opens every candidate,
   * the blocks among its folder sections are those of the readable
   * candidates in walk order, and its errors are those of the unreadable
   * candidates in walk order: no file under an excluded folder, no rejected
   * file and no file twice.
   */
  lemma UndisturbedWritesCandidates(p: Policy, req: Request, o: Oracles, flag0: bool)
    requires Undisturbed(o) && !req.source.Missing?
    ensures var x := Extract(p, req, o, flag0);
      var c := ContextOf(p, req, o);
      var vs := WalkSource(PrunedBy(p), req.source);
      && Opened(c) == Candidates(p, req.source)
      && SectionBlocks(c, vs) == BlocksOf(c, Candidates(p, req.source))
      && x.outcome.Completed?
      && x.outcome.errors == FailuresOf(c, Candidates(p, req.source))
  {
    var c := ContextOf(p, req, o);
    var vs := WalkSource(PrunedBy(p), req.source);
    UndisturbedExtraction(p, req, o, flag0);
    ExtractOpensCandidates(p, req, o, flag0);
    SectionBlocksAreAccepted(c, vs);
  }
  /** The empty marker of a folder section, when it gets one. */
  function Marker(c: Context, v: Visit): seq<string>
  {
    if NoneAllowed(c.p, v.dir.files) && v.kept == [] then [EmptyMarker] else []
  }

  /** The folder sections built from the candidates: header, marker, then the blocks of the folder's candidates. */
  function Sections(c: Context, vs: seq<Visit>): seq<string>
  {
    if vs == [] then []
    else [FolderHeader(vs[0].path)] + Marker(c, vs[0]) + BlocksOf(c, Accepted(c.p, FileEntries(vs[0].path, vs[0].dir.files))) +
         Sections(c, vs[1..])
  }

  lemma {:induction false} RenderIsSections(c: Context, vs: seq<Visit>)
    ensures Render(c, vs) == Sections(c, vs)
    decreases |vs|
  {
    if vs != [] {
      SectionShape(c, vs[0]);
      RenderFilesAreAccepted(c, vs[0].path, vs[0].dir.files);
      RenderIsSections(c, vs[1..]);
    }
  }

  /**
   * The whole document of an undisturbed call, in terms of the candidates:
   * the header, then for each visited folder its header, its empty marker
   * when it gets one and the blocks of its readable candidates, then the
   * summary and the rule. Without the folder headers and markers, the
   * sections are the blocks of the readable candidates in walk order.
   */
  lemma UndisturbedDocument(p: Policy, req: Request, o: Oracles, flag0: bool)
    requires Undisturbed(o) && !req.source.Missing?
    ensures var x := Extract(p, req, o, flag0);
      var c := ContextOf(p, req, o);
      var vs := WalkSource(PrunedBy(p), req.source);
      && x.outcome.Completed?
      && x.output == Some(Header(req.sourcePath, |Candidates(p, req.source)|) + Sections(c, vs) +
                          SummaryLines(x.outcome.processed, |x.outcome.errors|) + [Rule() + "\n"])
      && SectionBlocks(c, vs) == BlocksOf(c, Candidates(p, req.source))
  {
    var c := ContextOf(p, req, o);
    var vs := WalkSource(PrunedBy(p), req.source);
    UndisturbedExtraction(p, req, o, flag0);
    RenderIsSections(c, vs);
    SectionBlocksAreAccepted(c, vs);
  }
}
