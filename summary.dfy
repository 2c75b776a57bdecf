/**
 * `get_summary`: an unpruned walk of the source that counts folders and
 * files, adds up sizes, builds a histogram of lower-cased extensions, keeps
 * the largest file and sorts the files with a readable size into allowed and
 * excluded. A file whose size cannot be read is skipped after it has been
 * counted in `total_files`.
 */
module Summary {
  import opened Wrappers
  import opened FileSystem
  import opened FilterPolicy
  import opened PathNames
  import opened Text
  import opened Walk

  /** The summary dictionary. */
  datatype Stats = Stats(
    totalFolders: nat,
    totalFiles: nat,
    allowedFiles: nat,
    excludedFiles: nat,
    totalSize: nat,
    extensions: map<string, nat>,
    largestFile: Option<string>,
    largestSize: nat)

  /** The dictionary before the walk starts. */
  function EmptyStats(): Stats
  {
    Stats(0, 0, 0, 0, 0, map[], None, 0)
  }

  /** `extensions.get(k, 0)`. */
  function Get(m: map<string, nat>, k: string): nat
  {
    if k in m then m[k] else 0
  }

  /** The histogram key of a file: its lower-cased `splitext` extension. */
  function ExtKey(name: string): string
  {
    Lower(Ext(name))
  }

  /** The loop body for one file of the folder at `path`. */
  function TallyFile(p: Policy, s: Stats, path: Path, f: FileNode): Stats
  {
    match f.size
    case None => s
    case Some(n) =>
      var s1 := s.(totalSize := s.totalSize + n);
      var s2 := if n > s1.largestSize then s1.(largestSize := n, largestFile := Some(RelFile(path, f.name))) else s1;
      var k := ExtKey(f.name);
      var s3 := s2.(extensions := s2.extensions[k := Get(s2.extensions, k) + 1]);
      if FileAllowed(p, f) then s3.(allowedFiles := s3.allowedFiles + 1)
      else s3.(excludedFiles := s3.excludedFiles + 1)
  }

  /** The inner loop over the files of one folder. */
  function TallyFiles(p: Policy, s: Stats, path: Path, fs: seq<FileNode>): Stats
    decreases |fs|
  {
    if fs == [] then s else TallyFiles(p, TallyFile(p, s, path, fs[0]), path, fs[1..])
  }

  /** The folder and file counters grow by given amounts. */
  function Bump(s: Stats, folders: nat, files: nat): Stats
  {
    s.(totalFolders := s.totalFolders + folders, totalFiles := s.totalFiles + files)
  }

  /** One tuple of the walk: count the listed subfolders and files, then tally the files. */
  function TallyVisit(p: Policy, s: Stats, v: Visit): Stats
  {
    TallyFiles(p, Bump(s, |v.kept|, |v.dir.files|), v.path, v.dir.files)
  }

  function TallyVisits(p: Policy, s: Stats, vs: seq<Visit>): Stats
    decreases |vs|
  {
    if vs == [] then s else TallyVisits(p, TallyVisit(p, s, vs[0]), vs[1..])
  }

  /** The folder loop takes one tuple at a time. */
  lemma TallyVisitsCons(p: Policy, s: Stats, v: Visit, rest: seq<Visit>)
    ensures TallyVisits(p, s, [v] + rest) == TallyVisits(p, TallyVisit(p, s, v), rest)
  {
    assert ([v] + rest)[0] == v && ([v] + rest)[1..] == rest;
  }

  /** `get_summary`: nothing for a missing source, otherwise the tallies of the unpruned walk. */
  function Summarize(p: Policy, src: Source): Option<Stats>
  {
    if src.Missing? then None else Some(TallyVisits(p, EmptyStats(), WalkSource(Unpruned, src)))
  }

  // ---------------------------------------------------------------------
  // Reference definitions, over the files of the tree in walk order
  // ---------------------------------------------------------------------

  /** The loop body for one file met by the walk. */
  function TallyEntry(p: Policy, s: Stats, e: Entry): Stats
  {
    TallyFile(p, s, e.path, e.file)
  }

  function TallyEntries(p: Policy, s: Stats, es: seq<Entry>): Stats
    decreases |es|
  {
    if es == [] then s else TallyEntries(p, TallyEntry(p, s, es[0]), es[1..])
  }

  /** Number of files whose size can be read. */
  function SizedCount(es: seq<Entry>): nat
  {
    if es == [] then 0 else (if es[0].file.size.Some? then 1 else 0) + SizedCount(es[1..])
  }

  /** Sum of the readable sizes. */
  function SizeSum(es: seq<Entry>): nat
  {
    if es == [] then 0
    else (match es[0].file.size case Some(n) => n case None => 0) + SizeSum(es[1..])
  }

  /** Number of files with a readable size whose histogram key is `k`. */
  function ExtCount(es: seq<Entry>, k: string): nat
  {
    if es == [] then 0
    else (if es[0].file.size.Some? && ExtKey(es[0].file.name) == k then 1 else 0) + ExtCount(es[1..], k)
  }

  /** The size of one file, an unreadable one counting as 0. */
  function SizeOf(e: Entry): nat
  {
    match e.file.size case Some(n) => n case None => 0
  }

  function Max(a: nat, b: nat): nat
  {
    if a < b then b else a
  }

  /** The greatest readable size, 0 for no files. */
  function MaxSize(es: seq<Entry>): nat
  {
    if es == [] then 0 else Max(SizeOf(es[0]), MaxSize(es[1..]))
  }

  /** The relative path of the first file whose readable size is `n`. */
  function FirstOfSize(es: seq<Entry>, n: nat): Option<string>
  {
    if es == [] then None
    else if es[0].file.size == Some(n) then Some(RelFile(es[0].path, es[0].file.name))
    else FirstOfSize(es[1..], n)
  }

  /** Sum of the values of a histogram. */
  ghost function Total(m: map<string, nat>): nat
    decreases |m.Keys|
  {
    if m.Keys == {} then 0
    else
      var k :| k in m.Keys;
      m[k] + Total(m - {k})
  }

  /** Number of subfolders the walk lists, `len(dirs)` summed over its tuples. */
  function Listed(vs: seq<Visit>): nat
  {
    if vs == [] then 0 else |vs[0].kept| + Listed(vs[1..])
  }

  // ---------------------------------------------------------------------
  // The histogram total
  // ---------------------------------------------------------------------

  /** The total does not depend on which key the definition picks first. */
  lemma {:induction false} TotalRemove(m: map<string, nat>, k: string)
    requires k in m
    ensures Total(m) == m[k] + Total(m - {k})
    decreases |m.Keys|
  {
    var j :| j in m.Keys && Total(m) == m[j] + Total(m - {j});
    if j != k {
      var mj, mk := m - {j}, m - {k};
      assert |mj.Keys| < |m.Keys| by { assert mj.Keys == m.Keys - {j}; }
      assert |mk.Keys| < |m.Keys| by { assert mk.Keys == m.Keys - {k}; }
      TotalRemove(mj, k);
      TotalRemove(mk, j);
      assert mj - {k} == mk - {j};
      assert mj[k] == m[k] && mk[j] == m[j];
    }
  }

  /** Counting one more occurrence of a key adds one to the total. */
  lemma TotalIncrement(m: map<string, nat>, k: string)
    ensures Total(m[k := Get(m, k) + 1]) == Total(m) + 1
  {
    var m' := m[k := Get(m, k) + 1];
    TotalRemove(m', k);
    if k in m {
      TotalRemove(m, k);
      assert m' - {k} == m - {k};
    } else {
      assert m' - {k} == m;
    }
  }

  // ---------------------------------------------------------------------
  // The folder loop tallies the files of the walk
  // ---------------------------------------------------------------------

  lemma {:induction false} TallyFilesEntries(p: Policy, s: Stats, path: Path, fs: seq<FileNode>)
    ensures TallyFiles(p, s, path, fs) == TallyEntries(p, s, FileEntries(path, fs))
    decreases |fs|
  {
    if fs != [] {
      assert FileEntries(path, fs)[1..] == FileEntries(path, fs[1..]);
      TallyFilesEntries(p, TallyFile(p, s, path, fs[0]), path, fs[1..]);
    }
  }

  lemma {:induction false} TallyEntriesAppend(p: Policy, s: Stats, a: seq<Entry>, b: seq<Entry>)
    ensures TallyEntries(p, s, a + b) == TallyEntries(p, TallyEntries(p, s, a), b)
    decreases |a|
  {
    if a == [] {
      assert a + b == b;
    } else {
      assert (a + b)[0] == a[0];
      assert (a + b)[1..] == a[1..] + b;
      TallyEntriesAppend(p, TallyEntry(p, s, a[0]), a[1..], b);
    }
  }

  /** The file tallies leave the folder and file counters alone. */
  lemma {:induction false} TallyEntriesBump(p: Policy, s: Stats, folders: nat, files: nat, es: seq<Entry>)
    ensures TallyEntries(p, Bump(s, folders, files), es) == Bump(TallyEntries(p, s, es), folders, files)
    decreases |es|
  {
    if es != [] {
      assert TallyEntry(p, Bump(s, folders, files), es[0]) == Bump(TallyEntry(p, s, es[0]), folders, files);
      TallyEntriesBump(p, TallyEntry(p, s, es[0]), folders, files, es[1..]);
    }
  }

  /**
   * Folding over the tuples is bumping the counters by the listed folders
   * and files, then tallying the files of the walk in order.
   */
  lemma {:induction false} TallyVisitsEntries(p: Policy, s: Stats, vs: seq<Visit>)
    ensures TallyVisits(p, s, vs) == TallyEntries(p, Bump(s, Listed(vs), |Entries(vs)|), Entries(vs))
    decreases |vs|
  {
    if vs == [] {
      assert Bump(s, 0, 0) == s;
    } else {
      var v := vs[0];
      var e0 := FileEntries(v.path, v.dir.files);
      var rest := Entries(vs[1..]);
      var b0 := Bump(s, |v.kept|, |v.dir.files|);
      var t1 := TallyEntries(p, b0, e0);
      TallyFilesEntries(p, b0, v.path, v.dir.files);
      TallyVisitsEntries(p, t1, vs[1..]);
      TallyEntriesBump(p, b0, Listed(vs[1..]), |rest|, e0);
      assert Bump(b0, Listed(vs[1..]), |rest|) == Bump(s, Listed(vs), |Entries(vs)|);
      TallyEntriesAppend(p, Bump(s, Listed(vs), |Entries(vs)|), e0, rest);
    }
  }

  // ---------------------------------------------------------------------
  // The unpruned walk lists every folder and every file
  // ---------------------------------------------------------------------

  lemma {:induction false} KeptUnpruned(ds: seq<DirNode>)
    ensures Kept(Unpruned, ds) == ds
  {
    if ds != [] {
      KeptUnpruned(ds[1..]);
      assert [ds[0]] + ds[1..] == ds;
    }
  }

  lemma {:induction false} ListedAppend(a: seq<Visit>, b: seq<Visit>)
    ensures Listed(a + b) == Listed(a) + Listed(b)
  {
    if a == [] {
      assert a + b == b;
    } else {
      assert (a + b)[0] == a[0];
      assert (a + b)[1..] == a[1..] + b;
      ListedAppend(a[1..], b);
    }
  }

  /** Every folder but the root is listed once, as a subfolder of its parent. */
  lemma {:induction false} WalkListsFolders(path: Path, d: DirNode)
    ensures Listed(Walk.Walk(Unpruned, path, d)) + 1 == DirCount(d)
    decreases d, 1
  {
    KeptUnpruned(d.subdirs);
    WalkAllListsFolders(path, d.subdirs);
    ListedAppend([Visit(path, d, Kept(Unpruned, d.subdirs))], WalkAll(Unpruned, path, d.subdirs));
  }

  lemma {:induction false} WalkAllListsFolders(path: Path, ds: seq<DirNode>)
    ensures Listed(WalkAll(Unpruned, path, ds)) + |ds| == DirCountAll(ds)
    decreases ds, 0
  {
    if ds != [] {
      WalkListsFolders(path + [ds[0].name], ds[0]);
      WalkAllListsFolders(path, ds[1..]);
      ListedAppend(Walk.Walk(Unpruned, path + [ds[0].name], ds[0]), WalkAll(Unpruned, path, ds[1..]));
    }
  }

  lemma {:induction false} WalkListsFiles(path: Path, d: DirNode)
    ensures |Entries(Walk.Walk(Unpruned, path, d))| == FileCount(d)
    decreases d, 1
  {
    WalkAllListsFiles(path, d.subdirs);
    EntriesAppend([Visit(path, d, Kept(Unpruned, d.subdirs))], WalkAll(Unpruned, path, d.subdirs));
  }

  lemma {:induction false} WalkAllListsFiles(path: Path, ds: seq<DirNode>)
    ensures |Entries(WalkAll(Unpruned, path, ds))| == FileCountAll(ds)
    decreases ds, 0
  {
    if ds != [] {
      WalkListsFiles(path + [ds[0].name], ds[0]);
      WalkAllListsFiles(path, ds[1..]);
      EntriesAppend(Walk.Walk(Unpruned, path + [ds[0].name], ds[0]), WalkAll(Unpruned, path, ds[1..]));
    }
  }

  /** The summary of a folder, as tallies over all of its files. */
  lemma SummarizeAsEntries(p: Policy, root: DirNode)
    ensures Summarize(p, Directory(root)) ==
      Some(TallyEntries(p, Bump(EmptyStats(), DirCount(root) - 1, FileCount(root)), AllEntries(root)))
  {
    TallyVisitsEntries(p, EmptyStats(), Walk.Walk(Unpruned, [], root));
    WalkListsFolders([], root);
    WalkListsFiles([], root);
  }

  // ---------------------------------------------------------------------
  // What the file tallies add up to
  // ---------------------------------------------------------------------

  /** Only a file with a readable size can be accepted. */
  lemma AcceptedAreSized(p: Policy, f: FileNode)
    requires FileAllowed(p, f)
    ensures f.size.Some?
  {
  }

  lemma {:induction false} TallyEntriesCounters(p: Policy, s: Stats, es: seq<Entry>)
    ensures var r := TallyEntries(p, s, es);
      && r.totalFolders == s.totalFolders
      && r.totalFiles == s.totalFiles
      && r.allowedFiles == s.allowedFiles + |Accepted(p, es)|
      && r.allowedFiles + r.excludedFiles == s.allowedFiles + s.excludedFiles + SizedCount(es)
      && r.totalSize == s.totalSize + SizeSum(es)
    decreases |es|
  {
    if es != [] {
      if FileAllowed(p, es[0].file) {
        AcceptedAreSized(p, es[0].file);
      }
      TallyEntriesCounters(p, TallyEntry(p, s, es[0]), es[1..]);
    }
  }

  /** The histogram counts, for each key, the readable files with that key, and lists no other key. */
  lemma {:induction false} TallyEntriesHistogram(p: Policy, s: Stats, es: seq<Entry>)
    ensures var r := TallyEntries(p, s, es);
      forall k :: Get(r.extensions, k) == Get(s.extensions, k) + ExtCount(es, k)
                  && (k in r.extensions <==> k in s.extensions || ExtCount(es, k) > 0)
    decreases |es|
  {
    if es != [] {
      var s1 := TallyEntry(p, s, es[0]);
      TallyEntriesHistogram(p, s1, es[1..]);
      forall k
        ensures Get(s1.extensions, k) == Get(s.extensions, k) + ExtCount([es[0]], k)
        ensures k in s1.extensions <==> k in s.extensions || ExtCount([es[0]], k) > 0
      {
        assert [es[0]][1..] == [];
      }
    }
  }

  /** Each readable file adds one to the histogram total. */
  lemma {:induction false} TallyEntriesTotal(p: Policy, s: Stats, es: seq<Entry>)
    ensures Total(TallyEntries(p, s, es).extensions) == Total(s.extensions) + SizedCount(es)
    decreases |es|
  {
    if es != [] {
      var s1 := TallyEntry(p, s, es[0]);
      if es[0].file.size.Some? {
        TotalIncrement(s.extensions, ExtKey(es[0].file.name));
        assert s1.extensions == s.extensions[ExtKey(es[0].file.name) := Get(s.extensions, ExtKey(es[0].file.name)) + 1];
      }
      TallyEntriesTotal(p, s1, es[1..]);
    }
  }

  /**
   * The largest size is the maximum of the sizes; the largest file changes
   * only on a strictly greater size, so it is the first file of that size.
   */
  lemma {:induction false} TallyEntriesLargest(p: Policy, s: Stats, es: seq<Entry>)
    ensures var r := TallyEntries(p, s, es);
      && r.largestSize == Max(s.largestSize, MaxSize(es))
      && r.largestFile == if MaxSize(es) > s.largestSize then FirstOfSize(es, MaxSize(es)) else s.largestFile
    decreases |es|
  {
    if es != [] {
      var s1 := TallyEntry(p, s, es[0]);
      TallyEntriesLargest(p, s1, es[1..]);
    }
  }

  /** A positive maximum is the size of some file. */
  lemma {:induction false} MaxSizeAttained(es: seq<Entry>)
    requires MaxSize(es) > 0
    ensures FirstOfSize(es, MaxSize(es)).Some?
  {
    if SizeOf(es[0]) < MaxSize(es[1..]) {
      MaxSizeAttained(es[1..]);
    }
  }

  /** No readable size exceeds the maximum. */
  lemma {:induction false} MaxSizeBounds(es: seq<Entry>, i: nat)
    requires i < |es| && es[i].file.size.Some?
    ensures es[i].file.size.value <= MaxSize(es)
  {
    if i > 0 {
      MaxSizeBounds(es[1..], i - 1);
    }
  }

  // ---------------------------------------------------------------------
  // The summary of a source
  // ---------------------------------------------------------------------

  /** A missing source gives `{}`; anything else that is not a folder gives the zeroed dictionary. */
  lemma SummarizeNonFolders(p: Policy)
    ensures Summarize(p, Missing) == None
    ensures Summarize(p, NotADirectory) == Some(EmptyStats())
  {
  }

  /** `total_folders` counts every folder below the root and `total_files` every file, nothing pruned. */
  lemma SummaryCountsEverything(p: Policy, root: DirNode)
    ensures Summarize(p, Directory(root)).Some?
    ensures Summarize(p, Directory(root)).value.totalFolders == DirCount(root) - 1
    ensures Summarize(p, Directory(root)).value.totalFiles == FileCount(root)
    ensures Summarize(p, Directory(root)).value.totalFiles == |AllEntries(root)|
  {
    SummarizeAsEntries(p, root);
    TallyEntriesCounters(p, Bump(EmptyStats(), DirCount(root) - 1, FileCount(root)), AllEntries(root));
    WalkListsFiles([], root);
  }

  /**
   * `allowed_files` counts the accepted files of the whole tree; allowed plus
   * excluded, and the histogram total, are the number of readable files;
   * `total_size` is the sum of their sizes.
   */
  lemma SummaryBalanced(p: Policy, root: DirNode)
    ensures Summarize(p, Directory(root)).Some?
    ensures var s := Summarize(p, Directory(root)).value;
      && s.allowedFiles == |Accepted(p, AllEntries(root))|
      && s.allowedFiles + s.excludedFiles == SizedCount(AllEntries(root))
      && Total(s.extensions) == SizedCount(AllEntries(root))
      && s.totalSize == SizeSum(AllEntries(root))
  {
    var b := Bump(EmptyStats(), DirCount(root) - 1, FileCount(root));
    SummarizeAsEntries(p, root);
    TallyEntriesCounters(p, b, AllEntries(root));
    TallyEntriesTotal(p, b, AllEntries(root));
    assert b.extensions == map[];
    assert Total(map[]) == 0;
  }

  /** The histogram has a key exactly for each extension a readable file has, with its number of files. */
  lemma SummaryHistogram(p: Policy, root: DirNode)
    ensures Summarize(p, Directory(root)).Some?
    ensures var s := Summarize(p, Directory(root)).value;
      forall k :: (k in s.extensions <==> ExtCount(AllEntries(root), k) > 0)
                  && Get(s.extensions, k) == ExtCount(AllEntries(root), k)
  {
    SummarizeAsEntries(p, root);
    TallyEntriesHistogram(p, Bump(EmptyStats(), DirCount(root) - 1, FileCount(root)), AllEntries(root));
  }

  /**
   * `largest_size` is the greatest readable size; `largest_file` is the
   * first file of that size in walk order, and stays None when no file has
   * a positive size.
   */
  lemma SummaryLargest(p: Policy, root: DirNode)
    ensures Summarize(p, Directory(root)).Some?
    ensures var s := Summarize(p, Directory(root)).value;
      && s.largestSize == MaxSize(AllEntries(root))
      && s.largestFile == (if s.largestSize > 0 then FirstOfSize(AllEntries(root), s.largestSize) else None)
      && (s.largestSize > 0 ==> s.largestFile.Some?)
      && forall i :: 0 <= i < |AllEntries(root)| && AllEntries(root)[i].file.size.Some? ==>
           AllEntries(root)[i].file.size.value <= s.largestSize
  {
    SummarizeAsEntries(p, root);
    var es := AllEntries(root);
    TallyEntriesLargest(p, Bump(EmptyStats(), DirCount(root) - 1, FileCount(root)), es);
    if MaxSize(es) > 0 {
      MaxSizeAttained(es);
    }
    forall i | 0 <= i < |es| && es[i].file.size.Some?
      ensures es[i].file.size.value <= MaxSize(es)
    {
      MaxSizeBounds(es, i);
    }
  }

  /**
   * Ties keep the first file: the file reported for a size is the one of
   * that size that comes first in walk order.
   */
  lemma {:induction false} FirstOfSizeIsFirst(es: seq<Entry>, n: nat, i: nat)
    requires i < |es| && es[i].file.size == Some(n)
    ensures exists j :: 0 <= j <= i && es[j].file.size == Some(n)
              && (forall m :: 0 <= m < j ==> es[m].file.size != Some(n))
              && FirstOfSize(es, n) == Some(RelFile(es[j].path, es[j].file.name))
  {
    if es[0].file.size != Some(n) {
      FirstOfSizeIsFirst(es[1..], n, i - 1);
      var j :| 0 <= j <= i - 1 && es[1..][j].file.size == Some(n)
                && (forall m :: 0 <= m < j ==> es[1..][m].file.size != Some(n))
                && FirstOfSize(es[1..], n) == Some(RelFile(es[1..][j].path, es[1..][j].file.name));
      forall m | 0 <= m < j + 1
        ensures es[m].file.size != Some(n)
      {
        if m > 0 {
          assert es[m] == es[1..][m - 1];
        }
      }
      assert es[j + 1] == es[1..][j];
    }
  }

  lemma {:induction false} AcceptedReachableFewer(p: Policy, es: seq<Entry>)
    ensures |Accepted(p, ReachableOnly(p, es))| <= |Accepted(p, es)|
  {
    if es != [] {
      AcceptedReachableFewer(p, es[1..]);
      AcceptedAppend(p, if Reachable(p, es[0].path) then [es[0]] else [], ReachableOnly(p, es[1..]));
    }
  }

  /**
   * The summary does not prune: its `allowed_files` is at least what
   * `count_files` reports, and the two agree when no folder name is excluded.
   */
  lemma SummaryAllowedBoundsCount(p: Policy, root: DirNode)
    ensures Summarize(p, Directory(root)).Some?
    ensures |Candidates(p, Directory(root))| <= Summarize(p, Directory(root)).value.allowedFiles
    ensures p.excludedFolders == [] ==>
      |Candidates(p, Directory(root))| == Summarize(p, Directory(root)).value.allowedFiles
  {
    SummaryBalanced(p, root);
    CandidatesAreEligible(p, Directory(root));
    AcceptedReachableFewer(p, AllEntries(root));
    if p.excludedFolders == [] {
      ReachableOnlyKeepsAll(p, AllEntries(root));
    }
  }
}
