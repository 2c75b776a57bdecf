/**
 * `os.walk` as the extractor drives it: a top-down, pre-order traversal in
 * which the caller overwrites `dirs[:]` before the walker descends, so that a
 * pruned folder is never visited. The walker's pending work is a stack of
 * frames, as in Python's own implementation; `Walk` is the sequence of
 * `(root, dirs, files)` tuples it yields.
 */
module Walk {
  import opened FileSystem
  import opened FilterPolicy
  import opened PathNames

  /** Whether the caller prunes `dirs` (the extraction passes) or not (the summary). */
  datatype Pruning = Unpruned | PrunedBy(policy: Policy)
  {
    predicate Keeps(name: string)
    {
      Unpruned? || FolderAllowed(policy, name)
    }
  }

  /** One yielded tuple: the folder's path below the source, the folder, `dirs` after pruning. */
  datatype Visit = Visit(path: Path, dir: DirNode, kept: seq<DirNode>)

  /** A folder the walker has still to visit. */
  datatype Frame = Frame(path: Path, dir: DirNode)

  /** A file met by the walk, with the path of its folder. */
  datatype Entry = Entry(path: Path, file: FileNode)

  /** `dirs[:] = [d for d in dirs if is_folder_allowed(d)]`. */
  function Kept(pr: Pruning, ds: seq<DirNode>): seq<DirNode>
  {
    if ds == [] then [] else (if pr.Keeps(ds[0].name) then [ds[0]] else []) + Kept(pr, ds[1..])
  }

  /** The tuples yielded for the folder `d` at `path` and, pre-order, for the kept subfolders. */
  function Walk(pr: Pruning, path: Path, d: DirNode): seq<Visit>
    decreases d
  {
    [Visit(path, d, Kept(pr, d.subdirs))] + WalkAll(pr, path, d.subdirs)
  }

  function WalkAll(pr: Pruning, path: Path, ds: seq<DirNode>): seq<Visit>
    decreases ds
  {
    if ds == [] then []
    else (if pr.Keeps(ds[0].name) then Walk(pr, path + [ds[0].name], ds[0]) else []) + WalkAll(pr, path, ds[1..])
  }

  /** The walk of a whole source: nothing when it is not a folder. */
  function WalkSource(pr: Pruning, src: Source): seq<Visit>
  {
    if src.Directory? then Walk(pr, [], src.root) else []
  }

  /** The frames pushed for the kept subfolders of the folder at `path`. */
  function Frames(path: Path, ds: seq<DirNode>): seq<Frame>
  {
    if ds == [] then [] else [Frame(path + [ds[0].name], ds[0])] + Frames(path, ds[1..])
  }

  /** What the walker yields from a stack of pending frames, top first. */
  function WalkStack(pr: Pruning, st: seq<Frame>): seq<Visit>
  {
    if st == [] then [] else Walk(pr, st[0].path, st[0].dir) + WalkStack(pr, st[1..])
  }

  /** The frames the walker starts with. */
  function InitialStack(src: Source): (st: seq<Frame>)
  {
    if src.Directory? then [Frame([], src.root)] else []
  }

  lemma InitialStackWalk(pr: Pruning, src: Source)
    ensures WalkStack(pr, InitialStack(src)) == WalkSource(pr, src)
  {
    if src.Directory? {
      assert WalkStack(pr, InitialStack(src)) == Walk(pr, [], src.root) + WalkStack(pr, []);
    }
  }

  /** Pushing the kept subfolders' frames yields their walks before the rest of the stack. */
  lemma {:induction false} PushFrames(pr: Pruning, path: Path, ds: seq<DirNode>, rest: seq<Frame>)
    ensures WalkStack(pr, Frames(path, Kept(pr, ds)) + rest) == WalkAll(pr, path, ds) + WalkStack(pr, rest)
    decreases ds
  {
    if ds == [] {
      assert Frames(path, Kept(pr, ds)) + rest == rest;
    } else {
      PushFrames(pr, path, ds[1..], rest);
      if pr.Keeps(ds[0].name) {
        PushKeptFrame(pr, path, ds, rest);
      } else {
        PushPrunedFrame(pr, path, ds, rest);
      }
    }
  }

  /** The inductive step of PushFrames for a pruned first subfolder. */
  lemma PushPrunedFrame(pr: Pruning, path: Path, ds: seq<DirNode>, rest: seq<Frame>)
    requires ds != [] && !pr.Keeps(ds[0].name)
    requires WalkStack(pr, Frames(path, Kept(pr, ds[1..])) + rest) == WalkAll(pr, path, ds[1..]) + WalkStack(pr, rest)
    ensures WalkStack(pr, Frames(path, Kept(pr, ds)) + rest) == WalkAll(pr, path, ds) + WalkStack(pr, rest)
  {
    assert Kept(pr, ds) == Kept(pr, ds[1..]);
    assert WalkAll(pr, path, ds) == WalkAll(pr, path, ds[1..]);
  }

  /** The inductive step of PushFrames for a kept first subfolder. */
  lemma PushKeptFrame(pr: Pruning, path: Path, ds: seq<DirNode>, rest: seq<Frame>)
    requires ds != [] && pr.Keeps(ds[0].name)
    requires WalkStack(pr, Frames(path, Kept(pr, ds[1..])) + rest) == WalkAll(pr, path, ds[1..]) + WalkStack(pr, rest)
    ensures WalkStack(pr, Frames(path, Kept(pr, ds)) + rest) == WalkAll(pr, path, ds) + WalkStack(pr, rest)
  {
    var f := Frame(path + [ds[0].name], ds[0]);
    var tail := Frames(path, Kept(pr, ds[1..]));
    assert Kept(pr, ds) == [ds[0]] + Kept(pr, ds[1..]);
    FramesCons(path, ds[0], Kept(pr, ds[1..]));
    assert Frames(path, Kept(pr, ds)) + rest == [f] + (tail + rest);
    WalkStackCons(pr, f, tail + rest);
    var w := Walk(pr, f.path, f.dir);
    assert WalkAll(pr, path, ds) == w + WalkAll(pr, path, ds[1..]);
    Associative(w, WalkAll(pr, path, ds[1..]), WalkStack(pr, rest));
  }

  lemma Associative<T>(a: seq<T>, b: seq<T>, c: seq<T>)
    ensures a + (b + c) == (a + b) + c
  {
  }

  lemma FramesCons(path: Path, d: DirNode, ds: seq<DirNode>)
    ensures Frames(path, [d] + ds) == [Frame(path + [d.name], d)] + Frames(path, ds)
  {
    assert ([d] + ds)[0] == d && ([d] + ds)[1..] == ds;
  }

  lemma WalkStackCons(pr: Pruning, f: Frame, st: seq<Frame>)
    ensures WalkStack(pr, [f] + st) == Walk(pr, f.path, f.dir) + WalkStack(pr, st)
  {
    assert ([f] + st)[0] == f && ([f] + st)[1..] == st;
  }

  /**
   * One step of the walker: popping the top frame yields its tuple, and the
   * frames of its kept subfolders go on top of the remaining stack.
   */
  lemma PopFrame(pr: Pruning, st: seq<Frame>)
    requires st != []
    ensures var f := st[0];
      WalkStack(pr, st) ==
        [Visit(f.path, f.dir, Kept(pr, f.dir.subdirs))] +
        WalkStack(pr, Frames(f.path, Kept(pr, f.dir.subdirs)) + st[1..])
  {
    var f := st[0];
    PushFrames(pr, f.path, f.dir.subdirs, st[1..]);
  }

  /** The files of one folder, in listing order. */
  function FileEntries(path: Path, fs: seq<FileNode>): (es: seq<Entry>)
    ensures |es| == |fs|
    ensures forall i :: 0 <= i < |fs| ==> es[i] == Entry(path, fs[i])
  {
    if fs == [] then [] else [Entry(path, fs[0])] + FileEntries(path, fs[1..])
  }

  /** The files of the visited folders, in walk order. */
  function Entries(vs: seq<Visit>): seq<Entry>
  {
    if vs == [] then [] else FileEntries(vs[0].path, vs[0].dir.files) + Entries(vs[1..])
  }

  lemma {:induction false} EntriesAppend(a: seq<Visit>, b: seq<Visit>)
    ensures Entries(a + b) == Entries(a) + Entries(b)
  {
    if a == [] {
      assert a + b == b;
    } else {
      assert (a + b)[0] == a[0];
      assert (a + b)[1..] == a[1..] + b;
      EntriesAppend(a[1..], b);
    }
  }

  /** The entries whose file `is_file_allowed` accepts, in order. */
  function Accepted(p: Policy, es: seq<Entry>): seq<Entry>
  {
    if es == [] then [] else (if FileAllowed(p, es[0].file) then [es[0]] else []) + Accepted(p, es[1..])
  }

  lemma {:induction false} AcceptedAppend(p: Policy, a: seq<Entry>, b: seq<Entry>)
    ensures Accepted(p, a + b) == Accepted(p, a) + Accepted(p, b)
  {
    if a == [] {
      assert a + b == b;
    } else {
      assert (a + b)[0] == a[0];
      assert (a + b)[1..] == a[1..] + b;
      AcceptedAppend(p, a[1..], b);
    }
  }

  /** Every folder on the path passes `is_folder_allowed`. */
  predicate Reachable(p: Policy, path: Path)
  {
    forall i :: 0 <= i < |path| ==> FolderAllowed(p, path[i])
  }

  /** The entries none of whose folders below the source is excluded. */
  function ReachableOnly(p: Policy, es: seq<Entry>): seq<Entry>
  {
    if es == [] then [] else (if Reachable(p, es[0].path) then [es[0]] else []) + ReachableOnly(p, es[1..])
  }

  lemma {:induction false} ReachableOnlyAppend(p: Policy, a: seq<Entry>, b: seq<Entry>)
    ensures ReachableOnly(p, a + b) == ReachableOnly(p, a) + ReachableOnly(p, b)
  {
    if a == [] {
      assert a + b == b;
    } else {
      assert (a + b)[0] == a[0];
      assert (a + b)[1..] == a[1..] + b;
      ReachableOnlyAppend(p, a[1..], b);
    }
  }

  lemma {:induction false} ReachableOnlyKeepsAll(p: Policy, es: seq<Entry>)
    requires forall i :: 0 <= i < |es| ==> Reachable(p, es[i].path)
    ensures ReachableOnly(p, es) == es
  {
    if es != [] {
      ReachableOnlyKeepsAll(p, es[1..]);
    }
  }

  lemma {:induction false} ReachableOnlyDropsAll(p: Policy, es: seq<Entry>)
    requires forall i :: 0 <= i < |es| ==> !Reachable(p, es[i].path)
    ensures ReachableOnly(p, es) == []
  {
    if es != [] {
      ReachableOnlyDropsAll(p, es[1..]);
    }
  }

  /** Every file met below the folder at `path` lies at `path` or deeper. */
  lemma {:induction false} EntriesBelow(pr: Pruning, path: Path, d: DirNode)
    ensures forall i :: 0 <= i < |Entries(Walk(pr, path, d))| ==>
      path <= Entries(Walk(pr, path, d))[i].path
    decreases d, 1
  {
    var head := [Visit(path, d, Kept(pr, d.subdirs))];
    EntriesAppend(head, WalkAll(pr, path, d.subdirs));
    assert Entries(head) == FileEntries(path, d.files) + Entries([]);
    EntriesBelowAll(pr, path, d.subdirs);
  }

  lemma {:induction false} EntriesBelowAll(pr: Pruning, path: Path, ds: seq<DirNode>)
    ensures forall i :: 0 <= i < |Entries(WalkAll(pr, path, ds))| ==>
      path <= Entries(WalkAll(pr, path, ds))[i].path
    decreases ds, 0
  {
    if ds != [] {
      var first := if pr.Keeps(ds[0].name) then Walk(pr, path + [ds[0].name], ds[0]) else [];
      EntriesAppend(first, WalkAll(pr, path, ds[1..]));
      EntriesBelowAll(pr, path, ds[1..]);
      if pr.Keeps(ds[0].name) {
        EntriesBelow(pr, path + [ds[0].name], ds[0]);
        forall i | 0 <= i < |Entries(first)| ensures path <= Entries(first)[i].path {
          assert path <= path + [ds[0].name];
        }
      }
    }
  }

  /** Every file of the unpruned tree, in walk order. */
  function AllEntries(d: DirNode): seq<Entry>
  {
    Entries(Walk(Unpruned, [], d))
  }

  /**
   * The files an extraction may touch, defined without the walker: the files
   * of the whole tree that are accepted and that have no excluded folder on
   * their path below the source.
   */
  function Eligible(p: Policy, d: DirNode): seq<Entry>
  {
    Accepted(p, ReachableOnly(p, AllEntries(d)))
  }

  /**
   * Pruning before descent hides exactly the subtrees of excluded folders:
   * below a reachable folder, the pruned walk meets the files of the full
   * walk that have no excluded folder on their path, in the same order.
   */
  lemma {:induction false} PrunedWalkEntries(p: Policy, path: Path, d: DirNode)
    requires Reachable(p, path)
    ensures Entries(Walk(PrunedBy(p), path, d)) == ReachableOnly(p, Entries(Walk(Unpruned, path, d)))
    decreases d, 1
  {
    var pr := PrunedBy(p);
    var here := FileEntries(path, d.files);
    EntriesAppend([Visit(path, d, Kept(pr, d.subdirs))], WalkAll(pr, path, d.subdirs));
    EntriesAppend([Visit(path, d, Kept(Unpruned, d.subdirs))], WalkAll(Unpruned, path, d.subdirs));
    assert Entries([Visit(path, d, Kept(pr, d.subdirs))]) == here + Entries([]);
    assert Entries([Visit(path, d, Kept(Unpruned, d.subdirs))]) == here + Entries([]);
    ReachableOnlyAppend(p, here, Entries(WalkAll(Unpruned, path, d.subdirs)));
    ReachableOnlyKeepsAll(p, here);
    PrunedWalkEntriesAll(p, path, d.subdirs);
  }

  lemma {:induction false} PrunedWalkEntriesAll(p: Policy, path: Path, ds: seq<DirNode>)
    requires Reachable(p, path)
    ensures Entries(WalkAll(PrunedBy(p), path, ds)) == ReachableOnly(p, Entries(WalkAll(Unpruned, path, ds)))
    decreases ds, 0
  {
    if ds != [] {
      var pr := PrunedBy(p);
      var sub := path + [ds[0].name];
      var full := Walk(Unpruned, sub, ds[0]);
      var first := if pr.Keeps(ds[0].name) then Walk(pr, sub, ds[0]) else [];
      EntriesAppend(first, WalkAll(pr, path, ds[1..]));
      EntriesAppend(full, WalkAll(Unpruned, path, ds[1..]));
      ReachableOnlyAppend(p, Entries(full), Entries(WalkAll(Unpruned, path, ds[1..])));
      PrunedWalkEntriesAll(p, path, ds[1..]);
      if pr.Keeps(ds[0].name) {
        assert Reachable(p, sub);
        PrunedWalkEntries(p, sub, ds[0]);
      } else {
        EntriesBelow(Unpruned, sub, ds[0]);
        forall i | 0 <= i < |Entries(full)| ensures !Reachable(p, Entries(full)[i].path) {
          var q := Entries(full)[i].path;
          assert sub <= q;
          assert q[|path|] == ds[0].name;
        }
        ReachableOnlyDropsAll(p, Entries(full));
        assert Entries(first) == [];
      }
    }
  }

  /**
   * The files the extraction passes consider are the eligible files: the
   * accepted files of the pruned walk are exactly the accepted files of the
   * whole tree that lie under no excluded folder, in the same order.
   */
  lemma PrunedWalkFindsEligible(p: Policy, d: DirNode)
    ensures Accepted(p, Entries(Walk(PrunedBy(p), [], d))) == Eligible(p, d)
  {
    PrunedWalkEntries(p, [], d);
  }

  /** No file below an excluded folder, at any depth, is among the eligible files. */
  lemma {:induction false} EligibleAvoidsExcluded(p: Policy, es: seq<Entry>)
    ensures forall i :: 0 <= i < |Accepted(p, ReachableOnly(p, es))| ==>
      var e := Accepted(p, ReachableOnly(p, es))[i];
      FileAllowed(p, e.file) && forall k :: 0 <= k < |e.path| ==> e.path[k] !in p.excludedFolders
  {
    if es != [] {
      EligibleAvoidsExcluded(p, es[1..]);
      var r := ReachableOnly(p, es[1..]);
      var head := if Reachable(p, es[0].path) then [es[0]] else [];
      AcceptedAppend(p, head, r);
      assert Accepted(p, head) == (if Reachable(p, es[0].path) && FileAllowed(p, es[0].file) then [es[0]] else []) + Accepted(p, []);
    }
  }

  /** The files `count_files` counts and `extract_content` tries: the accepted files of the pruned walk. */
  function Candidates(p: Policy, src: Source): seq<Entry>
  {
    Accepted(p, Entries(WalkSource(PrunedBy(p), src)))
  }

  /** Number of accepted files in one folder's listing. */
  function CountAllowed(p: Policy, fs: seq<FileNode>): nat
  {
    if fs == [] then 0 else (if FileAllowed(p, fs[0]) then 1 else 0) + CountAllowed(p, fs[1..])
  }

  lemma {:induction false} CountAllowedEntries(p: Policy, path: Path, fs: seq<FileNode>)
    ensures |Accepted(p, FileEntries(path, fs))| == CountAllowed(p, fs)
  {
    if fs != [] {
      CountAllowedEntries(p, path, fs[1..]);
      assert FileEntries(path, fs)[1..] == FileEntries(path, fs[1..]);
    }
  }

  /** Accepted files among the remaining visits: how many more files the folder loop can open. */
  function Remaining(p: Policy, vs: seq<Visit>): nat
  {
    |Accepted(p, Entries(vs))|
  }

  lemma RemainingSplit(p: Policy, vs: seq<Visit>)
    requires vs != []
    ensures Remaining(p, vs) == CountAllowed(p, vs[0].dir.files) + Remaining(p, vs[1..])
  {
    AcceptedAppend(p, FileEntries(vs[0].path, vs[0].dir.files), Entries(vs[1..]));
    CountAllowedEntries(p, vs[0].path, vs[0].dir.files);
  }

  /** The candidates are the eligible files of the source folder, and none for anything else. */
  lemma CandidatesAreEligible(p: Policy, src: Source)
    ensures Candidates(p, src) == if src.Directory? then Eligible(p, src.root) else []
  {
    if src.Directory? {
      PrunedWalkFindsEligible(p, src.root);
    }
  }
}
