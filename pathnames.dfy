/**
 * The path operations the extractor applies to basenames and to relative
 * paths: `os.path.splitext` on a basename, `os.path.join` of a directory
 * path and a name, and `os.path.relpath` of a folder or file below the
 * source root, with paths represented as sequences of name segments.
 */
module PathNames {
  import opened Wrappers

  /** A path below the source root, as its sequence of folder names. */
  type Path = seq<string>

  predicate AllDots(s: string)
  {
    forall i :: 0 <= i < |s| ==> s[i] == '.'
  }

  /** `name.rfind('.')`, as an option. */
  function LastDot(s: string): (r: Option<nat>)
    ensures r.Some? ==> r.value < |s| && s[r.value] == '.'
    ensures r.Some? ==> forall j :: r.value < j < |s| ==> s[j] != '.'
    ensures r.None? ==> forall j :: 0 <= j < |s| ==> s[j] != '.'
  {
    if s == [] then None
    else if s[|s| - 1] == '.' then Some(|s| - 1)
    else LastDot(s[..|s| - 1])
  }

  /**
   * `os.path.splitext` on a basename: the extension runs from the last dot to
   * the end, unless every character before that dot is itself a dot (a
   * leading run of dots, as in `.gitignore`), in which case it is empty.
   */
  function SplitExt(name: string): (string, string)
  {
    match LastDot(name)
    case None => (name, "")
    case Some(i) => if AllDots(name[..i]) then (name, "") else (name[..i], name[i..])
  }

  /** The extension part of `os.path.splitext(name)`. */
  function Ext(name: string): string
  {
    SplitExt(name).1
  }

  /** `root + ext == name`: splitting loses nothing. */
  lemma SplitExtRoundTrip(name: string)
    ensures SplitExt(name).0 + SplitExt(name).1 == name
  {
    match LastDot(name)
    case None =>
    case Some(i) =>
      if !AllDots(name[..i]) {
        assert name[..i] + name[i..] == name;
      }
  }

  /**
   * Characterisation of the extension without reference to the algorithm:
   * it is non-empty exactly when some dot has a non-dot before it, and then
   * it is the dot-led suffix that contains no further dot.
   */
  lemma ExtCharacterised(name: string)
    ensures var e := Ext(name);
      && (e != "" <==> exists i, j :: 0 <= j < i < |name| && name[i] == '.' && name[j] != '.')
      && (e != "" ==> e[0] == '.' && |e| <= |name| && e == name[|name| - |e|..]
                      && forall k :: 1 <= k < |e| ==> e[k] != '.')
  {
    var e := Ext(name);
    match LastDot(name)
    case None =>
    case Some(d) =>
      if AllDots(name[..d]) {
        forall i, j | 0 <= j < i < |name| && name[i] == '.' ensures name[j] == '.' {
          assert i <= d;
          assert name[..d][j] == name[j];
        }
      } else {
        var j :| 0 <= j < d && name[..d][j] != '.';
        assert name[j] != '.';
      }
  }

  /** `os.path.join(a, b)` for a relative `b` on a POSIX system. */
  function Join(a: string, b: string): (r: string)
  {
    if a == [] || a[|a| - 1] == '/' then a + b else a + "/" + b
  }

  /** Segments joined with the separator, as `os.path.join(*segs)`. */
  function JoinAll(segs: Path): string
  {
    if segs == [] then "" else if |segs| == 1 then segs[0] else Join(JoinAll(segs[..|segs| - 1]), segs[|segs| - 1])
  }

  /** `os.path.relpath(root, source_path)` for a folder at `path` below the source. */
  function RelDir(path: Path): string
  {
    if path == [] then "." else JoinAll(path)
  }

  /** `os.path.relpath(file_path, source_path)` for a file `name` in the folder at `path`. */
  function RelFile(path: Path, name: string): string
  {
    JoinAll(path + [name])
  }

  /** `os.path.join(root, file)` where `root` is the walked folder's full path. */
  function FullPath(source: string, path: Path, name: string): string
  {
    Join(FullDir(source, path), name)
  }

  /** The `root` that `os.walk(source)` yields for the folder at `path`. */
  function FullDir(source: string, path: Path): string
  {
    if path == [] then source else Join(FullDir(source, path[..|path| - 1]), path[|path| - 1])
  }
}
