/**
 * The directory tree the extractor walks, as a finite value. A folder holds
 * its files and its subfolders in the order the operating system lists them;
 * a file carries what `os.path.getsize` and `open(..., 'rb')` would give.
 */
module FileSystem {
  import opened Wrappers

  type byte = bv8

  /** What reading the file's bytes gives: the bytes, or the `OSError` text. */
  datatype Data = Readable(bytes: seq<byte>) | Unreadable(reason: string)

  /** A file entry: its basename, its size (None when `getsize` raises) and its bytes. */
  datatype FileNode = FileNode(name: string, size: Option<nat>, data: Data)

  /** A folder: its basename, its files and its subfolders, in listing order. */
  datatype DirNode = DirNode(name: string, files: seq<FileNode>, subdirs: seq<DirNode>)

  /** What `source_path` names: nothing, something that is not a folder, or a folder tree. */
  datatype Source = Missing | NotADirectory | Directory(root: DirNode)

  /** Number of folders in a tree, the root included. */
  function DirCount(d: DirNode): nat
    decreases d
  {
    1 + DirCountAll(d.subdirs)
  }

  function DirCountAll(ds: seq<DirNode>): nat
    decreases ds
  {
    if ds == [] then 0 else DirCount(ds[0]) + DirCountAll(ds[1..])
  }

  /** Number of files in a tree, at every depth. */
  function FileCount(d: DirNode): nat
    decreases d
  {
    |d.files| + FileCountAll(d.subdirs)
  }

  function FileCountAll(ds: seq<DirNode>): nat
    decreases ds
  {
    if ds == [] then 0 else FileCount(ds[0]) + FileCountAll(ds[1..])
  }
}
