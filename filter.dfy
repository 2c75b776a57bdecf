/**
 * The filter policy of `FileExtractor`: which files and which folders take
 * part in an extraction. Both checks look only at basenames, the lower-cased
 * `splitext` extension and the file size.
 */
module FilterPolicy {
  import opened Wrappers
  import opened FileSystem
  import opened PathNames
  import opened Text
  import Config

  /** The policy fields `FileExtractor.__init__` copies from the defaults. */
  datatype Policy = Policy(
    excludedFiles: seq<string>,
    excludedFolders: seq<string>,
    allowedExtensions: seq<string>,
    maxFileSize: int)

  /** The policy a fresh extractor starts with; the size bound is in bytes. */
  function DefaultPolicy(): (p: Policy)
    ensures p.maxFileSize == 10_485_760
  {
    Policy(Config.DefaultExcludedFiles, Config.DefaultExcludedFolders,
           Config.DefaultAllowedExtensions, Config.MaxFileSizeMb * 1024 * 1024)
  }

  /** `is_file_allowed`: not excluded by name, an allowed extension, a readable size within the bound. */
  predicate FileAllowed(p: Policy, f: FileNode)
    ensures FileAllowed(p, f) ==>
      f.name !in p.excludedFiles && Lower(Ext(f.name)) in p.allowedExtensions &&
      f.size.Some? && f.size.value <= p.maxFileSize
  {
    if f.name in p.excludedFiles then false
    else if Lower(Ext(f.name)) !in p.allowedExtensions then false
    else match f.size
      case None => false
      case Some(n) => !(n > p.maxFileSize)
  }

  /** `is_folder_allowed`: the basename is not an excluded folder name. */
  predicate FolderAllowed(p: Policy, name: string)
  {
    name !in p.excludedFolders
  }

  /** An excluded basename is rejected whatever its extension and size. */
  lemma ExcludedNameRejected(p: Policy, f: FileNode)
    requires f.name in p.excludedFiles
    ensures !FileAllowed(p, f)
  {
  }

  /** Acceptance depends on the extension only through its lower-cased form. */
  lemma ExtensionCaseInsensitive(p: Policy, f: FileNode, g: FileNode)
    requires f.size == g.size
    requires (f.name in p.excludedFiles) == (g.name in p.excludedFiles)
    requires Lower(Ext(f.name)) == Lower(Ext(g.name))
    ensures FileAllowed(p, f) == FileAllowed(p, g)
  {
  }

  /**
   * A name with no dot after its first non-dot character (`Makefile`,
   * `.gitignore`, `...`) has the empty extension, so it is rejected by any
   * policy that does not list the empty extension.
   */
  lemma NameWithoutExtensionRejected(p: Policy, f: FileNode)
    requires "" !in p.allowedExtensions
    requires forall j, i :: 0 <= j < i < |f.name| && f.name[j] != '.' ==> f.name[i] != '.'
    ensures Ext(f.name) == ""
    ensures !FileAllowed(p, f)
  {
    ExtCharacterised(f.name);
  }

  /**
   * Past the name and extension checks, a file is accepted exactly when its
   * size can be read and is at most the bound: equal is accepted, one byte
   * more is rejected, and an unreadable size is a rejection.
   */
  lemma SizeBoundInclusive(p: Policy, f: FileNode)
    requires f.name !in p.excludedFiles
    requires Lower(Ext(f.name)) in p.allowedExtensions
    ensures FileAllowed(p, f) <==> f.size.Some? && f.size.value <= p.maxFileSize
  {
  }

  /** A folder is pruned exactly when its basename is listed. */
  lemma FolderExcludedIff(p: Policy, name: string)
    ensures !FolderAllowed(p, name) <==> name in p.excludedFolders
  {
  }

  predicate WellFormedExtension(e: string)
  {
    |e| > 0 && e[0] == '.' && IsLower(e)
  }

  /**
   * Every default extension is non-empty, starts with a dot and is already
   * lower case, so the lower-cased `splitext` extension can match it; in
   * particular the empty extension is not allowed.
   */
  lemma DefaultExtensionsWellFormed()
    ensures forall i | 0 <= i < |Config.DefaultAllowedExtensions| ::
      WellFormedExtension(Config.DefaultAllowedExtensions[i])
    ensures "" !in Config.DefaultAllowedExtensions
  {
    ExtensionsWellFormedFirstHalf();
    ExtensionsWellFormedSecondHalf();
  }

  lemma ExtensionsWellFormedFirstHalf()
    ensures forall i | 0 <= i < 22 :: WellFormedExtension(Config.DefaultAllowedExtensions[i])
  {
    var d := Config.DefaultAllowedExtensions;
    forall i | 0 <= i < 22 ensures WellFormedExtension(d[i]) {
      if i < 11 {} else {}
    }
  }

  lemma ExtensionsWellFormedSecondHalf()
    ensures forall i | 22 <= i < |Config.DefaultAllowedExtensions| :: WellFormedExtension(Config.DefaultAllowedExtensions[i])
  {
    var d := Config.DefaultAllowedExtensions;
    forall i | 22 <= i < |d| ensures WellFormedExtension(d[i]) {
      if i < 33 {} else {}
    }
  }

  /** The `splitext` extension of a name whose last dot is at index `k`, preceded by a non-dot. */
  lemma ExtAt(name: string, k: nat)
    requires k < |name| && name[k] == '.' && name[0] != '.'
    requires forall j :: k < j < |name| ==> name[j] != '.'
    ensures Ext(name) == name[k..]
  {
    assert name[..k][0] == name[0];
  }

  /** `.json` is an allowed default extension, already in lower case. */
  lemma JsonAllowedByDefault()
    ensures Lower(".json") == ".json"
    ensures ".json" in Config.DefaultAllowedExtensions
  {
    LowerIsLower(".json");
    assert Config.DefaultAllowedExtensions[30] == ".json";
  }

  /**
   * `package-lock.json` has the allowed extension `.json` and is rejected
   * only because its basename is excluded.
   */
  lemma PackageLockRejectedByName(size: nat, data: Data)
    ensures Ext("package-lock.json") == ".json"
    ensures Lower(Ext("package-lock.json")) in Config.DefaultAllowedExtensions
    ensures !FileAllowed(DefaultPolicy(), FileNode("package-lock.json", Some(size), data))
  {
    ExtAt("package-lock.json", 12);
    JsonAllowedByDefault();
    assert Config.DefaultExcludedFiles[0] == "package-lock.json";
  }

  /** Another `.json` file of admissible size, such as `package.json`, is accepted. */
  lemma PackageJsonAccepted(size: nat, data: Data)
    requires size <= 10_485_760
    ensures FileAllowed(DefaultPolicy(), FileNode("package.json", Some(size), data))
  {
    var m := "package.json";
    ExtAt(m, 7);
    JsonAllowedByDefault();
    PackageJsonNotExcluded();
  }

  /** `package.json` is not an excluded name; `package-lock.json` is. */
  lemma PackageJsonNotExcluded()
    ensures "package.json" !in Config.DefaultExcludedFiles
  {
    var m := "package.json";
    forall i | 0 <= i < |Config.DefaultExcludedFiles| ensures Config.DefaultExcludedFiles[i] != m {
      assert |Config.DefaultExcludedFiles[i]| != |m| || Config.DefaultExcludedFiles[i][0] != m[0];
    }
  }

  /**
   * `Dockerfile` and `Makefile` have the empty extension, so the default
   * policy rejects them whatever their size, although `.dockerfile` and
   * `.makefile` are allowed extensions.
   */
  lemma DockerfileAndMakefileRejected(size: Option<nat>, data: Data)
    ensures ".dockerfile" in Config.DefaultAllowedExtensions
    ensures ".makefile" in Config.DefaultAllowedExtensions
    ensures !FileAllowed(DefaultPolicy(), FileNode("Dockerfile", size, data))
    ensures !FileAllowed(DefaultPolicy(), FileNode("Makefile", size, data))
  {
    DefaultExtensionsWellFormed();
    NameWithoutExtensionRejected(DefaultPolicy(), FileNode("Dockerfile", size, data));
    NameWithoutExtensionRejected(DefaultPolicy(), FileNode("Makefile", size, data));
  }

  /** The dependency, build and version-control folders are pruned by default. */
  lemma DefaultFoldersPruned()
    ensures !FolderAllowed(DefaultPolicy(), "node_modules")
    ensures !FolderAllowed(DefaultPolicy(), ".git")
    ensures !FolderAllowed(DefaultPolicy(), "__pycache__")
    ensures !FolderAllowed(DefaultPolicy(), "build")
    ensures !FolderAllowed(DefaultPolicy(), "venv")
  {
    var d := Config.DefaultExcludedFolders;
    assert d[0] == "node_modules" && d[1] == "__pycache__" && d[2] == ".git";
    assert d[5] == "build" && d[14] == "venv";
  }
}
