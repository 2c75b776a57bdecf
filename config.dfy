/** The default filter policy and processing constants of the application. */
module Config {

  /** Basenames of files that are never extracted (lockfiles, OS metadata). */
  const DefaultExcludedFiles: seq<string> := [
    "package-lock.json",
    "yarn.lock",
    "composer.lock",
    "Pipfile.lock",
    "poetry.lock",
    ".DS_Store",
    "Thumbs.db",
    "desktop.ini"
  ]

  /** Basenames of folders whose subtrees are pruned (dependencies, builds, VCS). */
  const DefaultExcludedFolders: seq<string> := [
    "node_modules",
    "__pycache__",
    ".git",
    ".svn",
    ".hg",
    "build",
    "dist",
    "target",
    "bin",
    "obj",
    ".vscode",
    ".idea",
    "vendor",
    ".env",
    "venv",
    "env",
    "virtualenv"
  ]

  /** Lower-case extensions, dot included, of the files that are extracted. */
  const DefaultAllowedExtensions: seq<string> := [
    ".py", ".js", ".jsx", ".ts", ".tsx", ".html", ".htm", ".css", ".scss", ".sass",
    ".less", ".java", ".c", ".cpp", ".cc", ".h", ".hpp", ".cs", ".php", ".rb",
    ".go", ".rs", ".swift", ".kt", ".scala", ".sh", ".bat", ".ps1", ".sql", ".xml",
    ".json", ".yaml", ".yml", ".toml", ".ini", ".cfg", ".conf", ".md", ".txt",
    ".dockerfile", ".makefile", ".vue", ".svelte"
  ]

  /** Largest file extracted, in mebibytes. */
  const MaxFileSizeMb: nat := 10

  /** Length of the prefix handed to the encoding detector. */
  const EncodingDetectionBytes: nat := 8192
}
