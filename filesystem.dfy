/** An abstract filesystem: a path is the sequence of its segments, joining a
    relative path is concatenation, and the filesystem is the set of paths that
    currently exist. */
module FileSystem {

  type Path = seq<string>

  type FileSet = set<Path>

  /** `PathBuf::join` with a relative path: append its segments. */
  function Join(base: Path, rel: Path): Path {
    base + rel
  }

  /** `Path::exists`: the path names something present in the filesystem. */
  predicate Exists(fs: FileSet, p: Path) {
    p in fs
  }

  /** A real directory tree: every ancestor of an existing path exists too. */
  ghost predicate PrefixClosed(fs: FileSet) {
    forall p, k :: p in fs && 0 <= k <= |p| ==> p[..k] in fs
  }
}
