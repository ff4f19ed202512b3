/**
 * The file system as the core sees it, as a value: which paths are directories, what each
 * regular file holds, and the names each directory lists, in the order the operating system
 * returns them (`iterdir`, `glob`).  Paths are strings joined with "/" and never normalised.
 */
module FileSystem {
  import opened Bytes

  type Path = string

  /** A regular file: its text as read in text mode, and its bytes as read in binary mode. */
  datatype FileData = FileData(text: string, bytes: seq<byte>)

  datatype Fs = Fs(dirs: set<Path>, files: map<Path, FileData>, listing: map<Path, seq<string>>)

  /** `path.exists()`. */
  predicate Exists(fs: Fs, p: Path) {
    p in fs.dirs || p in fs.files
  }

  /** `path.is_dir()`. */
  predicate IsDir(fs: Fs, p: Path) {
    p in fs.dirs
  }

  /** `path / name`. */
  function PathJoin(p: Path, name: string): (r: Path)
    ensures |r| == |p| + 1 + |name|
  {
    p + "/" + name
  }

  /** The names `iterdir()` yields for a directory, in order. */
  function Children(fs: Fs, p: Path): seq<string> {
    if p in fs.listing then fs.listing[p] else []
  }

  lemma JoinInjective(p: Path, a: string, b: string)
    requires PathJoin(p, a) == PathJoin(p, b)
    ensures a == b
  {
    assert a == PathJoin(p, a)[|p| + 1..];
  }
}
