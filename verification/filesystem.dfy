/**
 The abstract filesystem the directory lister reads: a map from a path to a
 directory (with the names `read_dir` yields, in its order) or a file.
 */
module FileSystem {
  import opened Paths

  /** `readable` is false when `read_dir` fails on the directory. */
  datatype Node = Dir(children: seq<string>, readable: bool) | File

  type FS = map<Path, Node>

  /** `Path::is_dir`: false for files and for paths that do not exist. */
  predicate IsDir(fs: FS, p: Path)
  {
    p in fs && fs[p].Dir?
  }

  /** The names `read_dir(p)` yields; none when it fails. */
  function ReadDir(fs: FS, p: Path): (names: seq<string>)
    ensures |names| > 0 ==> IsDir(fs, p) && fs[p].readable
  {
    if p in fs && fs[p].Dir? && fs[p].readable then fs[p].children else []
  }

  /** `read_dir` never yields an empty name, `"."` or `".."`. */
  predicate ValidName(name: string)
  {
    name != "" && name != "." && name != ".."
  }

  predicate WellFormed(fs: FS)
  {
    forall p, name :: p in fs && name in ReadDir(fs, p) ==> ValidName(name)
  }
}
