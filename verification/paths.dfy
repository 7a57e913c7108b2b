/**
 Filesystem paths, as far as the file browser uses them.

 A path is an optional root (`"C:\\"` or `"/"`; the empty string for a
 relative path) followed by its name components. `Path("", [])` is the empty
 path. This reproduces the parent rules of Rust's `Path::parent`: a bare root
 has no parent, and a one-component relative path has the empty path as parent.
 */
module Paths {
  import opened Options

  datatype Path = Path(root: string, parts: seq<string>)

  const EmptyPath: Path := Path("", [])

  /** The synthetic `".."` entry the browser puts first in a listing. */
  const ParentMarker: Path := Path("", [".."])

  function Parent(p: Path): (r: Option<Path>)
    ensures r.None? <==> |p.parts| == 0
    ensures r.Some? ==> r.value.root == p.root && r.value.parts + [p.parts[|p.parts| - 1]] == p.parts
  {
    if |p.parts| == 0 then None else Some(Path(p.root, p.parts[..|p.parts| - 1]))
  }

  /** `dir.join(name)` for a plain entry name. */
  function Join(dir: Path, name: string): Path
  {
    Path(dir.root, dir.parts + [name])
  }

  /** The parent of a joined path is the directory it was joined to. */
  lemma ParentOfJoin(dir: Path, name: string)
    ensures Parent(Join(dir, name)) == Some(dir)
  {
    assert (dir.parts + [name])[..|dir.parts|] == dir.parts;
  }

  /** Distinct names give distinct entries of a directory. */
  lemma JoinInjective(dir: Path, a: string, b: string)
    requires Join(dir, a) == Join(dir, b)
    ensures a == b
  {
    assert Join(dir, a).parts[|dir.parts|] == a;
  }

  /** `Path::file_name`: the last component, unless it is `".."`. */
  function FileName(p: Path): (r: Option<string>)
    ensures r.Some? ==> |p.parts| > 0 && r.value == p.parts[|p.parts| - 1] && r.value != ".."
    ensures r.None? <==> |p.parts| == 0 || p.parts[|p.parts| - 1] == ".."
  {
    if |p.parts| == 0 || p.parts[|p.parts| - 1] == ".." then None else Some(p.parts[|p.parts| - 1])
  }

  /** Position of the last `'.'` in `s`, if any. */
  function LastDot(s: string): (r: Option<nat>)
    ensures r.Some? ==> r.value < |s| && s[r.value] == '.'
    ensures r.Some? ==> forall k :: r.value < k < |s| ==> s[k] != '.'
    ensures r.None? ==> forall k :: 0 <= k < |s| ==> s[k] != '.'
    decreases |s|
  {
    if |s| == 0 then None
    else if s[|s| - 1] == '.' then Some(|s| - 1)
    else LastDot(s[..|s| - 1])
  }

  /** `Path::extension` of a file name: the text after the last dot, unless
      the name is `".."`, has no dot, or has its only dot in front. */
  function Extension(name: string): Option<string>
  {
    if name == ".." then None
    else
      match LastDot(name)
      case None => None
      case Some(k) => if k == 0 then None else Some(name[k + 1..])
  }

  /** An extension is the text after a dot that is not the first character,
      with no dot after it; there is none exactly for `".."` and for names
      with no dot past the first character. */
  lemma ExtensionSpec(name: string)
    ensures Extension(name).Some? ==>
      var e := Extension(name).value;
      var k := |name| - |e| - 1;
      && 0 < k < |name| && name[k] == '.' && name[k + 1..] == e
      && forall j :: k < j < |name| ==> name[j] != '.'
    ensures Extension(name).None? <==> name == ".." || forall j :: 0 < j < |name| ==> name[j] != '.'
  {
    var d := LastDot(name);
    if name != ".." && d.Some? && d.value == 0 {
      assert forall j :: 0 < j < |name| ==> name[j] != '.';
    }
  }

  /** The filter of the listing: `path.extension() == Some("xml")`. */
  predicate IsXmlPath(p: Path)
  {
    FileName(p).Some? && Extension(FileName(p).value) == Some("xml")
  }

  /** A path passes the filter exactly when its last component is not `".."`
      and ends in `.xml` with something in front of the dot. */
  lemma IsXmlPathIffSuffix(p: Path)
    ensures IsXmlPath(p) <==>
      |p.parts| > 0 &&
      var n := p.parts[|p.parts| - 1];
      n != ".." && |n| > 4 && n[|n| - 4..] == ".xml"
  {
    if |p.parts| > 0 {
      XmlExtensionIffSuffix(p.parts[|p.parts| - 1]);
    }
  }

  /** A name has extension exactly `xml` iff it ends in `.xml` with something
      in front of the dot; the comparison is case-sensitive. */
  lemma XmlExtensionIffSuffix(name: string)
    ensures Extension(name) == Some("xml") <==> |name| > 4 && name[|name| - 4..] == ".xml"
  {
    var n := |name|;
    if Extension(name) == Some("xml") {
      var k := LastDot(name).value;
      assert name[k + 1..] == "xml";
      assert n == k + 4;
      assert name[n - 4..] == [name[k]] + name[k + 1..];
    }
    if n > 4 && name[n - 4..] == ".xml" {
      assert name[n - 4] == '.';
      assert name[n - 3] == 'x' && name[n - 2] == 'm' && name[n - 1] == 'l';
      var d := LastDot(name);
      assert d.Some?;
      assert d.value == n - 4;
      assert name != "..";
      assert name[n - 3..] == "xml";
    }
  }
}
