/**
 The directory lister (`App::load_directory`, src/main.rs): an optional `".."`
 entry, then the subdirectories sorted, then the `.xml` files sorted.
 */
module Listing {
  import opened Options
  import opened Paths
  import opened FileSystem
  import opened TextOrder

  /** Which of the three groups of a listing an entry belongs to. */
  datatype EntryKind = ParentEntry | DirEntry | FileEntry

  /** `name`, yielded by `read_dir(dir)`, goes into group `kind`: directories
      into the directory group, non-directories with extension `xml` into the
      file group, everything else nowhere. */
  predicate InGroup(fs: FS, dir: Path, kind: EntryKind, name: string)
  {
    match kind
    case ParentEntry => false
    case DirEntry => IsDir(fs, Join(dir, name))
    case FileEntry => !IsDir(fs, Join(dir, name)) && IsXmlPath(Join(dir, name))
  }

  /** The names of group `kind`, in the order `read_dir` yielded them. */
  function Group(fs: FS, dir: Path, kind: EntryKind, names: seq<string>): (r: seq<string>)
    ensures |r| <= |names|
    decreases |names|
  {
    if |names| == 0 then
      []
    else
      (if InGroup(fs, dir, kind, names[0]) then [names[0]] else []) + Group(fs, dir, kind, names[1..])
  }

  /** A group holds each name of the group as often as `read_dir` yielded
      it, and nothing else. */
  lemma {:induction false} GroupCount(fs: FS, dir: Path, kind: EntryKind, names: seq<string>, name: string)
    ensures multiset(Group(fs, dir, kind, names))[name] ==
      if InGroup(fs, dir, kind, name) then multiset(names)[name] else 0
    decreases |names|
  {
    if |names| > 0 {
      GroupCount(fs, dir, kind, names[1..], name);
      assert names == [names[0]] + names[1..];
    }
  }

  /** The `".."` entry is shown when the directory has a parent that is not
      the empty path. */
  predicate HasParentEntry(dir: Path)
  {
    match Parent(dir)
    case Some(p) => p != EmptyPath
    case None => false
  }

  function ParentPart(dir: Path): (r: seq<Path>)
    ensures |r| <= 1
  {
    if HasParentEntry(dir) then [ParentMarker] else []
  }

  function JoinAll(dir: Path, names: seq<string>): seq<Path>
  {
    seq(|names|, i requires 0 <= i < |names| => Join(dir, names[i]))
  }

  /** The listing built from the names `read_dir` yielded, in that order. */
  function ListNames(fs: FS, dir: Path, names: seq<string>): seq<Path>
  {
    ParentPart(dir) + JoinAll(dir, Sort(Group(fs, dir, DirEntry, names))) + JoinAll(dir, Sort(Group(fs, dir, FileEntry, names)))
  }

  function ListDirectory(fs: FS, dir: Path): seq<Path>
  {
    ListNames(fs, dir, ReadDir(fs, dir))
  }

  function KindOf(fs: FS, e: Path): EntryKind
  {
    if e == ParentMarker then ParentEntry else if IsDir(fs, e) then DirEntry else FileEntry
  }

  function Rank(k: EntryKind): nat
  {
    match k
    case ParentEntry => 0
    case DirEntry => 1
    case FileEntry => 2
  }

  /** The final name component of a listed entry. */
  function LastName(e: Path): string
  {
    if |e.parts| == 0 then "" else e.parts[|e.parts| - 1]
  }

  /** An entry `read_dir` yielded for `dir` that the browser shows. */
  predicate Shown(fs: FS, dir: Path, e: Path)
  {
    && Parent(e) == Some(dir)
    && LastName(e) in ReadDir(fs, dir)
    && (IsDir(fs, e) || IsXmlPath(e))
  }

  lemma GroupedFrom(fs: FS, dir: Path, kind: EntryKind, names: seq<string>, name: string)
    requires name in multiset(Sort(Group(fs, dir, kind, names)))
    ensures name in names && InGroup(fs, dir, kind, name)
  {
    GroupCount(fs, dir, kind, names, name);
    SortSpec(Group(fs, dir, kind, names));
    assert multiset(Group(fs, dir, kind, names))[name] > 0;
  }

  lemma GroupKeeps(fs: FS, dir: Path, kind: EntryKind, names: seq<string>, name: string)
    requires name in names && InGroup(fs, dir, kind, name)
    ensures name in Sort(Group(fs, dir, kind, names))
  {
    GroupCount(fs, dir, kind, names, name);
    SortSpec(Group(fs, dir, kind, names));
    assert multiset(names)[name] > 0;
    assert multiset(Sort(Group(fs, dir, kind, names)))[name] > 0;
  }

  /** The listing is the optional marker, then the directory group, then
      the file group. */
  lemma ListingParts(fs: FS, dir: Path)
    ensures var names := ReadDir(fs, dir);
      ListDirectory(fs, dir) == ParentPart(dir)
        + JoinAll(dir, Sort(Group(fs, dir, DirEntry, names)))
        + JoinAll(dir, Sort(Group(fs, dir, FileEntry, names)))
  {
  }

  lemma ListingLength(fs: FS, dir: Path)
    ensures var names := ReadDir(fs, dir);
      |ListDirectory(fs, dir)| ==
        |ParentPart(dir)| + |Sort(Group(fs, dir, DirEntry, names))| + |Sort(Group(fs, dir, FileEntry, names))|
  {
    ListingParts(fs, dir);
  }

  /** A directory with a non-empty parent lists the marker first. */
  lemma ListingMarkerAt(fs: FS, dir: Path)
    requires HasParentEntry(dir)
    ensures |ListDirectory(fs, dir)| > 0 && ListDirectory(fs, dir)[0] == ParentMarker
  {
    ListingParts(fs, dir);
  }

  /** Position `k` of the directory group, past the optional marker. */
  lemma ListingDirAt(fs: FS, dir: Path, k: nat)
    requires k < |Sort(Group(fs, dir, DirEntry, ReadDir(fs, dir)))|
    ensures var ds := Sort(Group(fs, dir, DirEntry, ReadDir(fs, dir)));
      |ParentPart(dir)| + k < |ListDirectory(fs, dir)| &&
      ListDirectory(fs, dir)[|ParentPart(dir)| + k] == Join(dir, ds[k])
  {
    var names := ReadDir(fs, dir);
    var ds := Sort(Group(fs, dir, DirEntry, names));
    var xs := Sort(Group(fs, dir, FileEntry, names));
    var pp, jd, jx := ParentPart(dir), JoinAll(dir, ds), JoinAll(dir, xs);
    ListingParts(fs, dir);
    JoinAllAt(dir, ds, k);
    PartAt(pp, jd, jx, |pp| + k);
    assert ListDirectory(fs, dir)[|pp| + k] == jd[k];
  }

  /** Position `k` of the file group, past the marker and the directories. */
  lemma ListingFileAt(fs: FS, dir: Path, k: nat)
    requires k < |Sort(Group(fs, dir, FileEntry, ReadDir(fs, dir)))|
    ensures var ds := Sort(Group(fs, dir, DirEntry, ReadDir(fs, dir)));
      var xs := Sort(Group(fs, dir, FileEntry, ReadDir(fs, dir)));
      |ParentPart(dir)| + |ds| + k < |ListDirectory(fs, dir)| &&
      ListDirectory(fs, dir)[|ParentPart(dir)| + |ds| + k] == Join(dir, xs[k])
  {
    var names := ReadDir(fs, dir);
    var ds := Sort(Group(fs, dir, DirEntry, names));
    var xs := Sort(Group(fs, dir, FileEntry, names));
    var pp, jd, jx := ParentPart(dir), JoinAll(dir, ds), JoinAll(dir, xs);
    ListingParts(fs, dir);
    JoinAllAt(dir, ds, 0);
    JoinAllAt(dir, xs, k);
    PartAt(pp, jd, jx, |pp| + |jd| + k);
    assert ListDirectory(fs, dir)[|pp| + |ds| + k] == jx[k];
  }

  lemma JoinAllAt(dir: Path, names: seq<string>, k: nat)
    ensures |JoinAll(dir, names)| == |names|
    ensures k < |names| ==> JoinAll(dir, names)[k] == Join(dir, names[k])
  {
  }

  lemma PartAt<T>(a: seq<T>, b: seq<T>, c: seq<T>, i: nat)
    requires i < |a| + |b| + |c|
    ensures |a + b + c| == |a| + |b| + |c|
    ensures (a + b + c)[i] == if i < |a| then a[i] else if i < |a| + |b| then b[i - |a|] else c[i - |a| - |b|]
  {
  }

  /** The entry at position `i` past the `".."` marker: its group and name. */
  lemma EntryAt(fs: FS, dir: Path, i: nat)
    requires |ParentPart(dir)| <= i < |ListDirectory(fs, dir)|
    ensures var names := ReadDir(fs, dir);
      var r := ListDirectory(fs, dir);
      var pp := ParentPart(dir);
      var ds := Sort(Group(fs, dir, DirEntry, names));
      var xs := Sort(Group(fs, dir, FileEntry, names));
      var kind := if i < |pp| + |ds| then DirEntry else FileEntry;
      var name := if i < |pp| + |ds| then ds[i - |pp|] else xs[i - |pp| - |ds|];
      && r[i] == Join(dir, name)
      && name in names
      && InGroup(fs, dir, kind, name)
  {
    var names := ReadDir(fs, dir);
    var pp := ParentPart(dir);
    var ds := Sort(Group(fs, dir, DirEntry, names));
    var xs := Sort(Group(fs, dir, FileEntry, names));
    ListingLength(fs, dir);
    if i < |pp| + |ds| {
      ListingDirAt(fs, dir, i - |pp|);
      assert ds[i - |pp|] in multiset(ds);
      GroupedFrom(fs, dir, DirEntry, names, ds[i - |pp|]);
    } else {
      ListingFileAt(fs, dir, i - |pp| - |ds|);
      assert xs[i - |pp| - |ds|] in multiset(xs);
      GroupedFrom(fs, dir, FileEntry, names, xs[i - |pp| - |ds|]);
    }
  }

  /** Every entry is the `".."` marker in front or a shown entry of `dir`:
      no non-directory without the `xml` extension appears. */
  lemma ListingSound(fs: FS, dir: Path)
    ensures var r := ListDirectory(fs, dir);
      forall i :: 0 <= i < |r| ==> (i == 0 && r[i] == ParentMarker && HasParentEntry(dir)) || Shown(fs, dir, r[i])
  {
    var r := ListDirectory(fs, dir);
    var pp := ParentPart(dir);
    forall i | 0 <= i < |r|
      ensures (i == 0 && r[i] == ParentMarker && HasParentEntry(dir)) || Shown(fs, dir, r[i])
    {
      if i < |pp| {
        ListingMarkerAt(fs, dir);
      } else {
        EntryAt(fs, dir, i);
        ParentOfJoin(dir, r[i].parts[|r[i].parts| - 1]);
      }
    }
  }

  /** Every subdirectory and every `.xml` file `read_dir` yields is listed. */
  lemma ListingComplete(fs: FS, dir: Path, name: string)
    requires name in ReadDir(fs, dir)
    requires IsDir(fs, Join(dir, name)) || IsXmlPath(Join(dir, name))
    ensures Join(dir, name) in ListDirectory(fs, dir)
  {
    var names := ReadDir(fs, dir);
    var pp := ParentPart(dir);
    var ds := Sort(Group(fs, dir, DirEntry, names));
    var xs := Sort(Group(fs, dir, FileEntry, names));
    if IsDir(fs, Join(dir, name)) {
      GroupKeeps(fs, dir, DirEntry, names, name);
      var k :| 0 <= k < |ds| && ds[k] == name;
      ListingDirAt(fs, dir, k);
    } else {
      GroupKeeps(fs, dir, FileEntry, names, name);
      var k :| 0 <= k < |xs| && xs[k] == name;
      ListingFileAt(fs, dir, k);
    }
  }

  /** In a well-formed filesystem an entry past the `".."` marker is
      classified by its group. */
  lemma KindAt(fs: FS, dir: Path, i: nat)
    requires WellFormed(fs)
    requires |ParentPart(dir)| <= i < |ListDirectory(fs, dir)|
    ensures var names := ReadDir(fs, dir);
      var r := ListDirectory(fs, dir);
      var pp := ParentPart(dir);
      var ds := Sort(Group(fs, dir, DirEntry, names));
      var xs := Sort(Group(fs, dir, FileEntry, names));
      && KindOf(fs, r[i]) == (if i < |pp| + |ds| then DirEntry else FileEntry)
      && LastName(r[i]) == (if i < |pp| + |ds| then ds[i - |pp|] else xs[i - |pp| - |ds|])
  {
    var names := ReadDir(fs, dir);
    var pp := ParentPart(dir);
    var ds := Sort(Group(fs, dir, DirEntry, names));
    var xs := Sort(Group(fs, dir, FileEntry, names));
    ListingLength(fs, dir);
    if i < |pp| + |ds| {
      ListingDirAt(fs, dir, i - |pp|);
      KindInGroup(fs, dir, DirEntry, i - |pp|);
    } else {
      ListingFileAt(fs, dir, i - |pp| - |ds|);
      KindInGroup(fs, dir, FileEntry, i - |pp| - |ds|);
    }
  }

  /** The `k`-th name of a group, joined to the directory, is classified by
      that group and keeps its name. */
  lemma KindInGroup(fs: FS, dir: Path, kind: EntryKind, k: nat)
    requires WellFormed(fs)
    requires kind != ParentEntry
    requires k < |Sort(Group(fs, dir, kind, ReadDir(fs, dir)))|
    ensures var name := Sort(Group(fs, dir, kind, ReadDir(fs, dir)))[k];
      KindOf(fs, Join(dir, name)) == kind && LastName(Join(dir, name)) == name
  {
    var names := ReadDir(fs, dir);
    var name := Sort(Group(fs, dir, kind, names))[k];
    assert name in multiset(Sort(Group(fs, dir, kind, names)));
    GroupedFrom(fs, dir, kind, names, name);
    assert ValidName(name);
    JoinedName(dir, name);
  }

  /** A valid name joined to a directory is the last component of the
      result, which is never the `".."` marker. */
  lemma JoinedName(dir: Path, name: string)
    requires ValidName(name)
    ensures LastName(Join(dir, name)) == name
    ensures Join(dir, name) != ParentMarker
  {
    var e := Join(dir, name);
    assert e.parts[|dir.parts|] == name;
    assert LastName(ParentMarker) == "..";
  }

  /** The filter of the listing on a child `dir.join(name)` looks at the
      name alone: it passes exactly when the name ends in `.xml` with
      something in front of the dot. */
  lemma JoinedXml(dir: Path, name: string)
    requires ValidName(name)
    ensures IsXmlPath(Join(dir, name)) <==> |name| > 4 && name[|name| - 4..] == ".xml"
  {
    assert Join(dir, name).parts[|dir.parts|] == name;
    IsXmlPathIffSuffix(Join(dir, name));
  }

  lemma RankInMarker(fs: FS, dir: Path, i: nat)
    requires i < |ListDirectory(fs, dir)| && i < |ParentPart(dir)|
    ensures Rank(KindOf(fs, ListDirectory(fs, dir)[i])) == 0
  {
    ListingMarkerAt(fs, dir);
  }

  lemma RankInGroups(fs: FS, dir: Path, i: nat)
    requires WellFormed(fs)
    requires |ParentPart(dir)| <= i < |ListDirectory(fs, dir)|
    ensures var pp := ParentPart(dir);
      var ds := Sort(Group(fs, dir, DirEntry, ReadDir(fs, dir)));
      Rank(KindOf(fs, ListDirectory(fs, dir)[i])) == if i < |pp| + |ds| then 1 else 2
  {
    KindAt(fs, dir, i);
  }

  /** The rank of an entry depends only on its position: marker, then the
      directory group, then the file group. */
  lemma RankAt(fs: FS, dir: Path, i: nat)
    requires WellFormed(fs)
    requires i < |ListDirectory(fs, dir)|
    ensures var pp := ParentPart(dir);
      var ds := Sort(Group(fs, dir, DirEntry, ReadDir(fs, dir)));
      Rank(KindOf(fs, ListDirectory(fs, dir)[i])) == if i < |pp| then 0 else if i < |pp| + |ds| then 1 else 2
  {
    if i < |ParentPart(dir)| {
      RankInMarker(fs, dir, i);
    } else {
      RankInGroups(fs, dir, i);
    }
  }

  /** `".."` is first exactly when the directory has a non-empty parent. */
  lemma ListingMarkerFirst(fs: FS, dir: Path)
    requires WellFormed(fs)
    ensures var r := ListDirectory(fs, dir);
      (|r| > 0 && r[0] == ParentMarker) <==> HasParentEntry(dir)
  {
    var r := ListDirectory(fs, dir);
    if HasParentEntry(dir) {
      ListingMarkerAt(fs, dir);
    } else if |r| > 0 {
      KindAt(fs, dir, 0);
    }
  }

  /** The marker comes first, then every directory, then every file. */
  lemma ListingGrouped(fs: FS, dir: Path)
    requires WellFormed(fs)
    ensures var r := ListDirectory(fs, dir);
      forall i, j :: 0 <= i < j < |r| ==> Rank(KindOf(fs, r[i])) <= Rank(KindOf(fs, r[j]))
  {
    var r := ListDirectory(fs, dir);
    forall i, j | 0 <= i < j < |r|
      ensures Rank(KindOf(fs, r[i])) <= Rank(KindOf(fs, r[j]))
    {
      RankAt(fs, dir, i);
      RankAt(fs, dir, j);
    }
  }

  /** Within the directory group and within the file group, entries are in
      name order; the marker occurs at most once. */
  lemma ListingGroupsSorted(fs: FS, dir: Path)
    requires WellFormed(fs)
    ensures var r := ListDirectory(fs, dir);
      forall i, j :: 0 <= i < j < |r| && KindOf(fs, r[i]) == KindOf(fs, r[j]) ==>
        KindOf(fs, r[i]) != ParentEntry && StrLe(LastName(r[i]), LastName(r[j]))
  {
    var r := ListDirectory(fs, dir);
    forall i, j | 0 <= i < j < |r| && KindOf(fs, r[i]) == KindOf(fs, r[j])
      ensures KindOf(fs, r[i]) != ParentEntry && StrLe(LastName(r[i]), LastName(r[j]))
    {
      SameKindSorted(fs, dir, i, j);
    }
  }

  /** Two entries of the same kind, in listing order, are not markers and
      are in name order. */
  lemma SameKindSorted(fs: FS, dir: Path, i: nat, j: nat)
    requires WellFormed(fs)
    requires i < j < |ListDirectory(fs, dir)|
    ensures var r := ListDirectory(fs, dir);
      KindOf(fs, r[i]) == KindOf(fs, r[j]) ==>
        KindOf(fs, r[i]) != ParentEntry && StrLe(LastName(r[i]), LastName(r[j]))
  {
    var r := ListDirectory(fs, dir);
    if KindOf(fs, r[i]) != KindOf(fs, r[j]) {
      return;
    }
    var names := ReadDir(fs, dir);
    var pp := ParentPart(dir);
    var ds := Sort(Group(fs, dir, DirEntry, names));
    var xs := Sort(Group(fs, dir, FileEntry, names));
    RankAt(fs, dir, i);
    RankAt(fs, dir, j);
    ListingLength(fs, dir);
    if j < |pp| + |ds| {
      GroupSorted(fs, dir, DirEntry, i, j);
    } else {
      GroupSorted(fs, dir, FileEntry, i, j);
    }
  }

  /** Two entries of one group, in listing order, are in name order. */
  lemma GroupSorted(fs: FS, dir: Path, kind: EntryKind, i: nat, j: nat)
    requires WellFormed(fs)
    requires kind != ParentEntry
    requires var names := ReadDir(fs, dir);
      var start := |ParentPart(dir)| + (if kind == DirEntry then 0 else |Sort(Group(fs, dir, DirEntry, names))|);
      start <= i < j < start + |Sort(Group(fs, dir, kind, names))|
    ensures var r := ListDirectory(fs, dir);
      && j < |r|
      && KindOf(fs, r[i]) == kind
      && StrLe(LastName(r[i]), LastName(r[j]))
  {
    var names := ReadDir(fs, dir);
    var start := |ParentPart(dir)| + (if kind == DirEntry then 0 else |Sort(Group(fs, dir, DirEntry, names))|);
    var gs := Sort(Group(fs, dir, kind, names));
    var r := ListDirectory(fs, dir);
    var a, b := i - start, j - start;
    if kind == DirEntry {
      ListingDirAt(fs, dir, a);
      ListingDirAt(fs, dir, b);
      assert r[i] == Join(dir, gs[a]) && r[j] == Join(dir, gs[b]);
    } else {
      assert kind == FileEntry;
      ListingFileAt(fs, dir, a);
      ListingFileAt(fs, dir, b);
      assert r[i] == Join(dir, gs[a]) && r[j] == Join(dir, gs[b]);
    }
    KindInGroup(fs, dir, kind, a);
    KindInGroup(fs, dir, kind, b);
    SortSpec(Group(fs, dir, kind, names));
    SortedPairs(gs, a, b);
  }

  /** `".."` is first exactly when the directory has a non-empty parent;
      then come the directories, then the files, each group in name order. */
  lemma ListingOrdered(fs: FS, dir: Path)
    requires WellFormed(fs)
    ensures var r := ListDirectory(fs, dir);
      && ((|r| > 0 && r[0] == ParentMarker) <==> HasParentEntry(dir))
      && (forall i, j :: 0 <= i < j < |r| ==> Rank(KindOf(fs, r[i])) <= Rank(KindOf(fs, r[j])))
      && (forall i, j :: 0 <= i < j < |r| && KindOf(fs, r[i]) == KindOf(fs, r[j]) ==>
            KindOf(fs, r[i]) != ParentEntry && StrLe(LastName(r[i]), LastName(r[j])))
  {
    ListingMarkerFirst(fs, dir);
    ListingGrouped(fs, dir);
    ListingGroupsSorted(fs, dir);
  }

  /** The listing does not depend on the order `read_dir` yields names in,
      so listing an unchanged directory twice gives the same entries. */
  lemma ListingOrderIndependent(fs: FS, dir: Path, names1: seq<string>, names2: seq<string>)
    requires multiset(names1) == multiset(names2)
    ensures ListNames(fs, dir, names1) == ListNames(fs, dir, names2)
  {
    var dirs1, dirs2 := Group(fs, dir, DirEntry, names1), Group(fs, dir, DirEntry, names2);
    var files1, files2 := Group(fs, dir, FileEntry, names1), Group(fs, dir, FileEntry, names2);
    forall name
      ensures multiset(dirs1)[name] == multiset(dirs2)[name]
      ensures multiset(files1)[name] == multiset(files2)[name]
    {
      GroupCount(fs, dir, DirEntry, names1, name);
      GroupCount(fs, dir, DirEntry, names2, name);
      GroupCount(fs, dir, FileEntry, names1, name);
      GroupCount(fs, dir, FileEntry, names2, name);
    }
    assert multiset(dirs1) == multiset(dirs2);
    assert multiset(files1) == multiset(files2);
    SortOrderIndependent(dirs1, dirs2);
    SortOrderIndependent(files1, files2);
  }

  /** A directory that cannot be read lists only the optional `".."`. */
  lemma ListingUnreadable(fs: FS, dir: Path)
    requires dir !in fs || !fs[dir].Dir? || !fs[dir].readable
    ensures ListDirectory(fs, dir) == ParentPart(dir)
  {
    assert Sort([]) == [];
  }
}
