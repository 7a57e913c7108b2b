/**
 Concrete runs of the model: the listing of a small directory and the menu
 highlight wrapping upwards.
 */
module Scenarios {
  import opened Options
  import opened Paths
  import opened FileSystem
  import opened TextOrder
  import opened Listing
  import opened Machine

  const Backups: Path := Path("C:\\", ["Users", "ServerBackups"])

  const SampleNames: set<string> := {"b.xml", "notes.txt", "a.xml", "sub2", "sub1"}

  /** A backup directory holding two XML files, two subdirectories and a
      text file, in `read_dir` order. */
  function SampleFs(): FS
  {
    map[
      Backups := Dir(["b.xml", "notes.txt", "a.xml", "sub2", "sub1"], true),
      Join(Backups, "sub1") := Dir([], true),
      Join(Backups, "sub2") := Dir([], false),
      Join(Backups, "a.xml") := File,
      Join(Backups, "b.xml") := File,
      Join(Backups, "notes.txt") := File
    ]
  }

  /** The sample's paths are pairwise distinct. */
  lemma SampleKeysDistinct()
    ensures forall a, b :: a in SampleNames && b in SampleNames && a != b ==> Join(Backups, a) != Join(Backups, b)
    ensures forall a :: a in SampleNames ==> Join(Backups, a) != Backups
  {
    forall a, b | a in SampleNames && b in SampleNames && Join(Backups, a) == Join(Backups, b)
      ensures a == b
    {
      JoinInjective(Backups, a, b);
    }
  }

  lemma SampleDirs()
    ensures IsDir(SampleFs(), Join(Backups, "sub1")) && IsDir(SampleFs(), Join(Backups, "sub2"))
    ensures !IsDir(SampleFs(), Join(Backups, "a.xml")) && !IsDir(SampleFs(), Join(Backups, "b.xml"))
    ensures !IsDir(SampleFs(), Join(Backups, "notes.txt"))
  {
    SampleKeysDistinct();
    assert "sub1" != "sub2" by { assert "sub1"[3] != "sub2"[3]; }
    assert "a.xml" != "b.xml" by { assert "a.xml"[0] != "b.xml"[0]; }
  }

  lemma SampleXml()
    ensures IsXmlPath(Join(Backups, "a.xml")) && IsXmlPath(Join(Backups, "b.xml"))
    ensures !IsXmlPath(Join(Backups, "notes.txt"))
  {
    NamedXml("a.xml");
    NamedXml("b.xml");
    NamedXml("notes.txt");
  }

  /** Whether a sample entry passes the filter is decided by its name alone. */
  lemma NamedXml(name: string)
    requires name in {"a.xml", "b.xml", "notes.txt"}
    ensures IsXmlPath(Join(Backups, name)) <==> name != "notes.txt"
  {
    JoinedXml(Backups, name);
    if name == "notes.txt" {
      assert name[5..] == ".txt";
    } else {
      assert name[1..] == ".xml";
    }
  }

  lemma SampleReadDir()
    ensures ReadDir(SampleFs(), Backups) == ["b.xml", "notes.txt", "a.xml", "sub2", "sub1"]
  {
    SampleKeysDistinct();
  }

  lemma SampleInGroup(fs: FS)
    requires fs == SampleFs()
    ensures InGroup(fs, Backups, DirEntry, "sub1") && InGroup(fs, Backups, DirEntry, "sub2")
    ensures !InGroup(fs, Backups, DirEntry, "a.xml") && !InGroup(fs, Backups, DirEntry, "b.xml")
    ensures !InGroup(fs, Backups, DirEntry, "notes.txt")
    ensures !InGroup(fs, Backups, FileEntry, "sub1") && !InGroup(fs, Backups, FileEntry, "sub2")
    ensures InGroup(fs, Backups, FileEntry, "a.xml") && InGroup(fs, Backups, FileEntry, "b.xml")
    ensures !InGroup(fs, Backups, FileEntry, "notes.txt")
  {
    SampleDirs();
    SampleXml();
  }

  lemma FiveGroups(fs: FS, dir: Path, x2: string, x1: string, d2: string, other: string, d1: string)
    requires InGroup(fs, dir, DirEntry, d1) && InGroup(fs, dir, DirEntry, d2)
    requires InGroup(fs, dir, FileEntry, x1) && InGroup(fs, dir, FileEntry, x2)
    requires !InGroup(fs, dir, DirEntry, x1) && !InGroup(fs, dir, DirEntry, x2) && !InGroup(fs, dir, DirEntry, other)
    requires !InGroup(fs, dir, FileEntry, d1) && !InGroup(fs, dir, FileEntry, d2) && !InGroup(fs, dir, FileEntry, other)
    ensures Group(fs, dir, DirEntry, [x2, other, x1, d2, d1]) == [d2, d1]
    ensures Group(fs, dir, FileEntry, [x2, other, x1, d2, d1]) == [x2, x1]
  {
    GroupsOfFour(fs, dir, x1, d2, other, d1);
    var names := [x2, other, x1, d2, d1];
    assert names[1..] == [other, x1, d2, d1];
  }

  lemma GroupsOfFour(fs: FS, dir: Path, x1: string, d2: string, other: string, d1: string)
    requires InGroup(fs, dir, DirEntry, d1) && InGroup(fs, dir, DirEntry, d2)
    requires InGroup(fs, dir, FileEntry, x1)
    requires !InGroup(fs, dir, DirEntry, x1) && !InGroup(fs, dir, DirEntry, other)
    requires !InGroup(fs, dir, FileEntry, d1) && !InGroup(fs, dir, FileEntry, d2) && !InGroup(fs, dir, FileEntry, other)
    ensures Group(fs, dir, DirEntry, [other, x1, d2, d1]) == [d2, d1]
    ensures Group(fs, dir, FileEntry, [other, x1, d2, d1]) == [x1]
  {
    GroupsOfTwo(fs, dir, d2, d1);
    var names := [other, x1, d2, d1];
    assert names[1..] == [x1, d2, d1];
    assert names[1..][1..] == [d2, d1];
  }

  lemma GroupsOfTwo(fs: FS, dir: Path, d2: string, d1: string)
    requires InGroup(fs, dir, DirEntry, d1) && InGroup(fs, dir, DirEntry, d2)
    requires !InGroup(fs, dir, FileEntry, d1) && !InGroup(fs, dir, FileEntry, d2)
    ensures Group(fs, dir, DirEntry, [d2, d1]) == [d2, d1]
    ensures Group(fs, dir, FileEntry, [d2, d1]) == []
  {
    var names := [d2, d1];
    assert names[1..] == [d1];
    assert names[1..][1..] == [];
  }

  lemma SortTwo(a: string, b: string)
    requires StrLe(a, b)
    ensures Sort([b, a]) == [a, b]
  {
    assert Sorted([a, b]);
    SortSpec([b, a]);
    assert multiset(Sort([b, a])) == multiset([a, b]);
    SortedUnique(Sort([b, a]), [a, b]);
  }

  /** The listing of a directory whose `read_dir` yields two XML files, a
      name of neither kind and two subdirectories, for any names that sort
      as given. */
  lemma ListingOfFive(fs: FS, dir: Path, x2: string, x1: string, d2: string, other: string, d1: string)
    requires ReadDir(fs, dir) == [x2, other, x1, d2, d1]
    requires InGroup(fs, dir, DirEntry, d1) && InGroup(fs, dir, DirEntry, d2)
    requires InGroup(fs, dir, FileEntry, x1) && InGroup(fs, dir, FileEntry, x2)
    requires !InGroup(fs, dir, DirEntry, x1) && !InGroup(fs, dir, DirEntry, x2) && !InGroup(fs, dir, DirEntry, other)
    requires !InGroup(fs, dir, FileEntry, d1) && !InGroup(fs, dir, FileEntry, d2) && !InGroup(fs, dir, FileEntry, other)
    requires StrLe(d1, d2) && StrLe(x1, x2)
    ensures ListDirectory(fs, dir) == ParentPart(dir) + [Join(dir, d1), Join(dir, d2), Join(dir, x1), Join(dir, x2)]
    ensures HasParentEntry(dir) ==>
      ListDirectory(fs, dir) == [ParentMarker] + [Join(dir, d1), Join(dir, d2), Join(dir, x1), Join(dir, x2)]
  {
    var names := ReadDir(fs, dir);
    FiveGroups(fs, dir, x2, x1, d2, other, d1);
    SortedPair(fs, dir, DirEntry, names, d1, d2);
    SortedPair(fs, dir, FileEntry, names, x1, x2);
  }

  lemma SortedPair(fs: FS, dir: Path, kind: EntryKind, names: seq<string>, a: string, b: string)
    requires Group(fs, dir, kind, names) == [b, a]
    requires StrLe(a, b)
    ensures JoinAll(dir, Sort(Group(fs, dir, kind, names))) == [Join(dir, a), Join(dir, b)]
  {
    SortTwo(a, b);
  }

  /** `..` first, the subdirectories sorted, then only the `.xml` files
      sorted; `notes.txt` is not shown. */
  lemma SampleListing(fs: FS)
    requires fs == SampleFs()
    ensures ListDirectory(fs, Backups) == [ParentMarker] + [
      Join(Backups, "sub1"), Join(Backups, "sub2"),
      Join(Backups, "a.xml"), Join(Backups, "b.xml")
    ]
  {
    SampleReadDir();
    SampleInGroup(fs);
    assert StrLe("sub1", "sub2");
    assert StrLe("a.xml", "b.xml");
    assert HasParentEntry(Backups);
    ListingOfFive(fs, Backups, "b.xml", "a.xml", "sub2", "notes.txt", "sub1");
  }

  /** With the first menu item highlighted, Up highlights the last one. */
  lemma MenuUpWraps(app: App, w: World)
    requires app.state == Menu && app.menuSelected == Some(0)
    ensures Iterate(app, Some(KeyEvent(Up, Press)), w) == Continue(app.(menuSelected := Some(6)), [])
  {
  }
}
