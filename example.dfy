/** A small store, worked through: the root lists `c` (5 bytes) on a
    first, truncated page and the folder `a/` on a second page; `a/` holds
    `a/x` (10 bytes) and the folder `a/b/`, which holds `a/b/y`
    (20 bytes). */
module Example {
  import opened Store
  import opened Text
  import opened Sorting
  import opened DirTree
  import opened Seqs

  const RootPage1 := Page([RawObject("c", Some(5))], [], true, Some("p2"))
  const RootPage2 := Page([], ["a/"], false, None)
  const APage := Page([RawObject("a/x", Some(10))], ["a/b/"], false, None)
  const BPage := Page([RawObject("a/b/y", Some(20))], [], false, None)
  const EmptyPage := Page([], [], false, None)

  function Pages(q: string): seq<Page> {
    if q == "" then [RootPage1, RootPage2]
    else if q == "a/" then [APage]
    else if q == "a/b/" then [BPage]
    else [EmptyPage]
  }

  function List(q: string, c: Cursor): Page {
    if q == "" && c == Some("p2") then RootPage2 else Pages(q)[0]
  }

  const Sample := Bucket(List, Pages, 9)

  lemma SampleValid()
    ensures Valid(Sample)
  {
    forall q ensures ServesListing(Sample, q) {
      if q == "" {
        assert NextCursor(RootPage1) == Some("p2");
      }
    }
  }

  lemma OnePage(p: Page)
    ensures AllObjects([p]) == p.objects && AllPrefixes([p]) == p.delimitedPrefixes
  {
    Unit(p);
  }

  lemma OneObject(q: string, o: RawObject)
    ensures KeptFiles(q, [o]) == if IsFileName(Drop(o.key, |q|)) then [FileEntry(o.key, Drop(o.key, |q|), SizeOf(o))] else []
  {
    Unit(o);
  }

  lemma OnePrefix(q: string, p: string)
    ensures KeptDirs(q, [p]) == if DirNameAt(q, p) != "" then [DirEntry(p, DirNameAt(q, p))] else []
  {
    Unit(p);
  }

  lemma SortOne<T>(x: T, key: T -> string, le: (string, string) -> bool)
    ensures SortBy([x], key, le) == [x]
  {
    Unit(x);
  }

  lemma FilesSizeOne(f: FileEntry)
    ensures FilesSize([f]) == f.size
  {
    Unit(f);
  }

  lemma SamplePages()
    ensures Sample.pages("") == [RootPage1, RootPage2]
    ensures Sample.pages("a/") == [APage]
    ensures Sample.pages("a/b/") == [BPage]
  {
    assert "a/" != "" && "a/b/" != "" && "a/b/" != "a/";
  }

  lemma LeafListing()
    ensures LevelFiles(Sample, "a/b/") == [FileEntry("a/b/y", "y", 20)]
    ensures LevelDirs(Sample, "a/b/") == []
  {
    var q := "a/b/";
    var o := RawObject("a/b/y", Some(20));
    SamplePages();
    OnePage(BPage);
    assert BPage.objects == [o];
    OneObject(q, o);
    assert Drop(o.key, |q|) == "y";
  }

  lemma MiddleListing()
    ensures LevelFiles(Sample, "a/") == [FileEntry("a/x", "x", 10)]
    ensures LevelDirs(Sample, "a/") == [DirEntry("a/b/", "b")]
  {
    var q := "a/";
    SamplePages();
    OnePage(APage);
    var o := RawObject("a/x", Some(10));
    assert APage.objects == [o] && APage.delimitedPrefixes == ["a/b/"];
    OneObject(q, o);
    OnePrefix(q, "a/b/");
    assert Drop(o.key, |q|) == "x";
    assert Drop("a/b/", |q|) == "b/";
    assert DirNameAt(q, "a/b/") == "b";
  }

  /** The two root pages are drained into one level. */
  lemma RootListing()
    ensures LevelFiles(Sample, "") == [FileEntry("c", "c", 5)]
    ensures LevelDirs(Sample, "") == [DirEntry("a/", "a")]
  {
    var o := RawObject("c", Some(5));
    var ps := [RootPage1, RootPage2];
    SamplePages();
    assert ps[..1] == [RootPage1];
    OnePage(RootPage1);
    assert AllObjects(ps) == [o];
    assert AllPrefixes(ps) == ["a/"];
    OneObject("", o);
    OnePrefix("", "a/");
    assert Drop(o.key, 0) == "c";
    assert DirNameAt("", "a/") == "a";
  }

  /** A level holding exactly one file `f` and nothing else. */
  lemma LeafLevel(b: Bucket, le: (string, string) -> bool, q: string, f: FileEntry)
    requires Valid(b)
    requires LevelFiles(b, q) == [f] && LevelDirs(b, q) == []
    ensures var r := Tree(b, le, q);
      r.size == f.size && r.fileCount == 1 && CountDetails(r.html) == 0
  {
    SortOne(f, FileEntryName, le);
    FilesSizeOne(f);
    SortedDirsBounded(b, le, q);
    assert SortedDirs(b, le, q) == [];
    TreeFromParts(b, le, q, [], []);
    TreeDetailsCount(b, le, q);
  }

  /** A level holding exactly one file `f` and one folder `d`. */
  lemma OneFolderLevel(b: Bucket, le: (string, string) -> bool, q: string, f: FileEntry, d: DirEntry)
    requires Valid(b)
    requires LevelFiles(b, q) == [f] && LevelDirs(b, q) == [d]
    ensures var r := Tree(b, le, q);
      var sub := Tree(b, le, d.prefix);
      && r.size == f.size + sub.size
      && r.fileCount == 1 + sub.fileCount
      && CountDetails(r.html) == 1 + CountDetails(sub.html)
  {
    SortOne(f, FileEntryName, le);
    SortOne(d, DirEntryName, le);
    FilesSizeOne(f);
    SortedDirsBounded(b, le, q);
    var ds := [d];
    assert SortedDirs(b, le, q) == ds;
    SubTreesLast(b, le, q, ds);
    var subs := SubTrees(b, le, q, ds);
    assert subs == [Tree(b, le, d.prefix)];
    assert subs[..0] == [];
    TreeFromParts(b, le, q, ds, subs);
    TreeDetailsCount(b, le, q);
  }

  /** The root of the sample totals 35 bytes in 3 files and shows two folders
      below the `/` wrapper, whatever the collation. */
  lemma SampleRoot(le: (string, string) -> bool)
    ensures Valid(Sample)
    ensures var r := Tree(Sample, le, "");
      r.size == 35 && r.fileCount == 3 && CountDetails(r.html) == 2
  {
    SampleValid();
    LeafListing();
    MiddleListing();
    RootListing();
    LeafLevel(Sample, le, "a/b/", FileEntry("a/b/y", "y", 20));
    OneFolderLevel(Sample, le, "a/", FileEntry("a/x", "x", 10), DirEntry("a/b/", "b"));
    OneFolderLevel(Sample, le, "", FileEntry("c", "c", 5), DirEntry("a/", "a"));
  }
}
