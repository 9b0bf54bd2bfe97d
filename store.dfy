/** The object store as `listLevel` sees it, and the collection of one
    directory level: the paginated `bucket.list` drain and the file and
    sub-directory filters. */
module Store {
  import opened Text
  import opened Seqs

  datatype Option<+T> = None | Some(value: T)

  /** One listed object. A missing size is read as 0 (`obj.size || 0`). */
  datatype RawObject = RawObject(key: string, size: Option<nat>)

  /** A continuation token; `None` is JavaScript's `undefined`. */
  type Cursor = Option<string>

  /** One answer of `bucket.list({prefix, delimiter: "/", cursor, limit: 1000})`.
      An absent `objects` or `delimitedPrefixes` array is the empty sequence. */
  datatype Page = Page(objects: seq<RawObject>, delimitedPrefixes: seq<string>, truncated: bool, cursor: Cursor)

  /** The store. `list` answers one list call for a prefix and a cursor.
      `pages(q)` is the finite chain of pages the store serves for prefix `q`
      when each call passes on the cursor of the page before; `maxKeyLength`
      bounds the length of every delimited prefix the store reports. */
  datatype Bucket = Bucket(list: (string, Cursor) -> Page, pages: string -> seq<Page>, maxKeyLength: nat)

  /** `page.truncated ? page.cursor : undefined` */
  function NextCursor(page: Page): Cursor {
    if page.truncated then page.cursor else None
  }

  /** JavaScript truthiness of the cursor: `while (cursor)`. */
  predicate Continues(c: Cursor) {
    c.Some? && c.value != ""
  }

  /** The store ends the listing of `q` after finitely many pages: the first
      call (no cursor) returns the first page, each call with the previous
      page's cursor returns the next page, every page but the last continues
      and the last does not. */
  ghost predicate ServesListing(b: Bucket, q: string) {
    var ps := b.pages(q);
    && |ps| > 0
    && b.list(q, None) == ps[0]
    && (forall i :: 0 <= i < |ps| - 1 ==> Continues(NextCursor(ps[i])) && b.list(q, NextCursor(ps[i])) == ps[i + 1])
    && !Continues(NextCursor(ps[|ps| - 1]))
    && (forall i, j :: 0 <= i < |ps| && 0 <= j < |ps[i].delimitedPrefixes| ==> |ps[i].delimitedPrefixes[j]| <= b.maxKeyLength)
  }

  ghost predicate Valid(b: Bucket) {
    forall q :: ServesListing(b, q)
  }

  // ---------------------------------------------------------------------
  // Filters
  // ---------------------------------------------------------------------

  /** A kept file of a level: full key, name below the prefix, size. */
  datatype FileEntry = FileEntry(key: string, name: string, size: nat)

  /** A kept sub-directory of a level: its full prefix and its name. */
  datatype DirEntry = DirEntry(prefix: string, name: string)

  function FileEntryName(f: FileEntry): string { f.name }

  function DirEntryName(d: DirEntry): string { d.name }

  function SizeOf(o: RawObject): nat {
    match o.size
    case Some(n) => n
    case None => 0
  }

  /** A residual name is a file of the level: non-empty and without `/`. */
  predicate IsFileName(name: string) {
    name != "" && '/' !in name
  }

  /** `p.slice(curPrefix.length).replace(/\/$/, "")` */
  function DirNameAt(q: string, p: string): string {
    TrimTrailingSlash(Drop(p, |q|))
  }

  /** The files the object loop pushes, in listing order. */
  function KeptFiles(q: string, objs: seq<RawObject>): seq<FileEntry> {
    if objs == [] then []
    else
      var o := objs[|objs| - 1];
      var name := Drop(o.key, |q|);
      KeptFiles(q, objs[..|objs| - 1]) + (if IsFileName(name) then [FileEntry(o.key, name, SizeOf(o))] else [])
  }

  /** The sub-directories the prefix loop pushes, in listing order. */
  function KeptDirs(q: string, ps: seq<string>): seq<DirEntry> {
    if ps == [] then []
    else
      var p := ps[|ps| - 1];
      var name := DirNameAt(q, p);
      KeptDirs(q, ps[..|ps| - 1]) + (if name != "" then [DirEntry(p, name)] else [])
  }

  function FilesSize(fs: seq<FileEntry>): nat {
    if fs == [] then 0 else FilesSize(fs[..|fs| - 1]) + fs[|fs| - 1].size
  }

  /** All objects of a sequence of pages, page after page. */
  function AllObjects(pages: seq<Page>): seq<RawObject> {
    if pages == [] then [] else AllObjects(pages[..|pages| - 1]) + pages[|pages| - 1].objects
  }

  /** All delimited prefixes of a sequence of pages, page after page. */
  function AllPrefixes(pages: seq<Page>): seq<string> {
    if pages == [] then [] else AllPrefixes(pages[..|pages| - 1]) + pages[|pages| - 1].delimitedPrefixes
  }

  /** The files `listLevel(q)` collects, before sorting. */
  function LevelFiles(b: Bucket, q: string): seq<FileEntry> {
    KeptFiles(q, AllObjects(b.pages(q)))
  }

  /** The sub-directories `listLevel(q)` collects, before sorting. */
  function LevelDirs(b: Bucket, q: string): seq<DirEntry> {
    KeptDirs(q, AllPrefixes(b.pages(q)))
  }

  // ---------------------------------------------------------------------
  // Collecting one level
  // ---------------------------------------------------------------------

  /** The object loop over one page: pushes the page's files and adds their
      sizes to the level's running size. */
  method PushFiles(q: string, objs: seq<RawObject>, files0: seq<FileEntry>, size0: nat)
    returns (files: seq<FileEntry>, levelSize: nat)
    ensures files == files0 + KeptFiles(q, objs)
    ensures levelSize == size0 + FilesSize(KeptFiles(q, objs))
  {
    files, levelSize := files0, size0;
    ghost var kept: seq<FileEntry> := [];
    for i := 0 to |objs|
      invariant kept == KeptFiles(q, objs[..i])
      invariant files == files0 + kept
      invariant levelSize == size0 + FilesSize(kept)
    {
      var obj := objs[i];
      var name := Drop(obj.key, |q|);
      ghost var added := if IsFileName(name) then [FileEntry(obj.key, name, SizeOf(obj))] else [];
      KeptFilesStep(q, objs, i);
      FilesSizeConcat(kept, added);
      if IsFileName(name) {
        files := files + [FileEntry(obj.key, name, SizeOf(obj))];
        levelSize := levelSize + SizeOf(obj);
      }
      kept := kept + added;
    }
    TakeAll(objs);
  }

  lemma KeptFilesStep(q: string, objs: seq<RawObject>, i: nat)
    requires i < |objs|
    ensures var name := Drop(objs[i].key, |q|);
      KeptFiles(q, objs[..i + 1])
        == KeptFiles(q, objs[..i]) + (if IsFileName(name) then [FileEntry(objs[i].key, name, SizeOf(objs[i]))] else [])
  {
    TakeTake(objs, i);
  }

  lemma KeptDirsStep(q: string, ps: seq<string>, i: nat)
    requires i < |ps|
    ensures var name := DirNameAt(q, ps[i]);
      KeptDirs(q, ps[..i + 1]) == KeptDirs(q, ps[..i]) + (if name != "" then [DirEntry(ps[i], name)] else [])
  {
    TakeTake(ps, i);
  }

  lemma PagesStep(ps: seq<Page>, k: nat)
    requires k < |ps|
    ensures AllObjects(ps[..k + 1]) == AllObjects(ps[..k]) + ps[k].objects
    ensures AllPrefixes(ps[..k + 1]) == AllPrefixes(ps[..k]) + ps[k].delimitedPrefixes
  {
    TakeTake(ps, k);
  }

  /** The prefix loop over one page: pushes the page's sub-directories. */
  method PushDirs(q: string, ps: seq<string>, dirs0: seq<DirEntry>) returns (dirs: seq<DirEntry>)
    ensures dirs == dirs0 + KeptDirs(q, ps)
  {
    dirs := dirs0;
    ghost var kept: seq<DirEntry> := [];
    for i := 0 to |ps|
      invariant kept == KeptDirs(q, ps[..i])
      invariant dirs == dirs0 + kept
    {
      var p := ps[i];
      var name := DirNameAt(q, p);
      ghost var added := if name != "" then [DirEntry(p, name)] else [];
      KeptDirsStep(q, ps, i);
      ConcatAssoc(dirs0, kept, added);
      if name != "" {
        dirs := dirs + [DirEntry(p, name)];
      } else {
        ConcatEmpty(dirs);
      }
      kept := kept + added;
    }
    TakeAll(ps);
  }

  /** The `do … while (cursor)` loop of `listLevel`: it drains the listing of
      `q` page by page, passing each page's cursor to the next call, and keeps
      the level's files and sub-directories. */
  method CollectLevel(b: Bucket, q: string) returns (files: seq<FileEntry>, dirs: seq<DirEntry>, levelSize: nat)
    requires Valid(b)
    ensures files == LevelFiles(b, q)
    ensures dirs == LevelDirs(b, q)
    ensures levelSize == FilesSize(files)
  {
    ghost var ps := b.pages(q);
    assert ServesListing(b, q);
    files, dirs, levelSize := [], [], 0;
    var cursor: Cursor := None;
    var more := true;
    ghost var k := 0;
    while more
      invariant 0 <= k <= |ps|
      invariant more ==> k < |ps| && b.list(q, cursor) == ps[k]
      invariant !more ==> k == |ps|
      invariant files == KeptFiles(q, AllObjects(ps[..k]))
      invariant dirs == KeptDirs(q, AllPrefixes(ps[..k]))
      invariant levelSize == FilesSize(files)
      decreases |ps| - k
    {
      var page := b.list(q, cursor);
      cursor := NextCursor(page);
      PagesStep(ps, k);
      KeptFilesConcat(q, AllObjects(ps[..k]), page.objects);
      KeptDirsConcat(q, AllPrefixes(ps[..k]), page.delimitedPrefixes);
      FilesSizeConcat(files, KeptFiles(q, page.objects));
      files, levelSize := PushFiles(q, page.objects, files, levelSize);
      dirs := PushDirs(q, page.delimitedPrefixes, dirs);
      more := Continues(cursor);
      k := k + 1;
    }
    TakeAll(ps);
  }

  // ---------------------------------------------------------------------
  // Properties of the filters
  // ---------------------------------------------------------------------

  /** File filter: a listed object is kept exactly when its key minus the
      prefix is a non-empty name without `/`; the entry records that name and
      the object's size. */
  lemma {:induction false} KeptFilesExactly(q: string, objs: seq<RawObject>, f: FileEntry)
    ensures f in KeptFiles(q, objs) <==>
      exists o :: o in objs && IsFileName(Drop(o.key, |q|)) && f == FileEntry(o.key, Drop(o.key, |q|), SizeOf(o))
  {
    if objs != [] {
      KeptFilesExactly(q, objs[..|objs| - 1], f);
      forall o ensures o in objs <==> o in objs[..|objs| - 1] || o == objs[|objs| - 1] {
        InLastSplit(objs, o);
      }
    }
  }

  /** A placeholder object whose key equals the prefix is never a file. */
  lemma PlaceholderNotAFile(q: string, objs: seq<RawObject>)
    ensures forall f :: f in KeptFiles(q, objs) ==> f.key != q
  {
    forall f | f in KeptFiles(q, objs) ensures f.key != q {
      KeptFilesExactly(q, objs, f);
    }
  }

  /** Directory filter: a delimited prefix is kept exactly when stripping the
      prefix and one trailing `/` leaves a non-empty name. */
  lemma {:induction false} KeptDirsExactly(q: string, ps: seq<string>, d: DirEntry)
    ensures d in KeptDirs(q, ps) <==> d.prefix in ps && DirNameAt(q, d.prefix) != "" && d.name == DirNameAt(q, d.prefix)
  {
    if ps != [] {
      var init, p := ps[..|ps| - 1], ps[|ps| - 1];
      var name := DirNameAt(q, p);
      var added := if name != "" then [DirEntry(p, name)] else [];
      KeptDirsExactly(q, init, d);
      assert KeptDirs(q, ps) == KeptDirs(q, init) + added;
      assert d in added <==> d.prefix == p && name != "" && d.name == name;
      InLastSplit(ps, d.prefix);
    }
  }

  /** Every kept sub-prefix is strictly longer than the prefix being listed. */
  lemma KeptDirLonger(q: string, p: string)
    requires DirNameAt(q, p) != ""
    ensures |q| < |p|
  {
  }

  lemma {:induction false} AllPrefixesBounded(b: Bucket, q: string, pages: seq<Page>, p: string)
    requires forall i, j :: 0 <= i < |pages| && 0 <= j < |pages[i].delimitedPrefixes| ==> |pages[i].delimitedPrefixes[j]| <= b.maxKeyLength
    requires p in AllPrefixes(pages)
    ensures |p| <= b.maxKeyLength
  {
    var init := pages[..|pages| - 1];
    if p in AllPrefixes(init) {
      AllPrefixesBounded(b, q, init, p);
    } else {
      var j :| 0 <= j < |pages[|pages| - 1].delimitedPrefixes| && pages[|pages| - 1].delimitedPrefixes[j] == p;
    }
  }

  /** The sub-directories of a level lie strictly between the level's prefix
      and the store's longest key, which bounds the recursion. */
  lemma LevelDirsBounded(b: Bucket, q: string)
    requires Valid(b)
    ensures forall d :: d in LevelDirs(b, q) ==> |q| < |d.prefix| <= b.maxKeyLength
  {
    assert ServesListing(b, q);
    forall d | d in LevelDirs(b, q) ensures |q| < |d.prefix| <= b.maxKeyLength {
      KeptDirsExactly(q, AllPrefixes(b.pages(q)), d);
      AllPrefixesBounded(b, q, b.pages(q), d.prefix);
    }
  }

  // ---------------------------------------------------------------------
  // Pagination
  // ---------------------------------------------------------------------

  lemma {:induction false} KeptFilesConcat(q: string, a: seq<RawObject>, c: seq<RawObject>)
    ensures KeptFiles(q, a + c) == KeptFiles(q, a) + KeptFiles(q, c)
    decreases |c|
  {
    if c == [] {
      ConcatEmpty(a);
      ConcatEmpty(KeptFiles(q, a));
    } else {
      var init, last := c[..|c| - 1], c[|c| - 1];
      var name := Drop(last.key, |q|);
      var added := if IsFileName(name) then [FileEntry(last.key, name, SizeOf(last))] else [];
      InitOfConcat(a, c);
      assert KeptFiles(q, a + c) == KeptFiles(q, a + init) + added;
      KeptFilesConcat(q, a, init);
      ConcatAssoc(KeptFiles(q, a), KeptFiles(q, init), added);
    }
  }

  lemma {:induction false} KeptDirsConcat(q: string, a: seq<string>, c: seq<string>)
    ensures KeptDirs(q, a + c) == KeptDirs(q, a) + KeptDirs(q, c)
    decreases |c|
  {
    if c == [] {
      ConcatEmpty(a);
      ConcatEmpty(KeptDirs(q, a));
    } else {
      var init, last := c[..|c| - 1], c[|c| - 1];
      var name := DirNameAt(q, last);
      var added := if name != "" then [DirEntry(last, name)] else [];
      InitOfConcat(a, c);
      assert KeptDirs(q, a + c) == KeptDirs(q, a + init) + added;
      KeptDirsConcat(q, a, init);
      ConcatAssoc(KeptDirs(q, a), KeptDirs(q, init), added);
    }
  }

  /** The kept files of each page, one page after the other. */
  function FilesPerPage(q: string, pages: seq<Page>): seq<FileEntry> {
    if pages == [] then [] else FilesPerPage(q, pages[..|pages| - 1]) + KeptFiles(q, pages[|pages| - 1].objects)
  }

  /** The kept sub-directories of each page, one page after the other. */
  function DirsPerPage(q: string, pages: seq<Page>): seq<DirEntry> {
    if pages == [] then [] else DirsPerPage(q, pages[..|pages| - 1]) + KeptDirs(q, pages[|pages| - 1].delimitedPrefixes)
  }

  /** What a level collects is the in-order concatenation of every page's
      kept items. */
  lemma {:induction false} LevelIsPageByPage(q: string, pages: seq<Page>)
    ensures KeptFiles(q, AllObjects(pages)) == FilesPerPage(q, pages)
    ensures KeptDirs(q, AllPrefixes(pages)) == DirsPerPage(q, pages)
  {
    if pages != [] {
      var init := pages[..|pages| - 1];
      LevelIsPageByPage(q, init);
      KeptFilesConcat(q, AllObjects(init), pages[|pages| - 1].objects);
      KeptDirsConcat(q, AllPrefixes(init), pages[|pages| - 1].delimitedPrefixes);
    }
  }

  lemma {:induction false} FilesSizeConcat(a: seq<FileEntry>, c: seq<FileEntry>)
    ensures FilesSize(a + c) == FilesSize(a) + FilesSize(c)
    decreases |c|
  {
    if c == [] {
      ConcatEmpty(a);
    } else {
      var init := c[..|c| - 1];
      InitOfConcat(a, c);
      FilesSizeConcat(a, init);
    }
  }
}
