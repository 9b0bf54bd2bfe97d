/** What `listLevel(curPrefix)` returns, as a recursive specification: the
    level's markup (kept to its block structure), its aggregate size and its
    aggregate file count. */
module DirTree {
  import opened Store
  import opened Sorting
  import opened Seqs

  /** The markup of `listLevel`, kept to its blocks:
      `Div` is `<div style="margin-left:1rem">…</div>`, `Eof` the
      `<em>~EOF~</em>` marker, `FileList` the `<ul>` with one link per file,
      `Details` a `<details>` whose summary shows `summary` and carries `size`
      as its tooltip. */
  datatype Node =
    | Div(blocks: seq<Node>)
    | Eof
    | FileList(files: seq<FileEntry>)
    | Details(summary: string, size: nat, body: Node)

  /** `{ html, size, fileCount }` */
  datatype LevelResult = LevelResult(html: Node, size: nat, fileCount: nat)

  /** Termination measure: room left between the prefix and the longest key. */
  function Measure(b: Bucket, q: string): nat {
    if |q| <= b.maxKeyLength then b.maxKeyLength - |q| else 0
  }

  /** Every directory of `ds` lies strictly below `q` and within the store's bound. */
  ghost predicate ChildrenOf(b: Bucket, q: string, ds: seq<DirEntry>) {
    forall i :: 0 <= i < |ds| ==> |q| < |ds[i].prefix| <= b.maxKeyLength
  }

  /** The level's files after `files.sort(…)`. */
  function SortedFiles(b: Bucket, le: (string, string) -> bool, q: string): seq<FileEntry> {
    SortBy(LevelFiles(b, q), FileEntryName, le)
  }

  /** The level's sub-directories after `dirs.sort(…)`: the order of recursion. */
  function SortedDirs(b: Bucket, le: (string, string) -> bool, q: string): seq<DirEntry> {
    SortBy(LevelDirs(b, q), DirEntryName, le)
  }

  lemma {:induction false} SortedDirsBounded(b: Bucket, le: (string, string) -> bool, q: string)
    requires Valid(b)
    ensures ChildrenOf(b, q, SortedDirs(b, le, q))
  {
    var ds := SortedDirs(b, le, q);
    LevelDirsBounded(b, q);
    SortByPermutes(LevelDirs(b, q), DirEntryName, le);
    forall i | 0 <= i < |ds| ensures |q| < |ds[i].prefix| <= b.maxKeyLength {
      assert ds[i] in multiset(ds);
      assert ds[i] in LevelDirs(b, q);
    }
  }

  function TotalSize(subs: seq<LevelResult>): nat {
    if subs == [] then 0 else TotalSize(subs[..|subs| - 1]) + subs[|subs| - 1].size
  }

  function TotalFileCount(subs: seq<LevelResult>): nat {
    if subs == [] then 0 else TotalFileCount(subs[..|subs| - 1]) + subs[|subs| - 1].fileCount
  }

  /** The `<details>` folder of one sub-directory: its name with a trailing
      `/`, its total size and its own level's markup. */
  function Folder(d: DirEntry, r: LevelResult): Node {
    Details(d.name + "/", r.size, r.html)
  }

  /** One `<details>` block per sub-directory, in order. */
  function DetailsBlocks(ds: seq<DirEntry>, subs: seq<LevelResult>): (r: seq<Node>)
    requires |ds| == |subs|
    ensures |r| == |ds|
  {
    if ds == [] then []
    else
      var last := |ds| - 1;
      DetailsBlocks(ds[..last], subs[..last]) + [Folder(ds[last], subs[last])]
  }

  /** The file list of a level, or nothing when it kept no file. */
  function FilesBlock(files: seq<FileEntry>): seq<Node> {
    if files == [] then [] else [FileList(files)]
  }

  /** At the root the files block comes first, everywhere else last. */
  function Arrange(q: string, filesBlock: seq<Node>, dirsBlock: seq<Node>): seq<Node> {
    if q == "" then filesBlock + dirsBlock else dirsBlock + filesBlock
  }

  /** A level's blocks in one `div`, or the `~EOF~` marker alone. */
  function LevelMarkup(blocks: seq<Node>): Node {
    Div(if blocks == [] then [Eof] else blocks)
  }

  function LevelBlocks(q: string, files: seq<FileEntry>, ds: seq<DirEntry>, subs: seq<LevelResult>): seq<Node>
    requires |ds| == |subs|
  {
    Arrange(q, FilesBlock(files), DetailsBlocks(ds, subs))
  }

  /** The result of `listLevel(q)`. */
  ghost function Tree(b: Bucket, le: (string, string) -> bool, q: string): LevelResult
    requires Valid(b)
    decreases Measure(b, q), 1
  {
    SortedDirsBounded(b, le, q);
    var files := SortedFiles(b, le, q);
    var ds := SortedDirs(b, le, q);
    var subs := SubTrees(b, le, q, ds);
    var blocks := LevelBlocks(q, files, ds, subs);
    LevelResult(LevelMarkup(blocks),
                FilesSize(LevelFiles(b, q)) + TotalSize(subs),
                |files| + TotalFileCount(subs))
  }

  /** The results of the recursive calls on `ds`, in order. */
  ghost function SubTrees(b: Bucket, le: (string, string) -> bool, q: string, ds: seq<DirEntry>): (subs: seq<LevelResult>)
    requires Valid(b) && ChildrenOf(b, q, ds)
    ensures |subs| == |ds|
    decreases Measure(b, q), 0, |ds|
  {
    if ds == [] then []
    else SubTrees(b, le, q, ds[..|ds| - 1]) + [Tree(b, le, ds[|ds| - 1].prefix)]
  }

  /** `Tree` in terms of its parts, for callers that computed them. */
  lemma {:induction false} TreeFromParts(b: Bucket, le: (string, string) -> bool, q: string, ds: seq<DirEntry>, subs: seq<LevelResult>)
    requires Valid(b)
    requires ds == SortedDirs(b, le, q) && ChildrenOf(b, q, ds) && subs == SubTrees(b, le, q, ds)
    ensures var blocks := LevelBlocks(q, SortedFiles(b, le, q), ds, subs);
      Tree(b, le, q) == LevelResult(LevelMarkup(blocks),
                                    FilesSize(LevelFiles(b, q)) + TotalSize(subs),
                                    |SortedFiles(b, le, q)| + TotalFileCount(subs))
  {
  }

  // ---------------------------------------------------------------------
  // Reading the markup back
  // ---------------------------------------------------------------------

  /** The file links the markup shows, in document order. */
  function RenderedFiles(n: Node): seq<FileEntry>
    decreases n, 1
  {
    match n
    case Div(blocks) => RenderedFilesOf(blocks)
    case Eof => []
    case FileList(fs) => fs
    case Details(_, _, body) => RenderedFiles(body)
  }

  function RenderedFilesOf(ns: seq<Node>): seq<FileEntry>
    decreases ns, 0
  {
    if ns == [] then [] else RenderedFilesOf(ns[..|ns| - 1]) + RenderedFiles(ns[|ns| - 1])
  }

  /** The number of `<details>` folders the markup shows. */
  function CountDetails(n: Node): nat
    decreases n, 1
  {
    match n
    case Div(blocks) => CountDetailsOf(blocks)
    case Eof => 0
    case FileList(_) => 0
    case Details(_, _, body) => 1 + CountDetails(body)
  }

  function CountDetailsOf(ns: seq<Node>): nat
    decreases ns, 0
  {
    if ns == [] then 0 else CountDetailsOf(ns[..|ns| - 1]) + CountDetails(ns[|ns| - 1])
  }

  function TotalDetails(subs: seq<LevelResult>): nat {
    if subs == [] then 0 else TotalDetails(subs[..|subs| - 1]) + CountDetails(subs[|subs| - 1].html)
  }

  // ---------------------------------------------------------------------
  // Lemmas
  // ---------------------------------------------------------------------

  lemma {:induction false} RenderedFilesOfConcat(a: seq<Node>, c: seq<Node>)
    ensures RenderedFilesOf(a + c) == RenderedFilesOf(a) + RenderedFilesOf(c)
    decreases |c|
  {
    if c == [] {
      ConcatEmpty(a);
      ConcatEmpty(RenderedFilesOf(a));
    } else {
      var init, x := c[..|c| - 1], c[|c| - 1];
      InitOfConcat(a, c);
      assert RenderedFilesOf(a + c) == RenderedFilesOf(a + init) + RenderedFiles(x);
      RenderedFilesOfConcat(a, init);
      assert RenderedFilesOf(c) == RenderedFilesOf(init) + RenderedFiles(x);
      ConcatAssoc(RenderedFilesOf(a), RenderedFilesOf(init), RenderedFiles(x));
    }
  }

  lemma {:induction false} CountDetailsOfConcat(a: seq<Node>, c: seq<Node>)
    ensures CountDetailsOf(a + c) == CountDetailsOf(a) + CountDetailsOf(c)
    decreases |c|
  {
    if c == [] {
      ConcatEmpty(a);
    } else {
      var init := c[..|c| - 1];
      InitOfConcat(a, c);
      CountDetailsOfConcat(a, init);
    }
  }

  lemma {:induction false} OneBlock(n: Node)
    ensures RenderedFilesOf([n]) == RenderedFiles(n)
    ensures CountDetailsOf([n]) == CountDetails(n)
  {
    Unit(n);
  }

  lemma {:induction false} FilesSizeRemove(c: seq<FileEntry>, j: nat)
    requires j < |c|
    ensures FilesSize(c) == FilesSize(c[..j] + c[j + 1..]) + c[j].size
  {
    var pre, x, post := c[..j], c[j], c[j + 1..];
    SplitAround(c, j);
    FilesSizeConcat(pre + [x], post);
    FilesSizeConcat(pre, [x]);
    FilesSizeConcat(pre, post);
    Unit(x);
    assert FilesSize([x]) == x.size;
  }

  /** Sizes add up the same in any order. */
  lemma {:induction false} FilesSizePermutation(a: seq<FileEntry>, c: seq<FileEntry>)
    requires multiset(a) == multiset(c)
    ensures FilesSize(a) == FilesSize(c)
    decreases |a|
  {
    if a == [] {
      assert |multiset(c)| == 0;
    } else {
      var init, x := a[..|a| - 1], a[|a| - 1];
      InMultiset(c, x);
      var j :| 0 <= j < |c| && c[j] == x;
      MultisetRemove(c, j);
      MultisetInit(a);
      FilesSizePermutation(init, c[..j] + c[j + 1..]);
      FilesSizeRemove(c, j);
    }
  }

  lemma {:induction false} SubTreesLast(b: Bucket, le: (string, string) -> bool, q: string, ds: seq<DirEntry>)
    requires Valid(b) && ChildrenOf(b, q, ds) && ds != []
    ensures SubTrees(b, le, q, ds)[..|ds| - 1] == SubTrees(b, le, q, ds[..|ds| - 1])
    ensures SubTrees(b, le, q, ds)[|ds| - 1] == Tree(b, le, ds[|ds| - 1].prefix)
  {
  }

  lemma {:induction false} ChildrenOfTake(b: Bucket, q: string, ds: seq<DirEntry>, n: nat)
    requires ChildrenOf(b, q, ds) && n <= |ds|
    ensures ChildrenOf(b, q, ds[..n])
  {
    forall k | 0 <= k < n ensures |q| < |ds[..n][k].prefix| <= b.maxKeyLength {
      assert ds[..n][k] == ds[k];
    }
  }

  /** One more sub-directory visited: what the loop over the sub-directories
      keeps after its `i`-th recursive call returned `r`. */
  lemma {:induction false} SubTreesStep(b: Bucket, le: (string, string) -> bool, q: string, ds: seq<DirEntry>, i: nat,
                     subs: seq<LevelResult>, r: LevelResult)
    requires Valid(b) && ChildrenOf(b, q, ds) && i < |ds|
    requires ChildrenOf(b, q, ds[..i]) && subs == SubTrees(b, le, q, ds[..i])
    requires r == Tree(b, le, ds[i].prefix)
    ensures ChildrenOf(b, q, ds[..i + 1])
    ensures subs + [r] == SubTrees(b, le, q, ds[..i + 1])
    ensures DetailsBlocks(ds[..i + 1], subs + [r])
         == DetailsBlocks(ds[..i], subs) + [Folder(ds[i], r)]
    ensures TotalSize(subs + [r]) == TotalSize(subs) + r.size
    ensures TotalFileCount(subs + [r]) == TotalFileCount(subs) + r.fileCount
    ensures TotalDetails(subs + [r]) == TotalDetails(subs) + CountDetails(r.html)
  {
    var front := ds[..i + 1];
    TakeTake(ds, i);
    assert ChildrenOf(b, q, front) by { ChildrenOfTake(b, q, ds, i + 1); }
    SubTreesLast(b, le, q, front);
    var s := SubTrees(b, le, q, front);
    assert s[..i] == subs && s[i] == r;
    SnocEq(s, subs, r);
    DetailsBlocksSnoc(ds, i, subs, r);
    TotalsSnoc(subs, r);
  }

  lemma {:induction false} DetailsBlocksSnoc(ds: seq<DirEntry>, i: nat, subs: seq<LevelResult>, r: LevelResult)
    requires i < |ds| && |subs| == i
    ensures DetailsBlocks(ds[..i + 1], subs + [r])
         == DetailsBlocks(ds[..i], subs) + [Folder(ds[i], r)]
  {
    TakeTake(ds, i);
    InitOfSnoc(subs, r);
  }

  lemma {:induction false} TotalsSnoc(subs: seq<LevelResult>, r: LevelResult)
    ensures TotalSize(subs + [r]) == TotalSize(subs) + r.size
    ensures TotalFileCount(subs + [r]) == TotalFileCount(subs) + r.fileCount
    ensures TotalDetails(subs + [r]) == TotalDetails(subs) + CountDetails(r.html)
  {
    InitOfSnoc(subs, r);
  }

  /** The file links of one level's blocks: its own files and those of its
      `<details>` blocks, in either order. */
  lemma {:induction false} LevelBlocksRendered(q: string, files: seq<FileEntry>, ds: seq<DirEntry>, subs: seq<LevelResult>)
    requires |ds| == |subs|
    ensures var inner := RenderedFilesOf(DetailsBlocks(ds, subs));
      var shown := RenderedFiles(LevelMarkup(LevelBlocks(q, files, ds, subs)));
      && |shown| == |files| + |inner|
      && FilesSize(shown) == FilesSize(files) + FilesSize(inner)
  {
    var blocks := LevelBlocks(q, files, ds, subs);
    var filesBlock := FilesBlock(files);
    var dirsBlock := DetailsBlocks(ds, subs);
    assert RenderedFilesOf(filesBlock) == files by {
      if files != [] { OneBlock(FileList(files)); }
    }
    var shown := RenderedFiles(LevelMarkup(blocks));
    if blocks == [] {
      assert files == [] && ds == [];
      OneBlock(Eof);
      assert RenderedFilesOf(dirsBlock) == [];
      assert shown == [];
    } else if q == "" {
      assert shown == RenderedFilesOf(filesBlock + dirsBlock);
      RenderedFilesOfConcat(filesBlock, dirsBlock);
      FilesSizeConcat(files, RenderedFilesOf(dirsBlock));
    } else {
      assert shown == RenderedFilesOf(dirsBlock + filesBlock);
      RenderedFilesOfConcat(dirsBlock, filesBlock);
      FilesSizeConcat(RenderedFilesOf(dirsBlock), files);
    }
  }

  /** The totals of a level agree with its markup: `fileCount` is the number
      of file links shown anywhere in it and `size` the sum of their sizes.
      This is the sum over the files the traversal kept, not over every key
      below the prefix. */
  lemma {:induction false} TreeMatchesRendering(b: Bucket, le: (string, string) -> bool, q: string)
    requires Valid(b)
    ensures var r := Tree(b, le, q);
      r.fileCount == |RenderedFiles(r.html)| && r.size == FilesSize(RenderedFiles(r.html))
    decreases Measure(b, q), 1
  {
    SortedDirsBounded(b, le, q);
    var files := SortedFiles(b, le, q);
    var ds := SortedDirs(b, le, q);
    var subs := SubTrees(b, le, q, ds);
    SubTreesMatchRendering(b, le, q, ds);
    SortByPermutes(LevelFiles(b, q), FileEntryName, le);
    FilesSizePermutation(LevelFiles(b, q), files);
    LevelBlocksRendered(q, files, ds, subs);
  }

  lemma {:induction false} SubTreesMatchRendering(b: Bucket, le: (string, string) -> bool, q: string, ds: seq<DirEntry>)
    requires Valid(b) && ChildrenOf(b, q, ds)
    ensures var subs := SubTrees(b, le, q, ds);
      && TotalFileCount(subs) == |RenderedFilesOf(DetailsBlocks(ds, subs))|
      && TotalSize(subs) == FilesSize(RenderedFilesOf(DetailsBlocks(ds, subs)))
    decreases Measure(b, q), 0
  {
    var subs := SubTrees(b, le, q, ds);
    forall i | 0 <= i < |ds| ensures Shows(subs[i]) {
      SubTreesAt(b, le, q, ds, i);
      TreeMatchesRendering(b, le, ds[i].prefix);
    }
    DetailsRendered(ds, subs);
  }

  /** A result's totals agree with the file links of its markup. */
  ghost predicate Shows(r: LevelResult) {
    r.fileCount == |RenderedFiles(r.html)| && r.size == FilesSize(RenderedFiles(r.html))
  }

  /** Folders whose own totals agree with their markup add up to totals
      that agree with the markup of the whole folder list. */
  lemma {:induction false} DetailsRendered(ds: seq<DirEntry>, subs: seq<LevelResult>)
    requires |ds| == |subs|
    requires forall i :: 0 <= i < |subs| ==> Shows(subs[i])
    ensures TotalFileCount(subs) == |RenderedFilesOf(DetailsBlocks(ds, subs))|
    ensures TotalSize(subs) == FilesSize(RenderedFilesOf(DetailsBlocks(ds, subs)))
  {
    if ds != [] {
      var last := |ds| - 1;
      var init := subs[..last];
      var front := DetailsBlocks(ds[..last], init);
      var sub := subs[last];
      var shown, inner := RenderedFilesOf(front), RenderedFiles(sub.html);
      assert TotalFileCount(init) == |shown| && TotalSize(init) == FilesSize(shown) by {
        assert forall i :: 0 <= i < |init| ==> init[i] == subs[i];
        DetailsRendered(ds[..last], init);
      }
      assert sub.fileCount == |inner| && sub.size == FilesSize(inner) by {
        assert Shows(sub);
      }
      assert RenderedFilesOf(DetailsBlocks(ds, subs)) == shown + inner by {
        var block := Folder(ds[last], sub);
        assert DetailsBlocks(ds, subs) == front + [block];
        RenderedFilesOfConcat(front, [block]);
        OneBlock(block);
      }
      FilesSizeConcat(shown, inner);
    }
  }

  lemma {:induction false} DetailsBlocksCount(ds: seq<DirEntry>, subs: seq<LevelResult>)
    requires |ds| == |subs|
    ensures CountDetailsOf(DetailsBlocks(ds, subs)) == |ds| + TotalDetails(subs)
  {
    if ds != [] {
      var last := |ds| - 1;
      var block := Folder(ds[last], subs[last]);
      DetailsBlocksCount(ds[..last], subs[..last]);
      CountDetailsOfConcat(DetailsBlocks(ds[..last], subs[..last]), [block]);
      OneBlock(block);
    }
  }

  /** A level's markup shows one folder per sub-directory it lists plus the
      folders shown inside each of them. */
  lemma {:induction false} TreeDetailsCount(b: Bucket, le: (string, string) -> bool, q: string)
    requires Valid(b)
    ensures ChildrenOf(b, q, SortedDirs(b, le, q))
    ensures CountDetails(Tree(b, le, q).html)
         == |SortedDirs(b, le, q)| + TotalDetails(SubTrees(b, le, q, SortedDirs(b, le, q)))
  {
    SortedDirsBounded(b, le, q);
    var ds := SortedDirs(b, le, q);
    var subs := SubTrees(b, le, q, ds);
    TreeFromParts(b, le, q, ds, subs);
    LevelBlocksCount(q, SortedFiles(b, le, q), ds, subs);
  }

  /** One level of `Tree` from values the traversal computed and showed equal
      to its parts. */
  lemma {:induction false} TreeIs(b: Bucket, le: (string, string) -> bool, q: string, files: seq<FileEntry>,
                                  ds: seq<DirEntry>, subs: seq<LevelResult>, filesBlock: seq<Node>, dirsBlock: seq<Node>,
                                  size: nat, count: nat)
    requires Valid(b)
    requires files == SortedFiles(b, le, q) && filesBlock == FilesBlock(files)
    requires ds == SortedDirs(b, le, q) && ChildrenOf(b, q, ds) && subs == SubTrees(b, le, q, ds)
    requires dirsBlock == DetailsBlocks(ds, subs)
    requires size == FilesSize(LevelFiles(b, q)) + TotalSize(subs)
    requires count == |files| + TotalFileCount(subs)
    ensures Tree(b, le, q) == LevelResult(LevelMarkup(Arrange(q, filesBlock, dirsBlock)), size, count)
  {
    TreeFromParts(b, le, q, ds, subs);
  }

  /** The folders of one level's markup, whatever its contents. */
  lemma {:induction false} LevelBlocksCount(q: string, files: seq<FileEntry>, ds: seq<DirEntry>, subs: seq<LevelResult>)
    requires |ds| == |subs|
    ensures CountDetails(LevelMarkup(LevelBlocks(q, files, ds, subs))) == |ds| + TotalDetails(subs)
  {
    var filesBlock := FilesBlock(files);
    var dirsBlock := DetailsBlocks(ds, subs);
    DetailsBlocksCount(ds, subs);
    assert CountDetailsOf(filesBlock) == 0 by {
      if files != [] { OneBlock(FileList(files)); }
    }
    if LevelBlocks(q, files, ds, subs) == [] {
      OneBlock(Eof);
    } else if q == "" {
      CountDetailsOfConcat(filesBlock, dirsBlock);
    } else {
      CountDetailsOfConcat(dirsBlock, filesBlock);
    }
  }

  // ---------------------------------------------------------------------
  // Order of a level and the empty marker
  // ---------------------------------------------------------------------

  lemma {:induction false} DetailsBlocksAt(ds: seq<DirEntry>, subs: seq<LevelResult>, i: nat)
    requires |ds| == |subs| && i < |ds|
    ensures DetailsBlocks(ds, subs)[i] == Folder(ds[i], subs[i])
  {
    var last := |ds| - 1;
    if i < last {
      DetailsBlocksAt(ds[..last], subs[..last], i);
    }
  }

  lemma {:induction false} SubTreesAt(b: Bucket, le: (string, string) -> bool, q: string, ds: seq<DirEntry>, i: nat)
    requires Valid(b) && ChildrenOf(b, q, ds) && i < |ds|
    ensures SubTrees(b, le, q, ds)[i] == Tree(b, le, ds[i].prefix)
  {
    var front := ds[..i + 1];
    ChildrenOfTake(b, q, ds, i + 1);
    SubTreesTake(b, le, q, ds, i + 1);
    TakeIndex(SubTrees(b, le, q, ds), i + 1, i);
    SubTreesLast(b, le, q, front);
    TakeIndex(ds, i + 1, i);
  }

  /** The child results of the first `n` sub-directories are the first `n`
      child results. */
  lemma {:induction false} SubTreesTake(b: Bucket, le: (string, string) -> bool, q: string, ds: seq<DirEntry>, n: nat)
    requires Valid(b) && ChildrenOf(b, q, ds) && n <= |ds|
    ensures ChildrenOf(b, q, ds[..n])
    ensures SubTrees(b, le, q, ds)[..n] == SubTrees(b, le, q, ds[..n])
    decreases |ds|
  {
    ChildrenOfTake(b, q, ds, n);
    if n == |ds| {
      TakeAll(ds);
      TakeAll(SubTrees(b, le, q, ds));
    } else {
      var front := ds[..|ds| - 1];
      SubTreesTake(b, le, q, front, n);
      SubTreesFront(b, le, q, ds, n);
    }
  }

  /** One step of `SubTreesTake`: dropping the last sub-directory keeps the
      first `n < |ds|` child results. */
  lemma {:induction false} SubTreesFront(b: Bucket, le: (string, string) -> bool, q: string, ds: seq<DirEntry>, n: nat)
    requires Valid(b) && ChildrenOf(b, q, ds) && n < |ds|
    ensures ChildrenOf(b, q, ds[..|ds| - 1])
    ensures SubTrees(b, le, q, ds)[..n] == SubTrees(b, le, q, ds[..|ds| - 1])[..n]
    ensures ds[..|ds| - 1][..n] == ds[..n]
  {
    var last := |ds| - 1;
    ChildrenOfTake(b, q, ds, last);
    SubTreesLast(b, le, q, ds);
    TakeOfTake(SubTrees(b, le, q, ds), last, n);
    TakeOfTake(ds, last, n);
  }

  /** Each level's files and sub-directories are ordered by the comparator,
      and each list holds exactly what the level collected. */
  lemma {:induction false} LevelSorted(b: Bucket, le: (string, string) -> bool, q: string)
    requires TotalPreorder(le)
    ensures SortedBy(SortedFiles(b, le, q), FileEntryName, le)
    ensures SortedBy(SortedDirs(b, le, q), DirEntryName, le)
    ensures multiset(SortedFiles(b, le, q)) == multiset(LevelFiles(b, q))
    ensures multiset(SortedDirs(b, le, q)) == multiset(LevelDirs(b, q))
  {
    SortBySorts(LevelFiles(b, q), FileEntryName, le);
    SortBySorts(LevelDirs(b, q), DirEntryName, le);
    SortByPermutes(LevelFiles(b, q), FileEntryName, le);
    SortByPermutes(LevelDirs(b, q), DirEntryName, le);
  }

  /** The block structure of one level, whatever its contents. */
  lemma {:induction false} LevelBlocksLayout(q: string, files: seq<FileEntry>, ds: seq<DirEntry>, subs: seq<LevelResult>)
    requires |ds| == |subs|
    ensures var blocks := LevelBlocks(q, files, ds, subs);
      && (blocks == [] <==> files == [] && ds == [])
      && Eof !in blocks
      && |blocks| == |ds| + (if files == [] then 0 else 1)
      && (files != [] && q == "" ==> blocks[0] == FileList(files))
      && (files != [] && q != "" ==> blocks[|ds|] == FileList(files))
  {
    var blocks := LevelBlocks(q, files, ds, subs);
    var first := if q == "" && files != [] then 1 else 0;
    forall k | 0 <= k < |blocks| ensures blocks[k] != Eof {
      if !(files != [] && ((q == "" && k == 0) || (q != "" && k == |ds|))) {
        LevelBlocksAt(q, files, ds, subs, k - first);
      }
    }
  }

  /** The folder of the `i`-th sub-directory, after the files block at the
      root and from the first block elsewhere. */
  lemma {:induction false} LevelBlocksAt(q: string, files: seq<FileEntry>, ds: seq<DirEntry>, subs: seq<LevelResult>, i: nat)
    requires |ds| == |subs| && i < |ds|
    ensures var first := if q == "" && files != [] then 1 else 0;
      var blocks := LevelBlocks(q, files, ds, subs);
      first + i < |blocks| && blocks[first + i] == Folder(ds[i], subs[i])
  {
    DetailsBlocksAt(ds, subs, i);
  }

  /** A level that kept no file and no sub-directory shows only the `~EOF~`
      marker, and only such a level does; its totals are zero. */
  lemma {:induction false} EmptyLevel(b: Bucket, le: (string, string) -> bool, q: string)
    requires Valid(b)
    ensures var r := Tree(b, le, q);
      && r.html.Div?
      && (r.html.blocks == [Eof] <==> LevelFiles(b, q) == [] && LevelDirs(b, q) == [])
      && (r.html.blocks == [Eof] ==> r.size == 0 && r.fileCount == 0)
  {
    SortedDirsBounded(b, le, q);
    var files := SortedFiles(b, le, q);
    var ds := SortedDirs(b, le, q);
    var subs := SubTrees(b, le, q, ds);
    SortByPermutes(LevelFiles(b, q), FileEntryName, le);
    SortByPermutes(LevelDirs(b, q), DirEntryName, le);
    TreeFromParts(b, le, q, ds, subs);
    LevelBlocksLayout(q, files, ds, subs);
    if files == [] && ds == [] {
      assert LevelFiles(b, q) == [] && subs == [];
    }
  }

  /** The order of a level that kept something, whatever its contents. */
  lemma {:induction false} LevelMarkupOrder(q: string, files: seq<FileEntry>, ds: seq<DirEntry>, subs: seq<LevelResult>)
    requires |ds| == |subs|
    ensures var h := LevelMarkup(LevelBlocks(q, files, ds, subs));
      var first := if q == "" && files != [] then 1 else 0;
      (files != [] || ds != []) ==>
        && h == Div(h.blocks)
        && |h.blocks| == |ds| + (if files == [] then 0 else 1)
        && (files != [] && q == "" ==> h.blocks[0] == FileList(files))
        && (files != [] && q != "" ==> h.blocks[|ds|] == FileList(files))
        && forall i :: 0 <= i < |ds| ==> h.blocks[first + i] == Folder(ds[i], subs[i])
  {
    LevelBlocksLayout(q, files, ds, subs);
    forall i | 0 <= i < |ds| {
      LevelBlocksAt(q, files, ds, subs, i);
    }
  }

  /** The order of a level that kept something: the sorted files form one
      list, first at the root and last everywhere else; the sub-directories
      follow one another in sorted order, each folder holding the result of
      the recursive call on that sub-directory (`SubTreesAt`) and showing
      its size. */
  lemma {:induction false} LevelOrder(b: Bucket, le: (string, string) -> bool, q: string)
    requires Valid(b)
    ensures ChildrenOf(b, q, SortedDirs(b, le, q))
    ensures var r := Tree(b, le, q);
      var files := SortedFiles(b, le, q);
      var ds := SortedDirs(b, le, q);
      var subs := SubTrees(b, le, q, ds);
      var first := if q == "" && files != [] then 1 else 0;
      (files != [] || ds != []) ==>
        && r.html == Div(r.html.blocks)
        && |r.html.blocks| == |ds| + (if files == [] then 0 else 1)
        && (files != [] && q == "" ==> r.html.blocks[0] == FileList(files))
        && (files != [] && q != "" ==> r.html.blocks[|ds|] == FileList(files))
        && forall i :: 0 <= i < |ds| ==>
             r.html.blocks[first + i] == Folder(ds[i], subs[i])
  {
    SortedDirsBounded(b, le, q);
    var ds := SortedDirs(b, le, q);
    var subs := SubTrees(b, le, q, ds);
    TreeFromParts(b, le, q, ds, subs);
    LevelMarkupOrder(q, SortedFiles(b, le, q), ds, subs);
  }

  // ---------------------------------------------------------------------
  // Pagination
  // ---------------------------------------------------------------------

  /** Two stores list the same objects and delimited prefixes for every
      prefix, however each splits them into pages. */
  ghost predicate SameListings(b1: Bucket, b2: Bucket) {
    forall q :: AllObjects(b1.pages(q)) == AllObjects(b2.pages(q)) && AllPrefixes(b1.pages(q)) == AllPrefixes(b2.pages(q))
  }

  /** The whole result does not depend on how the store splits its listings
      into pages. */
  lemma {:induction false} PaginationIndependent(b1: Bucket, b2: Bucket, le: (string, string) -> bool, q: string)
    requires Valid(b1) && Valid(b2) && SameListings(b1, b2)
    ensures Tree(b1, le, q) == Tree(b2, le, q)
    decreases Measure(b1, q), 1
  {
    assert LevelFiles(b1, q) == LevelFiles(b2, q);
    assert LevelDirs(b1, q) == LevelDirs(b2, q);
    var ds := SortedDirs(b1, le, q);
    SortedDirsBounded(b1, le, q);
    SortedDirsBounded(b2, le, q);
    SubTreesPaginationIndependent(b1, b2, le, q, ds);
    TreeFromParts(b1, le, q, ds, SubTrees(b1, le, q, ds));
    TreeFromParts(b2, le, q, ds, SubTrees(b2, le, q, ds));
  }

  lemma {:induction false} SubTreesPaginationIndependent(b1: Bucket, b2: Bucket, le: (string, string) -> bool, q: string, ds: seq<DirEntry>)
    requires Valid(b1) && Valid(b2) && SameListings(b1, b2)
    requires ChildrenOf(b1, q, ds) && ChildrenOf(b2, q, ds)
    ensures SubTrees(b1, le, q, ds) == SubTrees(b2, le, q, ds)
    decreases Measure(b1, q), 0, |ds|
  {
    if ds != [] {
      SubTreesPaginationIndependent(b1, b2, le, q, ds[..|ds| - 1]);
      PaginationIndependent(b1, b2, le, ds[|ds| - 1].prefix);
    }
  }
}
