/** `renderTree` and its inner recursive `listLevel`. The closure counters
    `totalFiles` and `totalDirs` are the fields of one `Traversal` object,
    created afresh by every `RenderTree` call. */
module Render {
  import opened Store
  import opened Sorting
  import opened DirTree
  import opened Seqs

  class Traversal {
    const bucket: Bucket
    const le: (string, string) -> bool
    var totalFiles: nat
    var totalDirs: nat

    /** `let totalFiles = 0, totalDirs = 0;` */
    constructor (bucket: Bucket, le: (string, string) -> bool)
      ensures this.bucket == bucket && this.le == le
      ensures totalFiles == 0 && totalDirs == 0
    {
      this.bucket := bucket;
      this.le := le;
      totalFiles, totalDirs := 0, 0;
    }

    /** `listLevel(curPrefix)`: returns the level's result and adds its files
        and its folders, at every depth, to the counters. */
    method ListLevel(curPrefix: string) returns (result: LevelResult)
      requires Valid(bucket)
      modifies this
      decreases Measure(bucket, curPrefix), 1
      ensures result == Tree(bucket, le, curPrefix)
      ensures totalFiles == old(totalFiles) + result.fileCount
      ensures totalDirs == old(totalDirs) + CountDetails(result.html)
    {
      var files, dirs, currentLevelSize := CollectLevel(bucket, curPrefix);

      var filesBlock;
      files, filesBlock := ListFiles(files);
      dirs := SortBy(dirs, DirEntryName, le);
      SortedDirsBounded(bucket, le, curPrefix);
      var dirsBlock, totalSubDirSize, totalSubDirFileCount, subs := ListSubDirs(curPrefix, dirs);

      result := LevelResult(LevelMarkup(Arrange(curPrefix, filesBlock, dirsBlock)),
                            currentLevelSize + totalSubDirSize,
                            |files| + totalSubDirFileCount);
      LevelBlocksCount(curPrefix, files, dirs, subs);
      TreeIs(bucket, le, curPrefix, files, dirs, subs, filesBlock, dirsBlock,
             currentLevelSize + totalSubDirSize, |files| + totalSubDirFileCount);
    }

    /** The files part of `listLevel`: a level that kept files adds them to
        `totalFiles` and lists them sorted by name; one that kept none shows
        no list. */
    method ListFiles(files: seq<FileEntry>) returns (sorted: seq<FileEntry>, filesBlock: seq<Node>)
      modifies this
      ensures sorted == SortBy(files, FileEntryName, le)
      ensures filesBlock == FilesBlock(sorted)
      ensures totalFiles == old(totalFiles) + |sorted|
      ensures totalDirs == old(totalDirs)
    {
      SortByPermutes(files, FileEntryName, le);
      sorted, filesBlock := files, [];
      if |files| > 0 {
        totalFiles := totalFiles + |files|;
        sorted := SortBy(files, FileEntryName, le);
        filesBlock := [FileList(sorted)];
      }
    }

    /** The `for (const d of dirs)` loop of `listLevel`: one recursive call per
        sub-directory in the given order, folding each child's totals into the
        level's and bumping `totalDirs` once per child. */
    method ListSubDirs(curPrefix: string, dirs: seq<DirEntry>)
      returns (dirsBlock: seq<Node>, totalSubDirSize: nat, totalSubDirFileCount: nat, ghost subs: seq<LevelResult>)
      requires Valid(bucket) && ChildrenOf(bucket, curPrefix, dirs)
      modifies this
      decreases Measure(bucket, curPrefix), 0
      ensures subs == SubTrees(bucket, le, curPrefix, dirs)
      ensures dirsBlock == DetailsBlocks(dirs, subs)
      ensures totalSubDirSize == TotalSize(subs)
      ensures totalSubDirFileCount == TotalFileCount(subs)
      ensures totalFiles == old(totalFiles) + TotalFileCount(subs)
      ensures totalDirs == old(totalDirs) + |dirs| + TotalDetails(subs)
    {
      totalSubDirSize, totalSubDirFileCount := 0, 0;
      dirsBlock := [];
      subs := [];
      for i := 0 to |dirs|
        invariant ChildrenOf(bucket, curPrefix, dirs[..i])
        invariant subs == SubTrees(bucket, le, curPrefix, dirs[..i])
        invariant dirsBlock == DetailsBlocks(dirs[..i], subs)
        invariant totalSubDirSize == TotalSize(subs)
        invariant totalSubDirFileCount == TotalFileCount(subs)
        invariant totalFiles == old(totalFiles) + TotalFileCount(subs)
        invariant totalDirs == old(totalDirs) + i + TotalDetails(subs)
      {
        totalDirs := totalDirs + 1;
        var subResult := ListLevel(dirs[i].prefix);
        totalSubDirSize := totalSubDirSize + subResult.size;
        totalSubDirFileCount := totalSubDirFileCount + subResult.fileCount;
        dirsBlock := dirsBlock + [Details(dirs[i].name + "/", subResult.size, subResult.html)];
        SubTreesStep(bucket, le, curPrefix, dirs, i, subs, subResult);
        subs := subs + [subResult];
      }
      TakeAll(dirs);
    }
  }

  /** `renderTree(bucket, prefix)`: the page body, and the two counters of a
      fresh traversal. At the namespace root the tree is wrapped in a `/`
      folder carrying the root's total size. */
  method RenderTree(bucket: Bucket, le: (string, string) -> bool, prefix: string)
    returns (html: Node, totalFiles: nat, totalDirs: nat)
    requires Valid(bucket)
    ensures var root := Tree(bucket, le, prefix);
      && html == (if prefix == "" then Details("/", root.size, root.html) else root.html)
      && totalFiles == root.fileCount
      && totalDirs == CountDetails(root.html)
    ensures totalFiles == |RenderedFiles(html)|
    ensures CountDetails(html) == totalDirs + (if prefix == "" then 1 else 0)
  {
    var traversal := new Traversal(bucket, le);
    var result := traversal.ListLevel(prefix);
    html := result.html;
    if prefix == "" {
      html := Details("/", result.size, html);
    }
    totalFiles, totalDirs := traversal.totalFiles, traversal.totalDirs;
    TreeMatchesRendering(bucket, le, prefix);
  }
}
