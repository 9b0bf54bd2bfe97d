# listr2 directory tree, in Dafny

listr2 is a Cloudflare Worker that shows the contents of an R2 bucket as a
tree of folders. The bucket has no real directories. `renderTree` rebuilds
them from the flat keys. Its inner recursive `listLevel(curPrefix)` works in
five steps:

1. It drains the paginated `bucket.list({prefix, delimiter: "/", cursor})`
   listing.
2. It keeps the objects whose key, minus the prefix, is a plain name.
3. It keeps the delimited prefixes whose stripped name is non-empty.
4. It sorts both lists by name and recurses into each sub-directory in that
   order.
5. It folds the children's `size` and `fileCount` into its own.

Two counters shared by the whole traversal, `totalFiles` and `totalDirs`,
count every kept file and every visited sub-directory. There are also two
string helpers: `escapeHtml` and `parentPrefix`.

The model has six modules:

- **`Text`** (`text.dfy`): `slice`, the one-trailing-slash trim,
  `escapeHtml` (the five chained `replaceAll` calls), a reference
  per-character escape and its inverse, `lastIndexOf` and `parentPrefix`.
- **`Sorting`** (`sorting.dfy`): `Array.prototype.sort` under an abstract
  comparator `le`, written as a stable insertion sort `SortBy`.
- **`Store`** (`store.dfy`): the bucket, the file filter and the directory
  filter. It also holds the imperative drain of one level, `CollectLevel`,
  proved against the functions `LevelFiles` and `LevelDirs`.
  - A `Bucket` pairs the `list` call with, for every prefix, the finite
    chain of pages that call serves.
  - `Valid` says that the chain is what the `list` calls return when each
    call passes on the previous page's cursor. It also says the chain ends,
    and that no delimited prefix is longer than `maxKeyLength`.
- **`DirTree`** (`tree.dfy`): the recursive specification `Tree(b, le, q)`
  of what `listLevel(q)` returns, and the lemmas about it.
  - The markup is kept to its blocks. `Div` is the indenting `<div>`, `Eof`
    the `~EOF~` marker, `FileList` the `<ul>` of a level's files, and
    `Details` one folder with its summary, its size and its body.
- **`Render`** (`render.dfy`): the class `Traversal` holds the two counters
  as fields.
  - `ListLevel` is the recursive method, `ListFiles` its files block and
    `ListSubDirs` its loop over the sorted sub-directories.
  - `RenderTree` creates a fresh traversal. At the namespace root it wraps
    the result in the `/` folder.
  - `ListLevel` is proved to return exactly `Tree` and to move the counters
    by exactly that tree's file count and folder count. `ListFiles` and
    `ListSubDirs` are proved to return the parts `Tree` is built from, and
    `RenderTree` the root's tree with the counters of the whole traversal.
- **`Example`** (`example.dfy`): a concrete bucket whose root listing is
  split over two pages. It holds `a/x` (10 bytes), `a/b/y` (20)
  and `c` (5). Its root totals 35 bytes in 3 files and shows 2 folders,
  whatever the collation.

Termination of the recursion is the room left between the prefix and the
longest delimited prefix. Every kept sub-prefix is strictly longer than the
prefix being listed, because its stripped name is non-empty.

The loop test `while (cursor)` is modelled with JavaScript truthiness. The
next cursor is `page.truncated ? page.cursor : undefined`, and the listing
goes on while it is a non-empty string. So the loop stops after a page that
is not truncated, and also after a truncated page whose cursor is empty or
missing.

## Model

| member | source | states |
|---|---|---|
| Text.TrimTrailingSlashSpec | worker.js:98 | one trailing `/` is removed when present, otherwise the text is unchanged (the `/\/$/` regex, and `endsWith("/") ? slice(0, -1)` at line 186) |
| Text.EscapeHtmlConcat | worker.js:175-181 | escaping distributes over concatenation |
| Text.EscapeHtmlIsPerCharacter | worker.js:175-181 | the chained `replaceAll` calls, `&` first, equal replacing each character by its entity on its own: nothing is escaped twice |
| Text.EntitySafe | worker.js:175-181 | each entity written for a special character, and each other character kept as it is, holds no `<`, `>`, `"` or `'` |
| Text.EscapeHtmlSafe | worker.js:175-181 | the output holds no `<`, `>`, `"` or `'` |
| Text.EscapeHtmlPlain | worker.js:175-181 | text with none of the five special characters comes back unchanged |
| Text.EscapeHtmlRoundTrip | worker.js:175-181 | decoding the five entities recovers the input, so escaping loses nothing |
| Text.LastIndexOf | worker.js:187 | the index is the last occurrence of the character, and it is -1 exactly when the character is absent |
| Text.ParentPrefixIsRoot | worker.js:184-189 | `parentPrefix` returns `""` exactly when the input is empty or has no `/` once one trailing `/` is removed |
| Text.ParentPrefixDropsLastSegment | worker.js:184-189 | otherwise the result is a proper prefix of the input that ends in `/`, and the trimmed input is the result followed by one `/`-free segment |
| Text.ParentOfChild | worker.js:184-189 | the parent of `dir + name + "/"` or of `dir + name`, for a `/`-free non-empty name and a `dir` that is empty or ends in `/`, is `dir` |
| Sorting.SortBySorts | worker.js:112 | under a total preorder the sorted list is ordered by the comparator on names |
| Sorting.SortByPermutes | worker.js:133 | whatever the comparator, the sorted list holds exactly the input's elements, with their multiplicities |
| Store.PushFiles | worker.js:89-95 | the object loop appends exactly the page's kept files, in order, and adds exactly their sizes to the running level size |
| Store.PushDirs | worker.js:97-100 | the prefix loop appends exactly the page's kept sub-directories, in order |
| Store.CollectLevel | worker.js:78-101 | the `do … while (cursor)` drain makes one `list` call per page of the chain, passing each page's next cursor on. It returns the level's kept files and sub-directories, and its size is the sum of the kept files' sizes |
| Store.KeptFilesExactly | worker.js:89-92 | an entry is a kept file exactly when some listed object's key minus the prefix is non-empty and `/`-free; the entry carries that name and the size, a missing size read as 0 |
| Store.PlaceholderNotAFile | worker.js:90-91 | no kept file has a key equal to the prefix |
| Store.KeptDirsExactly | worker.js:97-99 | an entry is a kept sub-directory exactly when its prefix was listed and stripping the prefix and one trailing `/` leaves a non-empty name, which is the entry's name |
| Store.KeptDirLonger | worker.js:98-99 | a kept sub-prefix is strictly longer than the prefix being listed |
| Store.LevelDirsBounded | worker.js:97-99 | every sub-directory of a level is longer than the level's prefix and no longer than the store's longest prefix |
| Store.KeptFilesConcat | worker.js:89-95 | the file filter distributes over concatenated listings |
| Store.KeptDirsConcat | worker.js:97-100 | the directory filter distributes over concatenated listings |
| Store.LevelIsPageByPage | worker.js:78-101 | what a level collects is the in-order concatenation of each page's kept files and kept sub-directories |
| Store.FilesSizeConcat | worker.js:93 | the running size of two runs of files is the sum of their sizes |
| DirTree.SortedDirsBounded | worker.js:133 | the sorted sub-directories, the recursion order, all lie strictly below the level and within the store's bound |
| DirTree.DetailsBlocks | worker.js:141-145 | there is one folder block per sub-directory |
| DirTree.SubTrees | worker.js:133-145 | there is one child result per sub-directory |
| DirTree.TreeMatchesRendering | worker.js:150-151 | a level's `fileCount` is the number of file links anywhere in its markup, and its `size` is the sum of those files' sizes, over the files the traversal kept |
| DirTree.SubTreesMatchRendering | worker.js:137-138 | the folded `totalSubDirFileCount` and `totalSubDirSize` are the count and the total size of the files shown inside the level's folders |
| DirTree.DetailsRendered | worker.js:137-145 | folders whose own size and count agree with their markup fold into sums that agree with the markup of the whole folder list |
| DirTree.LevelBlocksRendered | worker.js:148-151 | a level's file links are its own files plus those inside its folders, in either order, so the counts and sizes add up |
| DirTree.FilesSizePermutation | worker.js:112 | sorting the files does not change their total size |
| DirTree.DetailsBlocksCount | worker.js:141-145 | the folder blocks show one folder per sub-directory plus every folder inside them |
| DirTree.TreeDetailsCount | worker.js:133-134 | a level shows one folder per sub-directory it lists plus every folder below them |
| DirTree.LevelBlocksCount | worker.js:141-155 | the folders of a level's markup, whatever its contents, are its folder blocks and what they hold; the files list and `~EOF~` add none |
| DirTree.LevelBlocksAt | worker.js:141-148 | the i-th sub-directory's folder sits right after the files list at the root and at position i elsewhere |
| DirTree.DetailsBlocksAt | worker.js:141-145 | the i-th folder block is the i-th sub-directory's `name/` summary with that child's size and markup |
| DirTree.SubTreesAt | worker.js:133-135 | the i-th child result is the result of listing the i-th sub-directory |
| DirTree.LevelSorted | worker.js:109-133 | each level's files and sub-directories are ordered by the comparator, and each list holds exactly what the level collected |
| DirTree.LevelBlocksLayout | worker.js:148 | at the root the files block precedes the folders, elsewhere it follows them. There are as many blocks as folders plus one when there are files, and no block is `~EOF~` |
| DirTree.EmptyLevel | worker.js:155 | a level shows the `~EOF~` marker exactly when it kept no file and no sub-directory, and then its size and file count are 0 |
| DirTree.LevelMarkupOrder | worker.js:141-155 | the markup of blocks that hold something is one `div` with the files list first at the root and last elsewhere, and the i-th folder right after the files list at the root and at position i elsewhere |
| DirTree.LevelOrder | worker.js:133-148 | a level that kept something shows its sorted files in one list, first at the root and last elsewhere. Its folders follow in sorted order, the i-th holding the i-th child result with its size. By `DirTree.SubTreesAt` that child result is the recursive `listLevel` on the i-th sub-directory |
| DirTree.PaginationIndependent | worker.js:78-101 | two stores that list the same objects and prefixes for every prefix give the same result at every level, however they split the listings into pages |
| DirTree.SubTreesPaginationIndependent | worker.js:133-145 | the same, for the child results of a list of sub-directories |
| Render.Traversal.constructor | worker.js:69 | both counters start at 0 |
| Render.Traversal.ListLevel | worker.js:71-159 | `listLevel(q)` returns exactly `Tree(q)`, the recursive definition in `tree.dfy`: its markup is the level's blocks (root files first, elsewhere last) or `~EOF~`, its size is the kept files' sizes plus the children's sizes, and its file count is `files.length` plus the children's counts. It adds that file count to `totalFiles` and the tree's number of folders to `totalDirs` |
| Render.Traversal.ListFiles | worker.js:108-128 | the files block of `listLevel`: the files come back sorted by the comparator, the block is their list or nothing when there are none, and `totalFiles` grows by their number while `totalDirs` stays |
| Render.Traversal.ListSubDirs | worker.js:130-145 | the loop over the sorted sub-directories recurses into each in order. It returns one folder block per child and the sums of the children's sizes and counts, adding one folder per child and everything below it to `totalDirs` |
| Render.RenderTree | worker.js:68-173 | returns the root's markup, wrapped in a `/` folder with the root's size when the prefix is empty. `totalFiles` is the root's `fileCount` and equals the number of file links shown. `totalDirs` is the number of folders shown, not counting the `/` wrapper |
| Example.SampleValid | worker.js:78-101 | the sample store, with its root listing split over two pages, serves a finite cursor chain for every prefix |
| Example.LeafLevel | worker.js:150-151 | a level holding one file and no folder has that file's size, a file count of 1 and no folder |
| Example.OneFolderLevel | worker.js:150-151 | a level holding one file and one folder adds the file to the folder's size and count, and shows one folder more than the child |
| Example.SampleRoot | worker.js:150-151 | keys `a/x` (10), `a/b/y` (20) and `c` (5) give a root of size 35 with 3 files and 2 folders, for any collation |

## Left out

- The `fetch` handler (worker.js:9-55): URL parsing, the `/raw/` passthrough with `env.R2.get` and header copying, the `env` settings, the page template and the `Response`. This is I/O plumbing around the core.
- `formatSize` (worker.js:59-65) is floating-point formatting with `Math.log`, `Math.pow` and `toFixed`. A folder's tooltip is kept as its size in bytes.
- `localeCompare(…, "zh-Hans-CN")` is a foreign collation. It is the parameter `le`; sortedness is proved for any total preorder, and the rest for any `le`.
- The concrete markup: the `<ul>`, `<li>` and `<details>` strings, the `href` built from `rootUrl` or `/raw/` (worker.js:114-125), and the `open` attribute (worker.js:136). The escaping of names and tooltips inside the markup is likewise left out; `escapeHtml` itself is modelled.
- The `httpMetadata` carried by each file entry and requested with `include`, and the `limit: 1000` argument: they never affect the tree.
- `async`/`await`: each awaited `list` call and each awaited recursive `listLevel` is taken as a plain call. Other code, and other writers to the bucket, may run between two awaits; the model does not capture that.
- Store.CollectLevel: `Bucket.list` is one fixed function, so the bucket is taken to be the same across every awaited `list` call of a traversal. A store that changes between two pages is not modelled. `DirTree.PaginationIndependent` relies on the same assumption.
- Store.FilesSizeConcat: sizes and counts are unbounded `nat`. JavaScript adds them as doubles (worker.js:93, 110, 137-138, 150-151), which is exact only while the sums stay below 2^53.
- Text.LastIndexOf: strings are sequences of Unicode scalar values. JavaScript's `length`, `slice` and `lastIndexOf` count UTF-16 code units. The two agree on the offsets used here only for keys that begin with the listed prefix, and `Bucket` does not require that of the keys a listing returns.
- `String(s)` in `escapeHtml`: only string inputs are modelled.
- A failing `list` call (a thrown error) is not modelled, nor are counters left half-updated by it.
- `Valid` asks of every prefix, listed or not, that its chain of pages ends and that its delimited prefixes are no longer than `maxKeyLength`. A store that breaks this only for prefixes the traversal never lists is excluded although the source terminates on it; the source fails to terminate only when a prefix it does list misbehaves.
- Sorting.SortBy: stability is not stated. The model sorts stably, as `Array.prototype.sort` is specified to, but no lemma relies on it or proves it.
- Store.CollectLevel: the loop stops at the first page whose next cursor is not a non-empty string, as the code does. A store whose truncated pages always carry a non-empty cursor is one where this is the same as stopping at the first page that is not truncated.
- Render.Traversal.ListLevel: the in-place `files.sort` and `dirs.sort` are modelled as reassignment with the sorted sequence, since the arrays are local and not aliased.
- Render.Traversal.ListFiles: this is the `if (files.length)` block of `listLevel` made into its own method, so that its branch stands alone.
- Render.Traversal.ListSubDirs: this is the `for (const d of dirs)` loop of `listLevel` made into its own method, so that its invariants stand alone.
- A missing `objects` or `delimitedPrefixes` array (`|| []`) is the empty sequence of a `Page`, and a missing size is `None`, read as 0. A size of 0 and a missing size are therefore the same, as `obj.size || 0` makes them.
