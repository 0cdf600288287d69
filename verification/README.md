# Bundle preparation for an embeddable DApp

This project models the post-build step of a Next.js application that is
shipped as an embeddable "DApp": the script that turns the build output
directory into two files, `dist/index.css` and `dist/index.bundle.js`, the
latter exposing a single entry point `window.DApp.init`.

The build output is an immutable tree (`BuildTree.Entry`): files with a name
and text content, directories with their entries in the order the directory
listing returns them. Nothing is sorted. On that tree the script becomes four
pure pieces:

- **Entry-artifact resolution** (`Resolver`): a depth-first, first-match
  search for a file whose name ends with `.js` and whose content includes both
  `DApp` and `init`. It is proved equal to "the first candidate of the
  depth-first file listing" (`BuildTree.Files`), so it finds nothing exactly
  when no file qualifies, and the path it returns looks up to a file, never a
  directory.
- **Style aggregation** (`StyleAggregator`): the accumulating collection of
  `.css` files, proved equal to a filter of the same listing (repeats kept),
  and the combine loop, proved to put a newline after every file. A splitting
  function inverts the combination, in both directions, when no style file
  holds a newline of its own.
- **Bundle assembly** (`Bundle`): the four-part concatenation. An unwrapping
  function recovers the embedded build content, and the two are proved
  inverse. The `DApp` global is defined, and `init` attached to it, before
  the embedded content begins.
- **Driver** (`Driver`): `main` as a function from an environment to an
  outcome: exit status, the files written in order, and why the run stopped.

Modules: `Wrappers` (Option), `Strings` (`endsWith`/`includes`),
`BuildTree`, `Resolver`, `StyleAggregator`, `Bundle`, `Driver`.

Resolution is a first-match substring test; traversal keeps the listing
order as given; every style file, the last one included, is followed by a
newline.

## Model

| member | source | states |
|---|---|---|
| BuildTree.FilesNameFiles | scripts/prepare-bundle.js:17-31 | every file the traversal reaches lies under the starting directory, and reading its joined path back yields exactly that file and content, never a directory (names within a directory being unique) |
| Resolver.SearchInDirectory | scripts/prepare-bundle.js:17-36 | the recursive search mirrors `searchInDirectory`; its contract says a hit passes the entry test and is a file of the listing, and its full meaning (the first candidate in depth-first order) is stated by `SearchIsFirstMatch` |
| Resolver.FirstCandidate | scripts/prepare-bundle.js:20-33 | reference search over a flat list: the index returned passes the entry test and nothing before it does; none exactly when no element passes |
| Resolver.SearchIsFirstMatch | scripts/prepare-bundle.js:17-36 | the recursive directory search returns exactly the first candidate of the depth-first pre-order file listing |
| Resolver.SearchSiblings | scripts/prepare-bundle.js:20-25 | a hit in an earlier run of siblings (including anywhere in a directory's subtree) wins over any later sibling; the later run is consulted only when the earlier one has no hit |
| Resolver.FindDAppExportModule | scripts/prepare-bundle.js:11-39 | the result is a `.js` file whose content includes `DApp` and `init`, and it is the first such file in depth-first order; the result is null exactly when no file in the tree passes |
| Resolver.ResolvedPathNamesFile | scripts/prepare-bundle.js:23-30 | the resolved path, read back from the tree, is a file (not a directory) ending in `.js` whose content includes both markers |
| Resolver.DirectoryNamedJsIsSearched | scripts/prepare-bundle.js:23-26 | a directory named `chunk.js` is recursed into, not selected, and its inner candidate beats a later candidate sibling |
| StyleAggregator.StyleFilesOf | scripts/prepare-bundle.js:58-62 | reference filter: the kept files are exactly the `.css` files of the list |
| StyleAggregator.StyleFilesOfKeepsRepeats | scripts/prepare-bundle.js:60-61 | no deduplication: each `.css` file appears as often as in the listing and nothing else appears |
| StyleAggregator.FindCssFiles | scripts/prepare-bundle.js:52-64 | the recursive push into the shared `cssFiles` array mirrors `findCSSFiles`; its contract says it only appends, and only style files, and its full meaning is stated by `FindCssFilesCollectsAll` |
| StyleAggregator.FindCssFilesCollectsAll | scripts/prepare-bundle.js:52-64 | the recursive push into the shared array appends exactly the `.css` files of the depth-first listing, in order, to what the array already held |
| StyleAggregator.CollectCssFiles | scripts/prepare-bundle.js:51-66 | the collected list holds exactly the files anywhere in the tree whose names end with `.css`, in depth-first order |
| StyleAggregator.Terminated | scripts/prepare-bundle.js:69-73 | the combined text is as long as all contents together plus one per file, and a non-empty combination ends with a newline |
| StyleAggregator.CombineCss | scripts/prepare-bundle.js:69-73 | the loop starting from `''` yields each file's content followed by `'\n'`, in order; length is the sum of content lengths plus the file count |
| StyleAggregator.SplitTerminatedRoundTrip | scripts/prepare-bundle.js:69-73 | when no file holds a newline, splitting the combined text gives back exactly the file contents, so no content is lost, merged or reordered |
| StyleAggregator.TerminatedSplitRoundTrip | scripts/prepare-bundle.js:69-73 | every empty or newline-terminated text is the combination of its own pieces |
| Bundle.AssembleBundle | scripts/prepare-bundle.js:264-269 | the bundle starts with the pre-definition script, holds the build content verbatim at offset pre+init, and ends with the final verification code |
| Bundle.UnwrapAssemble | scripts/prepare-bundle.js:264-269 | the embedded build content is recovered verbatim from any bundle |
| Bundle.AssembleUnwrap | scripts/prepare-bundle.js:264-269 | every text with the bundle's fixed prefix and suffix is the bundle of the content between them |
| Bundle.AssembleInjective | scripts/prepare-bundle.js:264-269 | different build contents give different bundles |
| Bundle.PublishedBeforeContent | scripts/prepare-bundle.js:241-269 | `window.DApp = {};` and then `window.DApp.init = init;` both occur, in that order, before the first character of the build content |
| Driver.ExtractCss | scripts/prepare-bundle.js:47-78 | `index.css` receives every `.css` file of the build, in depth-first order, each followed by a newline |
| Driver.PrepareJsBundle | scripts/prepare-bundle.js:81-274 | no bundle (exit 1) exactly when no file passes the entry test; otherwise `index.bundle.js` receives a bundle that unwraps to the content of the first passing file in depth-first order |
| Driver.BundleAfterCss | scripts/prepare-bundle.js:287-293 | after `index.css` is written, that write stays first and is not repeated; the bundle is written, as the second and last write, only when an entry file exists and its write does not throw; the stop reason is fixed by whether an entry file exists and whether the bundle write throws |
| Driver.Run | scripts/prepare-bundle.js:277-298 | exit 0 or 1; exit 1 with nothing written when the build is missing; `index.css` is written before resolution, so it survives a failed resolution; a thrown write error gives exit 1 and a throwing write is not recorded; the number of writes and the stop reason are fixed for every case; exit 0 exactly when the build exists, both writes succeed and an entry file exists, with the CSS and bundle written once each, in that order |

## Left out

- File-system I/O (`readdirSync`, `readFileSync`, `existsSync`, `writeFileSync`): the tree is a snapshot given as input; writes are returned as values.
- Creating `dist` with `mkdirSync` at load time (lines 42-44): it runs outside `main`, so it is assumed to succeed.
- Read errors during traversal and entries that are neither files nor directories (symbolic links, sockets): the snapshot holds only readable files and directories. The only thrown errors modelled are the two output writes failing.
- Path strings: `path.join` and `path.resolve` become sequences of path components relative to the build root.
- Console logging, and `process.exit` as a real call: the exit status is a field of `Driver.Outcome`.
- The browser behaviour of the three script templates (polyfills, the React-rendering `init`, diagnostic logging), lines 101-262: `Bundle` keeps the two statements that define and publish `window.DApp` verbatim, and replaces the surrounding text (the comment lines before the global's definition, the polyfills, the `init` definition, the logging) with short stand-ins, each in its own slot. The offsets are stated through the lengths of those slots, so the order properties do not depend on the stand-in text.
- The React UI, sample DApp, host page and build configuration: they only consume or configure the entry point and contain no bundle logic.
