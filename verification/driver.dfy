/** The driver: `main`, with `extractCSS` and `prepareJSBundle` as the two
    steps it runs in order. File writes are returned as values and the
    process exit status is a field of the outcome. */
module Driver {
  import opened Wrappers
  import opened BuildTree
  import opened Resolver
  import opened StyleAggregator
  import opened Bundle

  /** The two files the script produces in the `dist` directory. */
  datatype OutputFile = IndexCss | IndexBundleJs

  /** One completed `writeFileSync`. */
  datatype FileWrite = FileWrite(target: OutputFile, content: string)

  /** What a run observes: whether the build output directory exists, its
      snapshot, and whether each of the two writes throws. */
  datatype Environment = Environment(
    buildExists: bool,
    build: seq<Entry>,
    cssWriteFails: bool,
    bundleWriteFails: bool)

  /** Why a run stopped. */
  datatype Stop =
    | Completed
    | BuildMissing
    | EntryNotFound
    | Threw(failedWrite: OutputFile)

  /** The exit status, the files written (in order), and why the run stopped. */
  datatype Outcome = Outcome(exitCode: int, writes: seq<FileWrite>, stop: Stop)

  /** True when some file of the build passes the entry test. */
  predicate HasEntryCandidate(build: seq<Entry>)
  {
    exists f | f in Files(build, []) :: IsEntryCandidate(f)
  }

  /** `extractCSS()`: the `index.css` text is every style file of the build,
      in depth-first order, each followed by a newline. */
  function ExtractCss(build: seq<Entry>): (w: FileWrite)
    ensures w.target == IndexCss
    ensures w.content == Terminated(Contents(StyleFilesOf(Files(build, []))))
  {
    FileWrite(IndexCss, Terminated(Contents(CollectCssFiles(build))))
  }

  /** `prepareJSBundle()` up to its write: `None` is the `process.exit(1)`
      taken when no entry file is found; otherwise the bundle wraps the
      content of the first candidate file in depth-first order. */
  function PrepareJsBundle(build: seq<Entry>): (w: Option<FileWrite>)
    ensures w.None? <==> !HasEntryCandidate(build)
    ensures w.Some? ==> w.value.target == IndexBundleJs
    ensures w.Some? ==> exists k | 0 <= k < |Files(build, [])| ::
              && IsEntryCandidate(Files(build, [])[k])
              && (forall j | 0 <= j < k :: !IsEntryCandidate(Files(build, [])[j]))
              && UnwrapBundle(w.value.content) == Some(Files(build, [])[k].content)
  {
    match FindDAppExportModule(build)
    case None => None
    case Some(f) =>
      UnwrapAssemble(f.content);
      Some(FileWrite(IndexBundleJs, AssembleBundle(f.content)))
  }

  /** `main()`: stops with status 1 before writing anything when the build
      output is missing; otherwise writes `index.css` first and only then
      resolves the entry file. A thrown write error is caught and gives
      status 1; a missing entry file gives status 1 with `index.css` already
      written; a run that finishes gives status 0 with both files. */
  function Run(env: Environment): (o: Outcome)
    ensures o.exitCode == 0 || o.exitCode == 1
    ensures o.exitCode == 0 <==> o.stop == Completed
    ensures !env.buildExists ==> o.exitCode == 1 && o.writes == []
    ensures env.buildExists && !env.cssWriteFails ==> |o.writes| >= 1 && o.writes[0] == ExtractCss(env.build)
    ensures forall i | 0 <= i < |o.writes| && o.writes[i].target == IndexBundleJs ::
              i == 1 && o.writes[0].target == IndexCss
    ensures o.stop == Completed <==>
              env.buildExists && !env.cssWriteFails && !env.bundleWriteFails && HasEntryCandidate(env.build)
    ensures !HasEntryCandidate(env.build) ==>
              o.exitCode == 1 && forall w | w in o.writes :: w.target == IndexCss
    ensures |o.writes| == if !env.buildExists || env.cssWriteFails then 0
                          else if HasEntryCandidate(env.build) && !env.bundleWriteFails then 2
                          else 1
    ensures !env.buildExists ==> o.stop == BuildMissing
    ensures env.buildExists && env.cssWriteFails ==> o.stop == Threw(IndexCss)
    ensures env.buildExists && !env.cssWriteFails && !HasEntryCandidate(env.build) ==> o.stop == EntryNotFound
    ensures env.buildExists && !env.cssWriteFails && HasEntryCandidate(env.build) && env.bundleWriteFails ==>
              o.stop == Threw(IndexBundleJs)
    ensures o.stop == Completed ==>
              o.writes == [ExtractCss(env.build),
                           FileWrite(IndexBundleJs, AssembleBundle(FindDAppExportModule(env.build).value.content))]
  {
    if !env.buildExists then Outcome(1, [], BuildMissing)
    else if env.cssWriteFails then Outcome(1, [], Threw(IndexCss))
    else BundleAfterCss(env.build, ExtractCss(env.build), env.bundleWriteFails)
  }

  /** The part of `main()` after `index.css` has been written: resolve the
      entry file, then write the bundle. The CSS write stays first and is
      never repeated; the bundle is written only when an entry file exists. */
  function BundleAfterCss(build: seq<Entry>, css: FileWrite, bundleWriteFails: bool): (o: Outcome)
    requires css.target == IndexCss
    ensures o.exitCode == 0 <==> o.stop == Completed
    ensures o.exitCode == 0 || o.exitCode == 1
    ensures |o.writes| == if HasEntryCandidate(build) && !bundleWriteFails then 2 else 1
    ensures o.writes[0] == css
    ensures |o.writes| == 2 ==> o.writes[1].target == IndexBundleJs
    ensures o.stop == if !HasEntryCandidate(build) then EntryNotFound
                      else if bundleWriteFails then Threw(IndexBundleJs)
                      else Completed
    ensures o.stop == Completed ==>
              o.writes[1] == FileWrite(IndexBundleJs, AssembleBundle(FindDAppExportModule(build).value.content))
  {
    match PrepareJsBundle(build)
    case None => Outcome(1, [css], EntryNotFound)
    case Some(js) =>
      if bundleWriteFails then Outcome(1, [css], Threw(IndexBundleJs))
      else Outcome(0, [css, js], Completed)
  }
}
