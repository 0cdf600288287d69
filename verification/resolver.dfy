/** Entry-artifact resolution: `findDAppExportModule` and its inner
    `searchInDirectory`: a depth-first, first-match substring test. */
module Resolver {
  import opened Wrappers
  import opened Strings
  import opened BuildTree

  /** The test one file must pass: its name ends with `.js` and its content
      includes both `DApp` and `init`. */
  predicate IsEntryCandidate(f: FileRef)
  {
    EndsWith(f.name, ".js") && Contains(f.content, "DApp") && Contains(f.content, "init")
  }

  /** `searchInDirectory(dir)`: entries are visited in order; a directory is
      tested first and searched recursively, returning as soon as its subtree
      yields a hit; otherwise a file is checked and returned on a match. */
  function SearchInDirectory(es: seq<Entry>, dir: seq<string>): (r: Option<FileRef>)
    ensures r.Some? ==> IsEntryCandidate(r.value) && r.value in Files(es, dir)
    decreases es
  {
    if |es| == 0 then None
    else
      match es[0]
      case Dir(n, kids) =>
        var inner := SearchInDirectory(kids, dir + [n]);
        if inner.Some? then inner else SearchInDirectory(es[1..], dir)
      case File(n, c) =>
        if IsEntryCandidate(FileRef(dir, n, c)) then Some(FileRef(dir, n, c))
        else SearchInDirectory(es[1..], dir)
  }

  /** Reference definition: the index of the first candidate in a flat list
      of files. */
  function FirstCandidate(fs: seq<FileRef>): (k: Option<nat>)
    ensures k.Some? ==> k.value < |fs| && IsEntryCandidate(fs[k.value])
    ensures k.Some? ==> forall j | 0 <= j < k.value :: !IsEntryCandidate(fs[j])
    ensures k.None? <==> forall j | 0 <= j < |fs| :: !IsEntryCandidate(fs[j])
  {
    if |fs| == 0 then None
    else if IsEntryCandidate(fs[0]) then Some(0)
    else
      match FirstCandidate(fs[1..])
      case None => None
      case Some(j) => Some(j + 1)
  }

  /** The first candidate of a flat list of files, if any. */
  function FirstMatch(fs: seq<FileRef>): Option<FileRef>
  {
    match FirstCandidate(fs)
    case None => None
    case Some(k) => Some(fs[k])
  }

  /** In a concatenation the first match comes from the first part whenever
      that part has one. */
  lemma {:induction false} FirstMatchConcat(a: seq<FileRef>, b: seq<FileRef>)
    ensures FirstMatch(a + b) == if FirstMatch(a).Some? then FirstMatch(a) else FirstMatch(b)
    decreases |a|
  {
    if |a| == 0 {
      assert a + b == b;
    } else {
      assert (a + b)[0] == a[0];
      if !IsEntryCandidate(a[0]) {
        assert (a + b)[1..] == a[1..] + b;
        FirstMatchConcat(a[1..], b);
        FirstMatchSkip(a);
        FirstMatchSkip(a + b);
      }
    }
  }

  /** Skipping a leading non-candidate does not change the first match. */
  lemma FirstMatchSkip(fs: seq<FileRef>)
    requires |fs| > 0 && !IsEntryCandidate(fs[0])
    ensures FirstMatch(fs) == FirstMatch(fs[1..])
  {
    match FirstCandidate(fs[1..])
    case None =>
    case Some(j) => assert fs[j + 1] == fs[1..][j];
  }

  /** The recursive search finds exactly the first candidate of the
      depth-first file listing. */
  lemma {:induction false} SearchIsFirstMatch(es: seq<Entry>, dir: seq<string>)
    ensures SearchInDirectory(es, dir) == FirstMatch(Files(es, dir))
    decreases es
  {
    if |es| > 0 {
      SearchIsFirstMatch(es[1..], dir);
      match es[0]
      case Dir(n, kids) =>
        SearchIsFirstMatch(kids, dir + [n]);
        FirstMatchConcat(Files(kids, dir + [n]), Files(es[1..], dir));
      case File(n, c) =>
        FirstMatchConcat([FileRef(dir, n, c)], Files(es[1..], dir));
    }
  }

  /** Sibling order decides: the search over two runs of siblings returns the
      first run's hit if it has one, and only otherwise looks at the second. */
  lemma SearchSiblings(a: seq<Entry>, b: seq<Entry>, dir: seq<string>)
    ensures SearchInDirectory(a + b, dir)
         == if SearchInDirectory(a, dir).Some? then SearchInDirectory(a, dir)
            else SearchInDirectory(b, dir)
  {
    SearchIsFirstMatch(a + b, dir);
    SearchIsFirstMatch(a, dir);
    SearchIsFirstMatch(b, dir);
    FilesConcat(a, b, dir);
    FirstMatchConcat(Files(a, dir), Files(b, dir));
  }

  /** `findDAppExportModule()`: the search started at the build root. The
      result is a candidate file of the listing with no candidate before it;
      it is `None` exactly when no file of the build is a candidate. */
  function FindDAppExportModule(build: seq<Entry>): (r: Option<FileRef>)
    ensures r.Some? ==> IsEntryCandidate(r.value)
    ensures r.Some? ==> exists k | 0 <= k < |Files(build, [])| ::
              Files(build, [])[k] == r.value
              && forall j | 0 <= j < k :: !IsEntryCandidate(Files(build, [])[j])
    ensures r.None? <==> forall f | f in Files(build, []) :: !IsEntryCandidate(f)
  {
    SearchIsFirstMatch(build, []);
    SearchInDirectory(build, [])
  }

  /** The resolved path names a file, never a directory: reading it back
      yields a file whose name ends with `.js` and whose content includes
      `DApp` and `init`. */
  lemma ResolvedPathNamesFile(build: seq<Entry>)
    requires UniqueNames(build)
    requires FindDAppExportModule(build).Some?
    ensures var f := FindDAppExportModule(build).value;
            && Lookup(build, f.Path()) == Some(File(f.name, f.content))
            && EndsWith(f.name, ".js")
            && Contains(f.content, "DApp") && Contains(f.content, "init")
  {
    var f := FindDAppExportModule(build).value;
    FilesNameFiles(build, [], f);
    assert f.Path()[0..] == f.Path();
  }

  /** For example, a directory whose name ends with `.js` is searched, not
      selected, and its subtree is searched before a later candidate sibling.
      `ResolvedPathNamesFile` and `SearchIsFirstMatch` state this for all
      trees. */
  lemma DirectoryNamedJsIsSearched()
    ensures FindDAppExportModule([Dir("chunk.js", [File("a.js", "DApp.init")]), File("b.js", "DApp init")])
         == Some(FileRef(["chunk.js"], "a.js", "DApp.init"))
  {
    var f := FileRef(["chunk.js"], "a.js", "DApp.init");
    assert "a.js"[1..] == ".js";
    assert "DApp.init"[0..4] == "DApp";
    assert "DApp.init"[5..9] == "init";
    assert IsEntryCandidate(f) by {
      assert OccursAt(f.content, "DApp", 0);
      assert OccursAt(f.content, "init", 5);
    }
    var dir: seq<string> := [];
    assert dir + ["chunk.js"] == ["chunk.js"];
    assert SearchInDirectory([File("a.js", "DApp.init")], ["chunk.js"]) == Some(f);
  }
}
