/** The build output directory as an immutable snapshot.

    Each directory is the sequence of its entries in the order
    `readdirSync(dir, { withFileTypes: true })` returns them; nothing here
    sorts. A path is the sequence of its components below the build root. */
module BuildTree {
  import opened Wrappers

  /** One directory entry: a regular file with its text content, or a
      sub-directory with its own entries. */
  datatype Entry =
    | File(name: string, content: string)
    | Dir(name: string, children: seq<Entry>)

  /** A file reached by a traversal: the directory components leading to it
      from the build root, its own name, and the content read from it. */
  datatype FileRef = FileRef(dir: seq<string>, name: string, content: string)
  {
    /** The full path, `path.join(dir, name)` as components. */
    function Path(): seq<string>
    {
      dir + [name]
    }
  }

  /** Reference traversal: every file below `es`, depth first, each
      directory's whole subtree before its later siblings, in entry order. */
  function Files(es: seq<Entry>, dir: seq<string>): seq<FileRef>
    decreases es
  {
    if |es| == 0 then []
    else
      (match es[0]
       case File(n, c) => [FileRef(dir, n, c)]
       case Dir(n, kids) => Files(kids, dir + [n]))
      + Files(es[1..], dir)
  }

  /** The traversal of two sibling runs is the traversal of the first followed
      by the traversal of the second. */
  lemma {:induction false} FilesConcat(a: seq<Entry>, b: seq<Entry>, dir: seq<string>)
    ensures Files(a + b, dir) == Files(a, dir) + Files(b, dir)
    decreases |a|
  {
    if |a| == 0 {
      assert a + b == b;
    } else {
      assert (a + b)[0] == a[0];
      assert (a + b)[1..] == a[1..] + b;
      FilesConcat(a[1..], b, dir);
    }
  }

  /** Resolving a relative path inside a directory, the way the file system
      does when the script reads a file back by its full path. */
  function Lookup(es: seq<Entry>, path: seq<string>): Option<Entry>
    decreases es
  {
    if |path| == 0 || |es| == 0 then None
    else if es[0].name == path[0] then
      if |path| == 1 then Some(es[0])
      else
        match es[0]
        case File(_, _) => None
        case Dir(_, kids) => Lookup(kids, path[1..])
    else Lookup(es[1..], path)
  }

  /** No directory of the snapshot holds two entries of the same name, as in
      any real file system. */
  predicate UniqueNames(es: seq<Entry>)
    decreases es
  {
    && (forall i, j | 0 <= i < j < |es| :: es[i].name != es[j].name)
    && (forall i | 0 <= i < |es| :: es[i].Dir? ==> UniqueNames(es[i].children))
  }

  /** A successful lookup matched the first path component against the name
      of one of the entries. */
  lemma {:induction false} LookupMatchesAnEntry(es: seq<Entry>, path: seq<string>)
    requires Lookup(es, path).Some?
    ensures |path| > 0
    ensures exists j | 0 <= j < |es| :: es[j].name == path[0]
    decreases es
  {
    if es[0].name != path[0] {
      LookupMatchesAnEntry(es[1..], path);
      var j :| 0 <= j < |es[1..]| && es[1..][j].name == path[0];
      assert es[j + 1].name == path[0];
    }
  }

  /** Every file the traversal reports lies below the directory it started
      from, and looking its path up again finds exactly that file with that
      content: a traversal never reports a directory. */
  lemma {:induction false} FilesNameFiles(es: seq<Entry>, dir: seq<string>, f: FileRef)
    requires UniqueNames(es)
    requires f in Files(es, dir)
    ensures dir < f.Path()
    ensures Lookup(es, f.Path()[|dir|..]) == Some(File(f.name, f.content))
    decreases es
  {
    var head := match es[0]
      case File(n, c) => [FileRef(dir, n, c)]
      case Dir(n, kids) => Files(kids, dir + [n]);
    assert Files(es, dir) == head + Files(es[1..], dir);
    if f in head {
      match es[0]
      case File(n, c) =>
        assert f == FileRef(dir, n, c);
        assert f.Path()[|dir|..] == [n];
      case Dir(n, kids) =>
        assert UniqueNames(es[0].children);
        FilesNameFiles(kids, dir + [n], f);
        assert f.Path()[|dir|..] == [n] + f.Path()[|dir| + 1..];
    } else {
      assert UniqueNames(es[1..]) by {
        forall i | 0 <= i < |es[1..]| && es[1..][i].Dir?
          ensures UniqueNames(es[1..][i].children)
        {
          assert es[1..][i] == es[i + 1];
        }
      }
      FilesNameFiles(es[1..], dir, f);
      var rel := f.Path()[|dir|..];
      LookupMatchesAnEntry(es[1..], rel);
      var j :| 0 <= j < |es[1..]| && es[1..][j].name == rel[0];
      assert es[j + 1].name == rel[0];
    }
  }
}
