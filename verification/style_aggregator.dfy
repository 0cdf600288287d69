/** Style aggregation: `extractCSS`, its inner `findCSSFiles`, and the loop
    that joins the collected files into the one `index.css` text. */
module StyleAggregator {
  import opened Wrappers
  import opened Strings
  import opened BuildTree

  /** A file `findCSSFiles` collects: its name ends with `.css`. */
  predicate IsStyleFile(f: FileRef)
  {
    EndsWith(f.name, ".css")
  }

  /** Every file of the list is a style file. */
  predicate AllStyleFiles(fs: seq<FileRef>)
  {
    forall f | f in fs :: IsStyleFile(f)
  }

  /** Reference definition: the style files of a flat list, in list order,
      repeats kept. */
  function StyleFilesOf(fs: seq<FileRef>): (r: seq<FileRef>)
    ensures forall f :: f in r <==> f in fs && IsStyleFile(f)
    ensures |r| <= |fs|
  {
    if |fs| == 0 then []
    else (if IsStyleFile(fs[0]) then [fs[0]] else []) + StyleFilesOf(fs[1..])
  }

  /** Filtering a concatenation filters each part. */
  lemma {:induction false} StyleFilesOfConcat(a: seq<FileRef>, b: seq<FileRef>)
    ensures StyleFilesOf(a + b) == StyleFilesOf(a) + StyleFilesOf(b)
    decreases |a|
  {
    if |a| == 0 {
      assert a + b == b;
    } else {
      assert (a + b)[0] == a[0];
      assert (a + b)[1..] == a[1..] + b;
      StyleFilesOfConcat(a[1..], b);
    }
  }

  /** No deduplication: each style file appears in the result as many times
      as in the input, and nothing else appears. */
  lemma {:induction false} StyleFilesOfKeepsRepeats(fs: seq<FileRef>, f: FileRef)
    ensures multiset(StyleFilesOf(fs))[f] == if IsStyleFile(f) then multiset(fs)[f] else 0
    decreases |fs|
  {
    if |fs| > 0 {
      StyleFilesOfKeepsRepeats(fs[1..], f);
      assert fs == [fs[0]] + fs[1..];
    }
  }

  /** `findCSSFiles(dir)`: visits the entries in order, recursing into each
      directory and pushing every `.css` file onto the shared `cssFiles`
      array, here the accumulator `acc`. */
  function FindCssFiles(es: seq<Entry>, dir: seq<string>, acc: seq<FileRef>): (r: seq<FileRef>)
    ensures acc <= r
    ensures AllStyleFiles(r[|acc|..])
    decreases es
  {
    if |es| == 0 then acc
    else
      match es[0]
      case Dir(n, kids) =>
        FindCssFiles(es[1..], dir, FindCssFiles(kids, dir + [n], acc))
      case File(n, c) =>
        var pushed := if IsStyleFile(FileRef(dir, n, c)) then acc + [FileRef(dir, n, c)] else acc;
        FindCssFiles(es[1..], dir, pushed)
  }

  /** The accumulating traversal appends to what it was given exactly the
      style files of the depth-first listing, in that order. */
  lemma {:induction false} FindCssFilesCollectsAll(es: seq<Entry>, dir: seq<string>, acc: seq<FileRef>)
    ensures FindCssFiles(es, dir, acc) == acc + StyleFilesOf(Files(es, dir))
    decreases es
  {
    if |es| > 0 {
      var rest := Files(es[1..], dir);
      match es[0]
      case Dir(n, kids) =>
        var inner := Files(kids, dir + [n]);
        var mid := FindCssFiles(kids, dir + [n], acc);
        FindCssFilesDirStep(es, dir, acc);
        FindCssFilesCollectsAll(kids, dir + [n], acc);
        FindCssFilesCollectsAll(es[1..], dir, mid);
        StyleFilesOfConcat(inner, rest);
        SeqAssoc(acc, StyleFilesOf(inner), StyleFilesOf(rest));
      case File(n, c) =>
        var f := FileRef(dir, n, c);
        var pushed := if IsStyleFile(f) then acc + [f] else acc;
        FindCssFilesFileStep(es, dir, acc);
        FindCssFilesCollectsAll(es[1..], dir, pushed);
        StyleFilesOfConcat([f], rest);
        assert StyleFilesOf([f]) == if IsStyleFile(f) then [f] else [];
        SeqAssoc(acc, StyleFilesOf([f]), StyleFilesOf(rest));
    }
  }

  /** One step of the traversal at a leading directory. */
  lemma FindCssFilesDirStep(es: seq<Entry>, dir: seq<string>, acc: seq<FileRef>)
    requires |es| > 0 && es[0].Dir?
    ensures FindCssFiles(es, dir, acc)
         == FindCssFiles(es[1..], dir, FindCssFiles(es[0].children, dir + [es[0].name], acc))
    ensures Files(es, dir) == Files(es[0].children, dir + [es[0].name]) + Files(es[1..], dir)
  {
  }

  /** One step of the traversal at a leading file. */
  lemma FindCssFilesFileStep(es: seq<Entry>, dir: seq<string>, acc: seq<FileRef>)
    requires |es| > 0 && es[0].File?
    ensures var f := FileRef(dir, es[0].name, es[0].content);
            && FindCssFiles(es, dir, acc)
               == FindCssFiles(es[1..], dir, if IsStyleFile(f) then acc + [f] else acc)
            && Files(es, dir) == [f] + Files(es[1..], dir)
  {
  }

  /** Concatenation is associative. Stated as a lemma so that the step in
      `FindCssFilesCollectsAll` is cited rather than re-proved in that
      lemma's larger context. */
  lemma SeqAssoc<T>(a: seq<T>, b: seq<T>, c: seq<T>)
    ensures a + b + c == a + (b + c)
  {
  }

  /** `cssFiles` after `findCSSFiles(nextOutputDir)`: exactly the `.css`
      files anywhere in the build, in depth-first order, repeats kept. */
  function CollectCssFiles(build: seq<Entry>): (r: seq<FileRef>)
    ensures r == StyleFilesOf(Files(build, []))
    ensures forall f :: f in r <==> f in Files(build, []) && EndsWith(f.name, ".css")
  {
    FindCssFilesCollectsAll(build, [], []);
    FindCssFiles(build, [], [])
  }

  /** The contents of a list of files, in order. */
  function Contents(fs: seq<FileRef>): seq<string>
  {
    seq(|fs|, i requires 0 <= i < |fs| => fs[i].content)
  }

  /** Total length of a list of texts. */
  function TotalLength(cs: seq<string>): nat
  {
    if |cs| == 0 then 0 else |cs[0]| + TotalLength(cs[1..])
  }

  /** Each text followed by a newline, all concatenated: the newline is a
      terminator, so the last text gets one too and no texts give "". */
  function Terminated(cs: seq<string>): (r: string)
    ensures |r| == TotalLength(cs) + |cs|
    ensures |cs| > 0 ==> r[|r| - 1] == '\n'
  {
    if |cs| == 0 then "" else cs[0] + "\n" + Terminated(cs[1..])
  }

  /** Terminating two runs of texts terminates each in turn. */
  lemma {:induction false} TerminatedConcat(a: seq<string>, b: seq<string>)
    ensures Terminated(a + b) == Terminated(a) + Terminated(b)
    decreases |a|
  {
    if |a| == 0 {
      assert a + b == b;
    } else {
      assert (a + b)[0] == a[0];
      assert (a + b)[1..] == a[1..] + b;
      TerminatedConcat(a[1..], b);
    }
  }

  /** The combine loop: `combinedCSS += css + '\n'` for every collected file
      in order, starting from the empty string. */
  method CombineCss(files: seq<FileRef>) returns (combinedCss: string)
    ensures combinedCss == Terminated(Contents(files))
    ensures |combinedCss| == TotalLength(Contents(files)) + |files|
  {
    ghost var cs := Contents(files);
    combinedCss := "";
    var i := 0;
    while i < |files|
      invariant 0 <= i <= |files|
      invariant combinedCss == Terminated(cs[..i])
    {
      var css := files[i].content;
      TerminatedAppendOne(cs[..i], css);
      assert cs[..i + 1] == cs[..i] + [css];
      combinedCss := combinedCss + css + "\n";
      i := i + 1;
    }
    assert cs[..i] == cs;
  }

  /** Terminating one more text appends it and its newline. */
  lemma TerminatedAppendOne(cs: seq<string>, c: string)
    ensures Terminated(cs + [c]) == Terminated(cs) + c + "\n"
  {
    TerminatedConcat(cs, [c]);
    assert [c][1..] == [];
    assert Terminated([c]) == c + "\n" + "";
    assert c + "\n" + "" == c + "\n";
    assert Terminated(cs) + (c + "\n") == Terminated(cs) + c + "\n";
  }

  /** The index of the first newline of `s`, if any. */
  function FirstNewline(s: string): (k: Option<nat>)
    ensures k.Some? ==> k.value < |s| && s[k.value] == '\n'
    ensures k.Some? ==> forall j | 0 <= j < k.value :: s[j] != '\n'
    ensures k.None? <==> '\n' !in s
  {
    if |s| == 0 then None
    else if s[0] == '\n' then Some(0)
    else
      match FirstNewline(s[1..])
      case None => None
      case Some(j) => Some(j + 1)
  }

  /** Inverse of `Terminated`: cuts a text into its newline-terminated
      pieces; an unterminated tail becomes a final piece of its own. */
  function SplitTerminated(s: string): seq<string>
    decreases |s|
  {
    if |s| == 0 then []
    else
      match FirstNewline(s)
      case None => [s]
      case Some(k) => [s[..k]] + SplitTerminated(s[k + 1..])
  }

  /** Round trip: when no style file contains a newline of its own, the
      combined text splits back into exactly the file contents. */
  lemma {:induction false} SplitTerminatedRoundTrip(cs: seq<string>)
    requires forall i | 0 <= i < |cs| :: '\n' !in cs[i]
    ensures SplitTerminated(Terminated(cs)) == cs
    decreases |cs|
  {
    if |cs| > 0 {
      SplitAfterPiece(cs[0], Terminated(cs[1..]));
      SplitTerminatedRoundTrip(cs[1..]);
      assert cs == [cs[0]] + cs[1..];
    }
  }

  /** A newline-free piece followed by a newline splits off as one piece. */
  lemma SplitAfterPiece(head: string, rest: string)
    requires '\n' !in head
    ensures SplitTerminated(head + "\n" + rest) == [head] + SplitTerminated(rest)
  {
    var s := head + "\n" + rest;
    assert s[|head|] == '\n';
    assert forall j | 0 <= j < |head| :: s[j] == head[j];
    assert FirstNewline(s) == Some(|head|);
    assert s[..|head|] == head;
    assert s[|head| + 1..] == rest;
  }

  /** The other direction: every text that is empty or ends with a newline
      is the combination of its own pieces. */
  lemma {:induction false} TerminatedSplitRoundTrip(s: string)
    requires |s| == 0 || s[|s| - 1] == '\n'
    ensures Terminated(SplitTerminated(s)) == s
    decreases |s|
  {
    if |s| > 0 {
      NewlineFound(s);
      var k := FirstNewline(s).value;
      SplitAtFirstNewline(s, k);
      var head, tail := s[..k], s[k + 1..];
      assert |tail| == 0 || tail[|tail| - 1] == s[|s| - 1];
      TerminatedSplitRoundTrip(tail);
      TerminatedCons(head, SplitTerminated(tail));
    }
  }

  /** A text splits at its first newline. */
  lemma SplitAtFirstNewline(s: string, k: nat)
    requires FirstNewline(s) == Some(k)
    ensures k < |s| && s == s[..k] + "\n" + s[k + 1..]
    ensures SplitTerminated(s) == [s[..k]] + SplitTerminated(s[k + 1..])
  {
    CutAtNewline(s, k);
  }

  /** A text is the part before a newline, the newline, and the part after. */
  lemma CutAtNewline(s: string, k: nat)
    requires k < |s| && s[k] == '\n'
    ensures s == s[..k] + "\n" + s[k + 1..]
  {
    assert s[k..] == [s[k]] + s[k + 1..];
    assert s == s[..k] + s[k..];
  }

  /** A text ending with a newline has a first newline. */
  lemma NewlineFound(s: string)
    requires |s| > 0 && s[|s| - 1] == '\n'
    ensures FirstNewline(s).Some?
  {
    assert s[|s| - 1] in s;
  }

  /** `Terminated` of a list with a first element. */
  lemma TerminatedCons(head: string, rest: seq<string>)
    ensures Terminated([head] + rest) == head + "\n" + Terminated(rest)
  {
    assert ([head] + rest)[1..] == rest;
  }
}
