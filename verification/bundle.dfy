/** Bundle assembly: the `finalBundle` string `prepareJSBundle` writes to
    `index.bundle.js`.

    The three script templates are fixed texts whose behaviour in the browser
    is outside this model. Each is built here from the statement that matters
    to the bundle's layout (defining the `DApp` global, attaching `init` to
    it) and short stand-ins for the surrounding polyfills, the rendering
    `init` function and the diagnostic logging. */
module Bundle {
  import opened Wrappers
  import opened Strings

  /** The statement that defines the global the host looks the guest up by. */
  const DAppGlobalDefinition: string := "window.DApp = {};"

  /** The statement that publishes `init` on that global. */
  const InitAssignment: string := "window.DApp.init = init;"

  /** Stand-in for the `require`/`module` polyfills and the pre-init log. */
  const RuntimePolyfills: string := "/* browser polyfills for require and module; pre-init check */"

  /** Stand-in for the `init(container, securityInterface)` definition. */
  const InitDefinition: string := "function init(container, securityInterface) { /* render */ }"

  /** Stand-in for the post-init diagnostic logging. */
  const InitDiagnostics: string := "/* post-init checks */"

  /** Stand-in for the final diagnostic logging. */
  const FinalDiagnostics: string := "/* final checks */"

  /** Stand-in for the comment lines that open part 1. */
  const PreDefinitionComments: string := "// define the DApp global first, at global scope"

  /** The lines of part 1 before the global's definition. */
  const PreDefinitionLead: string := "\n" + PreDefinitionComments + "\n"

  /** The lines of part 1 after the global's definition. */
  const PolyfillLines: string := "\n" + RuntimePolyfills + "\n"

  /** Part 1: comment lines, the `DApp` global's definition, then the polyfills. */
  const PreDefinitionScript: string := PreDefinitionLead + DAppGlobalDefinition + PolyfillLines

  /** The lines of part 2 before the attachment. */
  const InitDefinitionLines: string := "\n" + InitDefinition + "\n"

  /** The lines of part 2 after the attachment. */
  const InitDiagnosticLines: string := "\n" + InitDiagnostics + "\n"

  /** Part 2: defines `init` and immediately attaches it to `DApp`. */
  const InitFunctionCode: string := InitDefinitionLines + InitAssignment + InitDiagnosticLines

  /** Part 4: the final verification logging. */
  const FinalVerificationCode: string := "\n\n" + FinalDiagnostics + "\n"

  /** Where `window.DApp = {};` sits inside every bundle. */
  const GlobalDefinitionOffset: nat := |PreDefinitionLead|

  /** Where `window.DApp.init = init;` sits inside every bundle. */
  const AssignmentOffset: nat := |PreDefinitionScript| + |InitDefinitionLines|

  /** Where the build content starts inside every bundle. */
  const ContentOffset: nat := |PreDefinitionScript| + |InitFunctionCode|

  /** `preDefinitionScript + initFunctionCode + jsContent + finalVerificationCode`. */
  function AssembleBundle(jsContent: string): (bundle: string)
    ensures |bundle| == ContentOffset + |jsContent| + |FinalVerificationCode|
    ensures bundle[..|PreDefinitionScript|] == PreDefinitionScript
    ensures bundle[ContentOffset..ContentOffset + |jsContent|] == jsContent
    ensures bundle[ContentOffset + |jsContent|..] == FinalVerificationCode
  {
    var bundle := PreDefinitionScript + InitFunctionCode + jsContent + FinalVerificationCode;
    assert bundle[..|PreDefinitionScript|] == PreDefinitionScript;
    assert bundle[ContentOffset..ContentOffset + |jsContent|] == jsContent;
    bundle
  }

  /** Recovers the build content from a bundle, or `None` when the text does
      not have the bundle's fixed prefix and suffix. */
  function UnwrapBundle(bundle: string): Option<string>
  {
    if |bundle| >= ContentOffset + |FinalVerificationCode|
       && bundle[..ContentOffset] == PreDefinitionScript + InitFunctionCode
       && bundle[|bundle| - |FinalVerificationCode|..] == FinalVerificationCode
    then Some(bundle[ContentOffset..|bundle| - |FinalVerificationCode|])
    else None
  }

  /** Round trip: the content embedded by `AssembleBundle` is recovered
      verbatim, whatever it contains. */
  lemma UnwrapAssemble(jsContent: string)
    ensures UnwrapBundle(AssembleBundle(jsContent)) == Some(jsContent)
  {
    var bundle := AssembleBundle(jsContent);
    assert bundle[..ContentOffset] == PreDefinitionScript + InitFunctionCode;
  }

  /** The other direction: every text `UnwrapBundle` accepts is exactly the
      bundle of what it recovers, so the layout is unambiguous. */
  lemma AssembleUnwrap(bundle: string)
    requires UnwrapBundle(bundle).Some?
    ensures AssembleBundle(UnwrapBundle(bundle).value) == bundle
  {
    var js := UnwrapBundle(bundle).value;
    assert bundle == bundle[..ContentOffset] + js + bundle[|bundle| - |FinalVerificationCode|..];
  }

  /** Different build contents give different bundles. */
  lemma AssembleInjective(a: string, b: string)
    requires AssembleBundle(a) == AssembleBundle(b)
    ensures a == b
  {
    UnwrapAssemble(a);
    UnwrapAssemble(b);
  }

  /** The global is defined, and `init` attached to it, before the first
      character of the build content: both statements precede it in the
      text. */
  lemma PublishedBeforeContent(jsContent: string)
    ensures OccursAt(AssembleBundle(jsContent), DAppGlobalDefinition, GlobalDefinitionOffset)
    ensures GlobalDefinitionOffset + |DAppGlobalDefinition| <= AssignmentOffset
    ensures OccursAt(AssembleBundle(jsContent), InitAssignment, AssignmentOffset)
    ensures AssignmentOffset + |InitAssignment| <= ContentOffset
  {
    TemplateStatements();
    OccursInFirstPart(PreDefinitionScript, InitFunctionCode, jsContent, FinalVerificationCode,
                      DAppGlobalDefinition, GlobalDefinitionOffset);
    OccursInSecondPart(PreDefinitionScript, InitFunctionCode, jsContent, FinalVerificationCode,
                       InitAssignment, |InitDefinitionLines|);
  }

  /** An occurrence in the first of four concatenated parts. */
  lemma OccursInFirstPart(a: string, b: string, c: string, d: string, t: string, i: int)
    requires OccursAt(a, t, i)
    ensures OccursAt(a + b + c + d, t, i)
  {
    assert (a + b + c + d)[i..i + |t|] == a[i..i + |t|];
  }

  /** An occurrence in the second of four concatenated parts. */
  lemma OccursInSecondPart(a: string, b: string, c: string, d: string, t: string, i: int)
    requires OccursAt(b, t, i)
    ensures OccursAt(a + b + c + d, t, |a| + i)
  {
    OccursInConcat(a, b, c + d, t, i);
    assert a + b + (c + d) == a + b + c + d;
  }

  /** Where the two publishing statements sit inside their templates. */
  lemma TemplateStatements()
    ensures OccursAt(PreDefinitionScript, DAppGlobalDefinition, GlobalDefinitionOffset)
    ensures OccursAt(InitFunctionCode, InitAssignment, |InitDefinitionLines|)
  {
    OccursInMiddle(PreDefinitionLead, DAppGlobalDefinition, PolyfillLines);
    OccursInMiddle(InitDefinitionLines, InitAssignment, InitDiagnosticLines);
  }

  /** The middle part of a three-part concatenation occurs right after the
      first part. */
  lemma OccursInMiddle(a: string, b: string, c: string)
    ensures OccursAt(a + b + c, b, |a|)
  {
    assert (a + b + c)[|a|..|a| + |b|] == b;
  }
}
