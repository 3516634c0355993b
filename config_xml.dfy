/**
 * The pipeline job's configuration document (resource_jenkins_pipeline.go):
 * a fixed template with the description and the Groovy script substituted
 * verbatim, and two positional extractors that take them back out by
 * searching for literal start and end markers.
 */
module ConfigXml {
  import opened Wrappers
  import opened Strings

  // The markers the extractors search for.
  const ScriptStart := "<script><![CDATA["
  const ScriptEnd := "]]></script>"
  const DescriptionStart := "<description>"
  const DescriptionEnd := "</description>"
  const SandboxFlag := "<sandbox>true</sandbox>"

  // The template in pieces of at most 25 characters, split before every '<'
  // that a marker search has to step over. Read in order, the pieces give the
  // document line by line:
  //   <?xml version='1.1' encoding='UTF-8'?>
  //   <flow-definition plugin="workflow-job@1254.v3f669a_b_a_083a_">
  //     <description>DESCRIPTION</description>
  //     <keepDependencies>false</keepDependencies>
  //     <properties/>
  //     <definition class="org.jenkinsci.plugins.workflow.cps.CpsFlowDefinition" plugin="workflow-cps@2807.v39e1503c779e">
  //       <script><![CDATA[SCRIPT]]></script>
  //       <sandbox>true</sandbox>
  //     </definition>
  //     <triggers/>
  //     <disabled>false</disabled>
  //   </flow-definition>
  const XmlVersion := "<?xml version='1.1' "
  const XmlEncoding := "encoding='UTF-8'?>\n"
  const FlowDefinitionOpen := "<flow-definition plugin="
  const FlowPluginName := "\"workflow-job@1254."
  const FlowPluginVersion := "v3f669a_b_a_083a_\">\n"
  const Indent := "  "
  const DescriptionClose := "</description>\n  "
  const KeepDependenciesOpen := "<keepDependencies>false"
  const KeepDependenciesClose := "</keepDependencies>\n  "
  const PropertiesLine := "<properties/>\n  "
  const DefinitionOpen := "<definition class="
  const DefinitionPackage := "\"org.jenkinsci.plugins."
  const DefinitionClassName := "workflow.cps.CpsFlow"
  const DefinitionClassEnd := "Definition\" plugin="
  const CpsPluginName := "\"workflow-cps@2807."
  const CpsPluginVersion := "v39e1503c779e\">\n    "
  const DocumentClose := "\n  </definition>\n  <triggers/>\n  <disabled>false</disabled>\n</flow-definition>"

  const XmlDeclaration := XmlVersion + XmlEncoding
  const FlowDefinitionLine := FlowDefinitionOpen + (FlowPluginName + FlowPluginVersion)
  const KeepDependenciesLine := KeepDependenciesOpen + KeepDependenciesClose
  const DefinitionClassAttribute := DefinitionPackage + (DefinitionClassName + DefinitionClassEnd)
  const CpsPlugin := CpsPluginName + CpsPluginVersion
  const DefinitionLine := DefinitionOpen + (DefinitionClassAttribute + CpsPlugin)

  /** The template text before the description. */
  const Head := Prolog + DescriptionStart
  /** The declaration and the root element's opening tag. */
  const Prolog := XmlDeclaration + (FlowDefinitionLine + Indent)
  /** The template text between the description and the script. */
  const Middle := Settings + ScriptStart
  /** The job settings between the description and the script's opening tag. */
  const Settings := DescriptionClose + (KeepDependenciesLine + (PropertiesLine + DefinitionLine))
  /** The template text after the script. */
  const Tail := ScriptEnd + ("\n    " + (SandboxFlag + DocumentClose))

  /** `buildPipelineConfigXML`: the template with both arguments placed verbatim. */
  function BuildPipelineConfigXML(description: string, groovyScript: string): string {
    Head + description + Middle + groovyScript + Tail
  }

  /** Which marker a positional extraction could not find. */
  datatype Marker = StartMarker | EndMarker

  /** The errors of the two extractors, one per missing marker. */
  datatype ParseError =
    | ScriptStartNotFound
    | ScriptEndNotFound
    | DescriptionStartNotFound
    | DescriptionEndNotFound
  {
    /** The text of the Go error. */
    function Message(): string {
      match this
      case ScriptStartNotFound => "could not find start of Groovy script tag in XML"
      case ScriptEndNotFound => "could not find end of Groovy script tag in XML"
      case DescriptionStartNotFound => "could not find start of description tag in XML"
      case DescriptionEndNotFound => "could not find end of description tag in XML"
    }
  }

  /** `start` occurs in `doc`, but `end` does not occur after its first occurrence. */
  ghost predicate EndMissingAfterStart(doc: string, start: string, end: string) {
    exists i :: IsFirstOccurrence(doc, start, i) && !Contains(doc[i + |start|..], end)
  }

  /**
   * `v` is the text strictly between the first `start` of `doc` and the first
   * `end` after it.
   */
  ghost predicate IsFirstEnclosed(doc: string, start: string, end: string, v: string) {
    exists i :: IsFirstOccurrence(doc, start, i)
      && IsFirstOccurrence(doc[i + |start|..], end, |v|)
      && v == doc[i + |start|..i + |start| + |v|]
  }

  /** Once the first `start` is known, the end is missing exactly when what follows lacks it. */
  lemma EndMissingAt(doc: string, start: string, end: string, i: int)
    requires IsFirstOccurrence(doc, start, i)
    ensures EndMissingAfterStart(doc, start, end) <==> !Contains(doc[i + |start|..], end)
  {
    forall j | IsFirstOccurrence(doc, start, j) ensures j == i {
      FirstOccurrenceUnique(doc, start, i, j);
    }
  }

  /** The text between the first `start` and the first `end` after it is the one enclosed. */
  lemma EnclosedAt(doc: string, start: string, end: string, i: int, k: int)
    requires IsFirstOccurrence(doc, start, i) && IsFirstOccurrence(doc[i + |start|..], end, k)
    ensures IsFirstEnclosed(doc, start, end, doc[i + |start|..i + |start| + k])
  {
    var from := i + |start|;
    assert doc[from..from + k] == doc[from..][..k];
  }

  /**
   * The positional extraction both extractors share: find the first `start`,
   * then the first `end` after it, and return the text between them.
   */
  function ExtractBetween(doc: string, start: string, end: string): (r: Result<string, Marker>)
    ensures r == Failure(StartMarker) <==> !Contains(doc, start)
    ensures r == Failure(EndMarker) <==> EndMissingAfterStart(doc, start, end)
    ensures r.Success? ==> IsFirstEnclosed(doc, start, end, r.value)
  {
    IndexOfIsFirstOccurrence(doc, start);
    match IndexOf(doc, start)
    case None => Failure(StartMarker)
    case Some(i) =>
      var from := i + |start|;
      IndexOfIsFirstOccurrence(doc[from..], end);
      EndMissingAt(doc, start, end, i);
      match IndexOf(doc[from..], end)
      case None => Failure(EndMarker)
      case Some(k) =>
        EnclosedAt(doc, start, end, i, k);
        Success(doc[from..from + k])
  }

  /** With both markers found, the extraction returns the text between them. */
  lemma ExtractBetweenFound(doc: string, start: string, end: string, i: int, k: int)
    requires IsFirstOccurrence(doc, start, i) && IsFirstOccurrence(doc[i + |start|..], end, k)
    ensures ExtractBetween(doc, start, end) == Success(doc[i + |start|..i + |start| + k])
  {
    IndexOfFinds(doc, start, i);
    IndexOfFinds(doc[i + |start|..], end, k);
  }

  /** `extractGroovyScriptFromXML`. */
  function ExtractGroovyScriptFromXML(xml: string): (r: Result<string, ParseError>)
    ensures r == Failure(ScriptStartNotFound) <==> !Contains(xml, ScriptStart)
    ensures r == Failure(ScriptEndNotFound) <==> EndMissingAfterStart(xml, ScriptStart, ScriptEnd)
    ensures r.Failure? ==> r.error == ScriptStartNotFound || r.error == ScriptEndNotFound
    ensures r.Success? ==> IsFirstEnclosed(xml, ScriptStart, ScriptEnd, r.value)
  {
    match ExtractBetween(xml, ScriptStart, ScriptEnd)
    case Success(v) => Success(v)
    case Failure(StartMarker) => Failure(ScriptStartNotFound)
    case Failure(EndMarker) => Failure(ScriptEndNotFound)
  }

  /** `extractDescriptionFromXML`. */
  function ExtractDescriptionFromXML(xml: string): (r: Result<string, ParseError>)
    ensures r == Failure(DescriptionStartNotFound) <==> !Contains(xml, DescriptionStart)
    ensures r == Failure(DescriptionEndNotFound) <==> EndMissingAfterStart(xml, DescriptionStart, DescriptionEnd)
    ensures r.Failure? ==> r.error == DescriptionStartNotFound || r.error == DescriptionEndNotFound
    ensures r.Success? ==> IsFirstEnclosed(xml, DescriptionStart, DescriptionEnd, r.value)
  {
    match ExtractBetween(xml, DescriptionStart, DescriptionEnd)
    case Success(v) => Success(v)
    case Failure(StartMarker) => Failure(DescriptionStartNotFound)
    case Failure(EndMarker) => Failure(DescriptionEndNotFound)
  }

  /** The built document with its concatenations nested to the right. */
  lemma BuiltNested(d: string, s: string)
    ensures BuildPipelineConfigXML(d, s) == Head + (d + (Middle + (s + Tail)))
  {
    Assoc(Head + d, Middle, s);
    Assoc(Head + d, Middle + s, Tail);
    Assoc(Middle, s, Tail);
    Assoc(Head, d, Middle + (s + Tail));
  }

  // A search for a marker that starts with '<' steps over the template's
  // pieces whole. The solver proves the character facts of one literal
  // quickly but not of many in one context, hence one small lemma per piece.

  lemma SkipsXmlVersion(p: string)
    requires 2 <= |p| && p[0] == '<' && p[1] != '?'
    ensures Skips(XmlVersion, p)
  {
    assert forall i :: 1 <= i < |XmlVersion| ==> XmlVersion[i] != '<';
    SkipsTag(XmlVersion, p);
  }

  lemma SkipsXmlEncoding(p: string)
    requires 1 <= |p| && p[0] == '<'
    ensures Skips(XmlEncoding, p)
  {
    assert '<' !in XmlEncoding;
    SkipsPlain(XmlEncoding, p);
  }

  lemma SkipsFlowDefinitionOpen(p: string)
    requires 2 <= |p| && p[0] == '<' && p[1] != 'f'
    ensures Skips(FlowDefinitionOpen, p)
  {
    assert forall i :: 1 <= i < |FlowDefinitionOpen| ==> FlowDefinitionOpen[i] != '<';
    SkipsTag(FlowDefinitionOpen, p);
  }

  lemma SkipsFlowPluginName(p: string)
    requires 1 <= |p| && p[0] == '<'
    ensures Skips(FlowPluginName, p)
  {
    assert '<' !in FlowPluginName;
    SkipsPlain(FlowPluginName, p);
  }

  lemma SkipsFlowPluginVersion(p: string)
    requires 1 <= |p| && p[0] == '<'
    ensures Skips(FlowPluginVersion, p)
  {
    assert '<' !in FlowPluginVersion;
    SkipsPlain(FlowPluginVersion, p);
  }

  lemma SkipsIndent(p: string)
    requires 1 <= |p| && p[0] == '<'
    ensures Skips(Indent, p)
  {
    assert '<' !in Indent;
    SkipsPlain(Indent, p);
  }

  lemma SkipsDescriptionStart(p: string)
    requires 2 <= |p| && p[0] == '<' && p[1] != 'd'
    ensures Skips(DescriptionStart, p)
  {
    assert forall i :: 1 <= i < |DescriptionStart| ==> DescriptionStart[i] != '<';
    SkipsTag(DescriptionStart, p);
  }

  lemma SkipsDescriptionClose(p: string)
    requires 2 <= |p| && p[0] == '<' && p[1] != '/'
    ensures Skips(DescriptionClose, p)
  {
    assert forall i :: 1 <= i < |DescriptionClose| ==> DescriptionClose[i] != '<';
    SkipsTag(DescriptionClose, p);
  }

  lemma SkipsKeepDependenciesOpen(p: string)
    requires 2 <= |p| && p[0] == '<' && p[1] != 'k'
    ensures Skips(KeepDependenciesOpen, p)
  {
    assert forall i :: 1 <= i < |KeepDependenciesOpen| ==> KeepDependenciesOpen[i] != '<';
    SkipsTag(KeepDependenciesOpen, p);
  }

  lemma SkipsKeepDependenciesClose(p: string)
    requires 2 <= |p| && p[0] == '<' && p[1] != '/'
    ensures Skips(KeepDependenciesClose, p)
  {
    assert forall i :: 1 <= i < |KeepDependenciesClose| ==> KeepDependenciesClose[i] != '<';
    SkipsTag(KeepDependenciesClose, p);
  }

  lemma SkipsPropertiesLine(p: string)
    requires 2 <= |p| && p[0] == '<' && p[1] != 'p'
    ensures Skips(PropertiesLine, p)
  {
    assert forall i :: 1 <= i < |PropertiesLine| ==> PropertiesLine[i] != '<';
    SkipsTag(PropertiesLine, p);
  }

  lemma SkipsDefinitionOpen(p: string)
    requires 2 <= |p| && p[0] == '<' && p[1] != 'd'
    ensures Skips(DefinitionOpen, p)
  {
    assert forall i :: 1 <= i < |DefinitionOpen| ==> DefinitionOpen[i] != '<';
    SkipsTag(DefinitionOpen, p);
  }

  lemma SkipsDefinitionPackage(p: string)
    requires 1 <= |p| && p[0] == '<'
    ensures Skips(DefinitionPackage, p)
  {
    assert '<' !in DefinitionPackage;
    SkipsPlain(DefinitionPackage, p);
  }

  lemma SkipsDefinitionClassName(p: string)
    requires 1 <= |p| && p[0] == '<'
    ensures Skips(DefinitionClassName, p)
  {
    assert '<' !in DefinitionClassName;
    SkipsPlain(DefinitionClassName, p);
  }

  lemma SkipsDefinitionClassEnd(p: string)
    requires 1 <= |p| && p[0] == '<'
    ensures Skips(DefinitionClassEnd, p)
  {
    assert '<' !in DefinitionClassEnd;
    SkipsPlain(DefinitionClassEnd, p);
  }

  lemma SkipsCpsPluginName(p: string)
    requires 1 <= |p| && p[0] == '<'
    ensures Skips(CpsPluginName, p)
  {
    assert '<' !in CpsPluginName;
    SkipsPlain(CpsPluginName, p);
  }

  lemma SkipsCpsPluginVersion(p: string)
    requires 1 <= |p| && p[0] == '<'
    ensures Skips(CpsPluginVersion, p)
  {
    assert '<' !in CpsPluginVersion;
    SkipsPlain(CpsPluginVersion, p);
  }

  /** The search skips `Prolog`. */
  lemma SkipsProlog(p: string)
    requires 2 <= |p| && p[0] == '<' && p[1] != '?' && p[1] != 'f'
    ensures Skips(Prolog, p)
  {
    SkipsXmlVersion(p);
    SkipsXmlEncoding(p);
    SkipsConcat(XmlVersion, XmlEncoding, p);
    SkipsFlowDefinitionOpen(p);
    SkipsFlowPluginName(p);
    SkipsFlowPluginVersion(p);
    SkipsConcat(FlowPluginName, FlowPluginVersion, p);
    SkipsConcat(FlowDefinitionOpen, FlowPluginName + FlowPluginVersion, p);
    SkipsIndent(p);
    SkipsConcat(FlowDefinitionLine, Indent, p);
    SkipsConcat(XmlDeclaration, FlowDefinitionLine + Indent, p);
  }

  /** The search for the script start marker skips `Head`. */
  lemma SkipsHead()
    ensures Skips(Head, ScriptStart)
  {
    SkipsProlog(ScriptStart);
    SkipsDescriptionStart(ScriptStart);
    SkipsConcat(Prolog, DescriptionStart, ScriptStart);
  }

  lemma SkipsDefinitionLine(p: string)
    requires 2 <= |p| && p[0] == '<' && p[1] != 'd'
    ensures Skips(DefinitionLine, p)
  {
    SkipsDefinitionOpen(p);
    SkipsDefinitionPackage(p);
    SkipsDefinitionClassName(p);
    SkipsDefinitionClassEnd(p);
    SkipsConcat(DefinitionClassName, DefinitionClassEnd, p);
    SkipsConcat(DefinitionPackage, DefinitionClassName + DefinitionClassEnd, p);
    SkipsCpsPluginName(p);
    SkipsCpsPluginVersion(p);
    SkipsConcat(CpsPluginName, CpsPluginVersion, p);
    SkipsConcat(DefinitionClassAttribute, CpsPlugin, p);
    SkipsConcat(DefinitionOpen, DefinitionClassAttribute + CpsPlugin, p);
  }

  /** The search skips the settings before the script start marker. */
  lemma SkipsSettings(p: string)
    requires 2 <= |p| && p[0] == '<' && p[1] != '/' && p[1] != 'k' && p[1] != 'p' && p[1] != 'd'
    ensures Skips(Settings, p)
  {
    SkipsDescriptionClose(p);
    SkipsKeepDependenciesOpen(p);
    SkipsKeepDependenciesClose(p);
    SkipsConcat(KeepDependenciesOpen, KeepDependenciesClose, p);
    SkipsPropertiesLine(p);
    SkipsDefinitionLine(p);
    SkipsConcat(PropertiesLine, DefinitionLine, p);
    SkipsConcat(KeepDependenciesLine, PropertiesLine + DefinitionLine, p);
    SkipsConcat(DescriptionClose, KeepDependenciesLine + (PropertiesLine + DefinitionLine), p);
  }

  /** In `Head` followed by anything, the first description start marker is the template's own. */
  lemma DescriptionStartInHead(r: string)
    ensures IsFirstOccurrence(Head + r, DescriptionStart, |Prolog|)
  {
    SkipsProlog(DescriptionStart);
    FirstAtStart(DescriptionStart, r);
    FirstAfterSkipped(Prolog, DescriptionStart + r, DescriptionStart, 0);
    Assoc(Prolog, DescriptionStart, r);
  }

  /** In `Middle` followed by anything, the first script start marker is the template's own. */
  lemma ScriptStartInMiddle(r: string)
    ensures IsFirstOccurrence(Middle + r, ScriptStart, |Settings|)
  {
    SkipsSettings(ScriptStart);
    FirstAtStart(ScriptStart, r);
    FirstAfterSkipped(Settings, ScriptStart + r, ScriptStart, 0);
    Assoc(Settings, ScriptStart, r);
  }

  /** `Middle` starts with the description end marker, which opens the tag "</description>". */
  lemma MiddleStartsWithDescriptionEnd(r: string)
    ensures IsFirstOccurrence(Middle + r, DescriptionEnd, 0)
    ensures (Middle + r)[0] == '<' && (Middle + r)[1] == '/'
  {
    var rest := KeepDependenciesLine + (PropertiesLine + DefinitionLine) + ScriptStart;
    assert DescriptionClose == DescriptionEnd + "\n  ";
    Assoc(DescriptionClose, KeepDependenciesLine + (PropertiesLine + DefinitionLine), ScriptStart);
    Assoc(DescriptionClose, rest, r);
    Assoc(DescriptionEnd, "\n  ", rest + r);
    FirstAtStart(DescriptionEnd, "\n  " + (rest + r));
  }

  /** No occurrence of the script start marker can begin before text starting with "</" and run into it. */
  lemma ScriptStartNoOverlap(b: string)
    requires 2 <= |b| && b[0] == '<' && b[1] == '/'
    ensures NoOverlapInto(ScriptStart, b)
  {
    assert forall m :: 0 < m < |ScriptStart| && m != 8 ==> ScriptStart[m] != '<';
    assert ScriptStart[9] == '!';
    forall m | 0 < m < |ScriptStart| ensures !(ScriptStart[m..] <= b) {
      assert ScriptStart[m..][0] == ScriptStart[m];
      if m == 8 {
        assert ScriptStart[m..][1] == '!';
      }
    }
  }

  /** No occurrence of the description end marker can begin before text starting with '<' and run into it. */
  lemma DescriptionEndNoOverlap(b: string)
    requires 1 <= |b| && b[0] == '<'
    ensures NoOverlapInto(DescriptionEnd, b)
  {
    assert forall m :: 0 < m < |DescriptionEnd| ==> DescriptionEnd[m] != '<';
    forall m | 0 < m < |DescriptionEnd| ensures !(DescriptionEnd[m..] <= b) {
      assert DescriptionEnd[m..][0] == DescriptionEnd[m];
    }
  }

  /** No occurrence of the script end marker can begin before text starting with "]]" and run into it. */
  lemma ScriptEndNoOverlap(b: string)
    requires 2 <= |b| && b[0] == ']' && b[1] == ']'
    ensures NoOverlapInto(ScriptEnd, b)
  {
    assert forall m :: 1 < m < |ScriptEnd| ==> ScriptEnd[m] != ']';
    forall m | 0 < m < |ScriptEnd| ensures !(ScriptEnd[m..] <= b) {
      assert ScriptEnd[m..][0] == ScriptEnd[m];
      if m == 1 {
        assert ScriptEnd[m..][1] == '>';
      }
    }
  }

  /**
   * When the first `start` of the document ends where `v` begins and the
   * first `end` of what follows `v` is right after `v`, the extraction
   * returns `v`.
   */
  lemma ExtractBetweenPlaced(a: string, v: string, b: string, i: int, start: string, end: string)
    requires IsFirstOccurrence(a + (v + b), start, i) && i + |start| == |a|
    requires IsFirstOccurrence(v + b, end, |v|)
    ensures ExtractBetween(a + (v + b), start, end) == Success(v)
  {
    var doc := a + (v + b);
    assert doc[|a|..] == v + b;
    ExtractBetweenFound(doc, start, end, i, |v|);
    assert doc[|a|..|a| + |v|] == v;
  }

  /** When `v` itself contains a non-empty `end`, the extraction stops inside `v`. */
  lemma ExtractBetweenCut(a: string, v: string, b: string, i: int, start: string, end: string)
    requires IsFirstOccurrence(a + (v + b), start, i) && i + |start| == |a|
    requires |end| > 0 && Contains(v, end)
    ensures ExtractBetween(a + (v + b), start, end) != Success(v)
  {
    var doc := a + (v + b);
    IndexOfFinds(doc, start, i);
    assert doc[|a|..] == v + b;
    var j :| Occurs(v, end, j);
    OccursBefore(v, b, end, j);
    IndexOfIsFirstOccurrence(v + b, end);
  }

  /**
   * With the markers in place around `v` and nothing after `v` that `end`
   * could overlap into, the extraction returns `v` exactly when `v` does not
   * contain `end`.
   */
  lemma ExtractBetweenPlacedIff(a: string, v: string, b: string, i: int, start: string, end: string)
    requires IsFirstOccurrence(a + (v + b), start, i) && i + |start| == |a|
    requires |end| > 0 && IsFirstOccurrence(b, end, 0) && NoOverlapInto(end, b)
    ensures ExtractBetween(a + (v + b), start, end) == Success(v) <==> !Contains(v, end)
  {
    if Contains(v, end) {
      ExtractBetweenCut(a, v, b, i, start, end);
    } else {
      FirstAfterText(v, b, end, 0);
      ExtractBetweenPlaced(a, v, b, i, start, end);
    }
  }

  /** Nothing in `Middle` and after lets a script start marker overlap into it. */
  lemma MiddleBlocksScriptStart(x: string)
    ensures NoOverlapInto(ScriptStart, Middle + x)
  {
    MiddleStartsWithDescriptionEnd(x);
    ScriptStartNoOverlap(Middle + x);
  }

  /** Past a description that lacks it, the script start marker is found in `Middle`. */
  lemma ScriptStartAfterDescription(d: string, x: string)
    requires !Contains(d, ScriptStart)
    ensures IsFirstOccurrence(d + (Middle + x), ScriptStart, |d| + |Settings|)
  {
    MiddleBlocksScriptStart(x);
    ScriptStartInMiddle(x);
    FirstAfterText(d, Middle + x, ScriptStart, |Settings|);
  }

  /** The script start marker is found at the template's own place when the description lacks it. */
  lemma ScriptStartInBuilt(d: string, x: string)
    requires !Contains(d, ScriptStart)
    ensures IsFirstOccurrence(Head + (d + (Middle + x)), ScriptStart, |Head| + (|d| + |Settings|))
  {
    SkipsHead();
    ScriptStartAfterDescription(d, x);
    FirstAfterSkipped(Head, d + (Middle + x), ScriptStart, |d| + |Settings|);
  }

  /** `Tail` starts with the script end marker and nothing can overlap into it. */
  lemma TailStartsWithScriptEnd()
    ensures IsFirstOccurrence(Tail, ScriptEnd, 0) && NoOverlapInto(ScriptEnd, Tail)
  {
    FirstAtStart(ScriptEnd, "\n    " + (SandboxFlag + DocumentClose));
    assert Tail[0] == ']' && Tail[1] == ']';
    ScriptEndNoOverlap(Tail);
  }

  /**
   * The description built into a document is extracted back exactly when it
   * does not contain the description end marker.
   */
  lemma DescriptionRoundTrip(d: string, s: string)
    ensures ExtractDescriptionFromXML(BuildPipelineConfigXML(d, s)) == Success(d)
      <==> !Contains(d, DescriptionEnd)
  {
    var b := Middle + (s + Tail);
    BuiltNested(d, s);
    DescriptionStartInHead(d + b);
    MiddleStartsWithDescriptionEnd(s + Tail);
    DescriptionEndNoOverlap(b);
    ExtractBetweenPlacedIff(Head, d, b, |Prolog|, DescriptionStart, DescriptionEnd);
  }

  /**
   * When the description does not contain the script start marker, the
   * script built into a document is extracted back exactly when it does not
   * contain the script end marker.
   */
  lemma ScriptRoundTrip(d: string, s: string)
    requires !Contains(d, ScriptStart)
    ensures ExtractGroovyScriptFromXML(BuildPipelineConfigXML(d, s)) == Success(s)
      <==> !Contains(s, ScriptEnd)
  {
    var a := Head + d + Middle;
    Assoc(a, s, Tail);
    Assoc(Head + d, Middle, s + Tail);
    Assoc(Head, d, Middle + (s + Tail));
    ScriptStartInBuilt(d, s + Tail);
    TailStartsWithScriptEnd();
    ExtractBetweenPlacedIff(a, s, Tail, |Head| + (|d| + |Settings|), ScriptStart, ScriptEnd);
  }

  /**
   * Under the side conditions of both round trips, the document built from
   * a description and a script gives both back.
   */
  lemma BuildThenExtract(d: string, s: string)
    requires !Contains(d, DescriptionEnd) && !Contains(d, ScriptStart) && !Contains(s, ScriptEnd)
    ensures ExtractDescriptionFromXML(BuildPipelineConfigXML(d, s)) == Success(d)
    ensures ExtractGroovyScriptFromXML(BuildPipelineConfigXML(d, s)) == Success(s)
  {
    DescriptionRoundTrip(d, s);
    ScriptRoundTrip(d, s);
  }

  /** Under the same side conditions, different arguments build different documents. */
  lemma BuildInjective(d1: string, s1: string, d2: string, s2: string)
    requires !Contains(d1, DescriptionEnd) && !Contains(d1, ScriptStart) && !Contains(s1, ScriptEnd)
    requires !Contains(d2, DescriptionEnd) && !Contains(d2, ScriptStart) && !Contains(s2, ScriptEnd)
    requires BuildPipelineConfigXML(d1, s1) == BuildPipelineConfigXML(d2, s2)
    ensures d1 == d2 && s1 == s2
  {
    BuildThenExtract(d1, s1);
    BuildThenExtract(d2, s2);
  }

  /**
   * The script side condition is needed: a description holding a whole
   * script element hides the real script from extraction.
   */
  lemma DescriptionCanCaptureScript()
    ensures ExtractGroovyScriptFromXML(BuildPipelineConfigXML(ScriptStart + "x" + ScriptEnd, "y")) == Success("x")
  {
    DescriptionScriptSectionWins("x", "y");
  }

  /**
   * A description that holds a whole script element, whose text lacks the
   * end marker, decides what the script extractor returns, whatever the real
   * script is.
   */
  lemma DescriptionScriptSectionWins(x: string, s: string)
    requires !Contains(x, ScriptEnd)
    ensures ExtractGroovyScriptFromXML(BuildPipelineConfigXML(ScriptStart + x + ScriptEnd, s)) == Success(x)
  {
    var d := ScriptStart + x + ScriptEnd;
    var r := Middle + (s + Tail);
    var rest := x + (ScriptEnd + r);
    BuiltNested(d, s);
    Assoc(ScriptStart + x, ScriptEnd, r);
    Assoc(ScriptStart, x, ScriptEnd + r);
    Assoc(Head, ScriptStart, rest);
    SkipsHead();
    FirstAtStart(ScriptStart, rest);
    FirstAfterSkipped(Head, ScriptStart + rest, ScriptStart, 0);
    FirstAtStart(ScriptEnd, r);
    ScriptEndNoOverlap(ScriptEnd + r);
    FirstAfterText(x, ScriptEnd + r, ScriptEnd, 0);
    ExtractBetweenPlaced(Head + ScriptStart, x, ScriptEnd + r, |Head|, ScriptStart, ScriptEnd);
  }

  /**
   * The description's script side condition is sufficient but not needed:
   * a description holding a script element with the real script's own text
   * contains the start marker, and the script still comes back.
   */
  lemma ScriptConditionNotNeeded(s: string)
    requires !Contains(s, ScriptEnd)
    ensures var d := ScriptStart + s + ScriptEnd;
      Contains(d, ScriptStart) && ExtractGroovyScriptFromXML(BuildPipelineConfigXML(d, s)) == Success(s)
  {
    DescriptionScriptSectionWins(s, s);
    Assoc(ScriptStart, s, ScriptEnd);
    FirstAtStart(ScriptStart, s + ScriptEnd);
  }

  /** Text the extraction returns never holds the end marker, so it can be built back in. */
  lemma EnclosedLacksEnd(doc: string, start: string, end: string, v: string)
    requires |end| > 0 && IsFirstEnclosed(doc, start, end, v)
    ensures !Contains(v, end)
  {
    var i :| IsFirstOccurrence(doc, start, i)
      && IsFirstOccurrence(doc[i + |start|..], end, |v|)
      && v == doc[i + |start|..i + |start| + |v|];
    var rest := doc[i + |start|..];
    assert rest == v + rest[|v|..];
    forall j | Occurs(v, end, j) ensures false {
      OccursBefore(v, rest[|v|..], end, j);
    }
  }

  /** An extracted script can be built back and extracted again unchanged. */
  lemma ExtractedScriptRebuilds(xml: string, d: string)
    requires ExtractGroovyScriptFromXML(xml).Success? && !Contains(d, ScriptStart)
    ensures ExtractGroovyScriptFromXML(BuildPipelineConfigXML(d, ExtractGroovyScriptFromXML(xml).value))
      == ExtractGroovyScriptFromXML(xml)
  {
    var s := ExtractGroovyScriptFromXML(xml).value;
    EnclosedLacksEnd(xml, ScriptStart, ScriptEnd, s);
    ScriptRoundTrip(d, s);
  }

  /** An extracted description can be built back and extracted again unchanged. */
  lemma ExtractedDescriptionRebuilds(xml: string, s: string)
    requires ExtractDescriptionFromXML(xml).Success?
    ensures ExtractDescriptionFromXML(BuildPipelineConfigXML(ExtractDescriptionFromXML(xml).value, s))
      == ExtractDescriptionFromXML(xml)
  {
    var d := ExtractDescriptionFromXML(xml).value;
    EnclosedLacksEnd(xml, DescriptionStart, DescriptionEnd, d);
    DescriptionRoundTrip(d, s);
  }

  /** The script always runs in the Groovy sandbox: the flag follows the script's closing tag. */
  lemma SandboxFollowsScript(d: string, s: string)
    ensures Occurs(BuildPipelineConfigXML(d, s), ScriptEnd + "\n    " + SandboxFlag, |Head| + |d| + |Middle| + |s|)
  {
    var doc := BuildPipelineConfigXML(d, s);
    var at := |Head| + |d| + |Middle| + |s|;
    var flag := ScriptEnd + "\n    " + SandboxFlag;
    Assoc(ScriptEnd + "\n    ", SandboxFlag, DocumentClose);
    Assoc(ScriptEnd, "\n    ", SandboxFlag + DocumentClose);
    assert Tail == flag + DocumentClose;
    assert doc[at..at + |flag|] == Tail[..|flag|];
  }
}
