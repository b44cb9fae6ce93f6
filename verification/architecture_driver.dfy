/**
 * `generate_architecture_from_file`
 * (template2slide/scripts/generate_from_deal_transfer.py): decide whether the
 * input is a deal transfer or a proposal template, parse it with the matching
 * parser, refuse to go on when a required field is missing, and otherwise
 * name the output files and label the deployment method.
 *
 * The parsers and the diagram generator are modelled elsewhere; here the
 * parse is a parameter from the detected kind to its outcome, and writing
 * files and printing are left out.
 */
module ArchitectureDriver {
  import opened Wrappers
  import opened Text
  import opened Sequences
  import Mermaid
  import Deployment

  /** The input file as the driver sees it: its name, and its text or `None`
      when reading it raises. */
  datatype InputFile = InputFile(name: string, content: Option<string>)

  datatype SourceKind = DealTransferFile | ProposalFile

  // ------------------------------------------------------ classification

  /** Position of the last '.', if any (`str.rfind`). */
  function LastDot(s: string): (r: Option<nat>)
    ensures r.Some? ==> r.value < |s| && s[r.value] == '.' && forall j :: r.value < j < |s| ==> s[j] != '.'
    ensures r.None? ==> forall j :: 0 <= j < |s| ==> s[j] != '.'
    decreases |s|
  {
    if |s| == 0 then None
    else if s[|s| - 1] == '.' then Some(|s| - 1)
    else LastDot(s[..|s| - 1])
  }

  /** `Path.suffix`: from the last '.' on, unless that dot starts the name or ends it. */
  function Suffix(name: string): (r: string)
    ensures r == "" || (1 < |r| < |name| && r[0] == '.' && name[|name| - |r|..] == r)
    ensures forall j :: 0 < j < |r| ==> r[j] != '.'
    ensures r != "" <==> LastDot(name).Some? && 0 < LastDot(name).value < |name| - 1
    ensures r != "" ==> r == name[LastDot(name).value..]
  {
    match LastDot(name)
    case None => ""
    case Some(i) => if 0 < i < |name| - 1 then name[i..] else ""
  }

  /** `Path.stem`: the name without its suffix. */
  function Stem(name: string): (r: string)
    ensures r + Suffix(name) == name
  {
    name[..|name| - |Suffix(name)|]
  }

  /** A name made of a base and an extension, neither empty and the extension
      without a dot, has that extension as its suffix and the base as its stem. */
  lemma SuffixOfExtension(base: string, ext: string)
    requires base != "" && ext != "" && forall j :: 0 <= j < |ext| ==> ext[j] != '.'
    ensures Suffix(base + "." + ext) == "." + ext
    ensures Stem(base + "." + ext) == base
  {
    var name := base + "." + ext;
    LastDotAt(name, |base|);
    assert name[|base|..] == "." + ext;
    assert name[..|base|] == base;
  }

  lemma LastDotAt(s: string, i: nat)
    requires i < |s| && s[i] == '.' && forall j :: i < j < |s| ==> s[j] != '.'
    ensures LastDot(s) == Some(i)
  {
  }

  /** The name alone marks a deal transfer. */
  predicate NameMarksDealTransfer(name: string) {
    var lower := Lower(name);
    Contains(lower, "deal") || Contains(lower, "transfer") || Lower(Suffix(name)) in [".xlsx", ".xls"]
  }

  const DealPhrases := [
    "Does client have stable internet connection",
    "Any GDPR or data privacy requirements",
    "Any specific HW/SW requirements such as deployment method",
    "List of VA use cases"]

  const PreviewLength := 500

  /** `f.read(500)` */
  function Preview(content: string): (r: string)
    ensures |r| <= PreviewLength && |r| <= |content| && r == content[..|r|]
    ensures |content| >= PreviewLength ==> |r| == PreviewLength
    ensures |content| < PreviewLength ==> r == content
  {
    if |content| <= PreviewLength then content else content[..PreviewLength]
  }

  predicate PreviewMarksDealTransfer(content: Option<string>) {
    content.Some? && exists k :: 0 <= k < |DealPhrases| && Contains(Preview(content.value), DealPhrases[k])
  }

  /** Lines 36-58: the name first, then the opening characters of the text;
      a read error leaves the file a proposal. */
  function Classify(f: InputFile): (r: SourceKind)
    ensures NameMarksDealTransfer(f.name) ==> r == DealTransferFile
    ensures f.content.None? ==> (r == DealTransferFile <==> NameMarksDealTransfer(f.name))
  {
    if NameMarksDealTransfer(f.name) || PreviewMarksDealTransfer(f.content) then DealTransferFile
    else ProposalFile
  }

  /** `p` occurs in `s` starting at `i`. */
  predicate OccursAt(s: string, p: string, i: nat) {
    i + |p| <= |s| && s[i..i + |p|] == p
  }

  lemma OccursInPreview(content: string, p: string, i: nat)
    requires OccursAt(content, p, i) && i + |p| <= PreviewLength
    ensures Contains(Preview(content), p)
  {
    var pre := Preview(content);
    assert pre[i..i + |p|] == content[i..i + |p|];
    ContainsAt(pre, p, i);
  }

  /** One of the phrases lies wholly within the first 500 characters. */
  predicate PhraseNearStart(content: string) {
    exists k, i: nat :: 0 <= k < |DealPhrases| && OccursAt(content, DealPhrases[k], i) && i + |DealPhrases[k]| <= PreviewLength
  }

  lemma PreviewPhraseNearStart(content: string)
    ensures PreviewMarksDealTransfer(Some(content)) <==> PhraseNearStart(content)
  {
    var pre := Preview(content);
    if PreviewMarksDealTransfer(Some(content)) {
      var k :| 0 <= k < |DealPhrases| && Contains(pre, DealPhrases[k]);
      var i := ContainsWitness(pre, DealPhrases[k]);
      assert content[i..i + |DealPhrases[k]|] == pre[i..i + |DealPhrases[k]|];
      assert OccursAt(content, DealPhrases[k], i);
    }
    if PhraseNearStart(content) {
      var k, i: nat :| 0 <= k < |DealPhrases| && OccursAt(content, DealPhrases[k], i) && i + |DealPhrases[k]| <= PreviewLength;
      OccursInPreview(content, DealPhrases[k], i);
    }
  }

  /**
   * A file whose name says nothing is a deal transfer exactly when it can be
   * read and one of the four phrases lies wholly within its first 500
   * characters.
   */
  lemma ClassifyByContent(f: InputFile)
    requires !NameMarksDealTransfer(f.name)
    ensures Classify(f) == DealTransferFile <==> f.content.Some? && PhraseNearStart(f.content.value)
  {
    if f.content.Some? {
      PreviewPhraseNearStart(f.content.value);
    }
  }

  // ------------------------------------------------------ required fields

  /** The four values the driver checks, as `dict.get` returns them. */
  datatype ProjectFields = ProjectFields(
    numCameras: Option<int>,
    aiModules: Option<seq<string>>,
    deploymentMethod: Option<string>,
    clientName: Option<string>)

  datatype RequiredItem = CameraNumber | AiModulesList | DeploymentMethod | ClientName

  const RequiredOrder := [CameraNumber, AiModulesList, DeploymentMethod, ClientName]

  /** A text value is missing when it is absent, empty or an unfilled "[MISSING" marker. */
  predicate TextMissing(v: Option<string>) {
    v.None? || v.value == "" || StartsWith(v.value, "[MISSING")
  }

  predicate Missing(info: ProjectFields, item: RequiredItem) {
    match item
    case CameraNumber => info.numCameras.None? || info.numCameras.value == 0
    case AiModulesList => info.aiModules.None? || info.aiModules.value == []
    case DeploymentMethod => TextMissing(info.deploymentMethod)
    case ClientName => TextMissing(info.clientName)
  }

  function MissingFlags(info: ProjectFields): (flags: seq<bool>)
    ensures |flags| == |RequiredOrder|
    ensures forall k :: 0 <= k < |RequiredOrder| ==> flags[k] == Missing(info, RequiredOrder[k])
  {
    [Missing(info, CameraNumber), Missing(info, AiModulesList), Missing(info, DeploymentMethod), Missing(info, ClientName)]
  }

  lemma RequiredOrderDistinct()
    ensures Distinct(RequiredOrder)
  {
  }

  lemma EveryItemRequired(item: RequiredItem)
    ensures item in RequiredOrder
  {
    match item
    case CameraNumber => assert RequiredOrder[0] == item;
    case AiModulesList => assert RequiredOrder[1] == item;
    case DeploymentMethod => assert RequiredOrder[2] == item;
    case ClientName => assert RequiredOrder[3] == item;
  }

  /** Lines 70-81: one entry per missing field, in the fixed order cameras,
      modules, deployment, client. */
  function MissingFields(info: ProjectFields): (r: seq<RequiredItem>)
    ensures forall item :: item in r <==> Missing(info, item)
    ensures InOrderOf(r, RequiredOrder)
    ensures r == [] <==> forall item :: !Missing(info, item)
  {
    var flags := MissingFlags(info);
    RequiredOrderDistinct();
    SelectMembership(RequiredOrder, flags);
    SelectInOrder(RequiredOrder, flags);
    var r := Select(RequiredOrder, flags);
    assert forall item :: item in r <==> Missing(info, item) by {
      forall item ensures item in r <==> Missing(info, item) {
        EveryItemRequired(item);
        var k := IndexOf(RequiredOrder, item);
        assert RequiredOrder[k] == item;
      }
    }
    r
  }

  /** Zero cameras is as missing as no camera count. */
  lemma ZeroCamerasMissing(info: ProjectFields)
    requires info.numCameras == Some(0)
    ensures CameraNumber in MissingFields(info) && MissingFields(info)[0] == CameraNumber
  {
    var r := MissingFields(info);
    assert CameraNumber in r;
  }

  // ------------------------------------------------------------ outcome

  /** `deployment_method.upper().replace('-', ' ')` */
  function DeploymentLabel(m: string): (r: string)
    ensures |r| == |m|
    ensures forall i :: 0 <= i < |r| ==> r[i] != '-' && !('a' <= r[i] <= 'z')
    ensures forall i :: 0 <= i < |m| && m[i] != '-' ==> r[i] == UpperChar(m[i])
    ensures forall i :: 0 <= i < |m| && m[i] == '-' ==> r[i] == ' '
  {
    seq(|m|, i requires 0 <= i < |m| => if m[i] == '-' then ' ' else UpperChar(m[i]))
  }

  /** The label does not depend on the case the method was written in. */
  lemma DeploymentLabelIgnoresCase(m: string)
    ensures DeploymentLabel(Lower(m)) == DeploymentLabel(m)
  {
  }

  /** What a successful run writes and returns (output directory left out);
      `diagram` is the architecture the generator drew. */
  datatype Output = Output(jsonFile: string, mermaidFile: string, info: ProjectFields,
                           deploymentLabel: string, diagram: Deployment.Method)

  /** How a run ends; the source returns `None` for the first and third, and
      lets the exception escape for the second and fourth. The generator raises
      after the project-info file is written, for a method it does not know. */
  datatype DriverResult =
    | InputNotFound
    | ParseRaised(message: string)
    | RequiredMissing(missing: seq<RequiredItem>)
    | GenerationRaised(jsonFile: string, requested: string)
    | Produced(output: Output)

  /** `generate_architecture_from_file`; `input` is `None` when the file does not exist. */
  function GenerateArchitectureFromFile(input: Option<InputFile>, parse: SourceKind -> Result<ProjectFields, string>): (r: DriverResult)
    ensures input.None? <==> r == InputNotFound
    ensures r.ParseRaised? ==> parse(Classify(input.value)) == Err(r.message)
    ensures r.RequiredMissing? ==> r.missing != [] && parse(Classify(input.value)).Ok?
    ensures r.GenerationRaised? || r.Produced? <==>
              input.Some? && parse(Classify(input.value)).Ok? && MissingFields(parse(Classify(input.value)).value) == []
    ensures r.GenerationRaised? ==>
              var m := parse(Classify(input.value)).value.deploymentMethod;
              m.Some? && r.requested == Lower(m.value) && r.requested !in Mermaid.Aliases
              && r.jsonFile == Stem(input.value.name) + "_project_info.json"
    ensures r.Produced? ==>
              var info := parse(Classify(input.value)).value;
              r.output.info == info && Lower(info.deploymentMethod.value) in Mermaid.Aliases
              && r.output.diagram == Mermaid.Aliases[Lower(info.deploymentMethod.value)]
    ensures r.Produced? ==> !TextMissing(r.output.info.deploymentMethod) && !TextMissing(r.output.info.clientName)
    ensures r.Produced? ==> |r.output.deploymentLabel| == |r.output.info.deploymentMethod.value|
    ensures r.Produced? ==>
              r.output.jsonFile == Stem(input.value.name) + "_project_info.json"
              && r.output.mermaidFile == Stem(input.value.name) + "_architecture_diagram.md"
              && r.output.deploymentLabel == DeploymentLabel(r.output.info.deploymentMethod.value)
  {
    match input
    case None => InputNotFound
    case Some(f) =>
      match parse(Classify(f))
      case Err(e) => ParseRaised(e)
      case Ok(info) =>
        var missing := MissingFields(info);
        if missing != [] then RequiredMissing(missing)
        else
          assert !Missing(info, DeploymentMethod) && !Missing(info, ClientName);
          var stem := Stem(f.name);
          match Mermaid.Dispatch(info.deploymentMethod)
          case Err(m) => GenerationRaised(stem + "_project_info.json", m)
          case Ok(diagram) =>
            Produced(Output(stem + "_project_info.json", stem + "_architecture_diagram.md", info,
                            DeploymentLabel(info.deploymentMethod.value), diagram))
  }

  /** The return value: the files and facts on success, `None` otherwise. */
  function Returned(r: DriverResult): (o: Option<Output>)
    requires !r.ParseRaised? && !r.GenerationRaised?
    ensures o.Some? <==> r.Produced?
  {
    if r.Produced? then Some(r.output) else None
  }
}
