/**
 * `ProposalParser` (template2slide/scripts/parse_proposal.py): reads the
 * architecture facts out of a proposal document.
 *
 * Each regular-expression search over the document is an input: a flag saying
 * whether it matched, or the text it captured. The per-line item patterns of
 * the "AI Modules" section are modelled on the line itself.
 */
module ProposalParsing {
  import opened Wrappers
  import opened Text
  import opened Sequences
  import opened Deployment

  // -------------------------------------------------------------- module names

  const InvalidKeywords := ["data flow", "capture video", "processes video", "alert data",
                           "delivered via", "image url", "video url", "purpose", "alert trigger"]

  predicate MentionsInvalidKeyword(m: string) {
    exists k :: 0 <= k < |InvalidKeywords| && Contains(Lower(m), InvalidKeywords[k])
  }

  /** `_is_valid_module_name`: short, non-empty, and not a description line. */
  predicate IsValidModuleName(m: string) {
    0 < |m| < 100 && !MentionsInvalidKeyword(m)
  }

  /** The filter rejects exactly the empty, the over-long and the descriptive. */
  lemma ValidModuleNameRejects(m: string)
    ensures m == "" ==> !IsValidModuleName(m)
    ensures |m| >= 100 ==> !IsValidModuleName(m)
    ensures Contains(Lower(m), "purpose") ==> !IsValidModuleName(m)
    ensures IsValidModuleName(m) <==>
              m != "" && |m| < 100
              && forall k :: 0 <= k < |InvalidKeywords| ==> !Contains(Lower(m), InvalidKeywords[k])
  {
    if Contains(Lower(m), "purpose") {
      assert InvalidKeywords[7] == "purpose";
    }
  }

  /** The filter ignores letter case. */
  lemma ValidModuleNameIgnoresCase(m: string, n: string)
    requires Lower(m) == Lower(n)
    ensures IsValidModuleName(m) == IsValidModuleName(n)
  {
    assert |m| == |Lower(m)| == |n|;
  }

  predicate AllValid(names: seq<string>) {
    forall i :: 0 <= i < |names| ==> IsValidModuleName(names[i])
  }

  lemma AppendValid(names: seq<string>, x: string)
    requires IsValidModuleName(x)
    ensures (names + [x])[..|names|] == names
    ensures AllValid(names) ==> AllValid(names + [x])
  {
    assert forall i :: 0 <= i < |names| ==> (names + [x])[i] == names[i];
  }

  /** The stripped captures that pass `_is_valid_module_name`, in order. */
  function ValidNames(captures: seq<string>): (r: seq<string>)
    ensures |r| <= |captures|
    ensures AllValid(r)
    decreases |captures|
  {
    if |captures| == 0 then []
    else
      var m := Strip(captures[0]);
      var rest := ValidNames(captures[1..]);
      if IsValidModuleName(m) then [m] + rest else rest
  }

  /** Every valid stripped capture is kept, and nothing else appears. */
  lemma {:induction false} ValidNamesMembership(captures: seq<string>, x: string)
    ensures x in ValidNames(captures) <==>
              IsValidModuleName(x) && exists i :: 0 <= i < |captures| && Strip(captures[i]) == x
    decreases |captures|
  {
    if |captures| > 0 {
      var tail := captures[1..];
      ValidNamesMembership(tail, x);
      var m := Strip(captures[0]);
      var rest := ValidNames(tail);
      assert ValidNames(captures) == if IsValidModuleName(m) then [m] + rest else rest;
      if x in ValidNames(captures) {
        if x in rest {
          var i :| 0 <= i < |tail| && Strip(tail[i]) == x;
          assert Strip(captures[i + 1]) == x;
        } else {
          assert Strip(captures[0]) == x;
        }
      }
      if IsValidModuleName(x) && exists i :: 0 <= i < |captures| && Strip(captures[i]) == x {
        var i :| 0 <= i < |captures| && Strip(captures[i]) == x;
        if i > 0 {
          assert Strip(tail[i - 1]) == x;
        }
      }
    }
  }

  /** The text after a leading `<digits>.`, as `^\d+\.\s*(.+?)$` captures it. */
  function NumberedCapture(line: string): (r: Option<string>)
    ensures r.Some? ==> r.value != ""
  {
    var k := LeadingDigits(line);
    if 0 < k < |line| && line[k] == '.' then ItemText(line[k + 1..]) else None
  }

  /** The text after a leading `-`, `*` or `•`, as `^[-*•]\s*(.+?)$` captures it. */
  function BulletCapture(line: string): (r: Option<string>)
    ensures r.Some? ==> r.value != ""
  {
    if |line| > 0 && (line[0] == '-' || line[0] == '*' || line[0] == '•') then ItemText(line[1..]) else None
  }

  /** `\s*(.+?)$` on the rest of a line: the white space is skipped greedily, but
      at least one character must be left to capture. */
  function ItemText(rest: string): (r: Option<string>)
    ensures r.Some? ==> r.value != ""
    ensures r.None? <==> rest == ""
  {
    var t := TrimStart(rest);
    if t != "" then Some(t)
    else if rest != "" then Some([rest[|rest| - 1]])
    else None
  }

  /** The item a line of the "AI Modules" section names, if any. */
  function LineItem(line: string): Option<string> {
    var s := Strip(line);
    if NumberedCapture(s).Some? then NumberedCapture(s) else BulletCapture(s)
  }

  /** One line's contribution: its item, stripped, when that is a valid name.
      A blank line contributes nothing. */
  function AddLineItem(found: seq<string>, line: string): (r: seq<string>)
    ensures r == found || (|r| == |found| + 1 && r[..|found|] == found && IsValidModuleName(r[|found|]))
    ensures AllValid(found) ==> AllValid(r)
    ensures Strip(line) == "" ==> r == found
  {
    var item := LineItem(line);
    BlankLineHasNoItem(line);
    if item.Some? && IsValidModuleName(Strip(item.value)) then
      AppendValid(found, Strip(item.value));
      found + [Strip(item.value)]
    else found
  }

  /**
   * The loop over the lines of the "AI Modules" section: each numbered or
   * bulleted line adds its valid name, and the scan stops at the first blank
   * line once something was found.
   */
  function ScanSection(lines: seq<string>, found: seq<string>): (r: seq<string>)
    ensures |found| <= |r| <= |found| + |lines| && r[..|found|] == found
    ensures AllValid(found) ==> AllValid(r)
    ensures found != [] && |lines| > 0 && Strip(lines[0]) == "" ==> r == found
    decreases |lines|
  {
    if |lines| == 0 then found
    else
      var found' := AddLineItem(found, lines[0]);
      if Strip(lines[0]) == "" && found' != [] then found'
      else
        var r := ScanSection(lines[1..], found');
        assert found'[..|found|] == found;
        assert r[..|found|] == r[..|found'|][..|found|];
        r
  }

  /** A line that names a valid module, and the name it gives. */
  predicate LineNamed(line: string) {
    LineItem(line).Some? && IsValidModuleName(Strip(LineItem(line).value))
  }

  function LineName(line: string): string {
    if LineItem(line).Some? then Strip(LineItem(line).value) else ""
  }

  /** The valid names of `lines`, in order. */
  function NamedItems(lines: seq<string>): seq<string> {
    Keep(lines, LineNamed, LineName)
  }

  /** A line adds exactly its valid name, if it has one. */
  lemma AddLineItemNamed(found: seq<string>, line: string)
    ensures AddLineItem(found, line) == found + (if LineNamed(line) then [LineName(line)] else [])
    ensures Strip(line) == "" ==> !LineNamed(line)
  {
    BlankLineHasNoItem(line);
  }

  predicate BlankLine(line: string) {
    Strip(line) == ""
  }

  /**
   * Where the scan breaks: the first blank line by which some name has been
   * found, or the end of the section.
   */
  function ScanEnd(lines: seq<string>, found: seq<string>): (e: nat)
    ensures e <= |lines|
    ensures e < |lines| ==> Strip(lines[e]) == "" && found + NamedItems(lines[..e]) != []
    ensures forall j :: 0 <= j < e ==> !(Strip(lines[j]) == "" && found + NamedItems(lines[..j]) != [])
  {
    var e := Break(lines, LineNamed, LineName, BlankLine, found);
    forall j | 0 <= j < e
      ensures !(Strip(lines[j]) == "" && found + NamedItems(lines[..j]) != [])
    {
      assert !BreaksAt(lines, LineNamed, LineName, BlankLine, found, j);
    }
    e
  }

  /** The section loop is a scan that breaks at a blank line. */
  lemma {:induction false} ScanSectionIsScan(lines: seq<string>, found: seq<string>)
    ensures ScanSection(lines, found) == ScanUntil(lines, LineNamed, LineName, BlankLine, found)
    decreases |lines|
  {
    if |lines| > 0 {
      ScanSectionStep(lines, found);
      ScanUntilStep(lines, LineNamed, LineName, BlankLine, found);
      var found' := found + (if LineNamed(lines[0]) then [LineName(lines[0])] else []);
      ScanSectionIsScan(lines[1..], found');
    }
  }

  /** One step of the scan, with the line's contribution spelled out. */
  lemma ScanSectionStep(lines: seq<string>, found: seq<string>)
    requires |lines| > 0
    ensures var found' := found + (if LineNamed(lines[0]) then [LineName(lines[0])] else []);
            ScanSection(lines, found) ==
              if Strip(lines[0]) == "" && found' != [] then found' else ScanSection(lines[1..], found')
  {
    AddLineItemNamed(found, lines[0]);
  }

  /**
   * The scan appends the valid name of every line before the line where it
   * breaks, in order, and nothing else.
   */
  lemma ScanSectionNames(lines: seq<string>, found: seq<string>)
    ensures ScanSection(lines, found) == found + NamedItems(lines[..ScanEnd(lines, found)])
  {
    ScanSectionIsScan(lines, found);
    forall i | 0 <= i < |lines| && BlankLine(lines[i])
      ensures !LineNamed(lines[i])
    {
      AddLineItemNamed(found, lines[i]);
    }
    ScanUntilKeeps(lines, LineNamed, LineName, BlankLine, found);
  }

  /** A blank line captures nothing. */
  lemma BlankLineHasNoItem(line: string)
    ensures Strip(line) == "" ==> LineItem(line).None?
  {
  }

  /**
   * The regex captures `extract_ai_modules` tries, in its order. Each is empty
   * when its section or block is absent.
   */
  datatype ModuleSources = ModuleSources(
    requirementNumbered: seq<string>,  // numbered items after **AI Modules:** in PROJECT REQUIREMENT STATEMENT
    requirementBullets: seq<string>,   // bullet items there
    sectionLines: seq<string>,         // the lines of an "AI Modules" section
    documentNumbered: seq<string>,     // numbered items after **AI Modules:** anywhere
    documentBullets: seq<string>)      // bullet items after **AI Modules:** anywhere

  /** `extract_ai_modules`: the first source that yields a valid name wins. */
  function ExtractAiModules(s: ModuleSources): (r: seq<string>)
    ensures AllValid(r)
    ensures ValidNames(s.requirementNumbered) != [] ==> r == ValidNames(s.requirementNumbered)
    ensures r == [] <==>
              ValidNames(s.requirementNumbered) == [] && ValidNames(s.requirementBullets) == []
              && ScanSection(s.sectionLines, []) == []
              && ValidNames(s.documentNumbered) == [] && ValidNames(s.documentBullets) == []
  {
    var a := ValidNames(s.requirementNumbered);
    var b := ValidNames(s.requirementBullets);
    var c := ScanSection(s.sectionLines, []);
    var d := ValidNames(s.documentNumbered);
    if a != [] then a else if b != [] then b else if c != [] then c else if d != [] then d
    else ValidNames(s.documentBullets)
  }

  /** A name that passes the filter in the first source is always returned. */
  lemma RequirementListWins(s: ModuleSources, i: nat)
    requires i < |s.requirementNumbered| && IsValidModuleName(Strip(s.requirementNumbered[i]))
    ensures Strip(s.requirementNumbered[i]) in ExtractAiModules(s)
  {
    ValidNamesMembership(s.requirementNumbered, Strip(s.requirementNumbered[i]));
  }

  // -------------------------------------------------------- deployment method

  /** Which of the deployment keyword patterns match a text. */
  datatype DeploymentKeywords = DeploymentKeywords(
    cloud: bool,    // Cloud-based | Cloud | On-cloud
    onPrem: bool,   // On-premise | On-prem | On premise
    hybrid: bool)   // Hybrid

  /** The on-premise spellings the field test accepts. */
  predicate NamesOnPrem(v: string) {
    Contains(v, "on-prem") || Contains(v, "on premise") || Contains(v, "on-premise")
  }

  /** The method a `**Deployment Method:**` value names, if any. */
  function FieldMethod(value: string): (r: Option<Method>)
    ensures r.Some? ==> r.value in {Cloud, OnPrem, Hybrid}
    ensures Contains(Lower(value), "cloud") ==> r == Some(Cloud)
    ensures !Contains(Lower(value), "cloud") && NamesOnPrem(Lower(value)) ==> r == Some(OnPrem)
    ensures !Contains(Lower(value), "cloud") && !NamesOnPrem(Lower(value)) && Contains(Lower(value), "hybrid") ==>
              r == Some(Hybrid)
    ensures r.None? <==>
              !Contains(Lower(value), "cloud") && !NamesOnPrem(Lower(value)) && !Contains(Lower(value), "hybrid")
  {
    var v := Lower(value);
    if Contains(v, "cloud") then Some(Cloud)
    else if NamesOnPrem(v) then Some(OnPrem)
    else if Contains(v, "hybrid") then Some(Hybrid)
    else None
  }

  /** The field test reads the value lower-cased, so its case does not matter. */
  lemma FieldMethodIgnoresCase(value: string)
    ensures FieldMethod(Lower(value)) == FieldMethod(value)
  {
    LowerIdempotent(value);
  }

  function ArchitectureMethod(k: DeploymentKeywords): Option<Method> {
    if k.cloud then Some(Cloud) else if k.onPrem then Some(OnPrem) else if k.hybrid then Some(Hybrid) else None
  }

  /**
   * `extract_deployment_method`: the SYSTEM ARCHITECTURE section (`section`,
   * None when missing or empty), then the `**Deployment Method:**` value
   * (`field`), then a content-wide search that only ever infers cloud or
   * on-prem.
   */
  function ExtractDeploymentMethod(section: Option<DeploymentKeywords>, field: Option<string>, content: DeploymentKeywords): (r: Option<Method>)
    ensures r.Some? ==> r.value in {Cloud, OnPrem, Hybrid}
    ensures section.Some? && section.value.cloud ==> r == Some(Cloud)
    ensures section.Some? && !section.value.cloud && section.value.onPrem ==> r == Some(OnPrem)
    ensures section.Some? && !section.value.cloud && !section.value.onPrem && section.value.hybrid ==> r == Some(Hybrid)
    ensures (section.None? || ArchitectureMethod(section.value).None?) && field.Some? && FieldMethod(field.value).Some? ==>
              r == FieldMethod(field.value)
    ensures (section.None? || ArchitectureMethod(section.value).None?) && (field.None? || FieldMethod(field.value).None?) ==>
              r == (if content.cloud then Some(Cloud) else if content.onPrem then Some(OnPrem) else None)
    ensures r == Some(Hybrid) ==>
              (section.Some? && section.value.hybrid) || (field.Some? && FieldMethod(field.value) == Some(Hybrid))
    ensures r.None? <==>
              (section.None? || ArchitectureMethod(section.value).None?)
              && (field.None? || FieldMethod(field.value).None?)
              && !content.cloud && !content.onPrem
  {
    if section.Some? && ArchitectureMethod(section.value).Some? then ArchitectureMethod(section.value)
    else if field.Some? && FieldMethod(field.value).Some? then FieldMethod(field.value)
    else if content.cloud then Some(Cloud)
    else if content.onPrem then Some(OnPrem)
    else None
  }
  /**
   * Without a keyword in the architecture section, a field naming on-premise
   * wins over a document that mentions the cloud anywhere.
   */
  lemma FieldBeforeContent(field: string, content: DeploymentKeywords)
    requires NamesOnPrem(Lower(field)) && !Contains(Lower(field), "cloud")
    ensures ExtractDeploymentMethod(None, Some(field), content) == Some(OnPrem)
  {
  }


  // -------------------------------------------------------------------- alerts

  const AlertOrder := ["Email", "Telegram", "Dashboard", "Mobile", "SMS", "WhatsApp"]

  /** Which alert words (whole word, any case) occur in a text. */
  datatype AlertKeywords = AlertKeywords(email: bool, telegram: bool, dashboard: bool, mobile: bool, sms: bool, whatsApp: bool)

  function SectionFlags(a: AlertKeywords): seq<bool> {
    [a.email, a.telegram, a.dashboard, a.mobile, a.sms, a.whatsApp]
  }

  /** The document-wide fallback only looks for the first three. */
  function ContentFlags(a: AlertKeywords): seq<bool> {
    [a.email, a.telegram, a.dashboard, false, false, false]
  }

  /** Selecting alert names by six flags: in the fixed order, each name present
      exactly when its flag is set, nothing when no flag is set. */
  lemma AlertSelection(keep: seq<bool>)
    requires |keep| == 6
    ensures var r := Select(AlertOrder, keep);
            InOrderOf(r, AlertOrder) && Distinct(r)
            && (forall k :: 0 <= k < 6 ==> (AlertOrder[k] in r <==> keep[k]))
  {
    assert Distinct(AlertOrder);
    SelectInOrder(AlertOrder, keep);
    SelectMembership(AlertOrder, keep);
    InOrderOfDistinct(Select(AlertOrder, keep), AlertOrder);
  }

  /**
   * `extract_alert_methods`: the alert section ("Alerts & Notifications", else
   * "Alert"; None when missing or empty), else Email, Telegram and Dashboard
   * anywhere in the document. Names come in one fixed order, without
   * repetition; nothing found gives [].
   */
  function ExtractAlertMethods(section: Option<AlertKeywords>, content: AlertKeywords): (r: seq<string>)
    ensures InOrderOf(r, AlertOrder) && Distinct(r)
    ensures section.Some? && Select(AlertOrder, SectionFlags(section.value)) != [] ==>
              forall k :: 0 <= k < 6 ==> (AlertOrder[k] in r <==> SectionFlags(section.value)[k])
    ensures section.None? || Select(AlertOrder, SectionFlags(section.value)) == [] ==>
              forall k :: 0 <= k < 6 ==> (AlertOrder[k] in r <==> ContentFlags(content)[k])
    ensures r == [] <==>
              (section.None? || Select(AlertOrder, SectionFlags(section.value)) == [])
              && !content.email && !content.telegram && !content.dashboard
  {
    var fromSection := if section.Some? then Select(AlertOrder, SectionFlags(section.value)) else [];
    var keep := if section.Some? && fromSection != [] then SectionFlags(section.value) else ContentFlags(content);
    AlertSelection(keep);
    Select(AlertOrder, keep)
  }

  // ----------------------------------------------------------------------- NVR

  /** What the NVR searches find. */
  datatype NvrSignals = NvrSignals(
    mentioned: bool,               // NVR | Network Video Recorder anywhere
    markedOptional: Option<bool>)  // NVR.*optional | optional.*NVR | NVR.*\* in SYSTEM ARCHITECTURE; None when that section is missing

  /**
   * `extract_nvr_requirement`. `deployment` is what `extract_deployment_method`
   * returns. An NVR is left out exactly when the architecture marks it
   * optional, or when it is never mentioned and the deployment is cloud.
   */
  function IncludeNvr(s: NvrSignals, deployment: Option<Method>): (r: bool)
    ensures !r <==> (s.mentioned && s.markedOptional == Some(true)) || (!s.mentioned && deployment == Some(Cloud))
  {
    if s.mentioned then
      match s.markedOptional
      case Some(optional) => !optional
      case None => true
    else deployment != Some(Cloud)
  }

  // ---------------------------------------------------------------------- parse

  datatype RequiredField = ClientName | DeploymentMethod | CameraNumber | AiModules

  const RequiredOrder := [ClientName, DeploymentMethod, CameraNumber, AiModules]

  /** Everything the parser's searches find in one document. `placeholders`
      holds the captures of `\[([A-Z_]+_\d+)\]` over the whole content. */
  datatype ProposalSources = ProposalSources(
    placeholders: seq<string>,
    projectName: string,
    clientName: Option<string>,
    architecture: Option<DeploymentKeywords>,
    deploymentField: Option<string>,
    content: DeploymentKeywords,
    numCameras: Option<nat>,
    modules: ModuleSources,
    alertSection: Option<AlertKeywords>,
    contentAlerts: AlertKeywords,
    nvr: NvrSignals)

  datatype ProjectInfo = ProjectInfo(
    projectName: string,
    clientName: string,
    deploymentMethod: Method,
    numCameras: nat,
    aiModules: seq<string>,
    alertMethods: seq<string>,
    includeNvr: bool,
    listAiModules: bool,
    compactMode: bool)

  function DeploymentOf(p: ProposalSources): Option<Method> {
    ExtractDeploymentMethod(p.architecture, p.deploymentField, p.content)
  }

  function MissingFlags(p: ProposalSources): seq<bool> {
    [p.clientName.None?, DeploymentOf(p).None?, p.numCameras.None?, ExtractAiModules(p.modules) == []]
  }

  /** The missing-field list names exactly the fields whose flag is set, in
      the fixed order, and is empty only when no flag is set. */
  lemma MissingFieldsListed(flags: seq<bool>)
    requires |flags| == 4
    ensures var missing := Select(RequiredOrder, flags);
            InOrderOf(missing, RequiredOrder)
            && (missing == [] <==> !flags[0] && !flags[1] && !flags[2] && !flags[3])
            && (ClientName in missing <==> flags[0]) && (DeploymentMethod in missing <==> flags[1])
            && (CameraNumber in missing <==> flags[2]) && (AiModules in missing <==> flags[3])
  {
    assert Distinct(RequiredOrder);
    SelectInOrder(RequiredOrder, flags);
    SelectMembership(RequiredOrder, flags);
    assert RequiredOrder[0] == ClientName && RequiredOrder[1] == DeploymentMethod;
    assert RequiredOrder[2] == CameraNumber && RequiredOrder[3] == AiModules;
  }

  /** Why a proposal is refused: placeholders left in the template (raised by the
      constructor), or required fields that were not found (raised by `parse`). */
  datatype ParseError = PlaceholdersRemain(count: nat) | FieldsMissing(fields: seq<RequiredField>)

  /**
   * The constructor's placeholder check, then `parse`: every required field that was not found is reported, in the order
   * client, deployment, cameras, modules, and no default is substituted; the
   * returned record carries the extracted values unchanged.
   */
  function Parse(p: ProposalSources): (r: Result<ProjectInfo, ParseError>)
    ensures p.placeholders != [] ==> r == Err(PlaceholdersRemain(|p.placeholders|))
    ensures r.Ok? <==>
              p.placeholders == [] && p.clientName.Some? && DeploymentOf(p).Some? && p.numCameras.Some?
              && ExtractAiModules(p.modules) != []
    ensures r.Err? && r.error.FieldsMissing? ==>
              var missing := r.error.fields;
              p.placeholders == [] && missing != [] && InOrderOf(missing, RequiredOrder)
              && (ClientName in missing <==> p.clientName.None?)
              && (DeploymentMethod in missing <==> DeploymentOf(p).None?)
              && (CameraNumber in missing <==> p.numCameras.None?)
              && (AiModules in missing <==> ExtractAiModules(p.modules) == [])
    ensures r.Ok? ==>
              var info := r.value;
              Some(info.clientName) == p.clientName && Some(info.deploymentMethod) == DeploymentOf(p)
              && Some(info.numCameras) == p.numCameras && info.aiModules != []
              && AllValid(info.aiModules)
              && info.listAiModules && info.compactMode
    ensures r.Ok? ==>
              var info := r.value;
              info.projectName == p.projectName && info.aiModules == ExtractAiModules(p.modules)
              && info.alertMethods == ExtractAlertMethods(p.alertSection, p.contentAlerts)
              && info.includeNvr == IncludeNvr(p.nvr, DeploymentOf(p))
  {
    var flags := MissingFlags(p);
    var missing := Select(RequiredOrder, flags);
    MissingFieldsListed(flags);
    if p.placeholders != [] then
      Err(PlaceholdersRemain(|p.placeholders|))
    else if missing != [] then
      Err(FieldsMissing(missing))
    else
      var deployment := DeploymentOf(p).value;
      Ok(ProjectInfo(
        p.projectName, p.clientName.value, deployment, p.numCameras.value,
        ExtractAiModules(p.modules), ExtractAlertMethods(p.alertSection, p.contentAlerts),
        IncludeNvr(p.nvr, Some(deployment)), true, true))
  }
}
