/**
 * `ArchitectureGenerator` (template2slide/scripts/generate_mermaid.py): picks a
 * diagram layout for the deployment method and fills in its variable parts.
 *
 * A diagram is modelled by the parts that vary with the project (NVR node and
 * edges, internet node, AI-module listing, alert list, camera count); the
 * fixed Mermaid text around them is left out.
 */
module Mermaid {
  import opened Wrappers
  import opened Text
  import opened Deployment

  // -------------------------------------------------------------- style lines

  function ModuleId(i: nat): string {
    "Mod_" + NatToString(i)
  }

  function StyleLine(i: nat): string {
    "    class " + ModuleId(i) + " aiModuleStyle"
  }

  lemma StyleLineHasNoNewline(i: nat)
    ensures '\n' !in StyleLine(i)
  {
    var d := NatToString(i);
    assert StyleLine(i) == "    class Mod_" + d + " aiModuleStyle";
    forall k | 0 <= k < |StyleLine(i)|
      ensures StyleLine(i)[k] != '\n'
    {
      if 14 <= k < 14 + |d| {
        assert StyleLine(i)[k] == d[k - 14];
      }
    }
  }

  /** Distinct modules get distinct style lines. */
  lemma StyleLineInjective(i: nat, j: nat)
    requires StyleLine(i) == StyleLine(j)
    ensures i == j
  {
    var a := NatToString(i);
    var b := NatToString(j);
    assert |a| == |b|;
    assert a == StyleLine(i)[14..14 + |a|];
    assert b == StyleLine(j)[14..14 + |b|];
    NatToStringInjective(i, j);
  }

  function StyleLines(n: nat): seq<string> {
    seq(n, i requires 0 <= i < n => StyleLine(i + 1))
  }

  lemma StyleLinesHaveNoNewline(n: nat)
    ensures forall k :: 0 <= k < n ==> '\n' !in StyleLines(n)[k]
  {
    forall k | 0 <= k < n
      ensures '\n' !in StyleLines(n)[k]
    {
      StyleLineHasNoNewline(k + 1);
    }
  }

  /** `_get_ai_modules_styles`: one `class Mod_<i> aiModuleStyle` line per module. */
  function ModuleStyles(modules: seq<string>): (r: string)
    ensures modules == [] ==> r == ""
    ensures modules != [] ==> Split(r, '\n') == StyleLines(|modules|)
  {
    if modules == [] then ""
    else
      var lines := StyleLines(|modules|);
      StyleLinesHaveNoNewline(|modules|);
      SplitJoin(lines, '\n');
      Join(lines, "\n")
  }

  /** The style lines name modules 1..n, each once. */
  lemma StyleLinesDistinct(n: nat, i: nat, j: nat)
    requires i < j < n
    ensures StyleLines(n)[i] != StyleLines(n)[j]
  {
    if StyleLines(n)[i] == StyleLines(n)[j] {
      StyleLineInjective(i + 1, j + 1);
    }
  }

  // ---------------------------------------------------------- inline listing

  /** Python's `s[:n]`, where a negative `n` counts from the end. */
  function PyPrefix(s: string, n: int): (r: string)
    ensures |r| <= |s| && r == s[..|r|]
    ensures n >= 0 ==> |r| == if n <= |s| then n else |s|
  {
    if n >= 0 then (if n <= |s| then s[..n] else s)
    else if |s| + n >= 0 then s[..|s| + n] else ""
  }

  /** A parenthesis-free stretch. */
  predicate NoCloseParen(s: string) {
    forall k :: 0 <= k < |s| ==> s[k] != ')'
  }

  /** Start of the stretch after the last `)` of `s` (0 when there is none). */
  function AfterLastClose(s: string): (k: nat)
    ensures k <= |s|
    ensures NoCloseParen(s[k..])
    ensures k > 0 ==> s[k - 1] == ')'
    decreases |s|
  {
    if |s| == 0 then 0
    else if s[|s| - 1] == ')' then |s|
    else
      var k := AfterLastClose(s[..|s| - 1]);
      assert s[k..] == s[..|s| - 1][k..] + [s[|s| - 1]];
      k
  }

  /** Index of the first `(` at or after `from`, or `|s|`. */
  function FirstOpen(s: string, from: nat): (j: nat)
    requires from <= |s|
    ensures from <= j <= |s|
    ensures j < |s| ==> s[j] == '('
    ensures forall k :: from <= k < j ==> s[k] != '('
    decreases |s| - from
  {
    if from == |s| || s[from] == '(' then from else FirstOpen(s, from + 1)
  }

  /** Where the final parenthetical `\s*\([^)]*\)\s*$` starts in `s`, if it has one:
      the leftmost match starts at the white space before the first `(` that
      follows the last-but-one `)`. */
  function ParentheticalStart(s: string): (k: Option<nat>)
    ensures k.Some? ==> k.value < |s|
  {
    var t := TrimEnd(s);
    if |t| == 0 || t[|t| - 1] != ')' then None
    else
      var u := t[..|t| - 1];
      var j := FirstOpen(u, AfterLastClose(u));
      if j == |u| then None else Some(|TrimEnd(u[..j])|)
  }

  /**
   * `re.sub(r'\s*\([^)]*\)\s*$', '', s)`: removes a final parenthetical
   * together with the white space around it.
   */
  function DropTrailingParenthetical(s: string): (r: string)
    ensures |r| <= |s| && r == s[..|r|]
  {
    match ParentheticalStart(s)
    case None => s
    case Some(k) => s[..k]
  }

  /** `(`, then text without `)`, then `)`. */
  predicate Parenthetical(x: string) {
    |x| >= 2 && x[0] == '(' && x[|x| - 1] == ')' && NoCloseParen(x[1..|x| - 1])
  }

  /** What is removed is white space and a parenthetical, up to trailing white
      space; what is kept does not end in white space. */
  lemma ParentheticalRemoved(s: string)
    requires ParentheticalStart(s).Some?
    ensures var r := DropTrailingParenthetical(s);
            |r| < |TrimEnd(s)| && (|r| > 0 ==> !IsSpace(r[|r| - 1]))
            && Parenthetical(TrimStart(TrimEnd(s)[|r|..]))
  {
    var t := TrimEnd(s);
    var u := t[..|t| - 1];
    var c := AfterLastClose(u);
    var j := FirstOpen(u, c);
    var r := TrimEnd(u[..j]);
    assert ParentheticalStart(s) == Some(|r|);
    KeptPrefix(s, t, u, j, r);
    ParenthesisedTail(t, u, c, j, r);
  }

  /** The kept part is the white-space-trimmed text before the `(`. */
  lemma KeptPrefix(s: string, t: string, u: string, j: nat, r: string)
    requires t == TrimEnd(s) && |t| > 0 && u == t[..|t| - 1] && j <= |u| && r == TrimEnd(u[..j])
    ensures |r| <= j && s[..|r|] == r
  {
    assert u[..j] == s[..j];
  }

  /** After the kept part come white space and then the parenthetical. */
  lemma ParenthesisedTail(t: string, u: string, c: nat, j: nat, r: string)
    requires |t| > 0 && t[|t| - 1] == ')' && u == t[..|t| - 1]
    requires c <= j < |u| && u[j] == '(' && NoCloseParen(u[c..]) && r == TrimEnd(u[..j])
    ensures |r| < |t| && Parenthetical(TrimStart(t[|r|..]))
  {
    TailStartsAtOpen(t, u, j, r);
    ParenthesisAt(t, u, c, j);
  }

  lemma TailStartsAtOpen(t: string, u: string, j: nat, r: string)
    requires |t| > 0 && u == t[..|t| - 1] && j < |u| && u[j] == '(' && r == TrimEnd(u[..j])
    ensures |r| <= j && TrimStart(t[|r|..]) == t[j..]
  {
    var tail := t[|r|..];
    SpacesBeforeOpen(t, u, r, j);
    TrimStartSpaces(tail, j - |r|);
    assert tail[j - |r|..] == t[j..];
  }

  lemma ParenthesisAt(t: string, u: string, c: nat, j: nat)
    requires |t| > 0 && t[|t| - 1] == ')' && u == t[..|t| - 1]
    requires c <= j < |u| && u[j] == '(' && NoCloseParen(u[c..])
    ensures Parenthetical(t[j..])
  {
    CloseFreeInner(t, u, c, j);
    var x := t[j..];
    assert x[0] == t[j] == u[j];
    assert x[|x| - 1] == t[|t| - 1];
  }

  lemma SpacesBeforeOpen(t: string, u: string, r: string, j: nat)
    requires |t| > 0 && u == t[..|t| - 1] && j < |u| && u[j] == '(' && r == TrimEnd(u[..j])
    ensures |r| <= j
    ensures forall k :: 0 <= k < j - |r| ==> IsSpace(t[|r|..][k])
    ensures t[|r|..][j - |r|] == '('
  {
    forall k | 0 <= k < j - |r|
      ensures IsSpace(t[|r|..][k])
    {
      assert t[|r|..][k] == u[..j][|r| + k];
    }
  }

  lemma CloseFreeInner(t: string, u: string, c: nat, j: nat)
    requires |t| > 0 && u == t[..|t| - 1] && c <= j < |u| && NoCloseParen(u[c..])
    ensures NoCloseParen(t[j..][1..|t[j..]| - 1])
  {
    var inner := t[j..][1..|t[j..]| - 1];
    forall k | 0 <= k < |inner|
      ensures inner[k] != ')'
    {
      assert inner[k] == u[c..][j + 1 + k - c];
    }
  }

  /** A name that does not end in `)` keeps its text. */
  lemma NoParentheticalKept(s: string)
    requires |TrimEnd(s)| == 0 || TrimEnd(s)[|TrimEnd(s)| - 1] != ')'
    ensures DropTrailingParenthetical(s) == s
  {
  }

  /** `TrimStart` skips a prefix of white space and stops at a non-space. */
  lemma TrimStartSpaces(s: string, n: nat)
    requires n < |s| && !IsSpace(s[n])
    requires forall k :: 0 <= k < n ==> IsSpace(s[k])
    ensures TrimStart(s) == s[n..]
    decreases n
  {
    if n > 0 {
      TrimStartSpaces(s[1..], n - 1);
    }
  }

  /** How one module is shown inside a node: stripped, without a final
      parenthetical, and cut to `maxLength` with "..." when longer. */
  function ShortName(name: string, maxLength: nat): (r: string)
    ensures maxLength >= 3 ==> |r| <= maxLength
    ensures |DropTrailingParenthetical(Strip(name))| <= maxLength ==> r == DropTrailingParenthetical(Strip(name))
    ensures |DropTrailingParenthetical(Strip(name))| > maxLength >= 3 ==>
              |r| == maxLength && r[..maxLength - 3] == DropTrailingParenthetical(Strip(name))[..maxLength - 3] && r[maxLength - 3..] == "..."
  {
    var short := DropTrailingParenthetical(Strip(name));
    if |short| > maxLength then PyPrefix(short, maxLength - 3) + "..." else short
  }

  /**
   * `_format_ai_modules_inline`: the short names, in order, separated by
   * `<br/>`; an empty list gives "".
   */
  function FormatInline(modules: seq<string>, maxLength: nat): (r: string)
    ensures modules == [] ==> r == ""
    ensures |modules| == 1 ==> r == ShortName(modules[0], maxLength)
    ensures |modules| > 1 ==> r == ShortName(modules[0], maxLength) + "<br/>" + FormatInline(modules[1..], maxLength)
    decreases |modules|
  {
    if modules == [] then ""
    else
      var names := ShortNames(modules, maxLength);
      assert names[1..] == ShortNames(modules[1..], maxLength);
      Join(names, "<br/>")
  }

  function ShortNames(modules: seq<string>, maxLength: nat): (r: seq<string>)
    ensures |r| == |modules|
    ensures forall i :: 0 <= i < |modules| ==> r[i] == ShortName(modules[i], maxLength)
    decreases |modules|
  {
    if modules == [] then [] else [ShortName(modules[0], maxLength)] + ShortNames(modules[1..], maxLength)
  }

  /** The inline list is never longer than its items at 50 characters each plus
      one separator between neighbours. */
  lemma {:induction false} FormatInlineBound(modules: seq<string>)
    ensures |FormatInline(modules, 50)| <= 55 * |modules|
    decreases |modules|
  {
    if |modules| > 1 {
      FormatInlineBound(modules[1..]);
    }
  }

  /** A short name without a parenthetical is shown as it is. */
  lemma PlainNameShownAsIs(name: string)
    requires Strip(name) == name && 0 < |name| <= 50 && name[|name| - 1] != ')'
    ensures ShortName(name, 50) == name
  {
    assert TrimEnd(name) == name;
  }

  // ---------------------------------------------------------------- dispatch

  /** The project facts the generator reads; None is a missing key. */
  datatype ArchitectureInfo = ArchitectureInfo(
    deploymentMethod: Option<string>,
    numCameras: Option<nat>,
    aiModules: seq<string>,
    includeNvr: Option<bool>,
    listAiModules: Option<bool>,
    compactMode: Option<bool>,
    alertMethods: Option<seq<string>>,
    internetType: string)  // "" when missing

  /** `_should_show_nvr`: an explicit flag wins; otherwise only a method of
      exactly "cloud" hides the NVR. */
  function ShouldShowNvr(info: ArchitectureInfo): (r: bool)
    ensures info.includeNvr.Some? ==> r == info.includeNvr.value
    ensures info.includeNvr.None? ==> (r <==> info.deploymentMethod != Some("cloud"))
  {
    match info.includeNvr
    case Some(b) => b
    case None => info.deploymentMethod != Some("cloud")
  }

  /** The nine names `generate` accepts, after lower-casing, and the layout
      each selects. */
  const Aliases: map<string, Method> := map[
    "on-prem" := OnPrem, "on-premise" := OnPrem, "cloud" := Cloud, "hybrid" := Hybrid,
    "hybrid-training-local" := HybridTrainingLocal, "hybrid-training-onprem" := HybridTrainingLocal,
    "4g-vpn-bridge" := FourGVpnBridge, "4g_vpn_bridge" := FourGVpnBridge, "vimov" := Vimov]

  /** The layout `generate` picks for a method name, or the lower-cased name it
      does not know. A missing method means on-premise. */
  function Dispatch(requested: Option<string>): (r: Result<Method, string>)
    ensures var m := Lower(requested.GetOr("on-prem"));
      (r.Ok? <==> m in Aliases) && (r.Ok? ==> r.value == Aliases[m]) && (r.Err? ==> r.error == m)
  {
    var m := Lower(requested.GetOr("on-prem"));
    if m == "on-prem" || m == "on-premise" then Ok(OnPrem)
    else if m == "cloud" then Ok(Cloud)
    else if m == "hybrid" then Ok(Hybrid)
    else if m == "hybrid-training-local" || m == "hybrid-training-onprem" then Ok(HybridTrainingLocal)
    else if m == "4g-vpn-bridge" || m == "4g_vpn_bridge" then Ok(FourGVpnBridge)
    else if m == "vimov" then Ok(Vimov)
    else Err(m)
  }

  /** Letter case never matters: a name and its lower-cased form are
      dispatched alike. */
  lemma DispatchIgnoresCase(name: string)
    ensures Dispatch(Some(name)) == Dispatch(Some(Lower(name)))
  {
    LowerIdempotent(name);
  }

  lemma LowerUpper(s: string)
    ensures Lower(Upper(s)) == Lower(s)
  {
  }

  /** Every deployment name is understood, in any letter case. */
  lemma DispatchName(m: Method)
    ensures Dispatch(Some(Name(m))) == Ok(m)
    ensures Dispatch(Some(Upper(Name(m)))) == Ok(m)
  {
    LowerUpper(Name(m));
    assert Lower(Name(m)) == Name(m);
  }

  /** A missing method draws the on-premise layout. */
  lemma DispatchDefault()
    ensures Dispatch(None) == Ok(OnPrem)
  {
    assert Lower("on-prem") == "on-prem";
  }

  /** Every name outside the nine aliases is refused with its lower-cased form,
      and only those. */
  lemma DispatchRejectsUnknown(name: string)
    ensures Dispatch(Some(name)).Err? <==> Lower(name) !in Aliases
    ensures Lower(name) !in Aliases ==> Dispatch(Some(name)) == Err(Lower(name))
  {
  }

  // ----------------------------------------------------------------- diagrams

  /** The parts of a diagram that vary with the project. */
  datatype Diagram = Diagram(
    layout: Method,
    cameras: nat,
    nvrNode: string,           // "" when no NVR is drawn
    nvrConnection: string,
    nvrStyle: string,
    internet: string,          // "" in layouts without an internet node
    inlineModules: string,     // the module list inside the processing node
    moduleSubgraph: string,
    moduleConnections: string,
    moduleStyles: string,
    alertList: string)

  /** The separate "AI Modules" listing of the non-compact layouts. */
  datatype ModuleListing = ModuleListing(inline: string, subgraph: string, connections: string, styles: string)

  function ModuleNode(i: nat, name: string): string {
    ModuleId(i) + "[\"" + Strip(name) + "\"]"
  }

  function ModuleEdge(source: string, i: nat): string {
    "    " + source + " --> " + ModuleId(i) + "\n"
  }

  function ModuleSubgraph(modules: seq<string>): string {
    var nodes := seq(|modules|, i requires 0 <= i < |modules| => ModuleNode(i + 1, modules[i]));
    "    subgraph \"AI Modules\"\n        direction LR\n        " + Join(nodes, "\n        ") + "\n    end\n    "
  }

  function ModuleEdges(source: string, n: nat): string {
    Join(seq(n, i requires 0 <= i < n => ModuleEdge(source, i + 1)), "")
  }

  /**
   * The compact/listing choice shared by the on-premise, cloud and hybrid
   * layouts: in compact mode the modules go inline and nothing else is drawn;
   * otherwise, when listing is on, each module gets a node, an edge from
   * `source` and a style line.
   */
  function ListModules(modules: seq<string>, compact: bool, list: bool, source: string): (r: ModuleListing)
    ensures compact && modules != [] ==>
              r == ModuleListing(FormatInline(modules, 50), "", "", "")
    ensures !(compact && modules != []) ==> r.inline == ""
    ensures !(compact && modules != []) && list && modules != [] ==>
              r.subgraph != "" && Split(r.styles, '\n') == StyleLines(|modules|)
    ensures modules == [] || (!compact && !list) ==> r == ModuleListing("", "", "", "")
  {
    if compact && modules != [] then ModuleListing(FormatInline(modules, 50), "", "", "")
    else if list && modules != [] then
      ModuleListing("", ModuleSubgraph(modules), ModuleEdges(source, |modules|), ModuleStyles(modules))
    else ModuleListing("", "", "", "")
  }

  /** The alert list of a node: the methods joined by " & ", or the layout's fallback. */
  function AlertList(alerts: Option<seq<string>>, fallback: seq<string>): (r: string)
    requires fallback != []
    ensures alerts.None? || alerts.value == [] ==> r == Join(fallback, " & ")
    ensures alerts.Some? && alerts.value != [] ==> r == Join(alerts.value, " & ")
  {
    var a := alerts.GetOr(fallback);
    if a != [] then Join(a, " & ") else Join(fallback, " & ")
  }

  const OnSiteNvrNode := "NVR[\"Network Video Recorder<br/>(NVR)*\"]"
  const CloudNvrNode := "NVR[\"NVR\"]"
  const CloudNvrStyle := "    style NVR fill:#f5f5f5,stroke:#616161,stroke-width:2px,color:#000000\n"

  /** The on-site NVR of the on-premise and hybrid layouts, feeding AI inference. */
  function OnSiteNvr(show: bool): (string, string) {
    if show then (OnSiteNvrNode, "Cameras -->|RTSP Links| NVR\n    NVR -->|RTSP Links| AI_Inference")
    else ("", "Cameras -->|RTSP Links| AI_Inference")
  }

  function InternetNode(layout: Method, internetType: string): string {
    match layout
    case Cloud =>
      if internetType != "" then "Internet[\"Internet Connection<br/>(" + internetType + ")<br/>(Provided by Client)\"]"
      else "Internet[\"Internet Connection<br/>(Provided by Client)\"]"
    case Hybrid =>
      if internetType != "" then "Internet[\"Internet Connection<br/>(" + internetType + ")\"]"
      else "Internet[\"Internet Connection\"]"
    case HybridTrainingLocal =>
      if internetType != "" then "Internet[\"Internet Connection<br/>(" + internetType + ")<br/>Dashboard Access Only\"]"
      else "Internet[\"Internet Connection<br/>Dashboard Access Only\"]"
    case _ => ""
  }

  /** `generate_on_prem`, `generate_hybrid` and `generate_hybrid_training_local`. */
  function OnSiteDiagram(layout: Method, info: ArchitectureInfo): (d: Diagram)
    requires layout in {OnPrem, Hybrid, HybridTrainingLocal}
    ensures d.layout == layout && d.nvrStyle == ""
    ensures d.nvrNode != "" <==> ShouldShowNvr(info)
  {
    var nvr := OnSiteNvr(ShouldShowNvr(info));
    var listing := ListModules(info.aiModules, info.compactMode.GetOr(true), info.listAiModules.GetOr(true), "AI_Inference");
    Diagram(layout, info.numCameras.GetOr(8), nvr.0, nvr.1, "", InternetNode(layout, info.internetType),
            listing.inline, listing.subgraph, listing.connections, listing.styles,
            AlertList(info.alertMethods, ["Email", "Dashboard"]))
  }

  /** `generate_cloud`: the NVR follows `include_nvr` alone, off by default. */
  function CloudDiagram(info: ArchitectureInfo): (d: Diagram)
    ensures d.layout == Cloud
    ensures d.nvrNode != "" <==> info.includeNvr == Some(true)
    ensures d.nvrStyle != "" <==> info.includeNvr == Some(true)
  {
    var withNvr := info.includeNvr.GetOr(false);
    var listing := ListModules(info.aiModules, info.compactMode.GetOr(true), info.listAiModules.GetOr(true), "Cloud_Inference");
    Diagram(Cloud, info.numCameras.GetOr(8),
            if withNvr then CloudNvrNode else "",
            if withNvr then "    Cameras --> NVR\n    NVR -->|RTSP Links| Internet" else "    Cameras -->|RTSP Links| Internet",
            if withNvr then CloudNvrStyle else "",
            InternetNode(Cloud, info.internetType),
            listing.inline, listing.subgraph, listing.connections, listing.styles,
            AlertList(info.alertMethods, ["Email", "Dashboard"]))
  }

  /** `generate_4g_vpn_bridge` and `generate_vimov`: modules are only ever shown
      inline, and there is no optional NVR. */
  function RemoteDiagram(layout: Method, info: ArchitectureInfo): (d: Diagram)
    requires layout in {FourGVpnBridge, Vimov}
    ensures d.layout == layout && d.nvrNode == "" && d.moduleSubgraph == "" && d.moduleStyles == ""
  {
    var inline := if info.compactMode.GetOr(true) && info.aiModules != [] then FormatInline(info.aiModules, 50) else "";
    if layout == FourGVpnBridge then
      Diagram(layout, info.numCameras.GetOr(5), "", "", "", "", inline, "", "", "",
              AlertList(info.alertMethods, ["Email", "Mobile"]))
    else
      Diagram(layout, info.numCameras.GetOr(3), "", "", "", "", inline, "", "", "",
              AlertList(info.alertMethods, ["Mobile", "SMS"]))
  }

  /**
   * `generate`: the layout named by the method; an unknown method is an error.
   * In compact mode with modules, no layout draws a module subgraph, module
   * edges or module styles.
   */
  function Generate(info: ArchitectureInfo): (r: Result<Diagram, string>)
    ensures r.Ok? <==> Dispatch(info.deploymentMethod).Ok?
    ensures r.Ok? ==> r.value.layout == Dispatch(info.deploymentMethod).value
    ensures r.Ok? && info.compactMode.GetOr(true) && info.aiModules != [] ==>
              r.value.moduleSubgraph == "" && r.value.moduleConnections == "" && r.value.moduleStyles == ""
              && r.value.inlineModules == FormatInline(info.aiModules, 50)
    ensures r.Ok? && r.value.layout in {OnPrem, Hybrid, HybridTrainingLocal} ==>
              (r.value.nvrNode != "" <==> ShouldShowNvr(info))
    ensures r.Ok? && r.value.layout == Cloud ==>
              (r.value.nvrNode != "" <==> info.includeNvr == Some(true))
  {
    match Dispatch(info.deploymentMethod)
    case Err(m) => Err(m)
    case Ok(layout) =>
      var d := if layout == Cloud then CloudDiagram(info)
               else if layout in {FourGVpnBridge, Vimov} then RemoteDiagram(layout, info)
               else OnSiteDiagram(layout, info);
      Ok(d)
  }

  /** The cloud layout ignores `_should_show_nvr`: a method written "Cloud" with
      no flag makes that answer true, yet no NVR is drawn. */
  lemma CloudNvrIndependentOfShouldShow()
    ensures var info := ArchitectureInfo(Some("Cloud"), None, [], None, None, None, None, "");
            ShouldShowNvr(info) && Generate(info).Ok? && Generate(info).value.nvrNode == ""
  {
    var info := ArchitectureInfo(Some("Cloud"), None, [], None, None, None, None, "");
    assert Lower("Cloud") == "cloud";
    assert Some("Cloud") != Some("cloud") by { assert "Cloud"[0] != "cloud"[0]; }
  }
}
