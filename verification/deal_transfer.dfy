/**
 * `DealTransferParser` (template2slide/scripts/parse_deal_transfer.py): reads
 * facts from a deal-transfer questionnaire and picks a deployment method.
 *
 * Each regular-expression search of the source is an input flag saying
 * whether it matched; which text a flag refers to is noted on the field.
 */
module DealTransfer {
  import opened Wrappers
  import opened Text
  import opened Deployment
  import opened Sequences

  // --------------------------------------------------------------- internet

  /** Matches inside the "stable internet connection" answer. */
  datatype InternetSection = InternetSection(
    affirmative: bool,     // yes | stable | fiber | 24/24
    fiber: bool,
    cellular: bool,        // 4g | 5g
    satellite: bool,
    mbps: Option<nat>,     // the first "<n> mbps"
    negative: bool)        // no | unstable | limited

  datatype ConnectionType = Fiber | Cellular | Satellite

  datatype Internet = Internet(hasConnection: bool, isStable: bool, connectionType: Option<ConnectionType>, bandwidth: Option<nat>)

  /**
   * `extract_internet_connection`. A connection is stable exactly when one was
   * found, and a bandwidth is only ever recorded for satellite links.
   */
  function ExtractInternet(section: Option<InternetSection>): (r: Internet)
    ensures r.isStable == r.hasConnection
    ensures r.bandwidth.Some? ==> r.connectionType == Some(Satellite)
    ensures r.hasConnection <==> section.Some? && section.value.affirmative
    ensures r.connectionType.Some? ==> r.hasConnection
  {
    match section
    case None => Internet(false, false, None, None)
    case Some(s) =>
      if s.affirmative then
        if s.fiber then Internet(true, true, Some(Fiber), None)
        else if s.cellular then Internet(true, true, Some(Cellular), None)
        else if s.satellite then Internet(true, true, Some(Satellite), s.mbps)
        else Internet(true, true, None, None)
      else Internet(false, false, None, None)
  }

  // --------------------------------------------------------------- security

  /** Matches inside the "deployment method" (or "HW/SW requirements") answer. */
  datatype DeploymentSection = DeploymentSection(
    hybrid: bool,          // \bhybrid\b
    trainingLocal: bool,   // training ... local | on-prem | at site
    cloud: bool,           // cloud | on-cloud
    onPrem: bool,          // on-prem | on premise
    fourGVpn: bool,        // 4g ... vpn | vpn ... bridge
    vimov: bool,
    local: bool,           // on-prem | on premise | local
    prefersOnPrem: bool)   // prefer ... on-prem | strong ... on-prem

  datatype Security = Security(hasGdpr: bool, dataLocalization: bool, prefersLocal: bool)

  /**
   * `extract_data_security_requirements`: `gdprAffirmative` is whether the
   * GDPR (or data privacy) answer says yes, required, follow or comply. Data
   * must stay local exactly when GDPR applies or on-premise is preferred.
   */
  function ExtractSecurity(gdprAffirmative: bool, section: Option<DeploymentSection>): (r: Security)
    ensures r.dataLocalization == (r.hasGdpr || r.prefersLocal)
    ensures r.hasGdpr == gdprAffirmative
    ensures r.prefersLocal <==> section.Some? && (section.value.local || section.value.prefersOnPrem)
  {
    var gdpr := Security(gdprAffirmative, gdprAffirmative, false);
    match section
    case None => gdpr
    case Some(s) =>
      if s.local || s.prefersOnPrem then gdpr.(prefersLocal := true, dataLocalization := true)
      else gdpr
  }

  // ------------------------------------------------------------- preference

  /** Whole-document matches used by the preference and the decision. */
  datatype ContentSignals = ContentSignals(
    hybridInferenceLocalPref: bool,  // line 198
    hybridTrainingLocalPref: bool,   // line 200
    hybridWord: bool,                // \bhybrid\b anywhere
    trainingLocal: bool,             // line 237
    remote: bool,                    // remote | rural | mobile | temporary | 4g ... sim
    cellularBridge: bool,            // 4g | 5g ... auto ... register | vpn ... bridge
    mobility: bool,                  // vimov | high ... mobility | temporary ... setup
    hybridInferenceLocal: bool,      // line 255
    hybridTrainingLocal: bool,       // line 257
    multiSite: bool)                 // multi ... site | multiple ... site | local ... dashboard

  /** All that `determine_deployment_method` reads. */
  datatype DealFacts = DealFacts(
    content: ContentSignals,
    deploymentSection: Option<DeploymentSection>,
    internetSection: Option<InternetSection>,
    gdprAffirmative: bool)

  /**
   * The section is a piece of the document, so a whole word "hybrid" in the
   * section is one in the document too.
   */
  predicate Consistent(f: DealFacts) {
    f.deploymentSection.Some? && f.deploymentSection.value.hybrid ==> f.content.hybridWord
  }

  /** Lines 197-203: the document-wide hybrid patterns. */
  function ContentPreference(c: ContentSignals): (r: Option<Method>)
    ensures r.Some? ==> r.value == Hybrid || r.value == HybridTrainingLocal
    ensures r.None? <==> !c.hybridInferenceLocalPref && !c.hybridTrainingLocalPref && !c.hybridWord
  {
    if c.hybridInferenceLocalPref then Some(Hybrid)
    else if c.hybridTrainingLocalPref then Some(HybridTrainingLocal)
    else if c.hybridWord then Some(Hybrid)
    else None
  }

  /** Lines 206-222: the deployment-method answer, checked in a fixed order. */
  function SectionPreference(section: Option<DeploymentSection>): Option<Method> {
    match section
    case None => None
    case Some(s) =>
      if s.hybrid then (if s.trainingLocal then Some(HybridTrainingLocal) else Some(Hybrid))
      else if s.cloud then Some(Cloud)
      else if s.onPrem then Some(OnPrem)
      else if s.fourGVpn then Some(FourGVpnBridge)
      else if s.vimov then Some(Vimov)
      else None
  }

  /** `extract_deployment_preference` */
  function ExtractPreference(f: DealFacts): (r: Option<Method>)
    ensures ContentPreference(f.content).Some? ==> r == ContentPreference(f.content)
    ensures ContentPreference(f.content).None? ==> r == SectionPreference(f.deploymentSection)
  {
    match ContentPreference(f.content)
    case Some(m) => Some(m)
    case None => SectionPreference(f.deploymentSection)
  }

  /**
   * The section's hybrid branch (lines 209-214) never decides: it is only
   * reached when the document has no whole word "hybrid", and then the
   * section has none either. So a hybrid preference always comes from the
   * document-wide patterns.
   */
  lemma SectionHybridBranchDead(f: DealFacts)
    requires Consistent(f)
    ensures ExtractPreference(f) == Some(Hybrid) || ExtractPreference(f) == Some(HybridTrainingLocal)
            ==> ExtractPreference(f) == ContentPreference(f.content)
  {
  }

  // -------------------------------------------------------------- decision

  /** Which rule of `determine_deployment_method` returned. */
  datatype Rule =
    | ExplicitPreference     // lines 233-241
    | RemoteCellular         // lines 248-250
    | RemoteMobility         // lines 251-252
    | HybridInference        // lines 255-256
    | HybridTraining         // lines 257-258
    | DataSecurity           // lines 262-263
    | NoStableInternet       // lines 266-267
    | SatelliteLowBandwidth  // lines 270-272
    | SatelliteHighBandwidth // lines 273-275
    | StableMultiSite        // lines 278-281
    | StableCloud            // lines 282-283
    | ModerateSecurity       // lines 286-287
    | DefaultOnPrem          // line 290

  datatype Decision = Decision(choice: Method, rule: Rule)

  /** Python truthiness of an optional count: None and 0 are false. */
  predicate Truthy(n: Option<nat>) {
    n.Some? && n.value != 0
  }

  function ValueOr(n: Option<nat>, d: int): int {
    if n.Some? then n.value else d
  }

  /**
   * `determine_deployment_method`, with the rule that fired.
   *
   * An explicit preference wins, refined to hybrid-training-local when the
   * document puts training on site. Then come remote sites, the document's
   * hybrid patterns, data security, missing or unstable internet, satellite
   * bandwidth, and finally stable internet.
   */
  function Determine(f: DealFacts): (d: Decision)
    ensures ExtractPreference(f).Some? ==> d.rule == ExplicitPreference
    ensures d.rule == ExplicitPreference ==>
              ExtractPreference(f).Some? &&
              d.choice == (if ExtractPreference(f) == Some(Hybrid) && f.content.trainingLocal
                           then HybridTrainingLocal else ExtractPreference(f).value)
    ensures d.rule == DataSecurity ==> d.choice == OnPrem
    ensures d.rule == NoStableInternet ==> d.choice == OnPrem && !ExtractInternet(f.internetSection).isStable
    ensures d.rule == SatelliteLowBandwidth ==> d.choice == OnPrem
    ensures d.rule == SatelliteHighBandwidth ==> d.choice == Hybrid
    ensures d.rule == StableCloud ==> d.choice == Cloud
    ensures ExtractPreference(f).None? && f.content.remote && f.content.cellularBridge ==>
              d == Decision(FourGVpnBridge, RemoteCellular)
    ensures ExtractPreference(f).None? && !(f.content.remote && f.content.cellularBridge)
            && f.content.remote && f.content.mobility ==>
              d == Decision(Vimov, RemoteMobility)
    ensures ExtractPreference(f).None? && !(f.content.remote && (f.content.cellularBridge || f.content.mobility))
            && f.content.hybridInferenceLocal ==>
              d == Decision(Hybrid, HybridInference)
    ensures ExtractPreference(f).None? && !(f.content.remote && (f.content.cellularBridge || f.content.mobility))
            && !f.content.hybridInferenceLocal && f.content.hybridTrainingLocal ==>
              d == Decision(HybridTrainingLocal, HybridTraining)
  {
    var c := f.content;
    match ExtractPreference(f)
    case Some(explicit) =>
      if explicit == Hybrid then
        Decision(if c.trainingLocal then HybridTrainingLocal else Hybrid, ExplicitPreference)
      else Decision(explicit, ExplicitPreference)
    case None =>
      var internet := ExtractInternet(f.internetSection);
      var security := ExtractSecurity(f.gdprAffirmative, f.deploymentSection);
      if c.remote && c.cellularBridge then Decision(FourGVpnBridge, RemoteCellular)
      else if c.remote && c.mobility then Decision(Vimov, RemoteMobility)
      else if c.hybridInferenceLocal then Decision(Hybrid, HybridInference)
      else if c.hybridTrainingLocal then Decision(HybridTrainingLocal, HybridTraining)
      else if security.hasGdpr || security.dataLocalization || security.prefersLocal then Decision(OnPrem, DataSecurity)
      else if !internet.hasConnection || !internet.isStable then Decision(OnPrem, NoStableInternet)
      else if internet.connectionType == Some(Satellite) && Truthy(internet.bandwidth) then
        if ValueOr(internet.bandwidth, 0) < 20 then Decision(OnPrem, SatelliteLowBandwidth)
        else Decision(Hybrid, SatelliteHighBandwidth)
      else if internet.isStable && !security.dataLocalization then
        if c.multiSite then Decision(Hybrid, StableMultiSite) else Decision(Cloud, StableCloud)
      else if internet.isStable && Truthy(internet.bandwidth) && ValueOr(internet.bandwidth, 0) >= 20 then
        Decision(Hybrid, ModerateSecurity)
      else Decision(OnPrem, DefaultOnPrem)
  }

  /** `determine_deployment_method` as the identifier it returns. */
  function DetermineName(f: DealFacts): (name: string)
    ensures name in {"on-prem", "cloud", "hybrid", "hybrid-training-local", "4g-vpn-bridge", "vimov"}
  {
    Name(Determine(f).choice)
  }

  /**
   * Lines 286-290 never run: reaching line 278 means the security rule did not
   * fire (so data need not stay local) and the internet rule did not fire (so
   * the connection is stable), and line 278 then always returns.
   */
  lemma LastRulesUnreachable(f: DealFacts)
    ensures Determine(f).rule != ModerateSecurity && Determine(f).rule != DefaultOnPrem
  {
  }

  /** Without an earlier remote or hybrid rule, any security flag forces on-premise. */
  lemma SecurityForcesOnPrem(f: DealFacts)
    requires ExtractPreference(f).None?
    requires !(f.content.remote && (f.content.cellularBridge || f.content.mobility))
    requires !f.content.hybridInferenceLocal && !f.content.hybridTrainingLocal
    requires var s := ExtractSecurity(f.gdprAffirmative, f.deploymentSection);
             s.hasGdpr || s.dataLocalization || s.prefersLocal
    ensures Determine(f) == Decision(OnPrem, DataSecurity)
  {
  }

  /** Past the security rule, no connection or an unstable one gives on-premise. */
  lemma NoInternetForcesOnPrem(f: DealFacts)
    requires ExtractPreference(f).None?
    requires !(f.content.remote && (f.content.cellularBridge || f.content.mobility))
    requires !f.content.hybridInferenceLocal && !f.content.hybridTrainingLocal
    requires !f.gdprAffirmative
    requires f.deploymentSection.None? || (!f.deploymentSection.value.local && !f.deploymentSection.value.prefersOnPrem)
    requires !ExtractInternet(f.internetSection).hasConnection
    ensures Determine(f) == Decision(OnPrem, NoStableInternet)
  {
  }

  /**
   * Past the security and internet rules, a satellite link with a known,
   * non-zero bandwidth decides by the 20 Mbps threshold: below it on-premise,
   * otherwise hybrid.
   */
  lemma SatelliteBandwidthRule(f: DealFacts, mbps: nat)
    requires ExtractPreference(f).None?
    requires !(f.content.remote && (f.content.cellularBridge || f.content.mobility))
    requires !f.content.hybridInferenceLocal && !f.content.hybridTrainingLocal
    requires !f.gdprAffirmative
    requires f.deploymentSection.None? || (!f.deploymentSection.value.local && !f.deploymentSection.value.prefersOnPrem)
    requires ExtractInternet(f.internetSection) == Internet(true, true, Some(Satellite), Some(mbps))
    requires mbps > 0
    ensures Determine(f) == (if mbps < 20 then Decision(OnPrem, SatelliteLowBandwidth)
                             else Decision(Hybrid, SatelliteHighBandwidth))
  {
  }

  /**
   * Past the satellite rule, a stable connection gives hybrid for several
   * sites and cloud otherwise.
   */
  lemma StableInternetRule(f: DealFacts)
    requires ExtractPreference(f).None?
    requires !(f.content.remote && (f.content.cellularBridge || f.content.mobility))
    requires !f.content.hybridInferenceLocal && !f.content.hybridTrainingLocal
    requires !f.gdprAffirmative
    requires f.deploymentSection.None? || (!f.deploymentSection.value.local && !f.deploymentSection.value.prefersOnPrem)
    requires ExtractInternet(f.internetSection).hasConnection
    requires ExtractInternet(f.internetSection).connectionType != Some(Satellite)
             || ExtractInternet(f.internetSection).bandwidth in {None, Some(0)}
    ensures Determine(f) == (if f.content.multiSite then Decision(Hybrid, StableMultiSite)
                             else Decision(Cloud, StableCloud))
  {
  }

  /** A satellite answer with a bandwidth figure reaches the satellite rule with that figure. */
  lemma SatelliteSectionReadsBandwidth(f: DealFacts, mbps: nat)
    requires f.internetSection == Some(InternetSection(true, false, false, true, Some(mbps), false))
    ensures ExtractInternet(f.internetSection) == Internet(true, true, Some(Satellite), Some(mbps))
  {
  }

  // ------------------------------------------------------------ AI modules

  const SkipWords := ["camera", "deployment", "internet", "gdpr", "number"]

  /** The filter applied to names taken from a numbered list. */
  predicate AcceptedModuleName(m: string) {
    3 < |m| < 200 && !StartsWith(m, "Answer:")
    && forall k :: 0 <= k < |SkipWords| ==> !Contains(Lower(m), SkipWords[k])
  }

  /** A list item whose stripped form passes the filter. */
  predicate AcceptedItem(item: string) {
    AcceptedModuleName(Strip(item))
  }

  /** Stripped list items that pass the filter, in order. */
  function FilterListItems(items: seq<string>): (r: seq<string>)
    ensures |r| <= |items|
    ensures forall i :: 0 <= i < |items| && AcceptedModuleName(Strip(items[i])) ==> Strip(items[i]) in r
    ensures forall m :: m in r ==> AcceptedModuleName(m) && exists i :: 0 <= i < |items| && Strip(items[i]) == m
  {
    var r := Keep(items, AcceptedItem, Strip);
    KeepExactly(items, AcceptedItem, Strip);
    r
  }

  /** The filter works item by item: filtering a list is filtering its parts
      and joining the results, and a single item is kept, stripped, exactly
      when it is accepted. Together these fix the result, order included. */
  lemma FilterListItemsAppend(a: seq<string>, b: seq<string>)
    ensures FilterListItems(a + b) == FilterListItems(a) + FilterListItems(b)
  {
    KeepAppend(a, b, AcceptedItem, Strip);
  }

  lemma FilterListItemsSingle(x: string)
    ensures FilterListItems([x]) == if AcceptedModuleName(Strip(x)) then [Strip(x)] else []
  {
    assert [x][1..] == [];
  }

  /** Some numbered item passes the filter. */
  predicate HasListNames(items: Option<seq<string>>) {
    items.Some? && FilterListItems(items.value) != []
  }

  const MaxModules := 20

  function Take(xs: seq<string>, n: nat): (r: seq<string>)
    ensures |r| <= n && |r| <= |xs|
    ensures r == xs[..|r|]
    ensures |xs| >= n ==> |r| == n
  {
    if |xs| <= n then xs else xs[..n]
  }

  /**
   * `extract_ai_modules`: the numbered list after "List of VA use cases"
   * (`listItems`), else the numbered items of the matching section
   * (`sectionItems`), else the distinct capitalised "... Detection"-style
   * phrases of the document (`phrases`); at most 20 names. The phrases pass
   * through Python's `list(set(...))`, whose order is not defined; the model
   * keeps first occurrences in order.
   */
  function ExtractAiModules(listItems: Option<seq<string>>, sectionItems: Option<seq<string>>, phrases: seq<string>): (r: seq<string>)
    ensures |r| <= MaxModules
    ensures HasListNames(listItems) ==> r == Take(FilterListItems(listItems.value), MaxModules)
    ensures !HasListNames(listItems) && HasListNames(sectionItems) ==>
              r == Take(FilterListItems(sectionItems.value), MaxModules)
    ensures HasListNames(listItems) || HasListNames(sectionItems) ==>
              r != [] && forall i :: 0 <= i < |r| ==> AcceptedModuleName(r[i])
    ensures !HasListNames(listItems) && !HasListNames(sectionItems) ==>
              Distinct(r) && (forall m :: m in r ==> m in phrases)
              && (|r| < MaxModules ==> forall m :: m in phrases ==> m in r)
  {
    var fromList := if listItems.Some? then FilterListItems(listItems.value) else [];
    var fromSection := if fromList == [] && sectionItems.Some? then FilterListItems(sectionItems.value) else [];
    if fromList != [] then Take(fromList, MaxModules)
    else if fromSection != [] then Take(fromSection, MaxModules)
    else Take(Dedup(phrases), MaxModules)
  }

  // ---------------------------------------------------------------- alerts

  /** Matches inside the "alert" (or "notification") answer. */
  datatype AlertSection = AlertSection(email: bool, dashboard: bool, mobileOrSms: bool, telegram: bool)

  const DefaultAlerts := ["Email", "Dashboard"]

  /** The order in which the channels are tested and listed. */
  const AlertChannels := ["Email", "Dashboard", "Mobile", "Telegram"]

  function ChannelFlags(s: AlertSection): seq<bool> {
    [s.email, s.dashboard, s.mobileOrSms, s.telegram]
  }

  /** The flags that select `DefaultAlerts`. */
  const DefaultFlags := [true, true, false, false]

  /** Selecting channels by four flags: in the fixed order, each channel
      present exactly when its flag is set. */
  lemma ChannelSelection(keep: seq<bool>)
    requires |keep| == 4
    ensures var r := Select(AlertChannels, keep);
            InOrderOf(r, AlertChannels) && Distinct(r)
            && ("Email" in r <==> keep[0]) && ("Dashboard" in r <==> keep[1])
            && ("Mobile" in r <==> keep[2]) && ("Telegram" in r <==> keep[3])
  {
    assert Distinct(AlertChannels);
    SelectInOrder(AlertChannels, keep);
    SelectMembership(AlertChannels, keep);
    InOrderOfDistinct(Select(AlertChannels, keep), AlertChannels);
    assert AlertChannels[0] == "Email" && AlertChannels[1] == "Dashboard";
    assert AlertChannels[2] == "Mobile" && AlertChannels[3] == "Telegram";
  }

  lemma DefaultSelection()
    ensures Select(AlertChannels, DefaultFlags) == DefaultAlerts
  {
    var t := Select(AlertChannels[2..], DefaultFlags[2..]);
    assert AlertChannels[2..][1..] == ["Telegram"] && DefaultFlags[2..][1..] == [false];
    assert Select(["Telegram"], [false]) == [];
    assert t == [];
    assert AlertChannels[1..][1..] == AlertChannels[2..] && DefaultFlags[1..][1..] == DefaultFlags[2..];
  }

  /**
   * `extract_alert_methods`: the channels found, in the order Email, Dashboard,
   * Mobile, Telegram, or Email and Dashboard when none is found, whether the
   * answer is missing or only mentions other channels.
   */
  function ExtractAlertMethods(section: Option<AlertSection>): (r: seq<string>)
    ensures r != [] && InOrderOf(r, AlertChannels) && Distinct(r)
    ensures section.None? ==> r == DefaultAlerts
    ensures section.Some? ==>
              var s := section.value;
              var none := !(s.email || s.dashboard || s.mobileOrSms || s.telegram);
              ("Email" in r <==> s.email || none) && ("Dashboard" in r <==> s.dashboard || none)
              && ("Mobile" in r <==> s.mobileOrSms) && ("Telegram" in r <==> s.telegram)
  {
    var found := if section.Some? then Select(AlertChannels, ChannelFlags(section.value)) else [];
    var keep := if found != [] then ChannelFlags(section.value) else DefaultFlags;
    ChannelSelection(keep);
    DefaultSelection();
    Select(AlertChannels, keep)
  }
}
