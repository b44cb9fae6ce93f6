/**
 * `SlideValidator` (template2slide/scripts/subagent2_validate.py): checks a
 * generated slide structure against the template it came from.
 *
 * A slide is the JSON object the mapper wrote, read field by field with
 * `dict.get` and its default; the template is what the parser found in it.
 * Each check appends critical errors or warnings; the structure passes when
 * no critical error was found.
 */
module SlideValidation {
  import opened Wrappers
  import opened Text
  import opened Sequences
  import SlideMapping
  import ModuleExtraction

  // ------------------------------------------------------------ results

  datatype Severity = Critical | Warning

  /** The slides the completeness check looks for. */
  datatype SlideRole = Cover | ProjectRequirement | Scope | Architecture | Timeline

  datatype ModuleField = Purpose | AlertLogic | Preconditions

  /** What an issue reports; its category and message follow from it. */
  datatype IssueKind =
    | SectionMissingInTemplate(section: string)
    | NoSlides
    | SlideMissing(role: SlideRole)
    | ModuleNotInSlides(missingName: string)
    | ModuleFieldEmpty(moduleName: string, field: ModuleField)
    | ModuleTypeEmpty(typeOf: string)
    | RequiredFieldAbsent(name: string)
    | DiagramEmpty
    | DiagramNotMermaid
    | NumberingNotContinuous
    | DuplicateNumber(number: int)
    | ValidationFailed(reason: string)

  datatype Category = SectionIssue | ContentIssue | ModuleIssue | FieldIssue | ArchitectureIssue | FormatIssue | ValidationIssue

  /** The `category` the source attaches to each kind of issue. */
  function CategoryOf(k: IssueKind): Category {
    match k
    case SectionMissingInTemplate(_) => SectionIssue
    case NoSlides => ContentIssue
    case SlideMissing(_) => ContentIssue
    case ModuleNotInSlides(_) => ModuleIssue
    case ModuleFieldEmpty(_, _) => ModuleIssue
    case ModuleTypeEmpty(_) => ModuleIssue
    case RequiredFieldAbsent(_) => FieldIssue
    case DiagramEmpty => ArchitectureIssue
    case DiagramNotMermaid => ArchitectureIssue
    case NumberingNotContinuous => FormatIssue
    case DuplicateNumber(_) => FormatIssue
    case ValidationFailed(_) => ValidationIssue
  }

  datatype Issue = Issue(severity: Severity, kind: IssueKind)

  /** `ValidationResult` */
  datatype ValidationResult = ValidationResult(passed: bool, errors: seq<Issue>, warnings: seq<Issue>)

  /** `has_critical_errors` */
  predicate HasCriticalErrors(r: ValidationResult) {
    exists i :: 0 <= i < |r.errors| && r.errors[i].severity == Critical
  }

  /** `total_issues` */
  function TotalIssues(r: ValidationResult): nat {
    |r.errors| + |r.warnings|
  }

  predicate AllCritical(issues: seq<Issue>) {
    forall i :: 0 <= i < |issues| ==> issues[i].severity == Critical
  }

  predicate AllWarnings(issues: seq<Issue>) {
    forall i :: 0 <= i < |issues| ==> issues[i].severity == Warning
  }

  /** When every error is critical, a result has critical errors exactly when
      it has errors. */
  lemma CriticalIffErrors(r: ValidationResult)
    requires AllCritical(r.errors)
    ensures HasCriticalErrors(r) <==> r.errors != []
  {
    if r.errors != [] {
      assert r.errors[0].severity == Critical;
    }
  }

  // ------------------------------------------------------------- inputs

  /** One slide object; a missing key reads as "" (or 0 for the number, [] for the items). */
  datatype JsonSlide = JsonSlide(
    kind: string,           // `type`
    title: string,
    number: int,            // `slide_number`
    moduleType: string,     // `module_type`
    purpose: string,        // `content.purpose` of a module slide
    alertLogic: string,     // `content.alert_logic`
    preconditions: string,  // `content.preconditions`
    diagramCode: string,    // `diagram.code`
    texts: seq<string>)     // the `text` of each content item

  /** What the template parser found: the section headings, the module names
      read from its module section (see `TemplateModules`), and the project
      requirement text. */
  datatype Template = Template(sections: set<string>, moduleNames: seq<string>, requirementSection: string)

  // ----------------------------------------------- content completeness

  const RequiredSections := [
    "1. COVER PAGE", "2. PROJECT REQUIREMENT STATEMENT", "3. SCOPE OF WORK",
    "4. SYSTEM ARCHITECTURE", "5. SYSTEM REQUIREMENTS",
    "6. IMPLEMENTATION PLAN (TIMELINE)", "7. PROPOSED MODULES & FUNCTIONAL DESCRIPTION"]

  /** One error per required section the template lacks. */
  function SectionIssues(required: seq<string>, present: set<string>): (r: seq<Issue>)
    ensures AllCritical(r) && |r| <= |required|
    ensures forall s :: Issue(Critical, SectionMissingInTemplate(s)) in r <==> s in required && s !in present
    ensures forall i :: 0 <= i < |r| ==> r[i].kind.SectionMissingInTemplate?
    decreases |required|
  {
    if |required| == 0 then []
    else
      var rest := SectionIssues(required[1..], present);
      assert forall s :: s in required <==> s == required[0] || s in required[1..];
      if required[0] in present then rest
      else [Issue(Critical, SectionMissingInTemplate(required[0]))] + rest
  }

  predicate Plays(s: JsonSlide, role: SlideRole) {
    match role
    case Cover => s.kind == "title"
    case ProjectRequirement => s.kind == "content_bullets" && Contains(s.title, "Project Requirement")
    case Scope => s.kind == "two_column" && Contains(s.title, "Scope")
    case Architecture => s.kind == "diagram" && Contains(s.title, "Architecture")
    case Timeline => s.kind == "timeline"
  }

  /** `any(...)` over the slides. */
  predicate Has(slides: seq<JsonSlide>, role: SlideRole) {
    exists i :: 0 <= i < |slides| && Plays(slides[i], role)
  }

  const Roles := [Cover, ProjectRequirement, Scope, Architecture, Timeline]

  /** One error per listed role no slide plays. */
  function RoleIssues(roles: seq<SlideRole>, slides: seq<JsonSlide>): (r: seq<Issue>)
    ensures AllCritical(r)
    ensures forall role :: Issue(Critical, SlideMissing(role)) in r <==> role in roles && !Has(slides, role)
    ensures forall i :: 0 <= i < |r| ==> r[i].kind.SlideMissing?
    decreases |roles|
  {
    if |roles| == 0 then []
    else
      var rest := RoleIssues(roles[1..], slides);
      assert forall role :: role in roles <==> role == roles[0] || role in roles[1..];
      if Has(slides, roles[0]) then rest
      else [Issue(Critical, SlideMissing(roles[0]))] + rest
  }

  lemma EveryRoleListed(role: SlideRole)
    ensures role in Roles
  {
    match role
    case Cover => assert Roles[0] == role;
    case ProjectRequirement => assert Roles[1] == role;
    case Scope => assert Roles[2] == role;
    case Architecture => assert Roles[3] == role;
    case Timeline => assert Roles[4] == role;
  }

  predicate TemplateComplete(present: set<string>) {
    forall k :: 0 <= k < |RequiredSections| ==> RequiredSections[k] in present
  }

  predicate AllRolesPresent(slides: seq<JsonSlide>) {
    forall role :: Has(slides, role)
  }

  lemma SectionIssuesEmpty(present: set<string>)
    ensures SectionIssues(RequiredSections, present) == [] <==> TemplateComplete(present)
  {
    var missing := SectionIssues(RequiredSections, present);
    if missing != [] {
      assert Issue(Critical, SectionMissingInTemplate(missing[0].kind.section)) in missing;
    }
  }

  lemma RoleIssuesMissing(slides: seq<JsonSlide>)
    ensures forall role :: Issue(Critical, SlideMissing(role)) in RoleIssues(Roles, slides) <==> !Has(slides, role)
    ensures RoleIssues(Roles, slides) == [] <==> AllRolesPresent(slides)
  {
    var roles := RoleIssues(Roles, slides);
    forall role ensures role in Roles {
      EveryRoleListed(role);
    }
    if roles != [] {
      assert Issue(Critical, SlideMissing(roles[0].kind.role)) in roles;
    }
  }

  /** Issues of one kind leave out every issue of another kind. */
  lemma SectionIssuesOnly(missing: seq<Issue>)
    requires forall i :: 0 <= i < |missing| ==> missing[i].kind.SectionMissingInTemplate?
    ensures Issue(Critical, NoSlides) !in missing
    ensures forall role :: Issue(Critical, SlideMissing(role)) !in missing
  {
  }

  lemma RoleIssuesOnly(roles: seq<Issue>)
    requires forall i :: 0 <= i < |roles| ==> roles[i].kind.SlideMissing?
    ensures forall i :: 0 <= i < |roles| ==> roles[i].kind != NoSlides
  {
  }

  /**
   * `_validate_content_completeness`: the missing template sections, then
   * either the single "no slides" error (and nothing else) or one error per
   * kind of slide the deck lacks.
   */
  function ContentIssues(t: Template, slides: seq<JsonSlide>): (r: seq<Issue>)
    ensures AllCritical(r)
    ensures Issue(Critical, NoSlides) in r <==> slides == []
    ensures slides != [] ==> forall role :: Issue(Critical, SlideMissing(role)) in r <==> !Has(slides, role)
    ensures r == [] <==> TemplateComplete(t.sections) && slides != [] && AllRolesPresent(slides)
  {
    var missing := SectionIssues(RequiredSections, t.sections);
    SectionIssuesEmpty(t.sections);
    SectionIssuesOnly(missing);
    if slides == [] then missing + [Issue(Critical, NoSlides)]
    else
      var roles := RoleIssues(Roles, slides);
      RoleIssuesMissing(slides);
      RoleIssuesOnly(roles);
      missing + roles
  }

  // ------------------------------------------------- module information

  predicate IsModuleSlide(s: JsonSlide) {
    s.kind == "module_description"
  }

  /** `{m['name'].lower() for m in template_modules if m.get('name')}` */
  function TemplateModuleNames(names: seq<string>): set<string> {
    set i | 0 <= i < |names| && names[i] != "" :: Lower(names[i])
  }

  function ModuleNames(ms: seq<ModuleExtraction.ModuleRecord>): (names: seq<string>)
    ensures |names| == |ms| && forall i :: 0 <= i < |ms| ==> names[i] == ms[i].name
  {
    seq(|ms|, i requires 0 <= i < |ms| => ms[i].name)
  }

  /**
   * `_extract_modules_from_template`: a missing or empty module section
   * (`None`) gives no modules; otherwise the names are those of the mapper's
   * `_extract_modules` as written, so numbered headers give one name each,
   * `### Module` headers only the last one, and a section with neither
   * raises the unbound-`match` error, which escapes `validate`.
   */
  function TemplateModules(section: Option<ModuleExtraction.ModuleSection>): (r: Result<seq<string>, ModuleExtraction.ExtractionError>)
    ensures section.None? ==> r == Ok([])
    ensures section.Some? ==> (r.Err? <==> section.value.numbered == [] && section.value.hashed == [])
    ensures section.Some? && section.value.numbered != [] ==>
              r.Ok? && |r.value| == |section.value.numbered|
              && forall i :: 0 <= i < |r.value| ==> r.value[i] == Strip(section.value.numbered[i].name)
    ensures section.Some? && section.value.numbered == [] && section.value.hashed != [] ==>
              r == Ok([Strip(section.value.hashed[|section.value.hashed| - 1].name)])
  {
    if section.None? then Ok([])
    else
      var sec := section.value;
      var extracted := ModuleExtraction.ExtractModulesAsWritten(sec);
      if extracted.Err? then Err(extracted.error)
      else
        assert sec.numbered != [] ==> extracted.value == ModuleExtraction.FromNumberedAll(sec.numbered);
        assert sec.numbered == [] ==> extracted.value == [ModuleExtraction.FromHeader(sec.hashed[|sec.hashed| - 1])];
        var names := ModuleNames(extracted.value);
        assert sec.numbered == [] ==> names == [names[0]] == [Strip(sec.hashed[|sec.hashed| - 1].name)];
        Ok(names)
  }

  /** The same names with the mapper's extraction corrected: one name per header, never an error. */
  function TemplateModulesCorrected(section: Option<ModuleExtraction.ModuleSection>): (names: seq<string>)
    ensures section.None? ==> names == []
    ensures section.Some? && section.value.numbered == [] && section.value.hashed != [] ==>
              |names| == |section.value.hashed|
              && forall i :: 0 <= i < |names| ==> names[i] == Strip(section.value.hashed[i].name)
    ensures section.Some? && section.value.numbered == [] && section.value.hashed == [] && section.value.bold != [] ==>
              |names| == |section.value.bold|
              && forall i :: 0 <= i < |names| ==> names[i] == Strip(section.value.bold[i].name)
  {
    if section.None? then [] else ModuleNames(ModuleExtraction.ExtractModules(section.value))
  }

  /**
   * As written, a template whose module section has two `### Module` headers
   * is checked only for the second module, while the corrected reading checks
   * both.
   */
  lemma TwoHeadersCheckLastOnly(a: ModuleExtraction.Header, b: ModuleExtraction.Header)
    requires Strip(a.name) != "" && Strip(b.name) != ""
    ensures var sec := Some(ModuleExtraction.ModuleSection([], [a, b], [], []));
      TemplateModules(sec) == Ok([Strip(b.name)])
      && TemplateModuleNames(TemplateModules(sec).value) == {Lower(Strip(b.name))}
      && TemplateModuleNames(TemplateModulesCorrected(sec)) == {Lower(Strip(a.name)), Lower(Strip(b.name))}
  {
    var sec := Some(ModuleExtraction.ModuleSection([], [a, b], [], []));
    var names := TemplateModulesCorrected(sec);
    assert names == [Strip(a.name), Strip(b.name)];
    NamesOfOne(Strip(b.name));
    NamesOfTwo(Strip(a.name), Strip(b.name));
  }

  lemma NamesOfOne(x: string)
    requires x != ""
    ensures TemplateModuleNames([x]) == {Lower(x)}
  {
    assert [x][0] == x;
  }

  lemma NamesOfTwo(x: string, y: string)
    requires x != "" && y != ""
    ensures TemplateModuleNames([x, y]) == {Lower(x), Lower(y)}
  {
    assert [x, y][0] == x && [x, y][1] == y;
  }

  /** `{m['name'].lower() for m in slide_modules if m.get('name')}` */
  function SlideModuleNames(slides: seq<JsonSlide>): set<string> {
    set i | 0 <= i < |slides| && IsModuleSlide(slides[i]) && slides[i].title != "" :: Lower(slides[i].title)
  }

  /** The lower-cased non-empty names that are not in `shown`, in order, repeats kept. */
  function Unshown(names: seq<string>, shown: set<string>): (r: seq<string>)
    ensures forall x :: x in r <==> x in TemplateModuleNames(names) && x !in shown
    decreases |names|
  {
    if |names| == 0 then []
    else
      var rest := Unshown(names[1..], shown);
      assert forall x :: x in TemplateModuleNames(names) <==>
                           (names[0] != "" && x == Lower(names[0])) || x in TemplateModuleNames(names[1..]) by {
        forall x | x in TemplateModuleNames(names)
          ensures (names[0] != "" && x == Lower(names[0])) || x in TemplateModuleNames(names[1..])
        {
          var i :| 0 <= i < |names| && names[i] != "" && Lower(names[i]) == x;
          if i > 0 {
            assert names[1..][i - 1] == names[i];
          }
        }
        forall x | x in TemplateModuleNames(names[1..])
          ensures x in TemplateModuleNames(names)
        {
          var i :| 0 <= i < |names[1..]| && names[1..][i] != "" && Lower(names[1..][i]) == x;
          assert names[i + 1] == names[1..][i];
        }
      }
      if names[0] != "" && Lower(names[0]) !in shown then [Lower(names[0])] + rest else rest
  }

  function NotInSlidesIssues(names: seq<string>): (r: seq<Issue>)
    ensures |r| == |names|
    ensures forall i :: 0 <= i < |r| ==> r[i] == Issue(Critical, ModuleNotInSlides(names[i]))
  {
    if |names| == 0 then [] else [Issue(Critical, ModuleNotInSlides(names[0]))] + NotInSlidesIssues(names[1..])
  }

  /**
   * The first half of `_validate_module_information`: one error for each
   * template module name (lower-cased) that no module slide carries, each
   * name once. The source walks a set, whose order Python leaves open; the
   * model reports names in template order.
   */
  function MissingModuleIssues(t: Template, slides: seq<JsonSlide>): (r: seq<Issue>)
    ensures AllCritical(r)
    ensures forall i, j :: 0 <= i < j < |r| ==> r[i] != r[j]
    ensures forall x :: Issue(Critical, ModuleNotInSlides(x)) in r <==>
                          x in TemplateModuleNames(t.moduleNames) && x !in SlideModuleNames(slides)
    ensures forall i :: 0 <= i < |r| ==> r[i].kind.ModuleNotInSlides?
    ensures r == [] <==> TemplateModuleNames(t.moduleNames) <= SlideModuleNames(slides)
  {
    var names := Dedup(Unshown(t.moduleNames, SlideModuleNames(slides)));
    var r := NotInSlidesIssues(names);
    assert forall x :: Issue(Critical, ModuleNotInSlides(x)) in r <==> x in names by {
      forall x | x in names ensures Issue(Critical, ModuleNotInSlides(x)) in r {
        var i :| 0 <= i < |names| && names[i] == x;
        assert r[i] == Issue(Critical, ModuleNotInSlides(x));
      }
    }
    assert r == [] <==> TemplateModuleNames(t.moduleNames) <= SlideModuleNames(slides) by {
      if r != [] {
        assert Issue(Critical, ModuleNotInSlides(names[0])) in r;
      } else {
        forall x | x in TemplateModuleNames(t.moduleNames) ensures x in SlideModuleNames(slides) {
          assert Issue(Critical, ModuleNotInSlides(x)) !in r;
        }
      }
    }
    r
  }

  function FieldValue(s: JsonSlide, f: ModuleField): string {
    match f
    case Purpose => s.purpose
    case AlertLogic => s.alertLogic
    case Preconditions => s.preconditions
  }

  /** `not value.strip()`: the value is white space only (see `BlankIsStripEmpty`). */
  predicate Blank(s: string) {
    AllSpace(s)
  }

  lemma BlankIsStripEmpty(s: string)
    ensures Blank(s) <==> Strip(s) == ""
  {
    StripEmptyIffAllSpace(s);
  }

  function FieldIndex(f: ModuleField): nat {
    match f
    case Purpose => 0
    case AlertLogic => 1
    case Preconditions => 2
  }

  /** The three possible errors of a module slide, in the order of `required_fields`. */
  function FieldErrors(title: string): (all: seq<Issue>)
    ensures |all| == 3 && Distinct(all)
    ensures forall f :: all[FieldIndex(f)] == Issue(Critical, ModuleFieldEmpty(title, f))
  {
    [Issue(Critical, ModuleFieldEmpty(title, Purpose)),
     Issue(Critical, ModuleFieldEmpty(title, AlertLogic)),
     Issue(Critical, ModuleFieldEmpty(title, Preconditions))]
  }

  lemma FieldSelection(title: string, flags: seq<bool>)
    requires |flags| == 3
    ensures var r := Select(FieldErrors(title), flags);
            AllCritical(r)
            && (forall f :: Issue(Critical, ModuleFieldEmpty(title, f)) in r <==> flags[FieldIndex(f)])
            && (forall i :: 0 <= i < |r| ==> r[i].kind.ModuleFieldEmpty?)
  {
    var all := FieldErrors(title);
    var r := Select(all, flags);
    SelectMembership(all, flags);
    forall i | 0 <= i < |r| ensures r[i].severity == Critical && r[i].kind.ModuleFieldEmpty? {
      assert r[i] in r;
    }
  }

  /** Which of the three required fields are blank. */
  function BlankFlags(s: JsonSlide): (flags: seq<bool>)
    ensures |flags| == 3
    ensures forall f :: flags[FieldIndex(f)] == Blank(FieldValue(s, f))
  {
    var flags := [Blank(s.purpose), Blank(s.alertLogic), Blank(s.preconditions)];
    flags
  }

  /** The module slide's required fields that are blank, as errors, in the
      order purpose, alert logic, preconditions. */
  function EmptyFieldIssues(s: JsonSlide): (r: seq<Issue>)
    ensures AllCritical(r) && |r| <= 3
    ensures forall f :: Issue(Critical, ModuleFieldEmpty(s.title, f)) in r <==> Blank(FieldValue(s, f))
    ensures forall i :: 0 <= i < |r| ==> r[i].kind.ModuleFieldEmpty?
    ensures r == [] <==> FieldsFilled(s)
  {
    var flags := BlankFlags(s);
    FieldSelection(s.title, flags);
    Select(FieldErrors(s.title), flags)
  }

  /** A module slide with no blank required field. */
  predicate FieldsFilled(s: JsonSlide) {
    forall f :: !Blank(FieldValue(s, f))
  }

  /** The errors and warnings one check produces. */
  datatype Findings = Findings(errors: seq<Issue>, warnings: seq<Issue>)

  /** Every module slide has its required fields. */
  predicate ModulesFilled(slides: seq<JsonSlide>)
    decreases |slides|
  {
    |slides| == 0 || ((IsModuleSlide(slides[0]) ==> FieldsFilled(slides[0])) && ModulesFilled(slides[1..]))
  }

  lemma {:induction false} ModulesFilledEverywhere(slides: seq<JsonSlide>)
    ensures ModulesFilled(slides) <==> forall i :: 0 <= i < |slides| && IsModuleSlide(slides[i]) ==> FieldsFilled(slides[i])
    decreases |slides|
  {
    if |slides| > 0 {
      ModulesFilledEverywhere(slides[1..]);
      assert forall i :: 1 <= i < |slides| ==> slides[i] == slides[1..][i - 1];
    }
  }

  /** How many of the module slides have a blank module type. */
  function BlankTypeCount(slides: seq<JsonSlide>): nat
    decreases |slides|
  {
    if |slides| == 0 then 0
    else (if IsModuleSlide(slides[0]) && Blank(slides[0].moduleType) then 1 else 0) + BlankTypeCount(slides[1..])
  }

  /**
   * The per-slide half of `_validate_module_information`: every module slide
   * contributes one error per blank required field and, when its module type
   * is blank, one warning, never an error.
   */
  function ModuleSlideFindings(slides: seq<JsonSlide>): (r: Findings)
    ensures AllCritical(r.errors) && AllWarnings(r.warnings)
    ensures forall i :: 0 <= i < |r.errors| ==> r.errors[i].kind.ModuleFieldEmpty?
    ensures forall i :: 0 <= i < |r.warnings| ==> r.warnings[i].kind.ModuleTypeEmpty?
    ensures |r.warnings| == BlankTypeCount(slides)
    ensures r.errors == [] <==> ModulesFilled(slides)
    decreases |slides|
  {
    if |slides| == 0 then Findings([], [])
    else
      var rest := ModuleSlideFindings(slides[1..]);
      var s := slides[0];
      if !IsModuleSlide(s) then rest
      else
        var errs := EmptyFieldIssues(s);
        var warns := if Blank(s.moduleType) then [Issue(Warning, ModuleTypeEmpty(s.title))] else [];
        FindingsAppend(errs, rest.errors, warns, rest.warnings);
        Findings(errs + rest.errors, warns + rest.warnings)
  }

  lemma FindingsAppend(e1: seq<Issue>, e2: seq<Issue>, w1: seq<Issue>, w2: seq<Issue>)
    requires forall i :: 0 <= i < |e1| ==> e1[i].severity == Critical && e1[i].kind.ModuleFieldEmpty?
    requires forall i :: 0 <= i < |e2| ==> e2[i].severity == Critical && e2[i].kind.ModuleFieldEmpty?
    requires forall i :: 0 <= i < |w1| ==> w1[i].severity == Warning && w1[i].kind.ModuleTypeEmpty?
    requires forall i :: 0 <= i < |w2| ==> w2[i].severity == Warning && w2[i].kind.ModuleTypeEmpty?
    ensures forall i :: 0 <= i < |e1 + e2| ==> (e1 + e2)[i].severity == Critical && (e1 + e2)[i].kind.ModuleFieldEmpty?
    ensures forall i :: 0 <= i < |w1 + w2| ==> (w1 + w2)[i].severity == Warning && (w1 + w2)[i].kind.ModuleTypeEmpty?
  {
  }

  // --------------------------------------------------- field extraction

  /** Index of the first slide playing `role`, or the slide count. */
  function First(slides: seq<JsonSlide>, role: SlideRole): (k: nat)
    ensures k <= |slides|
    ensures k < |slides| ==> Plays(slides[k], role)
    ensures forall i :: 0 <= i < k ==> !Plays(slides[i], role)
    ensures k == |slides| <==> !Has(slides, role)
    decreases |slides|
  {
    if |slides| == 0 then 0
    else if Plays(slides[0], role) then 0
    else
      var k := 1 + First(slides[1..], role);
      assert forall i :: 1 <= i < |slides| ==> slides[i] == slides[1..][i - 1];
      k
  }

  const RequiredFieldNames := ["Project", "Project Owner", "Camera Number"]

  /** The joined, lower-cased text of the first project requirement slide. */
  function RequirementText(s: JsonSlide): string {
    Lower(Join(s.texts, " "))
  }

  /** One error per required field name that does not occur in the text. */
  function AbsentFieldIssues(names: seq<string>, text: string): (r: seq<Issue>)
    ensures AllCritical(r)
    ensures forall n :: Issue(Critical, RequiredFieldAbsent(n)) in r <==> n in names && !Contains(text, Lower(n))
    ensures forall i :: 0 <= i < |r| ==> r[i].kind.RequiredFieldAbsent?
    decreases |names|
  {
    if |names| == 0 then []
    else
      var rest := AbsentFieldIssues(names[1..], text);
      assert forall n :: n in names <==> n == names[0] || n in names[1..];
      if Contains(text, Lower(names[0])) then rest
      else [Issue(Critical, RequiredFieldAbsent(names[0]))] + rest
  }

  /** The fields the check looks for all occur in the first project requirement
      slide, or the check does not run. */
  predicate FieldsFound(t: Template, slides: seq<JsonSlide>) {
    var k := First(slides, ProjectRequirement);
    t.requirementSection != "" && k < |slides| ==>
      forall n :: n in RequiredFieldNames ==> Contains(RequirementText(slides[k]), Lower(n))
  }

  /**
   * `_validate_field_extraction`: nothing when the template has no project
   * requirement section or the deck no project requirement slide; otherwise
   * one error per field name missing (case-insensitively) from the first such
   * slide's joined item texts.
   */
  function FieldIssues(t: Template, slides: seq<JsonSlide>): (r: seq<Issue>)
    ensures AllCritical(r)
    ensures forall i :: 0 <= i < |r| ==> r[i].kind.RequiredFieldAbsent?
    ensures r == [] <==> FieldsFound(t, slides)
  {
    var k := First(slides, ProjectRequirement);
    if t.requirementSection == "" || k == |slides| then []
    else
      var text := RequirementText(slides[k]);
      var r := AbsentFieldIssues(RequiredFieldNames, text);
      assert r != [] ==> Issue(Critical, RequiredFieldAbsent(r[0].kind.name)) in r;
      r
  }

  /** "project" is part of "project owner": the check can report "Project Owner"
      missing while finding "Project", never the other way round. */
  lemma OwnerFoundMeansProjectFound(t: Template, slides: seq<JsonSlide>)
    requires Issue(Critical, RequiredFieldAbsent("Project")) in FieldIssues(t, slides)
    ensures Issue(Critical, RequiredFieldAbsent("Project Owner")) in FieldIssues(t, slides)
  {
    var k := First(slides, ProjectRequirement);
    var text := RequirementText(slides[k]);
    assert "Project" in RequiredFieldNames && "Project Owner" in RequiredFieldNames by {
      assert RequiredFieldNames[0] == "Project" && RequiredFieldNames[1] == "Project Owner";
    }
    assert "Project Owner" == "Project" + " Owner";
    LowerAppend("Project", " Owner");
    if Contains(text, Lower("Project Owner")) {
      ContainsPrefix(text, Lower("Project"), Lower(" Owner"));
    }
  }

  lemma LowerAppend(a: string, b: string)
    ensures Lower(a + b) == Lower(a) + Lower(b)
  {
  }

  lemma ContainsPrefix(s: string, p: string, q: string)
    requires Contains(s, p + q)
    ensures Contains(s, p)
  {
    var i := ContainsWitness(s, p + q);
    assert s[i..i + |p|] == (p + q)[..|p|] == p;
    ContainsAt(s, p, i);
  }

  // -------------------------------------------------------- architecture

  /** The first architecture slide's diagram code is present, if there is one. */
  predicate DiagramPresent(slides: seq<JsonSlide>) {
    var k := First(slides, Architecture);
    k < |slides| ==> !Blank(slides[k].diagramCode)
  }

  predicate LooksLikeMermaid(code: string) {
    StartsWith(code, "graph") || StartsWith(code, "flowchart")
  }

  /**
   * `_validate_architecture`: for the first architecture diagram slide, blank
   * code is an error; code that starts with neither "graph" nor "flowchart"
   * (after stripping) is only a warning.
   */
  function ArchitectureFindings(slides: seq<JsonSlide>): (r: Findings)
    ensures AllCritical(r.errors) && AllWarnings(r.warnings)
    ensures r.errors == [] <==> DiagramPresent(slides)
    ensures r.errors != [] ==> r.errors == [Issue(Critical, DiagramEmpty)] && r.warnings == []
    ensures r.warnings != [] <==>
              Has(slides, Architecture) && DiagramPresent(slides)
              && !LooksLikeMermaid(Strip(slides[First(slides, Architecture)].diagramCode))
    ensures |r.warnings| <= 1
  {
    var k := First(slides, Architecture);
    if k == |slides| then Findings([], [])
    else
      var code := Strip(slides[k].diagramCode);
      BlankIsStripEmpty(slides[k].diagramCode);
      if code == "" then Findings([Issue(Critical, DiagramEmpty)], [])
      else if !LooksLikeMermaid(code) then Findings([], [Issue(Warning, DiagramNotMermaid)])
      else Findings([], [])
  }

  // ------------------------------------------------------- slide numbers

  predicate Sorted(xs: seq<int>) {
    forall i, j :: 0 <= i < j < |xs| ==> xs[i] <= xs[j]
  }

  /** Putting a lower bound in front of a sorted sequence keeps it sorted. */
  lemma ConsSorted(a: int, xs: seq<int>)
    requires Sorted(xs) && forall i :: 0 <= i < |xs| ==> a <= xs[i]
    ensures Sorted([a] + xs)
  {
    assert forall i :: 0 < i < |[a] + xs| ==> ([a] + xs)[i] == xs[i - 1];
  }

  /** A bound on every element of a multiset bounds every element of a sequence holding it. */
  lemma BoundedByContents(rest: seq<int>, lo: int)
    requires forall y :: y in multiset(rest) ==> lo <= y
    ensures forall i :: 0 <= i < |rest| ==> lo <= rest[i]
  {
    forall i | 0 <= i < |rest| ensures lo <= rest[i] {
      assert rest[i] in multiset(rest);
    }
  }

  function Insert(x: int, xs: seq<int>): (r: seq<int>)
    requires Sorted(xs)
    ensures Sorted(r) && multiset(r) == multiset(xs) + multiset{x}
    decreases |xs|
  {
    if |xs| == 0 then [x]
    else if x <= xs[0] then
      ConsSorted(x, xs);
      [x] + xs
    else
      var rest := Insert(x, xs[1..]);
      assert xs == [xs[0]] + xs[1..];
      assert forall y :: y in multiset(rest) ==> xs[0] <= y by {
        forall y | y in multiset(rest) ensures xs[0] <= y {
          if y != x {
            assert y in xs[1..];
          }
        }
      }
      BoundedByContents(rest, xs[0]);
      ConsSorted(xs[0], rest);
      [xs[0]] + rest
  }

  /** `sorted(xs)` */
  function Sort(xs: seq<int>): (r: seq<int>)
    ensures Sorted(r) && multiset(r) == multiset(xs)
    decreases |xs|
  {
    if |xs| == 0 then []
    else
      assert xs == [xs[0]] + xs[1..];
      Insert(xs[0], Sort(xs[1..]))
  }

  /** `list(range(1, n + 1))` */
  function Range(n: nat): (r: seq<int>)
    ensures |r| == n && forall i :: 0 <= i < n ==> r[i] == i + 1
  {
    if n == 0 then [] else Range(n - 1) + [n]
  }

  /** The check's condition: the sorted numbers are 1, 2, ..., n. */
  predicate NumberingContinuous(nums: seq<int>) {
    Sort(nums) == Range(|nums|)
  }

  predicate InRange(xs: seq<int>, n: int) {
    forall i :: 0 <= i < |xs| ==> 1 <= xs[i] <= n
  }

  /** Two sorted sequences with the same elements are equal. */
  lemma {:induction false} SortedUnique(a: seq<int>, b: seq<int>)
    requires Sorted(a) && Sorted(b) && multiset(a) == multiset(b)
    ensures a == b
    decreases |a|
  {
    assert |a| == |multiset(a)| == |multiset(b)| == |b|;
    if |a| > 0 {
      SortedHeadsEqual(a, b);
      TailMultiset(a);
      TailMultiset(b);
      SortedTail(a);
      SortedTail(b);
      SortedUnique(a[1..], b[1..]);
      assert a == [a[0]] + a[1..] && b == [b[0]] + b[1..];
    }
  }

  /** The first element of a sorted sequence is its least. */
  lemma SortedHeadsEqual(a: seq<int>, b: seq<int>)
    requires Sorted(a) && Sorted(b) && multiset(a) == multiset(b) && |a| > 0 && |b| > 0
    ensures a[0] == b[0]
  {
    assert a[0] in multiset(b) && b[0] in multiset(a);
    var j :| 0 <= j < |b| && b[j] == a[0];
    var i :| 0 <= i < |a| && a[i] == b[0];
  }

  lemma TailMultiset(a: seq<int>)
    requires |a| > 0
    ensures multiset(a[1..]) == multiset(a) - multiset{a[0]}
  {
    assert a == [a[0]] + a[1..];
  }

  lemma SortedTail(a: seq<int>)
    requires Sorted(a) && |a| > 0
    ensures Sorted(a[1..])
  {
    assert forall i :: 0 <= i < |a[1..]| ==> a[1..][i] == a[i + 1];
  }

  /** In a duplicate-free sequence every value occurs at most once. */
  lemma {:induction false} DistinctCount(xs: seq<int>, x: int)
    requires Distinct(xs)
    ensures multiset(xs)[x] <= 1
    decreases |xs|
  {
    if |xs| > 0 {
      assert xs == [xs[0]] + xs[1..];
      assert Distinct(xs[1..]) by {
        assert forall i :: 0 <= i < |xs[1..]| ==> xs[1..][i] == xs[i + 1];
      }
      DistinctCount(xs[1..], x);
      if x == xs[0] {
        assert x !in xs[1..] by {
          assert forall i :: 0 <= i < |xs[1..]| ==> xs[1..][i] == xs[i + 1];
        }
      }
    }
  }

  /** A value found at two positions occurs at least twice. */
  lemma RepeatCount(xs: seq<int>, i: nat, j: nat)
    requires i < j < |xs| && xs[i] == xs[j]
    ensures multiset(xs)[xs[i]] >= 2
  {
    assert xs == xs[..j] + [xs[j]] + xs[j + 1..];
    assert xs[..j][i] == xs[i];
    assert xs[i] in multiset(xs[..j]);
  }

  /** Having no repeated value is a property of the multiset. */
  lemma DistinctPermutation(a: seq<int>, b: seq<int>)
    requires multiset(a) == multiset(b) && Distinct(a)
    ensures Distinct(b)
  {
    forall i, j | 0 <= i < j < |b| ensures b[i] != b[j] {
      if b[i] == b[j] {
        RepeatCount(b, i, j);
        DistinctCount(a, b[i]);
      }
    }
  }

  /** So is lying within a range. */
  lemma InRangePermutation(a: seq<int>, b: seq<int>, n: int)
    requires multiset(a) == multiset(b) && InRange(a, n)
    ensures InRange(b, n)
  {
    forall i | 0 <= i < |b| ensures 1 <= b[i] <= n {
      assert b[i] in multiset(a);
    }
  }

  lemma {:induction false} StrictLowerBound(s: seq<int>, i: nat)
    requires Sorted(s) && Distinct(s) && InRange(s, |s|) && i < |s|
    ensures s[i] >= i + 1
    decreases i
  {
    if i > 0 {
      StrictLowerBound(s, i - 1);
    }
  }

  lemma {:induction false} StrictUpperBound(s: seq<int>, i: nat)
    requires Sorted(s) && Distinct(s) && InRange(s, |s|) && i < |s|
    ensures s[i] <= i + 1
    decreases |s| - i
  {
    if i + 1 < |s| {
      StrictUpperBound(s, i + 1);
    }
  }

  /** n distinct sorted values between 1 and n are exactly 1, ..., n. */
  lemma SortedDistinctIsRange(s: seq<int>)
    requires Sorted(s) && Distinct(s) && InRange(s, |s|)
    ensures s == Range(|s|)
  {
    forall i | 0 <= i < |s| ensures s[i] == i + 1 {
      StrictLowerBound(s, i);
      StrictUpperBound(s, i);
    }
  }

  lemma RangeDistinctInRange(n: nat)
    ensures Distinct(Range(n)) && InRange(Range(n), n)
  {
  }

  /** The numbering check passes exactly when the numbers are n distinct values
      between 1 and n, in any order. */
  lemma NumberingCharacterised(nums: seq<int>)
    ensures NumberingContinuous(nums) <==> Distinct(nums) && InRange(nums, |nums|)
  {
    var s := Sort(nums);
    var n := |nums|;
    assert |s| == |multiset(s)| == |multiset(nums)| == n;
    if Distinct(nums) && InRange(nums, n) {
      DistinctPermutation(nums, s);
      InRangePermutation(nums, s, n);
      SortedDistinctIsRange(s);
    }
    if NumberingContinuous(nums) {
      RangeDistinctInRange(n);
      DistinctPermutation(s, nums);
      InRangePermutation(s, nums, n);
    }
  }

  /** The numbers that the duplicate check reports: each occurrence of a value
      after its first. */
  function Duplicates(nums: seq<int>): (r: seq<int>)
    ensures |r| <= |nums|
    decreases |nums|
  {
    if |nums| == 0 then []
    else
      var init := nums[..|nums| - 1];
      var last := nums[|nums| - 1];
      Duplicates(init) + (if last in init then [last] else [])
  }

  function Values(nums: seq<int>): set<int> {
    set x | x in nums
  }

  /** One report per repeated occurrence: the reports and the distinct values
      together account for every slide. */
  lemma {:induction false} DuplicatesCount(nums: seq<int>)
    ensures |Duplicates(nums)| + |Values(nums)| == |nums|
    decreases |nums|
  {
    if |nums| > 0 {
      var init := nums[..|nums| - 1];
      var last := nums[|nums| - 1];
      DuplicatesCount(init);
      assert nums == init + [last];
      assert Values(nums) == Values(init) + {last};
      assert last in init <==> last in Values(init);
      if last !in Values(init) {
        assert |Values(init) + {last}| == |Values(init)| + 1;
      } else {
        assert Values(init) + {last} == Values(init);
      }
    }
  }

  /** Nothing is reported exactly when no number repeats. */
  lemma {:induction false} DuplicatesEmptyIffDistinct(nums: seq<int>)
    ensures Duplicates(nums) == [] <==> Distinct(nums)
    decreases |nums|
  {
    if |nums| > 0 {
      var init := nums[..|nums| - 1];
      var last := nums[|nums| - 1];
      DuplicatesEmptyIffDistinct(init);
      assert forall i :: 0 <= i < |init| ==> init[i] == nums[i];
      if Distinct(nums) {
        assert Distinct(init);
        assert last !in init;
      }
      if Distinct(init) && last !in init {
        forall i, j | 0 <= i < j < |nums| ensures nums[i] != nums[j] {
          if j < |nums| - 1 {
            assert nums[i] == init[i] && nums[j] == init[j];
          } else {
            assert nums[i] == init[i];
          }
        }
      }
    }
  }

  function DuplicateIssues(nums: seq<int>): (r: seq<Issue>)
    ensures |r| == |nums|
    ensures forall i :: 0 <= i < |r| ==> r[i] == Issue(Critical, DuplicateNumber(nums[i]))
  {
    if |nums| == 0 then [] else [Issue(Critical, DuplicateNumber(nums[0]))] + DuplicateIssues(nums[1..])
  }

  function Numbers(slides: seq<JsonSlide>): (nums: seq<int>)
    ensures |nums| == |slides| && forall i :: 0 <= i < |slides| ==> nums[i] == slides[i].number
  {
    if |slides| == 0 then [] else [slides[0].number] + Numbers(slides[1..])
  }

  /** A continuous numbering repeats nothing. */
  lemma ContinuousHasNoDuplicates(nums: seq<int>)
    ensures NumberingContinuous(nums) ==> Duplicates(nums) == []
  {
    NumberingCharacterised(nums);
    DuplicatesEmptyIffDistinct(nums);
  }

  lemma DuplicateIssuesOnly(dups: seq<Issue>)
    requires forall i :: 0 <= i < |dups| ==> dups[i].severity == Critical && dups[i].kind.DuplicateNumber?
    ensures Issue(Critical, NumberingNotContinuous) !in dups
  {
  }

  /**
   * `_validate_format_consistency`: one error when the sorted numbers are not
   * 1..n, then one error per repeated occurrence of a number.
   */
  function FormatIssues(slides: seq<JsonSlide>): (r: seq<Issue>)
    ensures AllCritical(r)
    ensures Issue(Critical, NumberingNotContinuous) in r <==> !NumberingContinuous(Numbers(slides))
    ensures r == [] <==> NumberingContinuous(Numbers(slides))
    ensures forall i :: 0 <= i < |r| ==> r[i].kind.NumberingNotContinuous? || r[i].kind.DuplicateNumber?
  {
    var nums := Numbers(slides);
    var dups := DuplicateIssues(Duplicates(nums));
    ContinuousHasNoDuplicates(nums);
    DuplicateIssuesOnly(dups);
    if NumberingContinuous(nums) then dups
    else [Issue(Critical, NumberingNotContinuous)] + dups
  }

  /** One report per repeated slide number: together with the distinct
      numbers they account for every slide. */
  lemma DuplicateReportCount(slides: seq<JsonSlide>)
    ensures var nums := Numbers(slides);
            |FormatIssues(slides)| == (if NumberingContinuous(nums) then 0 else 1) + |nums| - |Values(nums)|
  {
    DuplicatesCount(Numbers(slides));
  }

  // ------------------------------------------------------------ validate

  /** Every condition the validator checks, stated on its own. */
  predicate Acceptable(t: Template, slides: seq<JsonSlide>) {
    TemplateComplete(t.sections) && slides != [] && AllRolesPresent(slides)
    && TemplateModuleNames(t.moduleNames) <= SlideModuleNames(slides)
    && (forall i :: 0 <= i < |slides| && IsModuleSlide(slides[i]) ==> FieldsFilled(slides[i]))
    && FieldsFound(t, slides)
    && DiagramPresent(slides)
    && NumberingContinuous(Numbers(slides))
  }

  lemma AllCriticalAppend(a: seq<Issue>, b: seq<Issue>)
    requires AllCritical(a) && AllCritical(b)
    ensures AllCritical(a + b)
  {
  }

  lemma AllWarningsAppend(a: seq<Issue>, b: seq<Issue>)
    requires AllWarnings(a) && AllWarnings(b)
    ensures AllWarnings(a + b)
  {
  }

  /** The errors of all checks, in the order `validate` runs them. */
  function Errors(t: Template, slides: seq<JsonSlide>): (errors: seq<Issue>)
    ensures AllCritical(errors)
    ensures errors == [] <==> Acceptable(t, slides)
  {
    var content := ContentIssues(t, slides);
    var missing := MissingModuleIssues(t, slides);
    var fields := ModuleSlideFindings(slides).errors;
    var found := FieldIssues(t, slides);
    var diagram := ArchitectureFindings(slides).errors;
    var format := FormatIssues(slides);
    ModulesFilledEverywhere(slides);
    AllCriticalAppend(content, missing);
    AllCriticalAppend(content + missing, fields);
    AllCriticalAppend(content + missing + fields, found);
    AllCriticalAppend(content + missing + fields + found, diagram);
    AllCriticalAppend(content + missing + fields + found + diagram, format);
    content + missing + fields + found + diagram + format
  }

  /**
   * `SlideValidator.validate`: all checks in order; the structure passes
   * exactly when no critical error was found. Every error the checks add is
   * critical, so passing means there are no errors at all, which happens
   * exactly when every checked condition holds.
   */
  function Validate(t: Template, slides: seq<JsonSlide>): (r: ValidationResult)
    ensures AllCritical(r.errors) && AllWarnings(r.warnings)
    ensures r.passed <==> !HasCriticalErrors(r)
    ensures r.passed <==> r.errors == []
    ensures r.passed <==> Acceptable(t, slides)
    ensures |r.warnings| == BlankTypeCount(slides) + |ArchitectureFindings(slides).warnings|
  {
    var errors := Errors(t, slides);
    var moduleWarnings := ModuleSlideFindings(slides).warnings;
    var diagramWarnings := ArchitectureFindings(slides).warnings;
    AllWarningsAppend(moduleWarnings, diagramWarnings);
    var warnings := moduleWarnings + diagramWarnings;
    var r := ValidationResult(true, errors, warnings);
    CriticalIffErrors(r);
    ValidationResult(!HasCriticalErrors(r), errors, warnings)
  }

  /**
   * `validate` on a template whose module names are read from its module
   * section: the error of an as-written extraction escapes, otherwise the
   * result is `Validate` on the names found.
   */
  function ValidateSection(sections: set<string>, modules: Option<ModuleExtraction.ModuleSection>,
                           requirement: string, slides: seq<JsonSlide>): (r: Result<ValidationResult, ModuleExtraction.ExtractionError>)
    ensures r.Err? <==> modules.Some? && modules.value.numbered == [] && modules.value.hashed == []
    ensures r.Ok? ==> (r.value.passed <==> Acceptable(Template(sections, TemplateModules(modules).value, requirement), slides))
    ensures modules.None? ==> r == Ok(Validate(Template(sections, [], requirement), slides))
  {
    var names := TemplateModules(modules);
    if names.Err? then Err(names.error) else Ok(Validate(Template(sections, names.value, requirement), slides))
  }

  // ------------------------------------------- the mapper's own output

  /** The JSON object `SlideMapper` writes for a slide. */
  function Render(s: SlideMapping.Slide): JsonSlide {
    match s.body
    case TitleSlide(title, _) => JsonSlide("title", title, s.number, "", "", "", "", "", [])
    case ContentBullets(title, content) => JsonSlide("content_bullets", title, s.number, "", "", "", "", "", BulletTexts(content))
    case TwoColumn(title, _, _) => JsonSlide("two_column", title, s.number, "", "", "", "", "", [])
    case DiagramSlide(title, code, _) => JsonSlide("diagram", title, s.number, "", "", "", "", code, [])
    case TimelineSlide(title, _) => JsonSlide("timeline", title, s.number, "", "", "", "", "", [])
    case ModuleDescription(title, moduleType, fields, _, _) =>
      JsonSlide("module_description", title, s.number, moduleType, fields.purpose, fields.alertLogic, fields.preconditions, "", [])
  }

  function BulletTexts(bs: seq<SlideMapping.Bullet>): (r: seq<string>)
    ensures |r| == |bs|
  {
    if |bs| == 0 then [] else [bs[0].text] + BulletTexts(bs[1..])
  }

  function RenderAll(slides: seq<SlideMapping.Slide>): (r: seq<JsonSlide>)
    ensures |r| == |slides| && forall i :: 0 <= i < |slides| ==> r[i] == Render(slides[i])
  {
    if |slides| == 0 then [] else [Render(slides[0])] + RenderAll(slides[1..])
  }

  /** The structure the mapper returns never fails the format checks, and its
      cover slide is always found. */
  lemma MappedStructureWellFormatted(s: SlideMapping.SlideStructure)
    requires SlideMapping.Consistent(s)
    ensures FormatIssues(RenderAll(s.slides)) == []
    ensures Has(RenderAll(s.slides), Cover)
  {
    var json := RenderAll(s.slides);
    var nums := Numbers(json);
    assert nums == Range(|nums|);
    SortedUnique(Sort(nums), nums);
    assert Plays(json[0], Cover);
  }
}
