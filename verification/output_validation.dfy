/**
 * The format checks of dealtransfer2template/scripts/validate_output.py: a
 * generated proposal template, its reasoning file and its checklist are each
 * checked for errors and warnings, and the run fails when any error was found.
 *
 * The regular-expression searches are taken as already evaluated: a scan
 * record holds what each search found. The `##` sections are given as heading
 * and body; the removal of horizontal rules inside a body is modelled line by
 * line.
 */
module OutputValidation {
  import opened Wrappers
  import opened Text
  import opened Sequences

  // ------------------------------------------------------ placeholder ids

  predicate IsIdChar(c: char) {
    'A' <= c <= 'Z' || c == '_'
  }

  /** `[A-Z_]+\d+` matches `s[..end]`, split after `k` characters. */
  predicate IdMatchAt(s: string, k: nat, end: nat) {
    1 <= k < end <= |s|
    && (forall i :: 0 <= i < k ==> IsIdChar(s[i]))
    && (forall i :: k <= i < end ==> IsDigit(s[i]))
  }

  /** Length of the run of `[A-Z_]` characters at the front. */
  function LeadingIdChars(s: string): (k: nat)
    ensures k <= |s|
    ensures forall i :: 0 <= i < k ==> IsIdChar(s[i])
    ensures k < |s| ==> !IsIdChar(s[k])
    decreases |s|
  {
    if |s| > 0 && IsIdChar(s[0]) then 1 + LeadingIdChars(s[1..]) else 0
  }

  /** The whole of `s` has the form `[A-Z_]+\d+`: what the capture group holds. */
  predicate IdForm(s: string) {
    var k := LeadingIdChars(s);
    1 <= k < |s| && forall i :: k <= i < |s| ==> IsDigit(s[i])
  }

  /** An id captured by `\[([A-Z_]+\d+)\]`. */
  type PlaceholderId = s: string | IdForm(s) witness "A0"

  /** A match can only split after the leading run of `[A-Z_]`, since digits are not in it. */
  lemma IdMatchSplit(s: string, k: nat, end: nat)
    requires IdMatchAt(s, k, end)
    ensures k == LeadingIdChars(s)
  {
    var atLead := if LeadingIdChars(s) < |s| then s[LeadingIdChars(s)] else 'a';
    var atSplit := s[k];
  }

  /** The greedy definition agrees with the regular expression. */
  lemma IdFormMatches(s: string)
    ensures IdForm(s) <==> exists k: nat :: IdMatchAt(s, k, |s|)
  {
    if exists k: nat :: IdMatchAt(s, k, |s|) {
      var k: nat :| IdMatchAt(s, k, |s|);
      IdMatchSplit(s, k, |s|);
    }
    if IdForm(s) {
      assert IdMatchAt(s, LeadingIdChars(s), |s|);
    }
  }

  /** `re.match(r'[A-Z_]+\d+', s)`: the id run is followed by at least one digit. */
  predicate IdPrefixMatches(s: string) {
    var k := LeadingIdChars(s);
    1 <= k < |s| && IsDigit(s[k])
  }

  /** The prefix check accepts exactly the strings some prefix of which matches. */
  lemma IdPrefixMatchesExactly(s: string)
    ensures IdPrefixMatches(s) <==> exists k: nat, end: nat :: IdMatchAt(s, k, end)
  {
    if exists k: nat, end: nat :: IdMatchAt(s, k, end) {
      var k: nat, end: nat :| IdMatchAt(s, k, end);
      IdMatchSplit(s, k, end);
    }
    if IdPrefixMatches(s) {
      assert IdMatchAt(s, LeadingIdChars(s), LeadingIdChars(s) + 1);
    }
  }

  /** Every captured id passes the prefix check, so the "invalid id" branch is dead. */
  lemma CapturedIdAccepted(id: PlaceholderId)
    ensures IdPrefixMatches(id)
  {
  }

  // ------------------------------------------------------------ messages

  datatype ReasoningPattern = BasedOn | Logic | CalculatedAs | ExtractedFrom | SourceLabel | FromKb

  const ReasoningPatterns := [BasedOn, Logic, CalculatedAs, ExtractedFrom, SourceLabel, FromKb]

  datatype Error =
    | SourceReferences
    | ReasoningText(pattern: ReasoningPattern)
    | EmptyValue(placeholder: string)
    | InvalidPlaceholderId(badId: string)
    | ChecklistColumnsMissing

  datatype Warning =
    | NoPlaceholders
    | EmptySections(count: nat, shown: seq<string>)
    | NoSourceReferences
    | NoTemplateContentReference
    | NoChecklistIds

  datatype Report = Report(errors: seq<Error>, warnings: seq<Warning>)

  // ------------------------------------------------------------ template

  /** One `findall` match: the text before the bracket and the id inside it. */
  datatype Placeholder = Placeholder(valuePart: string, id: PlaceholderId)

  /** A `##` heading and the text from the end of its line to the next heading. */
  datatype Section = Section(heading: string, body: string)

  /** Which of the six reasoning patterns occur (case-insensitively). */
  datatype ReasoningHits = ReasoningHits(
    basedOn: bool, logic: bool, calculatedAs: bool, extractedFrom: bool, sourceLabel: bool, fromKb: bool)

  function HitFlags(h: ReasoningHits): (flags: seq<bool>)
    ensures |flags| == |ReasoningPatterns|
  {
    [h.basedOn, h.logic, h.calculatedAs, h.extractedFrom, h.sourceLabel, h.fromKb]
  }

  /** What the searches over a template found. */
  datatype TemplateScan = TemplateScan(
    sourceReference: bool,   // `S[12]\s*-\s*["']`
    reasoning: ReasoningHits,
    placeholders: seq<Placeholder>,
    sections: seq<Section>)

  /** Lines 31-34: the patterns are tried in order and the first match ends the search. */
  function ReasoningErrors(h: ReasoningHits): (r: seq<Error>)
    ensures |r| <= 1
    ensures r != [] <==> true in HitFlags(h)
    ensures r != [] ==> exists k :: 0 <= k < |ReasoningPatterns| && HitFlags(h)[k]
                          && r[0] == ReasoningText(ReasoningPatterns[k])
                          && forall j :: 0 <= j < k ==> !HitFlags(h)[j]
  {
    var flags := HitFlags(h);
    var k := IndexOf(flags, true);
    if k < |flags| then [ReasoningText(ReasoningPatterns[k])] else []
  }

  /** Lines 46-52: per placeholder, an error for a blank value and one for an
      id the prefix check rejects. */
  function PlaceholderErrors(ps: seq<Placeholder>): (r: seq<Error>)
    ensures forall e :: e in r ==> e.EmptyValue?
    ensures forall id :: EmptyValue(id) in r <==> exists i :: 0 <= i < |ps| && ps[i].id == id && AllSpace(ps[i].valuePart)
    decreases |ps|
  {
    if |ps| == 0 then []
    else
      var p := ps[0];
      var rest := PlaceholderErrors(ps[1..]);
      var blank := if AllSpace(p.valuePart) then [EmptyValue(p.id)] else [];
      CapturedIdAccepted(p.id);
      var bad := if !IdPrefixMatches(p.id) then [InvalidPlaceholderId(p.id)] else [];
      assert bad == [];
      assert forall i :: 1 <= i < |ps| ==> ps[i] == ps[1..][i - 1];
      blank + bad + rest
  }

  /** The number of blank-valued placeholders: one error each. */
  function BlankValueCount(ps: seq<Placeholder>): nat
    decreases |ps|
  {
    if |ps| == 0 then 0 else (if AllSpace(ps[0].valuePart) then 1 else 0) + BlankValueCount(ps[1..])
  }

  lemma {:induction false} PlaceholderErrorCount(ps: seq<Placeholder>)
    ensures |PlaceholderErrors(ps)| == BlankValueCount(ps)
    decreases |ps|
  {
    if |ps| > 0 {
      PlaceholderErrorCount(ps[1..]);
      CapturedIdAccepted(ps[0].id);
    }
  }

  /** Length of the run of '-' at the front. */
  function LeadingDashes(s: string): (k: nat)
    ensures k <= |s|
    ensures forall i :: 0 <= i < k ==> s[i] == '-'
    ensures k < |s| ==> s[k] != '-'
    decreases |s|
  {
    if |s| > 0 && s[0] == '-' then 1 + LeadingDashes(s[1..]) else 0
  }

  /** A line `^---+?\s*$` removes: three or more dashes, then only white space. */
  predicate RuleLine(line: string) {
    var d := LeadingDashes(line);
    d >= 3 && AllSpace(line[d..])
  }

  /** The lazy `---+?` may stop after any dash: a line is a rule exactly when
      some split into three or more dashes and white space exists. */
  lemma RuleLineAnySplit(line: string)
    ensures RuleLine(line) <==>
              exists d :: 3 <= d <= |line| && (forall i :: 0 <= i < d ==> line[i] == '-') && AllSpace(line[d..])
  {
    var lead := LeadingDashes(line);
    if exists d :: 3 <= d <= |line| && (forall i :: 0 <= i < d ==> line[i] == '-') && AllSpace(line[d..]) {
      var d :| 3 <= d <= |line| && (forall i :: 0 <= i < d ==> line[i] == '-') && AllSpace(line[d..]);
      assert lead >= d;
      forall i | 0 <= i < |line| - lead ensures IsSpace(line[lead..][i]) {
        assert line[lead..][i] == line[d..][i + lead - d];
      }
    }
  }

  /** A body line that leaves nothing after the rules are removed and the text stripped. */
  predicate BlankOrRule(line: string) {
    AllSpace(line) || RuleLine(line)
  }

  /** Lines 70-73: a section is empty when every line of its body is blank or a rule. */
  predicate SectionEmpty(body: string) {
    var lines := Split(body, '\n');
    forall k :: 0 <= k < |lines| ==> BlankOrRule(lines[k])
  }

  /** Built from lines: the body is empty exactly when each of its lines is blank or a rule. */
  lemma SectionOfLines(lines: seq<string>)
    requires |lines| >= 1 && forall k :: 0 <= k < |lines| ==> '\n' !in lines[k]
    ensures SectionEmpty(Join(lines, "\n")) <==> forall k :: 0 <= k < |lines| ==> BlankOrRule(lines[k])
  {
    SplitJoin(lines, '\n');
  }

  /** The headings of the empty sections, in order. */
  function EmptyHeadings(sections: seq<Section>): (r: seq<string>)
    ensures |r| <= |sections|
    ensures forall h :: h in r <==> exists i :: 0 <= i < |sections| && sections[i].heading == h && SectionEmpty(sections[i].body)
    decreases |sections|
  {
    if |sections| == 0 then []
    else
      var rest := EmptyHeadings(sections[1..]);
      assert forall i :: 1 <= i < |sections| ==> sections[i] == sections[1..][i - 1];
      if SectionEmpty(sections[0].body) then [sections[0].heading] + rest else rest
  }

  function Min(a: nat, b: nat): nat {
    if a <= b then a else b
  }

  /** Line 75-76: one warning counting every empty section and naming the first three. */
  function SectionWarnings(sections: seq<Section>): (r: seq<Warning>)
    ensures |r| <= 1
    ensures r != [] <==> exists i :: 0 <= i < |sections| && SectionEmpty(sections[i].body)
    ensures r != [] ==> r[0].EmptySections? && r[0].count == |EmptyHeadings(sections)|
                        && |r[0].shown| == Min(3, r[0].count)
                        && r[0].shown == EmptyHeadings(sections)[..|r[0].shown|]
  {
    var empty := EmptyHeadings(sections);
    if empty == [] then
      assert forall i :: 0 <= i < |sections| ==> !SectionEmpty(sections[i].body) by {
        forall i | 0 <= i < |sections| ensures !SectionEmpty(sections[i].body) {
          assert sections[i].heading !in empty;
        }
      }
      []
    else
      assert empty[0] in empty;
      [EmptySections(|empty|, empty[..Min(3, |empty|)])]
  }

  /** At most one reasoning error in a list of errors. */
  predicate OneReasoningAtMost(errors: seq<Error>) {
    forall i, j :: 0 <= i < j < |errors| && errors[i].ReasoningText? ==> !errors[j].ReasoningText?
  }

  predicate HasReasoningError(errors: seq<Error>) {
    exists i :: 0 <= i < |errors| && errors[i].ReasoningText?
  }

  /** How the three groups of template errors combine. */
  lemma TemplateErrorParts(source: seq<Error>, reasoning: seq<Error>, placeholders: seq<Error>)
    requires forall e :: e in source ==> e == SourceReferences
    requires |reasoning| <= 1 && forall e :: e in reasoning ==> e.ReasoningText?
    requires forall e :: e in placeholders ==> e.EmptyValue?
    ensures SourceReferences in source + reasoning + placeholders <==> source != []
    ensures HasReasoningError(source + reasoning + placeholders) <==> reasoning != []
    ensures OneReasoningAtMost(source + reasoning + placeholders)
    ensures forall id :: EmptyValue(id) in source + reasoning + placeholders <==> EmptyValue(id) in placeholders
    ensures forall e :: e in source + reasoning + placeholders ==> e.SourceReferences? || e.ReasoningText? || e.EmptyValue?
  {
    var all := source + reasoning + placeholders;
    assert SourceReferences !in reasoning && SourceReferences !in placeholders;
    if source != [] {
      assert source[0] in source;
      assert all[0] == source[0];
    } else {
      assert all == reasoning + placeholders;
    }
    if reasoning != [] {
      assert all[|source|] == reasoning[0];
    }
    if HasReasoningError(all) {
      var i :| 0 <= i < |all| && all[i].ReasoningText?;
      assert all[i] in all;
    }
    assert forall k :: 0 <= k < |source| ==> all[k] == source[k] && source[k] in source;
    assert forall k :: |source| + |reasoning| <= k < |all| ==>
      all[k] == placeholders[k - |source| - |reasoning|] && all[k] in placeholders;
  }

  /** Lines 19-52: the template's errors, one group per check. */
  function TemplateErrors(scan: TemplateScan): (errors: seq<Error>)
    ensures SourceReferences in errors <==> scan.sourceReference
    ensures HasReasoningError(errors) <==> true in HitFlags(scan.reasoning)
    ensures OneReasoningAtMost(errors)
    ensures forall id :: EmptyValue(id) in errors <==>
              exists i :: 0 <= i < |scan.placeholders| && scan.placeholders[i].id == id && AllSpace(scan.placeholders[i].valuePart)
    ensures forall e :: e in errors ==> !e.InvalidPlaceholderId? && !e.ChecklistColumnsMissing?
    ensures errors == [] <==> !scan.sourceReference && true !in HitFlags(scan.reasoning) && BlankValueCount(scan.placeholders) == 0
  {
    var source := if scan.sourceReference then [SourceReferences] else [];
    var reasoning := ReasoningErrors(scan.reasoning);
    var placeholderErrors := PlaceholderErrors(scan.placeholders);
    PlaceholderErrorCount(scan.placeholders);
    TemplateErrorParts(source, reasoning, placeholderErrors);
    source + reasoning + placeholderErrors
  }

  /** Lines 42-43 and 58-76: the template's warnings. */
  function TemplateWarnings(scan: TemplateScan): (warnings: seq<Warning>)
    ensures NoPlaceholders in warnings <==> scan.placeholders == []
    ensures (exists i :: 0 <= i < |warnings| && warnings[i].EmptySections?) <==>
              exists i :: 0 <= i < |scan.sections| && SectionEmpty(scan.sections[i].body)
    ensures |warnings| <= 2
  {
    var noPlaceholders := if scan.placeholders == [] then [NoPlaceholders] else [];
    var sectionWarnings := SectionWarnings(scan.sections);
    assert NoPlaceholders !in sectionWarnings;
    var warnings := noPlaceholders + sectionWarnings;
    assert sectionWarnings != [] ==> warnings[|noPlaceholders|] == sectionWarnings[0];
    warnings
  }

  /** `validate_template`: its errors and warnings are those of `TemplateErrors`
      and `TemplateWarnings`. */
  function ValidateTemplate(scan: TemplateScan): Report {
    Report(TemplateErrors(scan), TemplateWarnings(scan))
  }

  // ------------------------------------------------ reasoning and checklist

  /** What the searches over a reasoning file found. */
  datatype ReasoningScan = ReasoningScan(sourceReference: bool, templateContentReference: bool)

  /** `validate_reasoning`: only ever warnings. */
  function ValidateReasoning(scan: ReasoningScan): (r: Report)
    ensures r.errors == []
    ensures NoSourceReferences in r.warnings <==> !scan.sourceReference
    ensures NoTemplateContentReference in r.warnings <==> !scan.templateContentReference
    ensures |r.warnings| <= 2
  {
    var a := if scan.sourceReference then [] else [NoSourceReferences];
    var b := if scan.templateContentReference then [] else [NoTemplateContentReference];
    Report([], a + b)
  }

  /** A checklist: its text and the ids `\[([A-Z_]+\d+)\]` found in it. */
  datatype ChecklistScan = ChecklistScan(content: string, ids: seq<PlaceholderId>)

  /** `validate_checklist` */
  function ValidateChecklist(scan: ChecklistScan): (r: Report)
    ensures r.errors != [] <==> !Contains(scan.content, "| ID |") || !Contains(scan.content, "| Section |")
    ensures r.errors != [] ==> r.errors == [ChecklistColumnsMissing]
    ensures r.warnings != [] <==> scan.ids == []
    ensures NoPlaceholders !in r.warnings
  {
    var columns := if !Contains(scan.content, "| ID |") || !Contains(scan.content, "| Section |") then [ChecklistColumnsMissing] else [];
    var ids := if scan.ids == [] then [NoChecklistIds] else [];
    Report(columns, ids)
  }

  // ---------------------------------------------------------------- main

  /** The files given on the command line, each `None` when absent or not
      found (`template` is always named; it may not exist). */
  datatype Inputs = Inputs(template: Option<TemplateScan>, reasoning: Option<ReasoningScan>, checklist: Option<ChecklistScan>)

  function ErrorsOf<T>(scan: Option<T>, validate: T -> Report): seq<Error> {
    if scan.Some? then validate(scan.value).errors else []
  }

  function WarningsOf<T>(scan: Option<T>, validate: T -> Report): seq<Warning> {
    if scan.Some? then validate(scan.value).warnings else []
  }

  /** `main`'s collected errors and warnings and its exit status. */
  datatype Run = Run(errors: seq<Error>, warnings: seq<Warning>, exitCode: int)

  function Main(inputs: Inputs): (r: Run)
    ensures r.exitCode == 1 <==> r.errors != []
    ensures r.exitCode == 0 || r.exitCode == 1
    ensures r.exitCode == 1 <==>
              (inputs.template.Some? && ValidateTemplate(inputs.template.value).errors != [])
              || (inputs.checklist.Some? && ValidateChecklist(inputs.checklist.value).errors != [])
    ensures inputs.template.None? && inputs.checklist.None? ==> r.exitCode == 0
  {
    var errors := ErrorsOf(inputs.template, ValidateTemplate) + ErrorsOf(inputs.reasoning, ValidateReasoning)
                  + ErrorsOf(inputs.checklist, ValidateChecklist);
    var warnings := WarningsOf(inputs.template, ValidateTemplate) + WarningsOf(inputs.reasoning, ValidateReasoning)
                    + WarningsOf(inputs.checklist, ValidateChecklist);
    Run(errors, warnings, if errors != [] then 1 else 0)
  }
}
