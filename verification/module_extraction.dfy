/**
 * Module records read from the "PROPOSED MODULES" section of a proposal
 * (`SlideMapper._extract_modules` and `_extract_module_fields`).
 *
 * The regular expressions that find module headers and field markers are not
 * modelled: a section arrives already cut into headers, and a module body
 * arrives as a list of stripped lines, each already recognised either as the
 * start of a `**Field:** value` entry or as plain text.
 */
module ModuleExtraction {
  import opened Wrappers
  import opened Text
  import opened Sequences

  /** One module as the mapper stores it (a dict with these nine keys). */
  datatype ModuleRecord = ModuleRecord(
    name: string,
    moduleType: string,
    purpose: string,
    alertLogic: string,
    preconditions: string,
    detectionCriteria: string,
    dataRequirements: string,
    imageUrl: string,
    videoUrl: string)

  /** The eight fields `_extract_module_fields` returns. */
  datatype ModuleFields = ModuleFields(
    moduleType: string,
    purpose: string,
    alertLogic: string,
    preconditions: string,
    detectionCriteria: string,
    dataRequirements: string,
    imageUrl: string,
    videoUrl: string)

  /** A stripped body line: either a field marker (name and text after the colon)
      or anything else. */
  datatype FieldLine = FieldStart(fieldName: string, initial: string) | TextLine(text: string)

  /** A module body: the `**Module Type:**` capture, if any, and its lines. */
  datatype ModuleBody = ModuleBody(typeMatch: Option<string>, lines: seq<FieldLine>)

  /** Which record slot a field name feeds, by the first matching keyword test. */
  datatype FieldKind = PurposeField | AlertLogicField | PreconditionsField | DetectionField
                     | ImageUrlField | VideoUrlField | DataRequirementsField | IgnoredField

  function ClassifyField(name: string): (k: FieldKind)
    ensures k == PurposeField <==>
      var f := Lower(name); Contains(f, "purpose description") || (Contains(f, "purpose") && Contains(f, "description")) || f == "purpose"
    ensures k == ImageUrlField ==> Contains(Lower(name), "image url")
    ensures k == VideoUrlField ==> Contains(Lower(name), "video url")
  {
    var f := Lower(name);
    if Contains(f, "purpose description") || (Contains(f, "purpose") && Contains(f, "description")) || f == "purpose" then PurposeField
    else if Contains(f, "alert trigger logic") || Contains(f, "alert logic") then AlertLogicField
    else if Contains(f, "preconditions") then PreconditionsField
    else if Contains(f, "detection criteria") then DetectionField
    else if Contains(f, "image url") then ImageUrlField
    else if Contains(f, "video url") then VideoUrlField
    else if Contains(f, "data requirements") || Contains(f, "client data requirements") then DataRequirementsField
    else IgnoredField
  }

  /** `re.sub(r'\s+', ' ', s)`: every run of white space becomes one blank. */
  function CollapseSpace(s: string): (r: string)
    ensures '\n' !in r
    ensures |r| <= |s|
    decreases |s|
  {
    if |s| == 0 then ""
    else if IsSpace(s[0]) then " " + CollapseSpace(TrimStart(s[1..]))
    else [s[0]] + CollapseSpace(s[1..])
  }

  /**
   * The value of a field: its lines joined by newlines, white space collapsed,
   * bold markers removed, stripped after each step. The source also removes a
   * trailing `\n---` separator; that pattern starts with a newline and
   * `CollapseSpace` leaves none, so the substitution never changes the value
   * and is not written here.
   */
  function CleanValue(parts: seq<string>): (v: string)
    ensures '\n' !in v
    ensures NoDoubleStar(v)
    ensures |v| > 0 ==> !IsSpace(v[0]) && !IsSpace(v[|v| - 1])
  {
    var collapsed := Strip(CollapseSpace(Strip(Join(parts, "\n"))));
    StripKeepsNoNewline(collapsed);
    var unbold := RemoveBold(collapsed);
    RemoveBoldKeepsNoNewline(collapsed);
    StripKeepsNoNewline(unbold);
    StripKeepsNoDoubleStar(unbold);
    Strip(unbold)
  }

  lemma StripKeepsNoNewline(s: string)
    requires '\n' !in s
    ensures '\n' !in Strip(s)
  {
    var t := TrimStart(s);
    assert forall i :: 0 <= i < |t| ==> t[i] == s[|s| - |t| + i];
    var u := TrimEnd(t);
    assert forall i :: 0 <= i < |u| ==> u[i] == t[i];
  }

  lemma StripKeepsNoDoubleStar(s: string)
    requires NoDoubleStar(s)
    ensures NoDoubleStar(Strip(s))
  {
    var t := TrimStart(s);
    SliceKeepsNoDoubleStar(s, |s| - |t|, |s|);
    SliceKeepsNoDoubleStar(t, 0, |TrimEnd(t)|);
  }

  lemma SliceKeepsNoDoubleStar(s: string, a: nat, b: nat)
    requires a <= b <= |s|
    requires NoDoubleStar(s)
    ensures NoDoubleStar(s[a..b])
  {
    var t := s[a..b];
    forall i | 0 <= i < |t| - 1
      ensures !(t[i] == '*' && t[i + 1] == '*')
    {
      assert t[i] == s[a + i] && t[i + 1] == s[a + i + 1];
    }
  }

  lemma {:induction false} RemoveBoldKeepsNoNewline(s: string)
    requires '\n' !in s
    ensures '\n' !in RemoveBold(s)
    decreases |s|
  {
    if |s| >= 2 && s[0] == '*' && s[1] == '*' {
      assert forall c :: c in s[2..] ==> c in s;
      RemoveBoldKeepsNoNewline(s[2..]);
    } else if |s| > 0 {
      assert forall c :: c in s[1..] ==> c in s;
      RemoveBoldKeepsNoNewline(s[1..]);
    }
  }

  /** An image or video URL is kept only when it mentions "http" in any case. */
  function UrlValue(v: string): (u: string)
    ensures u == "" || u == v
    ensures u == v <==> v == "" || Contains(Lower(v), "http")
  {
    if v != "" && Contains(Lower(v), "http") then v else ""
  }

  predicate UrlOk(u: string) {
    u == "" || Contains(Lower(u), "http")
  }

  const NoFields := ModuleFields("", "", "", "", "", "", "", "")

  /** Stores one finished field; the last field of a kind wins. */
  function ApplyField(f: ModuleFields, name: string, parts: seq<string>): (g: ModuleFields)
    ensures g.moduleType == f.moduleType
    ensures UrlOk(f.imageUrl) ==> UrlOk(g.imageUrl)
    ensures UrlOk(f.videoUrl) ==> UrlOk(g.videoUrl)
    ensures ClassifyField(name) == IgnoredField ==> g == f
  {
    var v := CleanValue(parts);
    match ClassifyField(name)
    case PurposeField => f.(purpose := v)
    case AlertLogicField => f.(alertLogic := v)
    case PreconditionsField => f.(preconditions := v)
    case DetectionField => f.(detectionCriteria := v)
    case ImageUrlField => f.(imageUrl := UrlValue(v))
    case VideoUrlField => f.(videoUrl := UrlValue(v))
    case DataRequirementsField => f.(dataRequirements := v)
    case IgnoredField => f
  }

  /** Number of text lines at the front of `lines`. */
  function TextRun(lines: seq<FieldLine>): (k: nat)
    ensures k <= |lines|
    ensures forall i :: 0 <= i < k ==> lines[i].TextLine?
    ensures k < |lines| ==> lines[k].FieldStart?
    decreases |lines|
  {
    if |lines| > 0 && lines[0].TextLine? then 1 + TextRun(lines[1..]) else 0
  }

  /** The non-empty texts of a run of text lines. */
  function NonEmptyTexts(lines: seq<FieldLine>): (ts: seq<string>)
    ensures |ts| <= |lines|
    ensures forall t :: t in ts ==> t != ""
    decreases |lines|
  {
    if |lines| == 0 then []
    else if lines[0].TextLine? && lines[0].text != "" then [lines[0].text] + NonEmptyTexts(lines[1..])
    else NonEmptyTexts(lines[1..])
  }

  /**
   * Cuts a body into fields: each field marker with the text lines up to the
   * next marker. Text before the first marker belongs to no field and is
   * dropped. A field whose name strips to "" is dropped with its text (its name
   * is falsy, so the source neither collects nor stores it).
   */
  function CollectFields(lines: seq<FieldLine>): (fs: seq<(string, seq<string>)>)
    ensures |fs| <= |lines|
    ensures forall i :: 0 <= i < |fs| ==> fs[i].0 != ""
    decreases |lines|
  {
    if |lines| == 0 then []
    else match lines[0]
      case TextLine(_) => CollectFields(lines[1..])
      case FieldStart(n, init) =>
        var k := TextRun(lines[1..]);
        var rest := CollectFields(lines[1 + k..]);
        if AllSpace(n) then rest
        else
          StripEmptyIffAllSpace(n);
          [(Strip(n), FieldText(init, lines[1..1 + k]))] + rest
  }

  /** A field's text: its stripped first line when not empty, then the
      non-empty lines that follow. */
  function FieldText(init: string, following: seq<FieldLine>): seq<string> {
    var first := Strip(init);
    (if first == "" then [] else [first]) + NonEmptyTexts(following)
  }

  function ApplyFields(f: ModuleFields, fs: seq<(string, seq<string>)>): (g: ModuleFields)
    ensures g.moduleType == f.moduleType
    ensures UrlOk(f.imageUrl) ==> UrlOk(g.imageUrl)
    ensures UrlOk(f.videoUrl) ==> UrlOk(g.videoUrl)
    decreases |fs|
  {
    if |fs| == 0 then f else ApplyFields(ApplyField(f, fs[0].0, fs[0].1), fs[1..])
  }

  /**
   * `_extract_module_fields`. The module type is the stripped capture of the
   * type marker or ""; image and video URLs are either "" or mention "http".
   */
  function ExtractModuleFields(body: ModuleBody): (f: ModuleFields)
    ensures f.moduleType == (match body.typeMatch case Some(t) => Strip(t) case None => "")
    ensures UrlOk(f.imageUrl) && UrlOk(f.videoUrl)
  {
    var t := match body.typeMatch case Some(t) => Strip(t) case None => "";
    ApplyFields(NoFields.(moduleType := t), CollectFields(body.lines))
  }

  /** A field the module body does not mention keeps its empty value. */
  lemma {:induction false} UnmentionedFieldStaysEmpty(fs: seq<(string, seq<string>)>, f: ModuleFields)
    requires forall i :: 0 <= i < |fs| ==> ClassifyField(fs[i].0) != PurposeField
    ensures ApplyFields(f, fs).purpose == f.purpose
    decreases |fs|
  {
    if |fs| > 0 {
      UnmentionedFieldStaysEmpty(fs[1..], ApplyField(f, fs[0].0, fs[0].1));
    }
  }

  // ------------------------------------------------- what a body yields

  /** A field marker whose name does not strip to "": the fields that are kept. */
  predicate NamedMarker(l: FieldLine) {
    l.FieldStart? && !AllSpace(l.fieldName)
  }

  function MarkerName(l: FieldLine): string {
    if l.FieldStart? then Strip(l.fieldName) else ""
  }

  function Names(fs: seq<(string, seq<string>)>): (ns: seq<string>)
    ensures |ns| == |fs| && forall i :: 0 <= i < |fs| ==> ns[i] == fs[i].0
  {
    seq(|fs|, i requires 0 <= i < |fs| => fs[i].0)
  }

  /** The collected fields are the named markers of the body, one each, in order. */
  lemma {:induction false} CollectFieldsNames(lines: seq<FieldLine>)
    ensures Names(CollectFields(lines)) == Keep(lines, NamedMarker, MarkerName)
    decreases |lines|
  {
    if |lines| > 0 {
      if lines[0].TextLine? {
        CollectFieldsNames(lines[1..]);
        KeepSkipsText(lines);
      } else {
        var k := TextRun(lines[1..]);
        CollectFieldsNames(lines[1 + k..]);
        MarkerStep(lines, k);
      }
    }
  }

  lemma KeepSkipsText(lines: seq<FieldLine>)
    requires |lines| > 0 && lines[0].TextLine?
    ensures Keep(lines, NamedMarker, MarkerName) == Keep(lines[1..], NamedMarker, MarkerName)
    ensures CollectFields(lines) == CollectFields(lines[1..])
  {
  }

  /** One marker and its text run contribute exactly that marker's name, if kept. */
  lemma MarkerStep(lines: seq<FieldLine>, k: nat)
    requires |lines| > 0 && lines[0].FieldStart? && k == TextRun(lines[1..])
    ensures Keep(lines, NamedMarker, MarkerName) ==
              (if NamedMarker(lines[0]) then [MarkerName(lines[0])] else []) + Keep(lines[1 + k..], NamedMarker, MarkerName)
    ensures Names(CollectFields(lines)) ==
              (if NamedMarker(lines[0]) then [MarkerName(lines[0])] else []) + Names(CollectFields(lines[1 + k..]))
  {
    KeepMarkerStep(lines, k);
    var head := CollectMarker(lines, k);
    CollectStep(lines, k);
    NamesAppend(head, CollectFields(lines[1 + k..]));
  }

  /** The field one marker and its text run make, if its name is kept. */
  function CollectMarker(lines: seq<FieldLine>, k: nat): (head: seq<(string, seq<string>)>)
    requires |lines| > 0 && lines[0].FieldStart? && k == TextRun(lines[1..])
    ensures Names(head) == if NamedMarker(lines[0]) then [MarkerName(lines[0])] else []
  {
    var n := lines[0].fieldName;
    if AllSpace(n) then [] else [(Strip(n), FieldText(lines[0].initial, lines[1..1 + k]))]
  }

  lemma CollectStep(lines: seq<FieldLine>, k: nat)
    requires |lines| > 0 && lines[0].FieldStart? && k == TextRun(lines[1..])
    ensures CollectFields(lines) == CollectMarker(lines, k) + CollectFields(lines[1 + k..])
  {
  }

  lemma NamesAppend(a: seq<(string, seq<string>)>, b: seq<(string, seq<string>)>)
    ensures Names(a + b) == Names(a) + Names(b)
  {
  }

  lemma KeepMarkerStep(lines: seq<FieldLine>, k: nat)
    requires |lines| > 0 && k == TextRun(lines[1..])
    ensures Keep(lines, NamedMarker, MarkerName) ==
              (if NamedMarker(lines[0]) then [MarkerName(lines[0])] else []) + Keep(lines[1 + k..], NamedMarker, MarkerName)
  {
    forall i | 1 <= i < 1 + k
      ensures !NamedMarker(lines[i])
    {
      assert lines[i] == lines[1..][i - 1];
    }
    KeepAfterRun(lines, NamedMarker, MarkerName, k);
  }

  /** The slot of a record that fields of kind `k` feed. */
  function Slot(f: ModuleFields, k: FieldKind): string {
    match k
    case PurposeField => f.purpose
    case AlertLogicField => f.alertLogic
    case PreconditionsField => f.preconditions
    case DetectionField => f.detectionCriteria
    case ImageUrlField => f.imageUrl
    case VideoUrlField => f.videoUrl
    case DataRequirementsField => f.dataRequirements
    case IgnoredField => ""
  }

  /** What a slot of kind `k` stores for a field's text: URLs are filtered. */
  function Stored(k: FieldKind, parts: seq<string>): string {
    var v := CleanValue(parts);
    if k == ImageUrlField || k == VideoUrlField then UrlValue(v) else v
  }

  /** The text of the last field of kind `k`, if there is one. */
  function LastOfKind(fs: seq<(string, seq<string>)>, k: FieldKind): (r: Option<seq<string>>)
    ensures r.Some? <==> exists i :: 0 <= i < |fs| && ClassifyField(fs[i].0) == k
    decreases |fs|
  {
    if |fs| == 0 then None
    else
      assert forall i :: 1 <= i < |fs| ==> fs[i] == fs[1..][i - 1];
      match LastOfKind(fs[1..], k)
      case Some(p) => Some(p)
      case None => if ClassifyField(fs[0].0) == k then Some(fs[0].1) else None
  }

  lemma ApplyFieldSlot(f: ModuleFields, name: string, parts: seq<string>, k: FieldKind)
    requires k != IgnoredField
    ensures Slot(ApplyField(f, name, parts), k) == if ClassifyField(name) == k then Stored(k, parts) else Slot(f, k)
  {
  }

  /**
   * Each slot holds the cleaned text of the last field of its kind, or keeps
   * its value when no field of that kind occurs.
   */
  lemma {:induction false} ApplyFieldsSlot(f: ModuleFields, fs: seq<(string, seq<string>)>, k: FieldKind)
    requires k != IgnoredField
    ensures Slot(ApplyFields(f, fs), k) == match LastOfKind(fs, k) case Some(p) => Stored(k, p) case None => Slot(f, k)
    decreases |fs|
  {
    if |fs| > 0 {
      var g := ApplyField(f, fs[0].0, fs[0].1);
      ApplyFieldsSlot(g, fs[1..], k);
      ApplyFieldSlot(f, fs[0].0, fs[0].1, k);
    }
  }

  /**
   * Every record slot `_extract_module_fields` fills is the cleaned text of the
   * last field of its kind in the body, and "" when the body has none.
   */
  lemma ExtractModuleFieldsSlot(body: ModuleBody, k: FieldKind)
    requires k != IgnoredField
    ensures Slot(ExtractModuleFields(body), k) ==
      match LastOfKind(CollectFields(body.lines), k) case Some(p) => Stored(k, p) case None => ""
  {
    var t := match body.typeMatch case Some(t) => Strip(t) case None => "";
    ApplyFieldsSlot(NoFields.(moduleType := t), CollectFields(body.lines), k);
  }

  // ---------------------------------------------------------------- headers

  /** A `### 7.1 Name (Type Module)` header; `headerType` is "" without a parenthetical type. */
  datatype NumberedHeader = NumberedHeader(name: string, headerType: string, body: ModuleBody)

  /** A `### Module N: Name` or `**Module N: Name**` header and the text up to the next one. */
  datatype Header = Header(name: string, body: ModuleBody)

  /** The four header shapes found in one section, each in document order. */
  datatype ModuleSection = ModuleSection(
    numbered: seq<NumberedHeader>,
    hashed: seq<Header>,
    bold: seq<Header>,
    plain: seq<string>)

  /** An exception raised while extracting. */
  datatype ExtractionError = UnboundMatch

  function Record(name: string, moduleType: string, f: ModuleFields): ModuleRecord {
    ModuleRecord(name, moduleType, f.purpose, f.alertLogic, f.preconditions,
                 f.detectionCriteria, f.dataRequirements, f.imageUrl, f.videoUrl)
  }

  /** A numbered header's type comes from the header when present, else from the body. */
  function FromNumbered(h: NumberedHeader): (m: ModuleRecord)
    ensures m.name == Strip(h.name)
    ensures Strip(h.headerType) != "" ==> m.moduleType == Strip(h.headerType)
  {
    var f := ExtractModuleFields(h.body);
    var t := Strip(h.headerType);
    Record(Strip(h.name), if t != "" then t else f.moduleType, f)
  }

  function FromHeader(h: Header): (m: ModuleRecord)
    ensures m.name == Strip(h.name)
  {
    var f := ExtractModuleFields(h.body);
    Record(Strip(h.name), f.moduleType, f)
  }

  /** The captured name with bold markers removed. */
  function PlainName(s: string): string {
    Strip(RemoveBold(Strip(s)))
  }

  function NameOnly(n: string): ModuleRecord {
    ModuleRecord(n, "", "", "", "", "", "", "", "")
  }

  /** A plain `Module: Name` line gives a record with only a name. */
  function PlainModules(names: seq<string>): (ms: seq<ModuleRecord>)
    ensures |ms| <= |names|
    ensures forall m :: m in ms ==> m.name != "" && m == NameOnly(m.name)
    decreases |names|
  {
    if |names| == 0 then []
    else
      var n := PlainName(names[0]);
      var rest := PlainModules(names[1..]);
      if n == "" then rest
      else [NameOnly(n)] + rest
  }

  /**
   * `_extract_modules` as written. In the `### Module` branch only the name
   * assignment sits inside the `for`; the body runs once after the loop with
   * the last header, or on an unbound `match` when there is none. Either way
   * the later fallbacks never run.
   */
  function ExtractModulesAsWritten(sec: ModuleSection): (r: Result<seq<ModuleRecord>, ExtractionError>)
    ensures |sec.numbered| > 0 ==> r.Ok? && |r.value| == |sec.numbered|
    ensures |sec.numbered| == 0 ==> (r.Ok? <==> |sec.hashed| > 0)
    ensures r.Ok? && |sec.numbered| == 0 ==> |r.value| == 1
  {
    if |sec.numbered| > 0 then Ok(FromNumberedAll(sec.numbered))
    else if |sec.hashed| == 0 then Err(UnboundMatch)
    else Ok([FromHeader(sec.hashed[|sec.hashed| - 1])])
  }

  function FromNumberedAll(hs: seq<NumberedHeader>): (ms: seq<ModuleRecord>)
    ensures |ms| == |hs|
    ensures forall i :: 0 <= i < |ms| ==> ms[i] == FromNumbered(hs[i])
    ensures forall m :: m in ms ==> UrlOk(m.imageUrl) && UrlOk(m.videoUrl)
  {
    seq(|hs|, i requires 0 <= i < |hs| => FromNumbered(hs[i]))
  }

  function FromHeaders(hs: seq<Header>): (ms: seq<ModuleRecord>)
    ensures |ms| == |hs|
    ensures forall i :: 0 <= i < |ms| ==> ms[i] == FromHeader(hs[i])
    ensures forall m :: m in ms ==> UrlOk(m.imageUrl) && UrlOk(m.videoUrl)
  {
    seq(|hs|, i requires 0 <= i < |hs| => FromHeader(hs[i]))
  }

  /**
   * `_extract_modules` with the `### Module` body inside its loop: the first
   * header shape that occurs gives one record per header, in order.
   */
  function ExtractModules(sec: ModuleSection): (ms: seq<ModuleRecord>)
    ensures |sec.numbered| > 0 ==> ms == FromNumberedAll(sec.numbered)
    ensures |sec.numbered| == 0 && |sec.hashed| > 0 ==>
              (|ms| == |sec.hashed| && forall i :: 0 <= i < |ms| ==> ms[i].name == Strip(sec.hashed[i].name))
    ensures |sec.numbered| == 0 && |sec.hashed| == 0 && |sec.bold| > 0 ==>
              (|ms| == |sec.bold| && forall i :: 0 <= i < |ms| ==> ms[i].name == Strip(sec.bold[i].name))
    ensures forall m :: m in ms ==> UrlOk(m.imageUrl) && UrlOk(m.videoUrl)
  {
    if |sec.numbered| > 0 then FromNumberedAll(sec.numbered)
    else if |sec.hashed| > 0 then FromHeaders(sec.hashed)
    else if |sec.bold| > 0 then FromHeaders(sec.bold)
    else
      PlainModules(sec.plain)
  }

  /**
   * The two definitions part as soon as a section uses `### Module` headers:
   * two such headers give one module as written and two once corrected, and
   * a section with only bold headers fails as written.
   */
  lemma AsWrittenLosesModules(a: Header, b: Header, c: Header)
    ensures var sec := ModuleSection([], [a, b], [], []);
      ExtractModulesAsWritten(sec) == Ok([FromHeader(b)]) && |ExtractModules(sec)| == 2
    ensures var sec := ModuleSection([], [], [c], []);
      ExtractModulesAsWritten(sec).Err? && ExtractModules(sec) == [FromHeader(c)]
  {
  }

  /** Where the as-written version succeeds on a single `### Module` header, the two agree. */
  lemma AsWrittenAgreesOnOneHeader(sec: ModuleSection)
    requires |sec.numbered| > 0 || |sec.hashed| == 1
    ensures ExtractModulesAsWritten(sec) == Ok(ExtractModules(sec))
  {
    if |sec.numbered| == 0 {
      assert ExtractModules(sec) == [FromHeader(sec.hashed[0])];
    }
  }
}
