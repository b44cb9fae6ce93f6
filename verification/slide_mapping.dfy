/**
 * `SlideMapper` (template2slide/scripts/map_to_slides.py): turns the sections of
 * a proposal into a numbered list of slides.
 *
 * The mapper is an object with a slide list and a counter; here it is the
 * value `Deck`, threaded through pure functions. Text the mapper finds with
 * regular expressions (client name, date, key/value pairs, scope items,
 * milestones, sub-section dictionaries, module headers) is an input.
 */
module SlideMapping {
  import opened Wrappers
  import opened Text
  import opened ModuleExtraction
  import opened Sequences

  datatype Bullet = Bullet(level: nat, text: string)

  datatype Milestone = Milestone(phase: string, date: string)

  datatype ModuleContent = ModuleContent(purpose: string, alertLogic: string, preconditions: string, dataRequirements: string)

  /** The slide kinds the mapper emits, each with the fields it sets. */
  datatype SlideBody =
    | TitleSlide(title: string, date: string)
    | ContentBullets(title: string, content: seq<Bullet>)
    | TwoColumn(title: string, left: seq<string>, right: seq<string>)
    | DiagramSlide(title: string, code: string, description: string)
    | TimelineSlide(title: string, milestones: seq<Milestone>)
    | ModuleDescription(title: string, moduleType: string, fields: ModuleContent, imageUrl: string, videoUrl: string)

  datatype Slide = Slide(number: int, body: SlideBody)

  /** `self.slides` and `self.slide_number`. */
  datatype Deck = Deck(slides: seq<Slide>, next: int)

  const EmptyDeck := Deck([], 1)

  /** Slide i (from 0) carries number i + 1, and the counter is one past the last. */
  predicate WellNumbered(d: Deck) {
    d.next == |d.slides| + 1 && forall i :: 0 <= i < |d.slides| ==> d.slides[i].number == i + 1
  }

  /** One `self.slides.append({... "slide_number": self.slide_number ...})` and the increment after it. */
  function Append(d: Deck, b: SlideBody): (r: Deck)
    ensures WellNumbered(d) ==> WellNumbered(r)
    ensures |r.slides| == |d.slides| + 1 && r.slides[..|d.slides|] == d.slides
    ensures r.slides[|d.slides|].body == b
  {
    Deck(d.slides + [Slide(d.next, b)], d.next + 1)
  }

  function AppendAll(d: Deck, bs: seq<SlideBody>): (r: Deck)
    ensures WellNumbered(d) ==> WellNumbered(r)
    ensures |r.slides| == |d.slides| + |bs| && r.slides[..|d.slides|] == d.slides
    ensures forall i :: 0 <= i < |d.slides| ==> r.slides[i] == d.slides[i]
    ensures forall i :: 0 <= i < |bs| ==> r.slides[|d.slides| + i].body == bs[i]
    decreases |bs|
  {
    if |bs| == 0 then d
    else
      var d1 := Append(d, bs[0]);
      var r := AppendAll(d1, bs[1..]);
      assert r.slides[..|d.slides|] == r.slides[..|d1.slides|][..|d.slides|];
      assert r.slides[|d.slides|] == r.slides[..|d1.slides|][|d.slides|];
      r
  }

  // ------------------------------------------------------------ bullet points

  predicate IsBulletChar(c: char) {
    c == '-' || c == '*' || c == '•'
  }

  /** `^\s*[-*•]\s*` matches at the start. */
  predicate MarkerAt(s: string) {
    var t := TrimStart(s); |t| > 0 && IsBulletChar(t[0])
  }

  function DropMarker(s: string): string
    requires MarkerAt(s)
  {
    TrimStart(TrimStart(s)[1..])
  }

  /** `^\s{k}[-*•]\s+` matches at the start. */
  predicate NestedMarkerAt(s: string, k: nat) {
    |s| > k + 1 && (forall i :: 0 <= i < k ==> IsSpace(s[i])) && IsBulletChar(s[k]) && IsSpace(s[k + 1])
  }

  function DropNested(s: string, k: int): string {
    if 0 <= k < |s| then TrimStart(s[k + 1..]) else s
  }

  /** `re.sub(r'\*\*Source[:\s]*.*$', '', s, flags=re.IGNORECASE)` on one line:
      cuts the line at the first case-insensitive "**source". */
  function CutSourceReference(s: string): (r: string)
    ensures |r| <= |s| && r == s[..|r|]
    decreases |s|
  {
    if |s| == 0 then ""
    else if StartsWith(Lower(s), "**source") then ""
    else [s[0]] + CutSourceReference(s[1..])
  }

  /** After bold markers are gone, the source-reference substitution changes nothing. */
  lemma {:induction false} SourceReferenceInertAfterBold(s: string)
    requires NoDoubleStar(s)
    ensures CutSourceReference(s) == s
    decreases |s|
  {
    if |s| > 0 {
      if |s| >= 2 {
        assert !(s[0] == '*' && s[1] == '*');
        assert Lower(s)[0] != '*' || Lower(s)[1] != '*';
      }
      assert NoDoubleStar(s[1..]) by {
        forall i | 0 <= i < |s[1..]| - 1
          ensures !(s[1..][i] == '*' && s[1..][i + 1] == '*')
        {
          assert s[1..][i] == s[i + 1];
        }
      }
      SourceReferenceInertAfterBold(s[1..]);
    }
  }

  /** The bullet for one line of `_format_bullet_points`, or None for a skipped line. */
  function BulletOf(line: string): (r: Option<Bullet>)
    ensures r.Some? ==> r.value.level == 0 && r.value.text != ""
    ensures r.Some? ==> Strip(line) != "" && !StartsWith(Strip(line), "|")
  {
    var l := Strip(line);
    if l == "" || StartsWith(l, "|") then None
    else
      var lb :=
        if MarkerAt(l) then (0, DropMarker(l))
        else if NestedMarkerAt(l, 2) then (1, DropNested(l, 2))
        else if NestedMarkerAt(l, 4) then (2, DropNested(l, 4))
        else (0, l);
      var text := Strip(CutSourceReference(RemoveBold(lb.1)));
      if text == "" then None else Some(Bullet(lb.0, text))
  }

  /** A stripped, non-empty line never starts with white space, so the nested
      patterns (two or four leading blanks) cannot match it. */
  lemma NestedPatternsNeverMatch(line: string, k: nat)
    requires k >= 1
    ensures !NestedMarkerAt(Strip(line), k)
  {
  }

  function BulletsOf(lines: seq<string>): (bs: seq<Bullet>)
    ensures |bs| <= |lines|
    ensures forall b :: b in bs ==> b.level == 0 && b.text != ""
    decreases |lines|
  {
    if |lines| == 0 then []
    else
      var rest := BulletsOf(lines[1..]);
      match BulletOf(lines[0])
      case Some(b) => [b] + rest
      case None => rest
  }

  /** `_format_bullet_points`: one level-0, non-empty bullet per kept line, at most one per line. */
  function FormatBullets(content: string): (bs: seq<Bullet>)
    ensures forall b :: b in bs ==> b.level == 0 && b.text != ""
    ensures |bs| <= |Split(content, '\n')|
  {
    BulletsOf(Split(content, '\n'))
  }

  /** A line without bullet markers, bold or a source reference is kept as it stands (stripped). */
  lemma PlainLineKept(line: string)
    requires Strip(line) != "" && !StartsWith(Strip(line), "|") && !MarkerAt(Strip(line))
    requires '*' !in line
    ensures BulletOf(line) == Some(Bullet(0, Strip(line)))
  {
    var l := Strip(line);
    StripKeepsAbsence(line, '*');
    assert !NestedMarkerAt(l, 2) && !NestedMarkerAt(l, 4) by {
      assert !IsSpace(l[0]);
    }
    NoStarRemoveBold(l);
    SourceReferenceInertAfterBold(l);
    StripIdempotent(l);
  }

  lemma {:induction false} NoStarRemoveBold(s: string)
    requires '*' !in s
    ensures RemoveBold(s) == s
    decreases |s|
  {
    if |s| > 0 {
      assert s[0] != '*';
      assert '*' !in s[1..];
      NoStarRemoveBold(s[1..]);
    }
  }

  lemma StripIdempotent(s: string)
    requires |s| > 0 ==> !IsSpace(s[0]) && !IsSpace(s[|s| - 1])
    ensures Strip(s) == s
  {
  }

  // ------------------------------------------------- project requirement

  /** `re.sub(r'^\d+\.\s*', '', s)` */
  function DropNumberPrefix(s: string): (r: string)
    ensures |r| <= |s| && r == s[|s| - |r|..]
  {
    var k := LeadingDigits(s);
    if 0 < k < |s| && s[k] == '.' then TrimStart(s[k + 1..]) else s
  }

  /** `re.sub(r'^[-*•]\s*', '', s)` */
  function DropBulletPrefix(s: string): (r: string)
    ensures |r| <= |s| && r == s[|s| - |r|..]
  {
    if |s| > 0 && IsBulletChar(s[0]) then TrimStart(s[1..]) else s
  }

  /** A listed module name: non-empty, with no white space at its end. */
  predicate IsListItem(m: string) {
    m != "" && !IsSpace(m[|m| - 1])
  }

  /** One line of an "AI Modules" value with its number and bullet prefixes removed. */
  function ModuleItem(line: string): (m: string)
    ensures m != "" ==> IsListItem(m)
  {
    var l := Strip(line);
    var n := DropNumberPrefix(l);
    var m := DropBulletPrefix(n);
    if m == "" then m
    else
      SuffixLast(n, m);
      SuffixLast(l, n);
      m
  }

  /** A non-empty suffix ends where the whole string ends. */
  lemma SuffixLast(s: string, r: string)
    requires 0 < |r| <= |s| && r == s[|s| - |r|..]
    ensures r[|r| - 1] == s[|s| - 1]
  {
  }

  predicate ListsModule(line: string) {
    ModuleItem(line) != ""
  }

  /** The module names listed in an "AI Modules" value, one per line that
      leaves a name once its prefixes are removed, in order. */
  function ModuleListItems(lines: seq<string>): (ms: seq<string>)
    ensures |ms| <= |lines|
  {
    Keep(lines, ListsModule, ModuleItem)
  }

  /** Every listed module name is non-empty and ends without white space, and
      comes from a line of the value. */
  lemma ModuleListItemsWellFormed(lines: seq<string>)
    ensures forall m :: m in ModuleListItems(lines) ==> IsListItem(m)
  {
    forall m | m in ModuleListItems(lines)
      ensures IsListItem(m)
    {
      var i := KeepSource(lines, ListsModule, ModuleItem, m);
    }
  }

  predicate IsAiModulesKey(k: string) {
    Lower(k) == "ai modules" || Lower(k) == "ai module"
  }

  /** An "AI Modules" value: every module at level 0, the first prefixed with the key. */
  function ModuleBullets(k: string, ms: seq<string>): (bs: seq<Bullet>)
    ensures |bs| == |ms|
    ensures forall i :: 0 <= i < |bs| ==> bs[i].level == 0
    ensures |ms| > 0 ==> bs[0].text == k + ": " + ms[0]
    ensures forall i :: 1 <= i < |ms| ==> bs[i].text == ms[i]
  {
    seq(|ms|, i requires 0 <= i < |ms| => Bullet(0, if i == 0 then k + ": " + ms[0] else ms[i]))
  }

  /** The bullets of one key/value pair of the project requirement table. */
  function FieldBullets(k: string, v: string): (bs: seq<Bullet>)
    ensures forall i :: 0 <= i < |bs| ==> bs[i].level == 0
    ensures !IsAiModulesKey(k) ==> bs == [Bullet(0, k + ": " + v)]
    ensures IsAiModulesKey(k) ==>
              var items := ModuleListItems(Split(v, '\n'));
              |bs| == |items| && (|items| > 0 ==> bs[0].text == k + ": " + items[0])
              && forall i :: 1 <= i < |items| ==> bs[i].text == items[i]
  {
    if IsAiModulesKey(k) then ModuleBullets(k, ModuleListItems(Split(v, '\n')))
    else [Bullet(0, k + ": " + v)]
  }

  /** `_map_project_requirement`'s content over the extracted pairs, in dict order. */
  function ProjectRequirementContent(fields: seq<(string, string)>): (bs: seq<Bullet>)
    ensures forall i :: 0 <= i < |bs| ==> bs[i].level == 0
    decreases |fields|
  {
    if |fields| == 0 then []
    else FieldBullets(fields[0].0, fields[0].1) + ProjectRequirementContent(fields[1..])
  }

  /** Pairs without an "AI Modules" key give exactly one "key: value" bullet each. */
  lemma {:induction false} ProjectRequirementOnePerField(fields: seq<(string, string)>)
    requires forall i :: 0 <= i < |fields| ==> !IsAiModulesKey(fields[i].0)
    ensures var bs := ProjectRequirementContent(fields);
      |bs| == |fields| && forall i :: 0 <= i < |fields| ==> bs[i].text == fields[i].0 + ": " + fields[i].1
    decreases |fields|
  {
    if |fields| > 0 {
      ProjectRequirementOnePerField(fields[1..]);
    }
  }

  // ---------------------------------------------------- system requirements

  /**
   * `subsections.get(key, "")` on a dict given as its items in insertion
   * order. A dict holds each key once; should a name repeat, the dict keeps
   * the value assigned last, so the search runs from the end.
   */
  function Lookup(d: seq<(string, string)>, key: string): string
    decreases |d|
  {
    if |d| == 0 then ""
    else if d[|d| - 1].0 == key then d[|d| - 1].1
    else Lookup(d[..|d| - 1], key)
  }

  /** The value of a key is the one paired with its last occurrence. */
  lemma {:induction false} LookupLast(d: seq<(string, string)>, key: string, i: nat)
    requires i < |d| && d[i].0 == key
    requires forall j :: i < j < |d| ==> d[j].0 != key
    ensures Lookup(d, key) == d[i].1
    decreases |d|
  {
    if i < |d| - 1 {
      var front := d[..|d| - 1];
      assert front[i] == d[i];
      LookupLast(front, key, i);
    }
  }

  /** A key that does not occur reads as "". */
  lemma {:induction false} LookupMissing(d: seq<(string, string)>, key: string)
    requires forall i :: 0 <= i < |d| ==> d[i].0 != key
    ensures Lookup(d, key) == ""
    decreases |d|
  {
    if |d| > 0 {
      var front := d[..|d| - 1];
      assert forall i :: 0 <= i < |front| ==> front[i] == d[i];
      LookupMissing(front, key);
    }
  }

  /** A dict's items: no name occurs twice. */
  predicate DistinctKeys(d: seq<(string, string)>) {
    forall i, j :: 0 <= i < j < |d| ==> d[i].0 != d[j].0
  }

  /** The place of `key` among the items, or `|d|` when it is absent. */
  function KeyIndex(d: seq<(string, string)>, key: string): (k: nat)
    ensures k <= |d|
    ensures k < |d| ==> d[k].0 == key
    ensures forall i :: 0 <= i < k ==> d[i].0 != key
    decreases |d|
  {
    if |d| == 0 then 0
    else if d[0].0 == key then 0
    else 1 + KeyIndex(d[1..], key)
  }

  /**
   * `d[key] = value` on a dict given as its items: an existing key keeps its
   * place and takes the new value; a new key goes last.
   */
  function Assign(d: seq<(string, string)>, key: string, value: string): (r: seq<(string, string)>)
    requires DistinctKeys(d)
    ensures DistinctKeys(r)
    ensures Lookup(r, key) == value
    ensures forall k :: k != key ==> Lookup(r, k) == Lookup(d, k)
    ensures KeyIndex(d, key) == |d| ==> r == d + [(key, value)]
    ensures KeyIndex(d, key) < |d| ==> |r| == |d| && r[KeyIndex(d, key)] == (key, value)
  {
    var k := KeyIndex(d, key);
    if k == |d| then
      var r := d + [(key, value)];
      assert r[..|d|] == d;
      r
    else
      var r := d[k := (key, value)];
      LookupLast(r, key, k);
      forall other | other != key
        ensures Lookup(r, other) == Lookup(d, other)
      {
        AssignOther(d, k, key, value, other);
      }
      r
  }

  lemma AssignOther(d: seq<(string, string)>, k: nat, key: string, value: string, other: string)
    requires DistinctKeys(d) && k < |d| && d[k].0 == key && other != key
    ensures Lookup(d[k := (key, value)], other) == Lookup(d, other)
  {
    var r := d[k := (key, value)];
    var j := KeyIndex(d, other);
    if j < |d| {
      LookupLast(d, other, j);
      LookupLast(r, other, j);
    } else {
      LookupMissing(d, other);
      LookupMissing(r, other);
    }
  }

  /**
   * `_extract_subsection`: each `### name` header's text assigned in turn to
   * a dict. A repeated name keeps the place of its first header and the text
   * of its last, so every name reads as it reads among the headers, and the
   * dict is the headers themselves when no name repeats.
   */
  function Subsections(raw: seq<(string, string)>): (d: seq<(string, string)>)
    ensures DistinctKeys(d) && |d| <= |raw|
    ensures forall key :: Lookup(d, key) == Lookup(raw, key)
    decreases |raw|
  {
    if |raw| == 0 then []
    else
      var front := Subsections(raw[..|raw| - 1]);
      Assign(front, raw[|raw| - 1].0, raw[|raw| - 1].1)
  }

  /** Headers whose names are all different give the dict of exactly those items. */
  lemma {:induction false} SubsectionsDistinct(raw: seq<(string, string)>)
    requires DistinctKeys(raw)
    ensures Subsections(raw) == raw
    decreases |raw|
  {
    if |raw| > 0 {
      var init := raw[..|raw| - 1];
      SubsectionsDistinct(init);
      var last := raw[|raw| - 1];
      assert KeyIndex(init, last.0) == |init|;
      assert init + [last] == raw;
    }
  }

  /** A repeated name: the dict holds it once, in its first place, with its last text. */
  lemma RepeatedSubsection(a: string, x: string, b: string, y: string)
    requires a != b
    ensures Subsections([(a, x), (b, y), (a, "")]) == [(a, ""), (b, y)]
  {
    var raw := [(a, x), (b, y), (a, "")];
    var front := [(a, x), (b, y)];
    assert raw[..2] == front;
    SubsectionsDistinct(front);
    assert KeyIndex(front, a) == 0;
  }

  /** Python's `a or b` on strings. */
  function OrElse(a: string, b: string): string {
    if a != "" then a else b
  }

  /** A section's items: its name as a level-0 heading, then its bullets; nothing for empty content. */
  function SectionItems(name: string, content: string): (bs: seq<Bullet>)
    ensures content == "" <==> bs == []
    ensures bs != [] ==> bs[0] == Bullet(0, name)
  {
    if content == "" then [] else [Bullet(0, name)] + FormatBullets(content)
  }

  const MaxItemsPerSlide := 15

  function Flatten(groups: seq<seq<Bullet>>): seq<Bullet>
    decreases |groups|
  {
    if |groups| == 0 then [] else groups[0] + Flatten(groups[1..])
  }

  /**
   * The AI Training, AI Inference and Dashboard slides. All three go on one
   * slide when they total at most 15 items; otherwise the only cut is between
   * Inference and Dashboard. No item is lost or moved, and no slide is empty.
   */
  function AiSlides(t: seq<Bullet>, i: seq<Bullet>, d: seq<Bullet>): (slides: seq<seq<Bullet>>)
    ensures Flatten(slides) == t + i + d
    ensures forall k :: 0 <= k < |slides| ==> slides[k] != []
    ensures |slides| <= 2
    ensures 0 < |t| + |i| + |d| <= MaxItemsPerSlide ==> slides == [t + i + d]
    ensures |slides| == 2 ==> slides == [t + i, d] && |t| + |i| + |d| > MaxItemsPerSlide
    ensures |t| + |i| + |d| > MaxItemsPerSlide ==>
              slides == (if t + i == [] then [] else [t + i]) + (if d == [] then [] else [d])
  {
    if |t| + |i| + |d| == 0 then []
    else if |t| + |i| + |d| <= MaxItemsPerSlide then
      FlattenOne(t + i + d);
      [t + i + d]
    else if |t + i| == 0 then
      FlattenOne(d);
      [d]
    else if |d| == 0 then
      FlattenOne(t + i);
      [t + i]
    else
      FlattenOne(d);
      assert [t + i, d][1..] == [d];
      [t + i, d]
  }

  lemma FlattenOne(x: seq<Bullet>)
    ensures Flatten([x]) == x
  {
    assert [x][1..] == [];
  }

  const ProcessedNames := ["Network", "Camera", "AI Training", "AI Training Workstation",
                           "AI Inference", "AI Inference Workstation", "Dashboard", "Dashboard Workstation"]

  /** A sub-section that gets a slide of its own after the grouped ones. */
  predicate OtherRequirement(sub: (string, string)) {
    Strip(sub.1) != "" && sub.0 !in ProcessedNames
  }

  function OtherRequirementSlide(sub: (string, string)): SlideBody {
    ContentBullets("System Requirements: " + sub.0, FormatBullets(sub.1))
  }

  /** Slides for the sub-sections not grouped above, in dict order, skipping
      blank ones: one slide per such sub-section, titled by its name. */
  function OtherRequirementSlides(subsections: seq<(string, string)>): (bs: seq<SlideBody>)
    ensures |bs| <= |subsections|
    ensures forall b :: b in bs ==> b.ContentBullets?
    decreases |subsections|
  {
    if |subsections| == 0 then []
    else
      var rest := OtherRequirementSlides(subsections[1..]);
      if OtherRequirement(subsections[0]) then [OtherRequirementSlide(subsections[0])] + rest else rest
  }

  /** Each non-blank sub-section outside the grouped names gets its slide. */
  lemma {:induction false} OtherRequirementKept(subs: seq<(string, string)>, i: nat)
    requires i < |subs| && OtherRequirement(subs[i])
    ensures OtherRequirementSlide(subs[i]) in OtherRequirementSlides(subs)
    decreases i
  {
    var rest := OtherRequirementSlides(subs[1..]);
    var r := OtherRequirementSlides(subs);
    if i == 0 {
      assert r == [OtherRequirementSlide(subs[0])] + rest;
      assert r[0] == OtherRequirementSlide(subs[0]);
    } else {
      assert subs[1..][i - 1] == subs[i];
      OtherRequirementKept(subs[1..], i - 1);
      assert r == rest || r == [OtherRequirementSlide(subs[0])] + rest;
    }
  }

  /** Every slide comes from a non-blank sub-section outside the grouped names. */
  lemma {:induction false} OtherRequirementSource(subs: seq<(string, string)>, b: SlideBody)
    requires b in OtherRequirementSlides(subs)
    ensures exists i :: 0 <= i < |subs| && OtherRequirement(subs[i]) && b == OtherRequirementSlide(subs[i])
    decreases |subs|
  {
    var tail := subs[1..];
    if OtherRequirement(subs[0]) && b == OtherRequirementSlide(subs[0]) {
    } else {
      OtherRequirementSource(tail, b);
      var j :| 0 <= j < |tail| && OtherRequirement(tail[j]) && b == OtherRequirementSlide(tail[j]);
      assert subs[j + 1] == tail[j];
    }
  }

  /** The slides follow the sub-sections' order: the slides of two runs of
      sub-sections are those of the first followed by those of the second. */
  lemma {:induction false} OtherRequirementSlidesAppend(a: seq<(string, string)>, b: seq<(string, string)>)
    ensures OtherRequirementSlides(a + b) == OtherRequirementSlides(a) + OtherRequirementSlides(b)
    decreases |a|
  {
    if |a| > 0 {
      assert (a + b)[1..] == a[1..] + b;
      OtherRequirementSlidesAppend(a[1..], b);
    } else {
      assert a + b == b;
    }
  }

  function RequirementSlide(items: seq<Bullet>): SlideBody {
    ContentBullets("System Requirements", items)
  }

  /** The Network and Camera items, each section headed by its name. */
  function NetworkCameraItems(subsections: seq<(string, string)>): (nc: seq<Bullet>)
    ensures nc == [] <==> Lookup(subsections, "Network") == "" && Lookup(subsections, "Camera") == ""
    ensures Lookup(subsections, "Network") != "" ==> nc[0] == Bullet(0, "Network")
    ensures Lookup(subsections, "Network") == "" && Lookup(subsections, "Camera") != "" ==> nc[0] == Bullet(0, "Camera")
  {
    SectionItems("Network", Lookup(subsections, "Network")) + SectionItems("Camera", Lookup(subsections, "Camera"))
  }

  /** The AI Training, AI Inference and Dashboard slides' contents; each name
      falls back to its "... Workstation" variant when empty. */
  function AiRequirementSlides(subsections: seq<(string, string)>): seq<seq<Bullet>> {
    AiSlides(
      SectionItems("AI Training", OrElse(Lookup(subsections, "AI Training"), Lookup(subsections, "AI Training Workstation"))),
      SectionItems("AI Inference", OrElse(Lookup(subsections, "AI Inference"), Lookup(subsections, "AI Inference Workstation"))),
      SectionItems("Dashboard", OrElse(Lookup(subsections, "Dashboard"), Lookup(subsections, "Dashboard Workstation"))))
  }

  /** The requirement slides in the order they are appended: the Network and
      Camera slide when it has items, one slide per AI group, then the rest. */
  function RequirementDeck(nc: seq<Bullet>, ai: seq<seq<Bullet>>, other: seq<SlideBody>): (bs: seq<SlideBody>)
    ensures var first := if nc != [] then 1 else 0;
            |bs| == first + |ai| + |other|
            && (nc != [] ==> bs[0] == RequirementSlide(nc))
            && (forall k :: 0 <= k < |ai| ==> bs[first + k] == RequirementSlide(ai[k]))
            && (forall k :: 0 <= k < |other| ==> bs[first + |ai| + k] == other[k])
    ensures (forall b :: b in other ==> b.ContentBullets?) ==> forall b :: b in bs ==> b.ContentBullets?
  {
    var first := if nc != [] then [RequirementSlide(nc)] else [];
    var mid := seq(|ai|, k requires 0 <= k < |ai| => RequirementSlide(ai[k]));
    first + mid + other
  }

  /**
   * `_map_system_requirements`: the Network and Camera slide first when either
   * section has content, then the AI slides, then one slide per remaining
   * non-blank sub-section. All are titled "System Requirements", the last
   * ones followed by their sub-section name.
   */
  function SystemRequirementSlides(subsections: seq<(string, string)>): (bs: seq<SlideBody>)
    ensures forall b :: b in bs ==> b.ContentBullets?
  {
    RequirementDeck(NetworkCameraItems(subsections), AiRequirementSlides(subsections), OtherRequirementSlides(subsections))
  }

  /** Where each group of sub-sections lands among the requirement slides. */
  lemma SystemRequirementLayout(subsections: seq<(string, string)>)
    ensures var bs := SystemRequirementSlides(subsections);
            var nc := NetworkCameraItems(subsections);
            var ai := AiRequirementSlides(subsections);
            var other := OtherRequirementSlides(subsections);
            var first := if nc != [] then 1 else 0;
            |bs| == first + |ai| + |other|
            && (nc != [] ==> bs[0] == RequirementSlide(nc))
            && (forall k :: 0 <= k < |ai| ==> bs[first + k] == RequirementSlide(ai[k]))
            && (forall k :: 0 <= k < |other| ==> bs[first + |ai| + k] == other[k])
  {
    var nc := NetworkCameraItems(subsections);
    var ai := AiRequirementSlides(subsections);
    var other := OtherRequirementSlides(subsections);
    assert SystemRequirementSlides(subsections) == RequirementDeck(nc, ai, other);
  }

  function InterfaceSlide(sub: (string, string)): SlideBody {
    ContentBullets(sub.0, FormatBullets(sub.1))
  }

  /** `_map_user_interface`: one slide per non-blank sub-section, titled by
      its name, in dict order. */
  function UserInterfaceSlides(subsections: seq<(string, string)>): (bs: seq<SlideBody>)
    ensures |bs| <= |subsections|
    ensures forall b :: b in bs ==> b.ContentBullets?
    decreases |subsections|
  {
    if |subsections| == 0 then []
    else
      var rest := UserInterfaceSlides(subsections[1..]);
      if Strip(subsections[0].1) == "" then rest
      else [InterfaceSlide(subsections[0])] + rest
  }

  /** Each non-blank interface sub-section gets a slide titled by its name. */
  lemma {:induction false} UserInterfaceKept(subs: seq<(string, string)>, i: nat)
    requires i < |subs| && Strip(subs[i].1) != ""
    ensures InterfaceSlide(subs[i]) in UserInterfaceSlides(subs)
    decreases i
  {
    var rest := UserInterfaceSlides(subs[1..]);
    var r := UserInterfaceSlides(subs);
    if i == 0 {
      assert r == [InterfaceSlide(subs[0])] + rest;
      assert r[0] == InterfaceSlide(subs[0]);
    } else {
      assert subs[1..][i - 1] == subs[i];
      UserInterfaceKept(subs[1..], i - 1);
      assert r == rest || r == [InterfaceSlide(subs[0])] + rest;
    }
  }

  /** Every interface slide comes from a non-blank sub-section. */
  lemma {:induction false} UserInterfaceSource(subs: seq<(string, string)>, b: SlideBody)
    requires b in UserInterfaceSlides(subs)
    ensures exists i :: 0 <= i < |subs| && Strip(subs[i].1) != "" && b == InterfaceSlide(subs[i])
    decreases |subs|
  {
    var tail := subs[1..];
    if Strip(subs[0].1) != "" && b == InterfaceSlide(subs[0]) {
    } else {
      UserInterfaceSource(tail, b);
      var j :| 0 <= j < |tail| && Strip(tail[j].1) != "" && b == InterfaceSlide(tail[j]);
      assert subs[j + 1] == tail[j];
    }
  }

  /** The interface slides follow the sub-sections' order. */
  lemma {:induction false} UserInterfaceSlidesAppend(a: seq<(string, string)>, b: seq<(string, string)>)
    ensures UserInterfaceSlides(a + b) == UserInterfaceSlides(a) + UserInterfaceSlides(b)
    decreases |a|
  {
    if |a| > 0 {
      assert (a + b)[1..] == a[1..] + b;
      UserInterfaceSlidesAppend(a[1..], b);
    } else {
      assert a + b == b;
    }
  }

  // ------------------------------------------------------------ modules

  datatype Category = PpeDetection | Safety | Operations | Other

  const PpeKeywords := ["helmet", "vest", "glove", "boot", "ppe"]
  const SafetyKeywords := ["safety", "unsafe", "danger"]
  const OperationsKeywords := ["count", "queue", "process"]

  predicate MentionsAny(s: string, keywords: seq<string>) {
    exists k :: k in keywords && Contains(s, k)
  }

  /** The group of a module: the first keyword list its lower-cased name mentions. */
  function CategoryOf(m: ModuleRecord): (c: Category)
    ensures c == PpeDetection <==> MentionsAny(Lower(m.name), PpeKeywords)
    ensures c == Safety <==> !MentionsAny(Lower(m.name), PpeKeywords) && MentionsAny(Lower(m.name), SafetyKeywords)
    ensures c == Other <==> !MentionsAny(Lower(m.name), PpeKeywords) && !MentionsAny(Lower(m.name), SafetyKeywords)
                            && !MentionsAny(Lower(m.name), OperationsKeywords)
  {
    var n := Lower(m.name);
    if MentionsAny(n, PpeKeywords) then PpeDetection
    else if MentionsAny(n, SafetyKeywords) then Safety
    else if MentionsAny(n, OperationsKeywords) then Operations
    else Other
  }

  /** The modules of one category, in input order. */
  function InCategory(ms: seq<ModuleRecord>, c: Category): (r: seq<ModuleRecord>)
    ensures |r| <= |ms|
    ensures forall m :: m in r ==> m in ms && CategoryOf(m) == c
    decreases |ms|
  {
    if |ms| == 0 then []
    else if CategoryOf(ms[0]) == c then [ms[0]] + InCategory(ms[1..], c)
    else InCategory(ms[1..], c)
  }

  /** Position of a category in the order the groups are emitted. */
  function Rank(c: Category): nat {
    match c
    case PpeDetection => 0
    case Safety => 1
    case Operations => 2
    case Other => 3
  }

  predicate RankOrdered(gs: seq<(Category, seq<ModuleRecord>)>) {
    forall i, j :: 0 <= i < j < |gs| ==> Rank(gs[i].0) < Rank(gs[j].0)
  }

  /** Every category with its modules, in the order PPE, Safety, Operations, Other. */
  function AllGroups(ms: seq<ModuleRecord>): (all: seq<(Category, seq<ModuleRecord>)>)
    ensures |all| == 4 && RankOrdered(all)
    ensures forall c :: all[Rank(c)] == (c, InCategory(ms, c))
  {
    [(PpeDetection, InCategory(ms, PpeDetection)), (Safety, InCategory(ms, Safety)),
     (Operations, InCategory(ms, Operations)), (Other, InCategory(ms, Other))]
  }

  /** `_group_modules`: the non-empty groups in the order PPE, Safety, Operations, Other,
      each holding its modules in input order. */
  function GroupModules(ms: seq<ModuleRecord>): (groups: seq<(Category, seq<ModuleRecord>)>)
    ensures forall g :: g in groups ==> g.1 != [] && g.1 == InCategory(ms, g.0)
    ensures RankOrdered(groups)
    ensures forall c :: InCategory(ms, c) != [] ==> (c, InCategory(ms, c)) in groups
  {
    var all := AllGroups(ms);
    forall c | InCategory(ms, c) != [] ensures (c, InCategory(ms, c)) in NonEmpty(all) {
      NonEmptyKeeps(all, all[Rank(c)]);
    }
    forall g | g in all ensures g.1 == InCategory(ms, g.0) {
      var k :| 0 <= k < 4 && all[k] == g;
      assert all[Rank(g.0)] == (g.0, InCategory(ms, g.0));
    }
    NonEmpty(all)
  }

  function NonEmpty(gs: seq<(Category, seq<ModuleRecord>)>): (r: seq<(Category, seq<ModuleRecord>)>)
    requires RankOrdered(gs)
    ensures forall g :: g in r ==> g in gs && g.1 != []
    ensures RankOrdered(r)
    decreases |gs|
  {
    if |gs| == 0 then []
    else
      var rest := NonEmpty(gs[1..]);
      if gs[0].1 == [] then rest
      else
        RankAbove(gs, rest);
        [gs[0]] + rest
  }

  lemma RankAbove(gs: seq<(Category, seq<ModuleRecord>)>, rest: seq<(Category, seq<ModuleRecord>)>)
    requires |gs| > 0 && RankOrdered(gs)
    requires forall g :: g in rest ==> g in gs[1..]
    ensures forall g :: g in rest ==> Rank(gs[0].0) < Rank(g.0)
  {
    forall g | g in rest ensures Rank(gs[0].0) < Rank(g.0) {
      var k :| 0 <= k < |gs[1..]| && gs[1..][k] == g;
      assert gs[k + 1] == g;
    }
  }

  /** No non-empty group is dropped. */
  lemma {:induction false} NonEmptyKeeps(gs: seq<(Category, seq<ModuleRecord>)>, g: (Category, seq<ModuleRecord>))
    requires RankOrdered(gs)
    requires g in gs && g.1 != []
    ensures g in NonEmpty(gs)
    decreases |gs|
  {
    if g != gs[0] {
      assert g in gs[1..];
      NonEmptyKeeps(gs[1..], g);
    }
  }

  function Concat(groups: seq<(Category, seq<ModuleRecord>)>): seq<ModuleRecord>
    decreases |groups|
  {
    if |groups| == 0 then [] else groups[0].1 + Concat(groups[1..])
  }

  /** Every module lands in exactly one group: the groups, read in order, hold the
      same modules as the input with the same multiplicities. */
  lemma GroupingIsPermutation(ms: seq<ModuleRecord>)
    ensures multiset(Concat(GroupModules(ms))) == multiset(ms)
  {
    var all := AllGroups(ms);
    ConcatNonEmpty(all);
    ConcatFour(all);
    assert all[0].1 == InCategory(ms, PpeDetection) by { assert all[Rank(PpeDetection)] == all[0]; }
    assert all[1].1 == InCategory(ms, Safety) by { assert all[Rank(Safety)] == all[1]; }
    assert all[2].1 == InCategory(ms, Operations) by { assert all[Rank(Operations)] == all[2]; }
    assert all[3].1 == InCategory(ms, Other) by { assert all[Rank(Other)] == all[3]; }
    SplitByCategory(ms);
  }

  lemma ConcatFour(all: seq<(Category, seq<ModuleRecord>)>)
    requires |all| == 4
    ensures Concat(all) == all[0].1 + (all[1].1 + (all[2].1 + all[3].1))
  {
    assert all[3..][1..] == [];
    assert Concat(all[3..]) == all[3].1 + [] == all[3].1;
    assert all[2..][1..] == all[3..];
    assert Concat(all[2..]) == all[2].1 + all[3].1;
    assert all[1..][1..] == all[2..];
    assert Concat(all[1..]) == all[1].1 + (all[2].1 + all[3].1);
  }

  lemma {:induction false} ConcatNonEmpty(gs: seq<(Category, seq<ModuleRecord>)>)
    requires RankOrdered(gs)
    ensures Concat(NonEmpty(gs)) == Concat(gs)
    decreases |gs|
  {
    if |gs| > 0 {
      assert RankOrdered(gs[1..]);
      ConcatNonEmpty(gs[1..]);
      var r := NonEmpty(gs[1..]);
      if gs[0].1 != [] {
        assert NonEmpty(gs) == [gs[0]] + r;
        assert ([gs[0]] + r)[1..] == r;
        assert Concat([gs[0]] + r) == gs[0].1 + Concat(r);
      } else {
        assert NonEmpty(gs) == r;
        assert Concat(gs) == gs[0].1 + Concat(gs[1..]);
      }
    }
  }

  lemma SplitByCategory(ms: seq<ModuleRecord>)
    ensures multiset(ms) == multiset(InCategory(ms, PpeDetection)) + multiset(InCategory(ms, Safety))
                           + multiset(InCategory(ms, Operations)) + multiset(InCategory(ms, Other))
  {
    var cats := CategoriesOf(ms);
    InCategoryPick(ms, PpeDetection);
    InCategoryPick(ms, Safety);
    InCategoryPick(ms, Operations);
    InCategoryPick(ms, Other);
    PickSplit(ms, cats);
  }

  /** The category of each module. */
  function CategoriesOf(ms: seq<ModuleRecord>): (cats: seq<Category>)
    ensures |cats| == |ms|
    decreases |ms|
  {
    if |ms| == 0 then [] else [CategoryOf(ms[0])] + CategoriesOf(ms[1..])
  }

  /** The modules whose entry in `cats` is `c`, in order. */
  function Pick(ms: seq<ModuleRecord>, cats: seq<Category>, c: Category): seq<ModuleRecord>
    requires |cats| == |ms|
    decreases |ms|
  {
    if |ms| == 0 then []
    else if cats[0] == c then [ms[0]] + Pick(ms[1..], cats[1..], c)
    else Pick(ms[1..], cats[1..], c)
  }

  lemma {:induction false} InCategoryPick(ms: seq<ModuleRecord>, c: Category)
    ensures InCategory(ms, c) == Pick(ms, CategoriesOf(ms), c)
    decreases |ms|
  {
    if |ms| > 0 {
      InCategoryPick(ms[1..], c);
      assert CategoriesOf(ms)[1..] == CategoriesOf(ms[1..]);
    }
  }

  /** Picking by each of the four categories splits the modules. */
  lemma {:induction false} PickSplit(ms: seq<ModuleRecord>, cats: seq<Category>)
    requires |cats| == |ms|
    ensures multiset(ms) == multiset(Pick(ms, cats, PpeDetection)) + multiset(Pick(ms, cats, Safety))
                           + multiset(Pick(ms, cats, Operations)) + multiset(Pick(ms, cats, Other))
    decreases |ms|
  {
    if |ms| > 0 {
      PickSplit(ms[1..], cats[1..]);
      assert ms == [ms[0]] + ms[1..];
    }
  }

  // ------------------------------------------------------ module slides

  datatype MapError =
    | ClientNameMissing
    | ModuleNameMissing(slideNumber: int)
    | ModuleFieldsMissing(moduleName: string, fields: seq<string>)
      /** `_extract_modules` reads an unbound match object (see `ModuleExtraction.ExtractModulesAsWritten`). */
    | ModuleHeaderUnbound

  /** The required fields that are blank, in the order the error message lists them. */
  function MissingFields(m: ModuleRecord): (fs: seq<string>)
    ensures fs == [] <==> !AllSpace(m.purpose) && !AllSpace(m.alertLogic) && !AllSpace(m.preconditions)
    ensures |fs| <= 3
  {
    (if AllSpace(m.purpose) then ["Purpose Description"] else [])
    + (if AllSpace(m.alertLogic) then ["Alert Trigger Logic"] else [])
    + (if AllSpace(m.preconditions) then ["Preconditions"] else [])
  }

  /** Which fields are listed, in terms of white space. */
  lemma MissingFieldsMembers(m: ModuleRecord)
    ensures "Purpose Description" in MissingFields(m) <==> AllSpace(m.purpose)
    ensures "Alert Trigger Logic" in MissingFields(m) <==> AllSpace(m.alertLogic)
    ensures "Preconditions" in MissingFields(m) <==> AllSpace(m.preconditions)
  {
    var p: seq<string> := if AllSpace(m.purpose) then ["Purpose Description"] else [];
    var a: seq<string> := if AllSpace(m.alertLogic) then ["Alert Trigger Logic"] else [];
    var c: seq<string> := if AllSpace(m.preconditions) then ["Preconditions"] else [];
    assert MissingFields(m) == p + a + c;
    assert |"Purpose Description"| == 19 && |"Alert Trigger Logic"| == 19 && |"Preconditions"| == 13;
    assert "Purpose Description"[0] == 'P' && "Alert Trigger Logic"[0] == 'A';
  }

  /** A required field is reported missing exactly when it strips to "",
      as `_map_proposed_modules` checks with `.strip()`. */
  lemma MissingFieldsStripped(m: ModuleRecord)
    ensures "Purpose Description" in MissingFields(m) <==> Strip(m.purpose) == ""
    ensures "Alert Trigger Logic" in MissingFields(m) <==> Strip(m.alertLogic) == ""
    ensures "Preconditions" in MissingFields(m) <==> Strip(m.preconditions) == ""
  {
    MissingFieldsMembers(m);
    StripEmptyIffAllSpace(m.purpose);
    StripEmptyIffAllSpace(m.alertLogic);
    StripEmptyIffAllSpace(m.preconditions);
  }

  /** Names starting with "Type:" are type lines mistaken for modules and get no slide. */
  predicate IsTypeLine(m: ModuleRecord) {
    StartsWith(m.name, "Type:")
  }

  /** A module that makes `_map_proposed_modules` raise. */
  predicate Rejected(m: ModuleRecord) {
    m.name == "" || (!IsTypeLine(m) && MissingFields(m) != [])
  }

  function ModuleSlide(m: ModuleRecord): SlideBody {
    ModuleDescription(m.name, m.moduleType,
      ModuleContent(Strip(m.purpose), Strip(m.alertLogic), Strip(m.preconditions), Strip(m.dataRequirements)),
      Strip(m.imageUrl), Strip(m.videoUrl))
  }

  /** A module slide whose required fields are all filled in. */
  predicate Complete(b: SlideBody) {
    b.ModuleDescription? && b.title != "" && b.fields.purpose != "" && b.fields.alertLogic != "" && b.fields.preconditions != ""
  }

  lemma AcceptedSlideComplete(m: ModuleRecord)
    requires m.name != "" && MissingFields(m) == []
    ensures Complete(ModuleSlide(m))
  {
    StripEmptyIffAllSpace(m.purpose);
    StripEmptyIffAllSpace(m.alertLogic);
    StripEmptyIffAllSpace(m.preconditions);
  }

  predicate NoneRejected(ms: seq<ModuleRecord>) {
    forall i :: 0 <= i < |ms| ==> !Rejected(ms[i])
  }

  /** A module that gets a slide: every module but the type lines. */
  predicate GetsSlide(m: ModuleRecord) {
    !IsTypeLine(m)
  }

  /** Position of the first rejected module, or `|ms|` when none is. */
  function FirstRejected(ms: seq<ModuleRecord>): (j: nat)
    ensures j <= |ms| && (j < |ms| ==> Rejected(ms[j]))
    ensures forall i :: 0 <= i < j ==> !Rejected(ms[i])
    decreases |ms|
  {
    if |ms| == 0 then 0
    else if Rejected(ms[0]) then 0
    else
      var k := FirstRejected(ms[1..]);
      assert forall i :: 1 <= i < 1 + k ==> ms[i] == ms[1..][i - 1];
      1 + k
  }

  /** The error `_map_proposed_modules` raises for a rejected module reached
      when the counter shows `slideNumber`. */
  function ModuleError(m: ModuleRecord, slideNumber: int): MapError {
    if m.name == "" then ModuleNameMissing(slideNumber) else ModuleFieldsMissing(m.name, MissingFields(m))
  }

  /**
   * The module slides, numbered from `next`, or the error raised at the first
   * rejected module. It fails exactly when some module is rejected; otherwise
   * it holds one slide per module that is not a type line, in order.
   */
  function ModuleSlides(ms: seq<ModuleRecord>, next: int): (r: Result<seq<SlideBody>, MapError>)
    ensures r.Ok? <==> NoneRejected(ms)
    ensures r.Ok? ==> r.value == Keep(ms, GetsSlide, ModuleSlide)
    ensures r.Err? ==> r.error.ModuleNameMissing? || r.error.ModuleFieldsMissing?
    decreases |ms|
  {
    if |ms| == 0 then Ok([])
    else
      var m := ms[0];
      assert NoneRejected(ms) <==> !Rejected(m) && NoneRejected(ms[1..]) by {
        assert forall i :: 1 <= i < |ms| ==> ms[i] == ms[1..][i - 1];
      }
      if m.name == "" then Err(ModuleNameMissing(next))
      else if IsTypeLine(m) then ModuleSlides(ms[1..], next)
      else if MissingFields(m) != [] then Err(ModuleFieldsMissing(m.name, MissingFields(m)))
      else match ModuleSlides(ms[1..], next + 1)
        case Ok(rest) => Ok([ModuleSlide(m)] + rest)
        case Err(e) => Err(e)
  }

  /** Every module that is not a type line gets a slide, titled by its name,
      and every produced slide is such a module's and has its title and
      required fields filled in. */
  lemma ModuleSlidesContent(ms: seq<ModuleRecord>, next: int)
    requires ModuleSlides(ms, next).Ok?
    ensures forall i :: 0 <= i < |ms| && GetsSlide(ms[i]) ==> ModuleSlide(ms[i]) in ModuleSlides(ms, next).value
    ensures forall b :: b in ModuleSlides(ms, next).value ==>
              Complete(b) && exists i :: 0 <= i < |ms| && GetsSlide(ms[i]) && b == ModuleSlide(ms[i]) && b.title == ms[i].name
  {
    var bs := ModuleSlides(ms, next).value;
    forall i | 0 <= i < |ms| && GetsSlide(ms[i])
      ensures ModuleSlide(ms[i]) in bs
    {
      KeepHas(ms, GetsSlide, ModuleSlide, i);
    }
    forall b | b in bs
      ensures Complete(b) && exists i :: 0 <= i < |ms| && GetsSlide(ms[i]) && b == ModuleSlide(ms[i]) && b.title == ms[i].name
    {
      var i := KeepSource(ms, GetsSlide, ModuleSlide, b);
      assert !Rejected(ms[i]);
      AcceptedSlideComplete(ms[i]);
    }
  }

  /** How many of the first `j` modules get a slide. */
  function SlidesBefore(ms: seq<ModuleRecord>, j: nat): (n: nat)
    requires j <= |ms|
    ensures n <= j
  {
    if j == 0 then 0 else SlidesBefore(ms, j - 1) + (if GetsSlide(ms[j - 1]) then 1 else 0)
  }

  lemma {:induction false} SlidesBeforeTail(ms: seq<ModuleRecord>, j: nat)
    requires 1 <= j <= |ms|
    ensures SlidesBefore(ms, j) == (if GetsSlide(ms[0]) then 1 else 0) + SlidesBefore(ms[1..], j - 1)
    decreases j
  {
    if j > 1 {
      SlidesBeforeTail(ms, j - 1);
      assert ms[j - 1] == ms[1..][j - 2];
    }
  }

  /** The first module, when rejected, ends the run with its error. */
  lemma ModuleSlidesStop(ms: seq<ModuleRecord>, next: int)
    requires |ms| > 0 && Rejected(ms[0])
    ensures ModuleSlides(ms, next) == Err(ModuleError(ms[0], next))
  {
  }

  /** Past an accepted first module the run goes on with the counter advanced
      only if that module got a slide. */
  lemma ModuleSlidesSkip(ms: seq<ModuleRecord>, next: int)
    requires ModuleSlides(ms, next).Err? && !Rejected(ms[0])
    ensures ModuleSlides(ms[1..], if GetsSlide(ms[0]) then next + 1 else next).Err?
    ensures ModuleSlides(ms, next).error == ModuleSlides(ms[1..], if GetsSlide(ms[0]) then next + 1 else next).error
  {
  }

  /**
   * A failure reports the first rejected module, with the slide number the
   * counter shows when it is reached: `next` plus the slides made before it.
   */
  lemma {:induction false} ModuleSlidesError(ms: seq<ModuleRecord>, next: int)
    requires ModuleSlides(ms, next).Err?
    ensures FirstRejected(ms) < |ms|
    ensures ModuleSlides(ms, next).error == ModuleError(ms[FirstRejected(ms)], next + SlidesBefore(ms, FirstRejected(ms)))
    decreases |ms|
  {
    if Rejected(ms[0]) {
      ModuleSlidesStop(ms, next);
    } else {
      var next' := if GetsSlide(ms[0]) then next + 1 else next;
      ModuleSlidesSkip(ms, next);
      ModuleSlidesError(ms[1..], next');
      var j' := FirstRejected(ms[1..]);
      assert FirstRejected(ms) == 1 + j';
      SlidesBeforeTail(ms, 1 + j');
      assert ms[1 + j'] == ms[1..][j'];
    }
  }

  // ------------------------------------------------------- the whole map

  /** The facts the mapper reads from a proposal, already extracted. The two
      sub-section lists are dicts as `_extract_subsection` returns them, that
      is, `Subsections` of the section's headers. */
  datatype Proposal = Proposal(
    projectName: string,
    clientName: Option<string>,
    date: string,
    requirementFields: seq<(string, string)>,
    vendorItems: seq<string>,
    clientItems: seq<string>,
    diagramCode: Option<string>,
    architectureDescription: string,
    architectureContent: string,
    hasDetailedDescription: bool,
    requirementSubsections: seq<(string, string)>,
    milestones: seq<Milestone>,
    modules: ModuleSection,
    interfaceSubsections: seq<(string, string)>)

  datatype SlideStructure = SlideStructure(projectName: string, clientName: string, totalSlides: int, slides: seq<Slide>)

  function ArchitectureSlides(p: Proposal): (bs: seq<SlideBody>)
    ensures 1 <= |bs| <= 2 && bs[0].DiagramSlide?
    ensures |bs| == 2 <==> p.hasDetailedDescription
  {
    [DiagramSlide("Proposed System Architecture", p.diagramCode.GetOr(""), p.architectureDescription)]
    + (if p.hasDetailedDescription then [ContentBullets("System Architecture Description", FormatBullets(p.architectureContent))] else [])
  }

  /** Every slide before the module slides, in the order `map` builds them. */
  function LeadingSlides(p: Proposal, client: string): (bs: seq<SlideBody>)
    ensures |bs| >= 5
    ensures bs[0] == TitleSlide("Video Analytics Solution Proposal for " + client, p.date)
  {
    var head := [TitleSlide("Video Analytics Solution Proposal for " + client, p.date),
                 ContentBullets("Project Requirement Statement", ProjectRequirementContent(p.requirementFields)),
                 TwoColumn("Scope of Work", p.vendorItems, p.clientItems)];
    var tail := ArchitectureSlides(p) + SystemRequirementSlides(p.requirementSubsections)
                + [TimelineSlide("Implementation Plan", p.milestones)];
    assert (head + tail)[0] == head[0];
    head + tail
  }

  /** The order `_map_proposed_modules` visits modules in: group by group. */
  function ModuleOrder(ms: seq<ModuleRecord>): (r: seq<ModuleRecord>)
    ensures multiset(r) == multiset(ms)
    ensures NoneRejected(r) <==> NoneRejected(ms)
  {
    var r := Concat(GroupModules(ms));
    GroupingIsPermutation(ms);
    SameMembers(r, ms);
    r
  }

  /**
   * `SlideMapper.map` once the modules are extracted as `ms`. It fails when the
   * client name is missing (raised while building the cover) or a module is
   * rejected; otherwise slide i carries number i + 1, `total_slides` is the
   * slide count and the cover comes first.
   */
  function MapWith(p: Proposal, ms: seq<ModuleRecord>): (r: Result<SlideStructure, MapError>)
    ensures p.clientName.None? ==> r == Err(ClientNameMissing)
    ensures r.Ok? <==> p.clientName.Some? && NoneRejected(ms)
    ensures r.Ok? ==> Consistent(r.value)
    ensures r != Err(ModuleHeaderUnbound)
  {
    match p.clientName
    case None => Err(ClientNameMissing)
    case Some(client) =>
      var lead := LeadingSlides(p, client);
      var modules := ModuleSlides(ModuleOrder(ms), |lead| + 1);
      if modules.Err? then Err(modules.error)
      else Ok(Assemble(p.projectName, client, lead, modules.value + UserInterfaceSlides(p.interfaceSubsections)))
  }

  /**
   * `SlideMapper.map` as written: the modules come from the as-written
   * extraction, so a section with no numbered and no `###` header fails with
   * the unbound-match error once the leading slides are built.
   */
  function Map(p: Proposal): (r: Result<SlideStructure, MapError>)
    ensures p.clientName.None? ==> r == Err(ClientNameMissing)
    ensures p.clientName.Some? && ExtractModulesAsWritten(p.modules).Err? ==> r == Err(ModuleHeaderUnbound)
    ensures r.Ok? <==> p.clientName.Some? && ExtractModulesAsWritten(p.modules).Ok?
                       && NoneRejected(ExtractModulesAsWritten(p.modules).value)
    ensures r.Ok? ==> Consistent(r.value)
  {
    if p.clientName.None? then Err(ClientNameMissing)
    else match ExtractModulesAsWritten(p.modules)
      case Err(_) => Err(ModuleHeaderUnbound)
      case Ok(ms) => MapWith(p, ms)
  }

  /** The map on the corrected extraction: it never hits the unbound match. */
  function MapCorrected(p: Proposal): (r: Result<SlideStructure, MapError>)
    ensures p.clientName.None? ==> r == Err(ClientNameMissing)
    ensures r.Ok? <==> p.clientName.Some? && NoneRejected(ExtractModules(p.modules))
    ensures r.Ok? ==> Consistent(r.value)
    ensures r != Err(ModuleHeaderUnbound)
  {
    MapWith(p, ExtractModules(p.modules))
  }

  /** Wherever the as-written extraction succeeds on one `###` header or on
      numbered headers, the as-written map and the corrected one agree. */
  lemma MapAgreesWhenExtractionDoes(p: Proposal)
    requires |p.modules.numbered| > 0 || |p.modules.hashed| == 1
    ensures Map(p) == MapCorrected(p)
  {
    AsWrittenAgreesOnOneHeader(p.modules);
  }

  /** A finished structure: at least the five leading slides, the cover first,
      slide i numbered i + 1 and `total_slides` equal to the slide count. */
  predicate Consistent(s: SlideStructure) {
    s.totalSlides == |s.slides| >= 5 && s.slides[0].body.TitleSlide?
    && forall i :: 0 <= i < |s.slides| ==> s.slides[i].number == i + 1
  }

  /** The slides appended one by one to an empty mapper: the leading ones, then the rest. */
  function Assemble(projectName: string, client: string, lead: seq<SlideBody>, rest: seq<SlideBody>): (s: SlideStructure)
    requires |lead| >= 5 && lead[0].TitleSlide?
    ensures Consistent(s) && |s.slides| == |lead| + |rest|
    ensures forall i :: 0 <= i < |lead| ==> s.slides[i].body == lead[i]
    ensures forall i :: 0 <= i < |rest| ==> s.slides[|lead| + i].body == rest[i]
  {
    var d := AppendAll(EmptyDeck, lead);
    var d2 := AppendAll(d, rest);
    SlideStructure(projectName, client, |d2.slides|, d2.slides)
  }

  lemma SameMembers(a: seq<ModuleRecord>, b: seq<ModuleRecord>)
    requires multiset(a) == multiset(b)
    ensures NoneRejected(a) <==> NoneRejected(b)
  {
    forall m
      ensures m in a <==> m in b
    {
      assert m in a <==> m in multiset(a);
      assert m in b <==> m in multiset(b);
    }
    if !NoneRejected(a) {
      var i :| 0 <= i < |a| && Rejected(a[i]);
      assert a[i] in b;
    }
    if !NoneRejected(b) {
      var i :| 0 <= i < |b| && Rejected(b[i]);
      assert b[i] in a;
    }
  }
}
