/**
 * The PDF download (app.py:293-349): the list of flowables ("the story") handed to the
 * document builder, and the file name of the attachment.  Layout, fonts and styles are
 * abstracted away: an element is a title, a heading, a paragraph of markup or a spacer.
 * User text is pasted into the markup as it is, without escaping.
 */
module PdfStory {

  import opened Wrappers
  import opened Strings
  import opened Records
  import FormDecoder

  /** The two spacer heights the builder uses: 0.2 inch and 0.1 inch. */
  datatype Gap = Wide | Narrow

  /** The five optional sections, in the order the builder emits them. */
  datatype Part = SummaryPart | EducationPart | ExperiencePart | SkillsPart | AwardsPart

  /** The heading text printed for a section. */
  function Label(p: Part): string {
    match p
    case SummaryPart => "SUMMARY"
    case EducationPart => "EDUCATION"
    case ExperiencePart => "EXPERIENCE"
    case SkillsPart => "SKILLS"
    case AwardsPart => "AWARDS & CERTIFICATIONS"
  }

  /** One flowable of the story; a heading is printed as the label of its section. */
  datatype Element =
    | Title(text: string)
    | Heading(part: Part)
    | Para(markup: string)
    | Spacer(gap: Gap)

  /** The award bullet exactly as the source file spells it (a UTF-8 bullet read as Windows-1252, cp1252). */
  const BulletPrefix: string := "\U{00E2}\U{20AC}\U{00A2} "

  /** Python's f-string rendering of an optional field: a missing value prints as "None". */
  function Text(o: Option<string>): string {
    match o
    case Some(v) => v
    case None => "None"
  }

  predicate StartsWith(s: string, p: string) {
    |p| <= |s| && s[..|p|] == p
  }

  predicate EndsWith(s: string, p: string) {
    |p| <= |s| && s[|s| - |p|..] == p
  }

  // ---------------------------------------------------------------------------------------------
  // Entry markup
  // ---------------------------------------------------------------------------------------------

  /** The paragraph of one education entry. */
  function EducationMarkup(e: Education): string {
    "<b>" + Text(e.degree) + " in " + Text(e.field) + "</b><br/>" + e.institution + "<br/>"
      + (Text(e.startDate) + " - " + Text(e.endDate))
      + (if HasText(e.description) then "<br/>" + e.description.value else "")
  }

  /** The paragraph of one experience entry. */
  function ExperienceMarkup(e: Experience): string {
    "<b>" + Text(e.position) + "</b> at " + e.company + "<br/>"
      + (Text(e.startDate) + " - " + Text(e.endDate))
      + (if HasText(e.description) then "<br/>" + e.description.value else "")
  }

  /** The bold heading line opens the paragraph; it closes with the description when there is one,
      and with the date range otherwise. */
  lemma EducationMarkupLayout(e: Education)
    ensures StartsWith(EducationMarkup(e), "<b>" + Text(e.degree) + " in " + Text(e.field) + "</b><br/>" + e.institution + "<br/>")
    ensures HasText(e.description) ==> EndsWith(EducationMarkup(e), "<br/>" + e.description.value)
    ensures !HasText(e.description) ==> EndsWith(EducationMarkup(e), Text(e.startDate) + " - " + Text(e.endDate))
  {
    var head := "<b>" + Text(e.degree) + " in " + Text(e.field) + "</b><br/>" + e.institution + "<br/>";
    var dates := Text(e.startDate) + " - " + Text(e.endDate);
    var tail := if HasText(e.description) then "<br/>" + e.description.value else "";
    assert EducationMarkup(e) == head + dates + tail;
    ThreeParts(head, dates, tail);
  }

  lemma ExperienceMarkupLayout(e: Experience)
    ensures StartsWith(ExperienceMarkup(e), "<b>" + Text(e.position) + "</b> at " + e.company + "<br/>")
    ensures HasText(e.description) ==> EndsWith(ExperienceMarkup(e), "<br/>" + e.description.value)
    ensures !HasText(e.description) ==> EndsWith(ExperienceMarkup(e), Text(e.startDate) + " - " + Text(e.endDate))
  {
    var head := "<b>" + Text(e.position) + "</b> at " + e.company + "<br/>";
    var dates := Text(e.startDate) + " - " + Text(e.endDate);
    var tail := if HasText(e.description) then "<br/>" + e.description.value else "";
    assert ExperienceMarkup(e) == head + dates + tail;
    ThreeParts(head, dates, tail);
  }

  /** A text made of three pieces starts with the first and ends with the last, or with the middle
      when the last is empty. */
  lemma ThreeParts(head: string, mid: string, tail: string)
    ensures StartsWith(head + mid + tail, head) && EndsWith(head + mid + tail, tail)
    ensures tail == [] ==> EndsWith(head + mid + tail, mid)
  {
    assert (head + mid + tail)[..|head|] == head;
    if tail == [] {
      assert head + mid + tail == head + mid;
    }
  }

  /** User text is pasted into the markup unescaped: whatever the degree, field, institution and
      description hold, `<` and `&` included, each appears verbatim at its place in the paragraph. */
  lemma EducationMarkupVerbatim(e: Education)
    ensures var m := EducationMarkup(e); var d := Text(e.degree);
      |m| >= 3 + |d| && m[3..3 + |d|] == d
    ensures var m := EducationMarkup(e); var a := "<b>" + Text(e.degree) + " in "; var f := Text(e.field);
      |m| >= |a| + |f| && m[|a|..|a| + |f|] == f
    ensures var m := EducationMarkup(e); var a := "<b>" + Text(e.degree) + " in " + Text(e.field) + "</b><br/>";
      |m| >= |a| + |e.institution| && m[|a|..|a| + |e.institution|] == e.institution
    ensures HasText(e.description) ==> EndsWith(EducationMarkup(e), e.description.value)
  {
    var m := EducationMarkup(e);
    var a0 := "<b>";
    var a1 := "<b>" + Text(e.degree) + " in ";
    var a2 := "<b>" + Text(e.degree) + " in " + Text(e.field) + "</b><br/>";
    Slice(a0, Text(e.degree), m[|a0| + |Text(e.degree)|..], m);
    Slice(a1, Text(e.field), m[|a1| + |Text(e.field)|..], m);
    Slice(a2, e.institution, m[|a2| + |e.institution|..], m);
    if HasText(e.description) {
      EducationMarkupLayout(e);
      EndsWithTail(m, "<br/>", e.description.value);
    }
  }

  lemma ExperienceMarkupVerbatim(e: Experience)
    ensures var m := ExperienceMarkup(e); var p := Text(e.position);
      |m| >= 3 + |p| && m[3..3 + |p|] == p
    ensures var m := ExperienceMarkup(e); var a := "<b>" + Text(e.position) + "</b> at ";
      |m| >= |a| + |e.company| && m[|a|..|a| + |e.company|] == e.company
    ensures HasText(e.description) ==> EndsWith(ExperienceMarkup(e), e.description.value)
  {
    var m := ExperienceMarkup(e);
    var a0 := "<b>";
    var a1 := "<b>" + Text(e.position) + "</b> at ";
    Slice(a0, Text(e.position), m[|a0| + |Text(e.position)|..], m);
    Slice(a1, e.company, m[|a1| + |e.company|..], m);
    if HasText(e.description) {
      ExperienceMarkupLayout(e);
      EndsWithTail(m, "<br/>", e.description.value);
    }
  }

  /** The middle of a text made of three pieces. */
  lemma Slice<T>(a: seq<T>, b: seq<T>, c: seq<T>, m: seq<T>)
    requires m == a + b + c
    ensures |m| >= |a| + |b| && m[|a|..|a| + |b|] == b
  {
  }

  /** A text that ends with `x + y` ends with `y`. */
  lemma EndsWithTail(m: string, x: string, y: string)
    requires EndsWith(m, x + y)
    ensures EndsWith(m, y)
  {
    assert m[|m| - |y|..] == m[|m| - |x + y|..][|x|..];
  }

  /** The " in " between degree and field is not escaped either: two different entries can render
      to the same paragraph, so the paragraph does not determine the entry. */
  lemma DegreeFieldAmbiguity()
    ensures
      var a := Education("MIT", Some("BSc in Math"), Some("CS"), Some("2019"), Some("2023"), None);
      var b := Education("MIT", Some("BSc"), Some("Math in CS"), Some("2019"), Some("2023"), None);
      a != b && EducationMarkup(a) == EducationMarkup(b)
  {
  }

  // ---------------------------------------------------------------------------------------------
  // Sections
  // ---------------------------------------------------------------------------------------------

  /** For each entry, its paragraph and a narrow spacer, in list order. */
  function EducationBlocks(es: seq<Education>): (blocks: seq<Element>)
    ensures |blocks| == 2 * |es|
    decreases |es|
  {
    if es == [] then [] else EducationBlocks(es[..|es| - 1]) + [Para(EducationMarkup(es[|es| - 1])), Spacer(Narrow)]
  }

  /** Entry j of the list gives elements 2j and 2j+1. */
  lemma {:induction false} EducationBlocksShape(es: seq<Education>)
    ensures forall j | 0 <= j < |es| ::
      EducationBlocks(es)[2 * j] == Para(EducationMarkup(es[j])) && EducationBlocks(es)[2 * j + 1] == Spacer(Narrow)
    decreases |es|
  {
    if es != [] {
      var n := |es| - 1;
      var init := es[..n];
      EducationBlocksShape(init);
      var b := EducationBlocks(es);
      var p := EducationBlocks(init);
      assert b == p + [Para(EducationMarkup(es[n])), Spacer(Narrow)];
      AppendedPair(p, Para(EducationMarkup(es[n])), Spacer(Narrow));
      assert forall j | 0 <= j < n :: init[j] == es[j];
    }
  }

  /** Indexing a sequence extended by two elements. */
  lemma AppendedPair(p: seq<Element>, x: Element, y: Element)
    ensures forall k | 0 <= k < |p| :: (p + [x, y])[k] == p[k]
    ensures (p + [x, y])[|p|] == x && (p + [x, y])[|p| + 1] == y
  {
  }

  /** Indexing a sequence extended by one element. */
  lemma AppendedOne(p: seq<Element>, x: Element)
    ensures forall k | 0 <= k < |p| :: (p + [x])[k] == p[k]
    ensures (p + [x])[|p|] == x
  {
  }

  function ExperienceBlocks(es: seq<Experience>): (blocks: seq<Element>)
    ensures |blocks| == 2 * |es|
    decreases |es|
  {
    if es == [] then [] else ExperienceBlocks(es[..|es| - 1]) + [Para(ExperienceMarkup(es[|es| - 1])), Spacer(Narrow)]
  }

  lemma {:induction false} ExperienceBlocksShape(es: seq<Experience>)
    ensures forall j | 0 <= j < |es| ::
      ExperienceBlocks(es)[2 * j] == Para(ExperienceMarkup(es[j])) && ExperienceBlocks(es)[2 * j + 1] == Spacer(Narrow)
    decreases |es|
  {
    if es != [] {
      var n := |es| - 1;
      var init := es[..n];
      ExperienceBlocksShape(init);
      var b := ExperienceBlocks(es);
      var p := ExperienceBlocks(init);
      assert b == p + [Para(ExperienceMarkup(es[n])), Spacer(Narrow)];
      AppendedPair(p, Para(ExperienceMarkup(es[n])), Spacer(Narrow));
      assert forall j | 0 <= j < n :: init[j] == es[j];
    }
  }

  /** One bullet paragraph per award, in list order. */
  function AwardLines(awards: seq<string>): (lines: seq<Element>)
    ensures |lines| == |awards|
    decreases |awards|
  {
    if awards == [] then [] else AwardLines(awards[..|awards| - 1]) + [Para(BulletPrefix + awards[|awards| - 1])]
  }

  lemma {:induction false} AwardLinesShape(awards: seq<string>)
    ensures forall j | 0 <= j < |awards| :: AwardLines(awards)[j] == Para(BulletPrefix + awards[j])
    decreases |awards|
  {
    if awards != [] {
      var n := |awards| - 1;
      var init := awards[..n];
      AwardLinesShape(init);
      var l := AwardLines(awards);
      var p := AwardLines(init);
      assert l == p + [Para(BulletPrefix + awards[n])];
      AppendedOne(p, Para(BulletPrefix + awards[n]));
      assert forall j | 0 <= j < n :: init[j] == awards[j];
    }
  }

  function SummarySection(r: Resume): seq<Element> {
    if HasText(r.summary) then [Heading(SummaryPart), Para(r.summary.value), Spacer(Wide)] else []
  }

  function EducationSection(r: Resume): seq<Element> {
    if |r.education| > 0 then [Heading(EducationPart)] + EducationBlocks(r.education) + [Spacer(Narrow)] else []
  }

  function ExperienceSection(r: Resume): seq<Element> {
    if |r.experience| > 0 then [Heading(ExperiencePart)] + ExperienceBlocks(r.experience) + [Spacer(Narrow)] else []
  }

  function SkillsSection(r: Resume): seq<Element> {
    if |r.skills| > 0 then [Heading(SkillsPart), Para(Join(r.skills, ", ")), Spacer(Wide)] else []
  }

  function AwardsSection(r: Resume): seq<Element> {
    if |r.awards| > 0 then [Heading(AwardsPart)] + AwardLines(r.awards) else []
  }

  /** The whole story: the title and a wide spacer, then the sections in their fixed order. */
  function StoryOf(r: Resume): seq<Element> {
    [Title(r.title), Spacer(Wide)]
      + SummarySection(r) + EducationSection(r) + ExperienceSection(r)
      + SkillsSection(r) + AwardsSection(r)
  }

  /** The loop over the education entries: a paragraph and a narrow spacer each. */
  method AppendEducation(es: seq<Education>) returns (blocks: seq<Element>)
    ensures blocks == EducationBlocks(es)
  {
    blocks := [];
    for i := 0 to |es|
      invariant blocks == EducationBlocks(es[..i])
    {
      assert es[..i + 1][..i] == es[..i];
      blocks := blocks + [Para(EducationMarkup(es[i])), Spacer(Narrow)];
    }
    assert es[..|es|] == es;
  }

  /** The loop over the experience entries. */
  method AppendExperience(es: seq<Experience>) returns (blocks: seq<Element>)
    ensures blocks == ExperienceBlocks(es)
  {
    blocks := [];
    for i := 0 to |es|
      invariant blocks == ExperienceBlocks(es[..i])
    {
      assert es[..i + 1][..i] == es[..i];
      blocks := blocks + [Para(ExperienceMarkup(es[i])), Spacer(Narrow)];
    }
    assert es[..|es|] == es;
  }

  /** The loop over the awards: one bullet paragraph each. */
  method AppendAwards(awards: seq<string>) returns (lines: seq<Element>)
    ensures lines == AwardLines(awards)
  {
    lines := [];
    for i := 0 to |awards|
      invariant lines == AwardLines(awards[..i])
    {
      assert awards[..i + 1][..i] == awards[..i];
      lines := lines + [Para(BulletPrefix + awards[i])];
    }
    assert awards[..|awards|] == awards;
  }

  /** The summary heading, paragraph and wide spacer, when there is a summary. */
  method EmitSummary(r: Resume) returns (part: seq<Element>)
    ensures part == SummarySection(r)
  {
    part := [];
    if HasText(r.summary) {
      part := [Heading(SummaryPart), Para(r.summary.value), Spacer(Wide)];
    }
  }

  /** The education heading, the entries and a narrow spacer, when there are entries. */
  method EmitEducation(r: Resume) returns (part: seq<Element>)
    ensures part == EducationSection(r)
  {
    part := [];
    if |r.education| > 0 {
      var blocks := AppendEducation(r.education);
      part := [Heading(EducationPart)] + blocks + [Spacer(Narrow)];
    }
  }

  /** The experience heading, the entries and a narrow spacer, when there are entries. */
  method EmitExperience(r: Resume) returns (part: seq<Element>)
    ensures part == ExperienceSection(r)
  {
    part := [];
    if |r.experience| > 0 {
      var blocks := AppendExperience(r.experience);
      part := [Heading(ExperiencePart)] + blocks + [Spacer(Narrow)];
    }
  }

  /** The skills heading, the joined skills and a wide spacer, when there are skills. */
  method EmitSkills(r: Resume) returns (part: seq<Element>)
    ensures part == SkillsSection(r)
  {
    part := [];
    if |r.skills| > 0 {
      part := [Heading(SkillsPart), Para(Join(r.skills, ", ")), Spacer(Wide)];
    }
  }

  /** The awards heading and one bullet line per award, when there are awards. */
  method EmitAwards(r: Resume) returns (part: seq<Element>)
    ensures part == AwardsSection(r)
  {
    part := [];
    if |r.awards| > 0 {
      var lines := AppendAwards(r.awards);
      part := [Heading(AwardsPart)] + lines;
    }
  }

  /** The builder: the title, then each section in turn, as in the download handler. */
  method BuildStory(r: Resume) returns (story: seq<Element>)
    ensures story == StoryOf(r)
  {
    story := [Title(r.title), Spacer(Wide)];
    var part := EmitSummary(r);
    story := story + part;
    part := EmitEducation(r);
    story := story + part;
    part := EmitExperience(r);
    story := story + part;
    part := EmitSkills(r);
    story := story + part;
    part := EmitAwards(r);
    story := story + part;
  }

  // ---------------------------------------------------------------------------------------------
  // Properties of the story
  // ---------------------------------------------------------------------------------------------

  /** The heading texts of a story, in order. */
  function Headings(story: seq<Element>): seq<Part>
    decreases |story|
  {
    if story == [] then []
    else (if story[0].Heading? then [story[0].part] else []) + Headings(story[1..])
  }

  lemma {:induction false} HeadingsConcat(a: seq<Element>, b: seq<Element>)
    ensures Headings(a + b) == Headings(a) + Headings(b)
    decreases |a|
  {
    if a != [] {
      assert (a + b)[1..] == a[1..] + b;
      HeadingsConcat(a[1..], b);
    } else {
      assert a + b == b;
    }
  }

  /** Headings of two pieces whose headings are known. */
  lemma HeadingsAppend(a: seq<Element>, b: seq<Element>, ha: seq<Part>, hb: seq<Part>)
    requires Headings(a) == ha && Headings(b) == hb
    ensures Headings(a + b) == ha + hb
  {
    HeadingsConcat(a, b);
  }

  lemma {:induction false} HeadingsNone(s: seq<Element>)
    requires Body(s)
    ensures Headings(s) == []
    decreases |s|
  {
    if s != [] {
      assert forall k | 0 <= k < |s[1..]| :: s[1..][k] == s[k + 1];
      HeadingsNone(s[1..]);
    }
  }

  /** No element of the sequence is a title. */
  predicate NoTitle(s: seq<Element>) {
    forall k | 0 <= k < |s| :: !s[k].Title?
  }

  /** Every element is a paragraph or a spacer: entry content, with neither a heading nor a title. */
  predicate Body(s: seq<Element>) {
    forall k | 0 <= k < |s| :: s[k].Para? || s[k].Spacer?
  }

  lemma NoTitleConcat(a: seq<Element>, b: seq<Element>)
    requires NoTitle(a) && NoTitle(b)
    ensures NoTitle(a + b)
  {
    assert forall k | 0 <= k < |a + b| :: (a + b)[k] == if k < |a| then a[k] else b[k - |a|];
  }

  lemma BodyConcat(a: seq<Element>, b: seq<Element>)
    requires Body(a) && Body(b)
    ensures Body(a + b)
  {
    assert forall k | 0 <= k < |a + b| :: (a + b)[k] == if k < |a| then a[k] else b[k - |a|];
  }

  lemma {:induction false} EducationBlocksPlain(es: seq<Education>)
    ensures Body(EducationBlocks(es))
    decreases |es|
  {
    if es != [] {
      var init := es[..|es| - 1];
      EducationBlocksPlain(init);
      BodyConcat(EducationBlocks(init), [Para(EducationMarkup(es[|es| - 1])), Spacer(Narrow)]);
    }
  }

  lemma {:induction false} ExperienceBlocksPlain(es: seq<Experience>)
    ensures Body(ExperienceBlocks(es))
    decreases |es|
  {
    if es != [] {
      var init := es[..|es| - 1];
      ExperienceBlocksPlain(init);
      BodyConcat(ExperienceBlocks(init), [Para(ExperienceMarkup(es[|es| - 1])), Spacer(Narrow)]);
    }
  }

  lemma {:induction false} AwardLinesPlain(awards: seq<string>)
    ensures Body(AwardLines(awards))
    decreases |awards|
  {
    if awards != [] {
      var init := awards[..|awards| - 1];
      AwardLinesPlain(init);
      BodyConcat(AwardLines(init), [Para(BulletPrefix + awards[|awards| - 1])]);
    }
  }

  /** The heading `p` followed by body elements. */
  predicate Headed(s: seq<Element>, p: Part) {
    |s| > 0 && s[0] == Heading(p) && Body(s[1..])
  }

  /** A heading followed by body elements has exactly that heading, and no title. */
  lemma HeadedBody(s: seq<Element>, p: Part)
    requires Headed(s, p)
    ensures Headings(s) == [p] && NoTitle(s)
  {
    var body := s[1..];
    assert s == [Heading(p)] + body;
    HeadingsNone(body);
    HeadingsConcat([Heading(p)], body);
    assert forall k | 1 <= k < |s| :: s[k] == body[k - 1];
  }

  /** `[p]` when the section is present, `[]` otherwise. */
  function PartIf(present: bool, p: Part): seq<Part> {
    if present then [p] else []
  }

  /** The sections present, in the fixed order, each when its field is non-empty. */
  function ExpectedHeadings(r: Resume): seq<Part> {
    PartIf(HasText(r.summary), SummaryPart) + PartIf(|r.education| > 0, EducationPart)
      + PartIf(|r.experience| > 0, ExperiencePart) + PartIf(|r.skills| > 0, SkillsPart)
      + PartIf(|r.awards| > 0, AwardsPart)
  }

  /** Each section present is its heading followed by body elements. */
  lemma SectionBodies(r: Resume)
    ensures HasText(r.summary) ==> Headed(SummarySection(r), SummaryPart)
    ensures |r.education| > 0 ==> Headed(EducationSection(r), EducationPart)
    ensures |r.experience| > 0 ==> Headed(ExperienceSection(r), ExperiencePart)
    ensures |r.skills| > 0 ==> Headed(SkillsSection(r), SkillsPart)
    ensures |r.awards| > 0 ==> Headed(AwardsSection(r), AwardsPart)
  {
    EducationBlocksPlain(r.education);
    ExperienceBlocksPlain(r.experience);
    AwardLinesPlain(r.awards);
    if HasText(r.summary) {
      assert SummarySection(r)[1..] == [Para(r.summary.value), Spacer(Wide)];
    }
    if |r.education| > 0 {
      BodyConcat(EducationBlocks(r.education), [Spacer(Narrow)]);
      assert EducationSection(r)[1..] == EducationBlocks(r.education) + [Spacer(Narrow)];
    }
    if |r.experience| > 0 {
      BodyConcat(ExperienceBlocks(r.experience), [Spacer(Narrow)]);
      assert ExperienceSection(r)[1..] == ExperienceBlocks(r.experience) + [Spacer(Narrow)];
    }
    if |r.skills| > 0 {
      assert SkillsSection(r)[1..] == [Para(Join(r.skills, ", ")), Spacer(Wide)];
    }
    if |r.awards| > 0 {
      assert AwardsSection(r)[1..] == AwardLines(r.awards);
    }
  }

  /** A section, present or not, has its own heading when present and holds no title. */
  lemma SectionShape(s: seq<Element>, present: bool, p: Part)
    requires present ==> Headed(s, p)
    requires !present ==> s == []
    ensures Headings(s) == PartIf(present, p) && NoTitle(s)
  {
    if present {
      HeadedBody(s, p);
    }
  }

  lemma SectionHeadings(r: Resume)
    ensures Headings(SummarySection(r)) == PartIf(HasText(r.summary), SummaryPart)
    ensures Headings(EducationSection(r)) == PartIf(|r.education| > 0, EducationPart)
    ensures Headings(ExperienceSection(r)) == PartIf(|r.experience| > 0, ExperiencePart)
    ensures Headings(SkillsSection(r)) == PartIf(|r.skills| > 0, SkillsPart)
    ensures Headings(AwardsSection(r)) == PartIf(|r.awards| > 0, AwardsPart)
  {
    SectionBodies(r);
    SectionShape(SummarySection(r), HasText(r.summary), SummaryPart);
    SectionShape(EducationSection(r), |r.education| > 0, EducationPart);
    SectionShape(ExperienceSection(r), |r.experience| > 0, ExperiencePart);
    SectionShape(SkillsSection(r), |r.skills| > 0, SkillsPart);
    SectionShape(AwardsSection(r), |r.awards| > 0, AwardsPart);
  }

  lemma SectionsTitleFree(r: Resume)
    ensures NoTitle(SummarySection(r)) && NoTitle(EducationSection(r)) && NoTitle(ExperienceSection(r))
    ensures NoTitle(SkillsSection(r)) && NoTitle(AwardsSection(r))
  {
    SectionBodies(r);
    SectionShape(SummarySection(r), HasText(r.summary), SummaryPart);
    SectionShape(EducationSection(r), |r.education| > 0, EducationPart);
    SectionShape(ExperienceSection(r), |r.experience| > 0, ExperiencePart);
    SectionShape(SkillsSection(r), |r.skills| > 0, SkillsPart);
    SectionShape(AwardsSection(r), |r.awards| > 0, AwardsPart);
  }

  lemma HeadingsOfParts(p0: seq<Element>, p1: seq<Element>, p2: seq<Element>, p3: seq<Element>,
                        p4: seq<Element>, p5: seq<Element>,
                        e1: seq<Part>, e2: seq<Part>, e3: seq<Part>, e4: seq<Part>, e5: seq<Part>)
    requires Headings(p0) == [] && Headings(p1) == e1 && Headings(p2) == e2
    requires Headings(p3) == e3 && Headings(p4) == e4 && Headings(p5) == e5
    ensures Headings(p0 + p1 + p2 + p3 + p4 + p5) == e1 + e2 + e3 + e4 + e5
  {
    HeadingsAppend(p0, p1, [], e1);
    assert [] + e1 == e1;
    HeadingsAppend(p0 + p1, p2, e1, e2);
    HeadingsAppend(p0 + p1 + p2, p3, e1 + e2, e3);
    HeadingsAppend(p0 + p1 + p2 + p3, p4, e1 + e2 + e3, e4);
    HeadingsAppend(p0 + p1 + p2 + p3 + p4, p5, e1 + e2 + e3 + e4, e5);
  }

  /** The only headings of the story are the section headings, in the fixed order. */
  lemma StoryHeadings(r: Resume)
    ensures Headings(StoryOf(r)) == ExpectedHeadings(r)
  {
    SectionHeadings(r);
    OpeningHeadings(r.title);
    HeadingsOfParts([Title(r.title), Spacer(Wide)], SummarySection(r), EducationSection(r),
                    ExperienceSection(r), SkillsSection(r), AwardsSection(r),
                    PartIf(HasText(r.summary), SummaryPart), PartIf(|r.education| > 0, EducationPart),
                    PartIf(|r.experience| > 0, ExperiencePart), PartIf(|r.skills| > 0, SkillsPart),
                    PartIf(|r.awards| > 0, AwardsPart));
  }

  /** The title and the spacer after it carry no heading. */
  lemma OpeningHeadings(t: string)
    ensures Headings([Title(t), Spacer(Wide)]) == []
  {
    assert [Title(t), Spacer(Wide)][1..] == [Spacer(Wide)];
    assert [Spacer(Wide)][1..] == [];
  }

  lemma ExpectedPresence(r: Resume)
    ensures SummaryPart in ExpectedHeadings(r) <==> HasText(r.summary)
    ensures EducationPart in ExpectedHeadings(r) <==> |r.education| > 0
    ensures ExperiencePart in ExpectedHeadings(r) <==> |r.experience| > 0
    ensures SkillsPart in ExpectedHeadings(r) <==> |r.skills| > 0
    ensures AwardsPart in ExpectedHeadings(r) <==> |r.awards| > 0
  {
    var e1 := PartIf(HasText(r.summary), SummaryPart);
    var e2 := PartIf(|r.education| > 0, EducationPart);
    var e3 := PartIf(|r.experience| > 0, ExperiencePart);
    var e4 := PartIf(|r.skills| > 0, SkillsPart);
    var e5 := PartIf(|r.awards| > 0, AwardsPart);
    InParts(SummaryPart, e1, e2, e3, e4, e5);
    InParts(EducationPart, e1, e2, e3, e4, e5);
    InParts(ExperiencePart, e1, e2, e3, e4, e5);
    InParts(SkillsPart, e1, e2, e3, e4, e5);
    InParts(AwardsPart, e1, e2, e3, e4, e5);
  }

  lemma InParts(x: Part, e1: seq<Part>, e2: seq<Part>, e3: seq<Part>, e4: seq<Part>, e5: seq<Part>)
    ensures x in e1 + e2 + e3 + e4 + e5 <==> x in e1 || x in e2 || x in e3 || x in e4 || x in e5
  {
  }

  /** Each section heading appears exactly when its field is non-empty. */
  lemma HeadingPresence(r: Resume)
    ensures SummaryPart in Headings(StoryOf(r)) <==> HasText(r.summary)
    ensures EducationPart in Headings(StoryOf(r)) <==> |r.education| > 0
    ensures ExperiencePart in Headings(StoryOf(r)) <==> |r.experience| > 0
    ensures SkillsPart in Headings(StoryOf(r)) <==> |r.skills| > 0
    ensures AwardsPart in Headings(StoryOf(r)) <==> |r.awards| > 0
  {
    StoryHeadings(r);
    ExpectedPresence(r);
  }

  lemma TitleThenParts(t: string, p1: seq<Element>, p2: seq<Element>, p3: seq<Element>,
                       p4: seq<Element>, p5: seq<Element>)
    requires NoTitle(p1) && NoTitle(p2) && NoTitle(p3) && NoTitle(p4) && NoTitle(p5)
    ensures var s := [Title(t), Spacer(Wide)] + p1 + p2 + p3 + p4 + p5;
      |s| >= 2 && s[0] == Title(t) && s[1] == Spacer(Wide) && NoTitle(s[1..])
  {
    var s := [Title(t), Spacer(Wide)] + p1 + p2 + p3 + p4 + p5;
    var rest := p1 + p2 + p3 + p4 + p5;
    NoTitleConcat(p1, p2);
    NoTitleConcat(p1 + p2, p3);
    NoTitleConcat(p1 + p2 + p3, p4);
    NoTitleConcat(p1 + p2 + p3 + p4, p5);
    NoTitleConcat([Spacer(Wide)], rest);
    assert s == [Title(t)] + ([Spacer(Wide)] + rest);
    assert s[1..] == [Spacer(Wide)] + rest;
  }

  /** The story opens with the title and a wide spacer, and the title element occurs nowhere else. */
  lemma StoryOpensWithTitle(r: Resume)
    ensures |StoryOf(r)| >= 2 && StoryOf(r)[0] == Title(r.title) && StoryOf(r)[1] == Spacer(Wide)
    ensures NoTitle(StoryOf(r)[1..])
  {
    SectionsTitleFree(r);
    TitleThenParts(r.title, SummarySection(r), EducationSection(r), ExperienceSection(r),
                   SkillsSection(r), AwardsSection(r));
  }

  /** The skills paragraph, split again on commas, gives back the skills the form decoded. */
  lemma SkillsParagraphRoundTrip(form: FormDecoder.Form)
    ensures FormDecoder.SplitTokens(Join(FormDecoder.DecodeForm(form).skills, ", "))
      == FormDecoder.DecodeForm(form).skills
  {
    FormDecoder.SplitTokensJoin(FormDecoder.DecodeForm(form).skills);
  }

  // ---------------------------------------------------------------------------------------------
  // Download name
  // ---------------------------------------------------------------------------------------------

  /** The attachment name: the title with every space turned into '_', then ".pdf". */
  function DownloadName(title: string): (name: string)
    ensures |name| == |title| + 4 && name[|title|..] == ".pdf"
    ensures forall k | 0 <= k < |title| :: name[k] == (if title[k] == ' ' then '_' else title[k])
    ensures ' ' !in name
  {
    ReplaceChar(title, ' ', '_') + ".pdf"
  }
}
