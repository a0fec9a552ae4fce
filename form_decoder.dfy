/**
 * Decoding of a submitted résumé form (app.py:120-155, repeated at app.py:187-222):
 * the repeated `education[i][...]` and `experience[i][...]` groups are read from index 0
 * upward and reading stops at the first index whose anchor field is missing; the skills
 * and awards texts are split on commas into trimmed, non-empty tokens.
 */
module FormDecoder {

  import opened Wrappers
  import opened Strings
  import opened Records

  /** The posted form: field name to (first) value. */
  type Form = map<string, string>

  /** `request.form.get(key)`. */
  function Get(form: Form, key: string): Option<string> {
    if key in form then Some(form[key]) else None
  }

  /** The field name `group[i][field]`, as the f-strings of app.py:127-146 build it. */
  function FieldKey(group: string, i: nat, field: string): string {
    (group + "[") + NatToString(i) + ("][" + field + "]")
  }

  /** Distinct indices give distinct field names. */
  lemma FieldKeyInjective(group: string, i: nat, j: nat, field: string)
    requires FieldKey(group, i, field) == FieldKey(group, j, field)
    ensures i == j
  {
    var pre, suf := group + "[", "][" + field + "]";
    var x, y := NatToString(i), NatToString(j);
    assert |x| == |y|;
    assert (pre + x + suf)[|pre|..|pre| + |x|] == x;
    assert (pre + y + suf)[|pre|..|pre| + |y|] == y;
    NatToStringInjective(i, j);
  }

  /** The anchors of groups 0 .. k-1 are all present. */
  ghost predicate AnchorsBelow(form: Form, group: string, anchor: string, k: nat) {
    forall j | 0 <= j < k :: FieldKey(group, j, anchor) in form
  }

  ghost function AnchorKeys(group: string, anchor: string, k: nat): set<string> {
    set j | 0 <= j < k :: FieldKey(group, j, anchor)
  }

  lemma {:induction false} AnchorKeysCount(group: string, anchor: string, k: nat)
    ensures |AnchorKeys(group, anchor, k)| == k
  {
    if k > 0 {
      AnchorKeysCount(group, anchor, k - 1);
      AnchorKeysStep(group, anchor, k);
      FreshAnchorKey(group, anchor, k - 1);
    }
  }

  lemma AnchorKeysStep(group: string, anchor: string, k: nat)
    requires k > 0
    ensures AnchorKeys(group, anchor, k) == AnchorKeys(group, anchor, k - 1) + {FieldKey(group, k - 1, anchor)}
  {
  }

  /** The anchor name of group `k` is not among those of the groups below it. */
  lemma FreshAnchorKey(group: string, anchor: string, k: nat)
    ensures FieldKey(group, k, anchor) !in AnchorKeys(group, anchor, k)
  {
    forall j | 0 <= j < k ensures FieldKey(group, j, anchor) != FieldKey(group, k, anchor) {
      if FieldKey(group, j, anchor) == FieldKey(group, k, anchor) {
        FieldKeyInjective(group, j, k, anchor);
      }
    }
  }

  /** A run of present anchors from index 0 is never longer than the form. */
  lemma AnchorRunBound(form: Form, group: string, anchor: string, k: nat)
    requires AnchorsBelow(form, group, anchor, k)
    ensures k <= |form|
  {
    AnchorKeysCount(group, anchor, k);
    assert AnchorKeys(group, anchor, k) <= form.Keys;
    SubsetCard(AnchorKeys(group, anchor, k), form.Keys);
  }

  lemma {:induction false} SubsetCard(a: set<string>, b: set<string>)
    requires a <= b
    ensures |a| <= |b|
    decreases |a|
  {
    if a != {} {
      var x :| x in a;
      SubsetCard(a - {x}, b - {x});
    }
  }

  /** The first index from `i` on whose anchor is missing, given that all anchors below `i` are present. */
  function RunFrom(form: Form, group: string, anchor: string, i: nat): (k: nat)
    requires AnchorsBelow(form, group, anchor, i)
    ensures i <= k
    ensures AnchorsBelow(form, group, anchor, k)
    ensures FieldKey(group, k, anchor) !in form
    decreases |form| - i
  {
    if FieldKey(group, i, anchor) in form then
      AnchorRunBound(form, group, anchor, i + 1);
      RunFrom(form, group, anchor, i + 1)
    else
      i
  }

  /** The number of groups the decoder collects: the first index whose anchor is missing. */
  function RunLength(form: Form, group: string, anchor: string): (k: nat)
    ensures AnchorsBelow(form, group, anchor, k)
    ensures FieldKey(group, k, anchor) !in form
  {
    RunFrom(form, group, anchor, 0)
  }

  /** Any index below which all anchors are present and at which the anchor is missing is the run length. */
  lemma RunLengthUnique(form: Form, group: string, anchor: string, k: nat)
    requires AnchorsBelow(form, group, anchor, k)
    requires FieldKey(group, k, anchor) !in form
    ensures RunLength(form, group, anchor) == k
  {
  }

  /** `f1` and `f2` give the same answer for every field of the groups 0 .. k. */
  ghost predicate AgreeThrough(f1: Form, f2: Form, group: string, k: nat) {
    forall j: nat, field: string | j <= k :: Get(f1, FieldKey(group, j, field)) == Get(f2, FieldKey(group, j, field))
  }

  /** The run length depends on nothing beyond the first missing anchor. */
  lemma RunLengthIgnoresLaterIndices(f1: Form, f2: Form, group: string, anchor: string)
    requires AgreeThrough(f1, f2, group, RunLength(f1, group, anchor))
    ensures RunLength(f2, group, anchor) == RunLength(f1, group, anchor)
  {
    var k := RunLength(f1, group, anchor);
    forall j | 0 <= j <= k
      ensures (FieldKey(group, j, anchor) in f1) == (FieldKey(group, j, anchor) in f2)
    {
      assert Get(f1, FieldKey(group, j, anchor)) == Get(f2, FieldKey(group, j, anchor));
    }
    RunLengthUnique(f2, group, anchor, k);
  }

  /** The education group at index `i` (app.py:128-135). */
  function EducationAt(form: Form, i: nat): Education
    requires FieldKey("education", i, "institution") in form
  {
    Education(
      institution := form[FieldKey("education", i, "institution")],
      degree := Get(form, FieldKey("education", i, "degree")),
      field := Get(form, FieldKey("education", i, "field")),
      startDate := Get(form, FieldKey("education", i, "start_date")),
      endDate := Get(form, FieldKey("education", i, "end_date")),
      description := Get(form, FieldKey("education", i, "description")))
  }

  /** The experience group at index `i` (app.py:141-147). */
  function ExperienceAt(form: Form, i: nat): Experience
    requires FieldKey("experience", i, "company") in form
  {
    Experience(
      company := form[FieldKey("experience", i, "company")],
      position := Get(form, FieldKey("experience", i, "position")),
      startDate := Get(form, FieldKey("experience", i, "start_date")),
      endDate := Get(form, FieldKey("experience", i, "end_date")),
      description := Get(form, FieldKey("experience", i, "description")))
  }

  /** The education list the decoder builds. */
  function EducationList(form: Form): seq<Education> {
    var k := RunLength(form, "education", "institution");
    seq(k, j requires 0 <= j < k => EducationAt(form, j))
  }

  /** The experience list the decoder builds. */
  function ExperienceList(form: Form): seq<Experience> {
    var k := RunLength(form, "experience", "company");
    seq(k, j requires 0 <= j < k => ExperienceAt(form, j))
  }

  /** The education loop of app.py:126-136. */
  method DecodeEducation(form: Form) returns (education: seq<Education>)
    ensures forall j | 0 <= j < |education| ::
      FieldKey("education", j, "institution") in form && education[j] == EducationAt(form, j)
    ensures FieldKey("education", |education|, "institution") !in form
    ensures education == EducationList(form)
  {
    education := [];
    var i := 0;
    while FieldKey("education", i, "institution") in form
      invariant i == |education|
      invariant forall j | 0 <= j < i ::
        FieldKey("education", j, "institution") in form && education[j] == EducationAt(form, j)
      decreases |form| - i
    {
      AnchorRunBound(form, "education", "institution", i + 1);
      education := education + [EducationAt(form, i)];
      i := i + 1;
    }
    RunLengthUnique(form, "education", "institution", i);
  }

  /** The experience loop of app.py:139-148. */
  method DecodeExperience(form: Form) returns (experience: seq<Experience>)
    ensures forall j | 0 <= j < |experience| ::
      FieldKey("experience", j, "company") in form && experience[j] == ExperienceAt(form, j)
    ensures FieldKey("experience", |experience|, "company") !in form
    ensures experience == ExperienceList(form)
  {
    experience := [];
    var i := 0;
    while FieldKey("experience", i, "company") in form
      invariant i == |experience|
      invariant forall j | 0 <= j < i ::
        FieldKey("experience", j, "company") in form && experience[j] == ExperienceAt(form, j)
      decreases |form| - i
    {
      AnchorRunBound(form, "experience", "company", i + 1);
      experience := experience + [ExperienceAt(form, i)];
      i := i + 1;
    }
    RunLengthUnique(form, "experience", "company", i);
  }

  /** Fields of education groups past the first missing institution are never read. */
  lemma EducationIgnoresLaterIndices(f1: Form, f2: Form)
    requires AgreeThrough(f1, f2, "education", RunLength(f1, "education", "institution"))
    ensures EducationList(f1) == EducationList(f2)
  {
    RunLengthIgnoresLaterIndices(f1, f2, "education", "institution");
    var k := RunLength(f1, "education", "institution");
    forall j | 0 <= j < k ensures EducationAt(f1, j) == EducationAt(f2, j) {
      assert Get(f1, FieldKey("education", j, "institution")) == Get(f2, FieldKey("education", j, "institution"));
      assert Get(f1, FieldKey("education", j, "degree")) == Get(f2, FieldKey("education", j, "degree"));
      assert Get(f1, FieldKey("education", j, "field")) == Get(f2, FieldKey("education", j, "field"));
      assert Get(f1, FieldKey("education", j, "start_date")) == Get(f2, FieldKey("education", j, "start_date"));
      assert Get(f1, FieldKey("education", j, "end_date")) == Get(f2, FieldKey("education", j, "end_date"));
      assert Get(f1, FieldKey("education", j, "description")) == Get(f2, FieldKey("education", j, "description"));
    }
  }

  /** Fields of experience groups past the first missing company are never read. */
  lemma ExperienceIgnoresLaterIndices(f1: Form, f2: Form)
    requires AgreeThrough(f1, f2, "experience", RunLength(f1, "experience", "company"))
    ensures ExperienceList(f1) == ExperienceList(f2)
  {
    RunLengthIgnoresLaterIndices(f1, f2, "experience", "company");
    var k := RunLength(f1, "experience", "company");
    forall j | 0 <= j < k ensures ExperienceAt(f1, j) == ExperienceAt(f2, j) {
      assert Get(f1, FieldKey("experience", j, "company")) == Get(f2, FieldKey("experience", j, "company"));
      assert Get(f1, FieldKey("experience", j, "position")) == Get(f2, FieldKey("experience", j, "position"));
      assert Get(f1, FieldKey("experience", j, "start_date")) == Get(f2, FieldKey("experience", j, "start_date"));
      assert Get(f1, FieldKey("experience", j, "end_date")) == Get(f2, FieldKey("experience", j, "end_date"));
      assert Get(f1, FieldKey("experience", j, "description")) == Get(f2, FieldKey("experience", j, "description"));
    }
  }

  // ---------------------------------------------------------------------------------------------
  // Skills and awards (app.py:151-155)

  /** What a skill or award ends up as: non-empty, stripped, and free of commas. */
  predicate IsToken(t: string) {
    t != [] && IsTrimmed(PythonSpace, t) && ',' !in t
  }

  /** What one piece contributes: its stripped form, or nothing when that is empty. */
  function Kept(piece: string): seq<string> {
    var t := Trim(PythonSpace, piece);
    if t == [] then [] else [t]
  }

  /** `[p.strip() for p in pieces if p.strip()]`. */
  function KeepStripped(pieces: seq<string>): (tokens: seq<string>)
    ensures |tokens| <= |pieces|
    decreases |pieces|
  {
    if pieces == [] then [] else Kept(pieces[0]) + KeepStripped(pieces[1..])
  }

  predicate AllTokens(ts: seq<string>) {
    forall k | 0 <= k < |ts| :: IsToken(ts[k])
  }

  lemma AllTokensConcat(x: seq<string>, y: seq<string>)
    requires AllTokens(x) && AllTokens(y)
    ensures AllTokens(x + y)
  {
    assert forall k | 0 <= k < |x + y| :: (x + y)[k] == if k < |x| then x[k] else y[k - |x|];
  }

  /** A piece without a comma contributes only a token. */
  lemma KeptToken(piece: string)
    requires ',' !in piece
    ensures AllTokens(Kept(piece))
  {
    TrimKeepsOut(PythonSpace, piece, ',');
  }

  /** Pieces without a comma are kept as tokens: non-empty, stripped and comma-free. */
  lemma {:induction false} KeepStrippedTokens(pieces: seq<string>)
    requires forall k | 0 <= k < |pieces| :: ',' !in pieces[k]
    ensures AllTokens(KeepStripped(pieces))
    decreases |pieces|
  {
    if pieces != [] {
      assert ',' !in pieces[0];
      KeptToken(pieces[0]);
      var rest := pieces[1..];
      assert forall k | 0 <= k < |rest| :: ',' !in rest[k] by {
        assert forall k | 0 <= k < |rest| :: rest[k] == pieces[k + 1];
      }
      KeepStrippedTokens(rest);
      AllTokensConcat(Kept(pieces[0]), KeepStripped(rest));
    }
  }

  /** The comprehension over `text.split(',')`. */
  function SplitTokens(text: string): (tokens: seq<string>)
    ensures AllTokens(tokens)
  {
    KeepStrippedTokens(Split(text, ','));
    KeepStripped(Split(text, ','))
  }

  lemma {:induction false} KeepStrippedConcat(x: seq<string>, y: seq<string>)
    ensures KeepStripped(x + y) == KeepStripped(x) + KeepStripped(y)
    decreases |x|
  {
    if x == [] {
      assert x + y == y;
    } else {
      ConsSlices(x, y);
      KeepStrippedConcat(x[1..], y);
      assert KeepStripped(x + y) == Kept(x[0]) + KeepStripped(x[1..] + y);
      assert Kept(x[0]) + (KeepStripped(x[1..]) + KeepStripped(y))
        == (Kept(x[0]) + KeepStripped(x[1..])) + KeepStripped(y);
    }
  }

  /** Missing text (the default '') gives no tokens. */
  lemma SplitTokensEmpty()
    ensures SplitTokens("") == []
  {
    assert Split("", ',') == [""];
    TrimAllSpace(PythonSpace, "");
  }

  /** Text made only of white space gives no token. */
  lemma SplitTokensBlank(s: string)
    requires AllSpace(PythonSpace, s)
    ensures SplitTokens(s) == []
  {
    NotInSpace(PythonSpace, s, ',');
    SplitTokensPiece(s);
    TrimAllSpace(PythonSpace, s);
  }

  /** White space after a comma adds no token. */
  lemma SplitTokensBlankAfterComma(t: string, sp: string)
    requires AllSpace(PythonSpace, sp)
    ensures SplitTokens(t + "," + sp) == SplitTokens(t)
  {
    SplitTokensConcat(t, sp);
    SplitTokensBlank(sp);
  }

  /** Text without a comma is one token, its stripped form, unless that is empty. */
  lemma SplitTokensPiece(s: string)
    requires ',' !in s
    ensures SplitTokens(s) == if Trim(PythonSpace, s) == [] then [] else [Trim(PythonSpace, s)]
  {
    SplitWithoutSeparator(s, ',');
    assert [s][1..] == [];
  }

  /** Tokens of two texts joined by a comma: those of the first, then those of the second. */
  lemma SplitTokensConcat(a: string, b: string)
    ensures SplitTokens(a + "," + b) == SplitTokens(a) + SplitTokens(b)
  {
    SplitConcat(a, b, ',');
    KeepStrippedConcat(Split(a, ','), Split(b, ','));
  }

  /** Cutting `s` at its first comma. */
  lemma FirstComma(s: string) returns (a: string, b: string)
    requires ',' in s
    ensures s == a + "," + b && ',' !in a && |b| < |s|
  {
    var i := IndexOf(s, ',').value;
    a, b := s[..i], s[i + 1..];
    assert s == s[..i] + [s[i]] + s[i + 1..];
  }

  /** White space in front of the text does not change its tokens. */
  lemma SplitTokensLeading(lead: string, s: string)
    requires AllSpace(PythonSpace, lead)
    ensures SplitTokens(lead + s) == SplitTokens(s)
  {
    NotInSpace(PythonSpace, lead, ',');
    if ',' !in s {
      SplitTokensPiece(lead + s);
      SplitTokensPiece(s);
      TrimLeading(PythonSpace, lead, s);
    } else {
      var a, b := FirstComma(s);
      assert lead + s == (lead + a) + "," + b;
      SplitTokensConcat(lead + a, b);
      SplitTokensConcat(a, b);
      SplitTokensPiece(lead + a);
      SplitTokensPiece(a);
      TrimLeading(PythonSpace, lead, a);
    }
  }

  /** White space after the text does not change its tokens. */
  lemma {:induction false} SplitTokensTrailing(s: string, trail: string)
    requires AllSpace(PythonSpace, trail)
    ensures SplitTokens(s + trail) == SplitTokens(s)
    decreases |s|
  {
    NotInSpace(PythonSpace, trail, ',');
    if ',' !in s {
      SplitTokensPiece(s + trail);
      SplitTokensPiece(s);
      TrimTrailing(PythonSpace, s, trail);
    } else {
      var a, b := FirstComma(s);
      assert s + trail == a + "," + (b + trail);
      SplitTokensConcat(a, b + trail);
      SplitTokensConcat(a, b);
      SplitTokensTrailing(b, trail);
    }
  }

  /** Joining tokens with ", " and splitting again gives the same tokens back. */
  lemma {:induction false} SplitTokensJoin(ts: seq<string>)
    requires AllTokens(ts)
    ensures SplitTokens(Join(ts, ", ")) == ts
    decreases |ts|
  {
    if |ts| == 0 {
      SplitTokensEmpty();
    } else if |ts| == 1 {
      SplitTokensJoinOne(ts);
    } else {
      TokensHead(ts);
      SplitTokensJoin(ts[1..]);
      SplitTokensJoinMore(ts);
    }
  }

  lemma SplitTokensJoinOne(ts: seq<string>)
    requires AllTokens(ts) && |ts| == 1
    ensures SplitTokens(Join(ts, ", ")) == ts
  {
    TokensHead(ts);
    SplitTokensOne(ts[0]);
  }

  /** The inductive step: the first token, then the tokens the rest gives back. */
  lemma SplitTokensJoinMore(ts: seq<string>)
    requires |ts| > 1 && IsToken(ts[0])
    requires SplitTokens(Join(ts[1..], ", ")) == ts[1..]
    ensures SplitTokens(Join(ts, ", ")) == ts
  {
    JoinCons(ts, ", ");
    SplitTokensJoinStep(ts[0], Join(ts[1..], ", "));
    assert ts == [ts[0]] + ts[1..];
  }

  lemma JoinCons(ts: seq<string>, sep: string)
    requires |ts| > 1
    ensures Join(ts, sep) == ts[0] + sep + Join(ts[1..], sep)
  {
  }

  /** The first of a list of tokens is a token, and so is each of the others. */
  lemma TokensHead(ts: seq<string>)
    requires AllTokens(ts) && ts != []
    ensures IsToken(ts[0]) && AllTokens(ts[1..])
  {
    assert forall k | 0 <= k < |ts| - 1 :: ts[1..][k] == ts[k + 1];
  }

  /** A token on its own splits to itself. */
  lemma SplitTokensOne(t: string)
    requires IsToken(t)
    ensures SplitTokens(t) == [t]
  {
    SplitTokensPiece(t);
    TrimTrimmed(PythonSpace, t);
  }

  /** A token, ", ", then more text: the token, then the tokens of the rest. */
  lemma SplitTokensJoinStep(t: string, rest: string)
    requires IsToken(t)
    ensures SplitTokens(t + ", " + rest) == [t] + SplitTokens(rest)
  {
    CommaSpace(t);
    assert t + ", " + rest == t + "," + (" " + rest);
    SplitTokensConcat(t, " " + rest);
    SplitTokensOne(t);
    SplitTokensLeading(" ", rest);
  }

  /** ", " is a comma followed by a Python space. */
  lemma CommaSpace(t: string)
    ensures t + ", " == t + "," + " "
    ensures AllSpace(PythonSpace, " ")
  {
  }

  // ---------------------------------------------------------------------------------------------
  // The whole submission (app.py:120-165)

  /** The fields a create or edit submission carries. */
  function DecodeForm(form: Form): ResumeFields {
    ResumeFields(
      title := Get(form, "title"),
      summary := Get(form, "summary"),
      education := EducationList(form),
      experience := ExperienceList(form),
      skills := SplitTokens(Get(form, "skills").GetOr("")),
      awards := SplitTokens(Get(form, "awards").GetOr("")))
  }

  /** The parsing half of the create and edit handlers. */
  method DecodeResumeForm(form: Form) returns (fields: ResumeFields)
    ensures fields == DecodeForm(form)
  {
    var education := DecodeEducation(form);
    var experience := DecodeExperience(form);
    var skillsText := Get(form, "skills").GetOr("");
    var awardsText := Get(form, "awards").GetOr("");
    fields := ResumeFields(
      Get(form, "title"), Get(form, "summary"), education, experience,
      SplitTokens(skillsText), SplitTokens(awardsText));
  }

  /** A form without skills or awards text decodes to empty lists. */
  lemma MissingListsAreEmpty(form: Form)
    requires "skills" !in form && "awards" !in form
    ensures DecodeForm(form).skills == [] && DecodeForm(form).awards == []
  {
    SplitTokensEmpty();
  }
}
