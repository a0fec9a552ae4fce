/**
 * The browser-side helpers of static/js/script.js, with the DOM reduced to strings: the theme
 * toggle, the "Enter closes a skill" rule, the three form validators, the email test and
 * `truncateText`.  JavaScript's `trim` and regular-expression `\s` use the JavaScript
 * whitespace set.
 */
module ClientScript {

  import opened Wrappers
  import opened Strings
  import FormDecoder

  // ---------------------------------------------------------------------------------------------
  // Theme
  // ---------------------------------------------------------------------------------------------

  /** The next theme: "light" becomes "dark", anything else becomes "light". */
  function Toggled(theme: string): string {
    if theme == "light" then "dark" else "light"
  }

  /** Toggling always lands on one of the two known themes. */
  lemma ToggledIsKnown(theme: string)
    ensures Toggled(theme) == "light" || Toggled(theme) == "dark"
    ensures Toggled(theme) == "dark" <==> theme == "light"
  {
  }

  /** Toggling twice gives the original theme exactly when it was "light" or "dark". */
  lemma ToggleTwice(theme: string)
    ensures Toggled(Toggled(theme)) == theme <==> theme == "light" || theme == "dark"
  {
    if theme != "light" && theme != "dark" {
      assert Toggled(theme) == "light";
      assert Toggled(Toggled(theme)) == "dark";
    }
  }

  class ThemeManager {

    var currentTheme: string

    /** The stored theme, or "light" when none is stored or it is empty (`getItem(...) || 'light'`). */
    constructor(stored: Option<string>)
      ensures currentTheme == (if stored.Some? && stored.value != "" then stored.value else "light")
    {
      if stored.Some? && stored.value != "" {
        currentTheme := stored.value;
      } else {
        currentTheme := "light";
      }
    }

    method ToggleTheme()
      modifies this
      ensures currentTheme == Toggled(old(currentTheme))
    {
      currentTheme := if currentTheme == "light" then "dark" else "light";
    }
  }

  // ---------------------------------------------------------------------------------------------
  // truncateText
  // ---------------------------------------------------------------------------------------------

  /** `text.length <= maxLength ? text : text.substr(0, maxLength) + '...'`; a negative length
      given to `substr` is treated as zero. */
  function TruncateText(text: string, maxLength: int): (r: string)
    ensures |text| <= maxLength ==> r == text
    ensures |text| > maxLength >= 0 ==> |r| == maxLength + 3 && r[..maxLength] == text[..maxLength]
    ensures |text| > maxLength ==> |r| >= 3 && r[|r| - 3..] == "..."
    ensures maxLength < 0 ==> r == "..."
  {
    if |text| <= maxLength then text
    else
      var keep := if maxLength < 0 then 0 else maxLength;
      var r := text[..keep] + "...";
      assert r[..keep] == text[..keep];
      r
  }

  /** Truncating what is already truncated changes nothing. */
  lemma TruncateIdempotent(text: string, maxLength: int)
    ensures TruncateText(TruncateText(text, maxLength), maxLength) == TruncateText(text, maxLength)
  {
    var r := TruncateText(text, maxLength);
    if |text| > maxLength && maxLength >= 0 {
      assert r == text[..maxLength] + "...";
      assert |r| > maxLength;
      assert r[..maxLength] == text[..maxLength];
    }
  }

  // ---------------------------------------------------------------------------------------------
  // Enter in the skills and awards inputs
  // ---------------------------------------------------------------------------------------------

  /** The new input value: the trimmed value plus ", " when it is non-empty and does not already
      end in a comma; otherwise the value as it was, untrimmed. */
  function AfterEnter(value: string): string {
    var t := Trim(JsSpace, value);
    if t != [] && t[|t| - 1] != ',' then t + ", " else value
  }

  /** Trimming a trimmed word followed by ", " keeps the comma and drops the space. */
  lemma TrimCommaSpace(t: string)
    requires t != [] && IsTrimmed(JsSpace, t)
    ensures Trim(JsSpace, t + ", ") == t + ","
  {
    var w := t + ",";
    assert w[0] == t[0] && w[|w| - 1] == ',';
    assert IsTrimmed(JsSpace, w);
    assert AllSpace(JsSpace, " ");
    TrimTrailing(JsSpace, w, " ");
    TrimTrimmed(JsSpace, w);
    assert t + ", " == w + " ";
  }

  /** A separator added once is not added again. */
  lemma AfterEnterIdempotent(value: string)
    ensures AfterEnter(AfterEnter(value)) == AfterEnter(value)
  {
    var t := Trim(JsSpace, value);
    var w := AfterEnter(value);
    if t != [] && t[|t| - 1] != ',' {
      assert w == t + ", ";
      TrimCommaSpace(t);
      var u := Trim(JsSpace, w);
      assert u == t + ",";
      assert u[|u| - 1] == ',';
    }
  }

  /** JavaScript whitespace other than U+FEFF is Python whitespace too. */
  lemma JsSpaceWithoutBom(s: string)
    requires AllSpace(JsSpace, s) && '\U{FEFF}' !in s
    ensures AllSpace(PythonSpace, s)
  {
    forall k | 0 <= k < |s| ensures IsSpace(PythonSpace, s[k]) {
      JsSpaceIsPythonSpace(s[k]);
    }
  }

  /** Surrounding Python white space and one trailing ", " do not change the tokens of a text. */
  lemma TokensIgnoreSurroundingSpace(lead: string, t: string, trail: string)
    requires AllSpace(PythonSpace, lead) && AllSpace(PythonSpace, trail)
    ensures FormDecoder.SplitTokens(t + ", ") == FormDecoder.SplitTokens(lead + t + trail)
  {
    assert lead + t + trail == lead + (t + trail);
    FormDecoder.SplitTokensLeading(lead, t + trail);
    FormDecoder.SplitTokensTrailing(t, trail);
    FormDecoder.CommaSpace(t);
    FormDecoder.SplitTokensBlankAfterComma(t, " ");
  }

  /** A value splits into its JavaScript-trimmed core and the white space around it, which is Python
      white space when the value holds no U+FEFF. */
  lemma TrimSurroundings(value: string) returns (lead: string, trail: string)
    requires '\U{FEFF}' !in value
    ensures value == lead + Trim(JsSpace, value) + trail
    ensures AllSpace(PythonSpace, lead) && AllSpace(PythonSpace, trail)
  {
    var a, b := TrimBounds(JsSpace, value);
    CutPythonSpace(value, a, b);
    lead, trail := value[..a], value[b..];
  }

  /** Cutting a text without U+FEFF at two points where JavaScript white space surrounds the middle. */
  lemma CutPythonSpace(value: string, a: nat, b: nat)
    requires a <= b <= |value| && '\U{FEFF}' !in value
    requires AllSpace(JsSpace, value[..a]) && AllSpace(JsSpace, value[b..])
    ensures value == value[..a] + value[a..b] + value[b..]
    ensures AllSpace(PythonSpace, value[..a]) && AllSpace(PythonSpace, value[b..])
  {
    var lead, trail := value[..a], value[b..];
    assert '\U{FEFF}' !in lead && '\U{FEFF}' !in trail by {
      assert forall k | 0 <= k < |lead| :: lead[k] == value[k];
      assert forall k | 0 <= k < |trail| :: trail[k] == value[b + k];
    }
    JsSpaceWithoutBom(lead);
    JsSpaceWithoutBom(trail);
  }

  /** Pressing Enter does not change the tokens the server will store, as long as the text holds no
      U+FEFF. */
  lemma AfterEnterKeepsTokens(value: string)
    requires '\U{FEFF}' !in value
    ensures FormDecoder.SplitTokens(AfterEnter(value)) == FormDecoder.SplitTokens(value)
  {
    var t := Trim(JsSpace, value);
    if t != [] && t[|t| - 1] != ',' {
      assert AfterEnter(value) == t + ", ";
      var lead, trail := TrimSurroundings(value);
      TokensIgnoreSurroundingSpace(lead, t, trail);
    }
  }

  /** The mutable value of a text input. */
  class TextInput {
    var value: string

    constructor(initial: string)
      ensures value == initial
    {
      value := initial;
    }
  }

  /** Enter in the skills input. */
  method AddSkillFromInput(input: TextInput)
    modifies input
    ensures input.value == AfterEnter(old(input.value))
  {
    CloseEntry(input);
  }

  /** Enter in the awards input: the same rule as for skills. */
  method AddAwardFromInput(input: TextInput)
    modifies input
    ensures input.value == AfterEnter(old(input.value))
  {
    CloseEntry(input);
  }

  /** Trim the value and, when it is non-empty and does not end in a comma, append ", ". */
  method CloseEntry(input: TextInput)
    modifies input
    ensures input.value == AfterEnter(old(input.value))
  {
    var value := Trim(JsSpace, input.value);
    if value != [] && value[|value| - 1] != ',' {
      input.value := value + ", ";
    }
  }

  // ---------------------------------------------------------------------------------------------
  // Email
  // ---------------------------------------------------------------------------------------------

  /** A character the pattern's `[^\s@]` class accepts. */
  predicate EmailChar(c: char) {
    !IsSpace(JsSpace, c) && c != '@'
  }

  /** A non-empty run of such characters, `[^\s@]+`. */
  predicate EmailRun(s: string) {
    |s| > 0 && forall k | 0 <= k < |s| :: EmailChar(s[k])
  }

  /** What `/^[^\s@]+@[^\s@]+\.[^\s@]+$/` accepts, read off the pattern: a run, '@' at i, a run,
      '.' at j, a run, and nothing else. */
  ghost predicate MatchesEmailPattern(s: string) {
    exists i, j | 0 <= i < j < |s| ::
      s[i] == '@' && s[j] == '.' && EmailRun(s[..i]) && EmailRun(s[i + 1..j]) && EmailRun(s[j + 1..])
  }

  /** The domain part: a run with a '.' that has text on both sides. */
  predicate DomainOk(d: string) {
    EmailRun(d) && |d| >= 3 && '.' in d[1..|d| - 1]
  }

  /** The email test, computed: split at the first '@'. */
  function IsValidEmail(s: string): bool {
    match IndexOf(s, '@')
    case None => false
    case Some(i) => EmailRun(s[..i]) && DomainOk(s[i + 1..])
  }

  /** The computed test accepts exactly the strings the pattern matches. */
  lemma IsValidEmailMatchesPattern(s: string)
    ensures IsValidEmail(s) <==> MatchesEmailPattern(s)
  {
    if IsValidEmail(s) {
      ValidEmailMatches(s);
    }
    if MatchesEmailPattern(s) {
      MatchIsValidEmail(s);
    }
  }

  /** Every string the computed test accepts matches the pattern. */
  lemma ValidEmailMatches(s: string)
    requires IsValidEmail(s)
    ensures MatchesEmailPattern(s)
  {
    var i := IndexOf(s, '@').value;
    var jd := DomainDot(s[i + 1..]);
    SuffixSlices(s, i + 1, jd);
    PatternWitness(s, i, i + 1 + jd);
  }

  /** Every string the pattern matches passes the computed test. */
  lemma MatchIsValidEmail(s: string)
    requires MatchesEmailPattern(s)
    ensures IsValidEmail(s)
  {
    var i, j :| 0 <= i < j < |s| && s[i] == '@' && s[j] == '.' && EmailRun(s[..i])
      && EmailRun(s[i + 1..j]) && EmailRun(s[j + 1..]);
    FirstAt(s, i);
    DomainAfter(s, i, j);
  }

  /** The text after the '@' at i is an acceptable domain when a '.' at j has runs on both sides. */
  lemma DomainAfter(s: string, i: nat, j: nat)
    requires i < j < |s| && s[j] == '.' && EmailRun(s[i + 1..j]) && EmailRun(s[j + 1..])
    ensures DomainOk(s[i + 1..])
  {
    SuffixSlices(s, i + 1, j - i - 1);
    DomainOfRuns(s[i + 1..j], s[j + 1..]);
  }

  /** An '@' at i and a '.' at j with runs around them match the pattern. */
  lemma PatternWitness(s: string, i: nat, j: nat)
    requires i < j < |s| && s[i] == '@' && s[j] == '.'
    requires EmailRun(s[..i]) && EmailRun(s[i + 1..j]) && EmailRun(s[j + 1..])
    ensures MatchesEmailPattern(s)
  {
  }

  /** An acceptable domain has a '.' with a run on each side. */
  lemma DomainDot(d: string) returns (jd: nat)
    requires DomainOk(d)
    ensures 1 <= jd < |d| - 1 && d[jd] == '.'
    ensures EmailRun(d[..jd]) && EmailRun(d[jd + 1..])
  {
    var inner := d[1..|d| - 1];
    var dot := IndexOf(inner, '.').value;
    jd := dot + 1;
    assert d[jd] == inner[dot];
    RunSlice(d, 0, jd);
    RunSlice(d, jd + 1, |d|);
  }

  /** Reading the suffix of `s` from `lo` at position `n` and around it. */
  lemma SuffixSlices<T>(s: seq<T>, lo: nat, n: nat)
    requires lo + n < |s|
    ensures s[lo..][..n] == s[lo..lo + n] && s[lo..][n] == s[lo + n]
    ensures s[lo..][n + 1..] == s[lo + n + 1..]
    ensures s[lo..] == s[lo..lo + n] + [s[lo + n]] + s[lo + n + 1..]
  {
  }

  /** A piece of a run is a run. */
  lemma RunSlice(d: string, lo: nat, hi: nat)
    requires EmailRun(d) && lo < hi <= |d|
    ensures EmailRun(d[lo..hi])
  {
    assert forall k | 0 <= k < hi - lo :: d[lo..hi][k] == d[lo + k];
  }

  /** Two runs joined by '.' form an acceptable domain. */
  lemma DomainOfRuns(x: string, y: string)
    requires EmailRun(x) && EmailRun(y)
    ensures DomainOk(x + "." + y)
  {
    var d := x + "." + y;
    assert forall k | 0 <= k < |d| :: d[k] == (if k < |x| then x[k] else if k == |x| then '.' else y[k - |x| - 1]);
    assert d[1..|d| - 1][|x| - 1] == '.';
  }

  /** When no '@' comes before position i, the first '@' is at i. */
  lemma FirstAt(s: string, i: nat)
    requires i < |s| && s[i] == '@' && EmailRun(s[..i])
    ensures IndexOf(s, '@') == Some(i)
  {
    assert '@' in s by { assert s[i] == '@'; }
    var v := IndexOf(s, '@').value;
    assert s[v] == '@' && '@' !in s[..v];
    assert forall k | 0 <= k < i :: s[k] != '@' by {
      forall k | 0 <= k < i ensures s[k] != '@' {
        assert s[..i][k] == s[k];
      }
    }
    assert forall k | 0 <= k < v :: s[k] != '@' by {
      forall k | 0 <= k < v ensures s[k] != '@' {
        assert s[..v][k] == s[k];
      }
    }
  }

  // ---------------------------------------------------------------------------------------------
  // Form validators
  // ---------------------------------------------------------------------------------------------

  /** JavaScript's `.length`: UTF-16 code units, two for a character outside the basic plane. */
  function Utf16Length(s: string): (n: nat)
    ensures |s| <= n <= 2 * |s|
    decreases |s|
  {
    if s == [] then 0 else (if s[0] as int >= 0x1_0000 then 2 else 1) + Utf16Length(s[1..])
  }

  /** The signup form: a valid email, a password of at least six code units, and a matching confirmation. */
  method ValidateSignupForm(email: string, password: string, confirmPassword: string) returns (isValid: bool)
    ensures isValid <==> IsValidEmail(email) && Utf16Length(password) >= 6 && password == confirmPassword
  {
    isValid := true;
    if !IsValidEmail(email) {
      isValid := false;
    }
    if Utf16Length(password) < 6 {
      isValid := false;
    }
    if password != confirmPassword {
      isValid := false;
    }
  }

  /** The login form: a valid email and a non-empty password. */
  method ValidateLoginForm(email: string, password: string) returns (isValid: bool)
    ensures isValid <==> IsValidEmail(email) && password != []
  {
    isValid := true;
    if !IsValidEmail(email) {
      isValid := false;
    }
    if Utf16Length(password) == 0 {
      isValid := false;
    }
  }

  /** None of the first n values is all whitespace. */
  predicate NoneBlank(values: seq<string>, n: nat)
    requires n <= |values|
  {
    forall k | 0 <= k < n :: !AllSpace(JsSpace, values[k])
  }

  /** The résumé form: a title, and a name in every institution and every company input, where a
      value counts as empty when `trim` leaves nothing, that is when it is all whitespace. */
  method ValidateResumeForm(title: string, institutions: seq<string>, companies: seq<string>) returns (isValid: bool)
    ensures isValid <==>
      !AllSpace(JsSpace, title) && NoneBlank(institutions, |institutions|) && NoneBlank(companies, |companies|)
  {
    isValid := true;
    var empty := TrimmedEmpty(title);
    if empty {
      isValid := false;
    }
    ghost var titleOk := isValid;
    for i := 0 to |institutions|
      invariant isValid <==> titleOk && NoneBlank(institutions, i)
    {
      var empty := TrimmedEmpty(institutions[i]);
      if empty {
        isValid := false;
      }
    }
    ghost var educationOk := isValid;
    for i := 0 to |companies|
      invariant isValid <==> educationOk && NoneBlank(companies, i)
    {
      var empty := TrimmedEmpty(companies[i]);
      if empty {
        isValid := false;
      }
    }
  }

  /** `value.trim().length === 0`: true exactly when the value is all whitespace. */
  method TrimmedEmpty(value: string) returns (empty: bool)
    ensures empty <==> AllSpace(JsSpace, value)
  {
    TrimEmpty(JsSpace, value);
    empty := |Trim(JsSpace, value)| == 0;
  }
}
