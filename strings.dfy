/**
 * String primitives shared by the server (Python) and the client (JavaScript):
 * white space as each language defines it, trimming, splitting on a separator,
 * joining, replacing one character, and decimal rendering of a natural number.
 */
module Strings {

  import opened Wrappers

  /** Whose notion of white space a trim uses. */
  datatype Space = PythonSpace | JsSpace

  /**
   * PythonSpace: `str.isspace` (bidirectional classes WS, B, S and category Zs).
   * JsSpace: ECMAScript WhiteSpace and LineTerminator, used by `trim` and by `\s`.
   * The two sets differ only in U+001C..U+001F and U+0085 (Python only) and U+FEFF (JavaScript only).
   */
  predicate IsSpace(rule: Space, c: char) {
    match rule
    case PythonSpace => c in PythonSpaces
    case JsSpace => c in JsSpaces
  }

  const PythonSpaces: set<char> := {
      '\t', '\n', '\U{000B}', '\U{000C}', '\r', ' ', '\U{00A0}', '\U{1680}',
      '\U{2000}', '\U{2001}', '\U{2002}', '\U{2003}', '\U{2004}', '\U{2005}',
      '\U{2006}', '\U{2007}', '\U{2008}', '\U{2009}', '\U{200A}',
      '\U{2028}', '\U{2029}', '\U{202F}', '\U{205F}', '\U{3000}',
      '\U{001C}', '\U{001D}', '\U{001E}', '\U{001F}', '\U{0085}'
    }

  const JsSpaces: set<char> := {
      '\t', '\n', '\U{000B}', '\U{000C}', '\r', ' ', '\U{00A0}', '\U{1680}',
      '\U{2000}', '\U{2001}', '\U{2002}', '\U{2003}', '\U{2004}', '\U{2005}',
      '\U{2006}', '\U{2007}', '\U{2008}', '\U{2009}', '\U{200A}',
      '\U{2028}', '\U{2029}', '\U{202F}', '\U{205F}', '\U{3000}',
      '\U{FEFF}'
    }

  /** Every JavaScript space other than U+FEFF is also a Python space. */
  lemma JsSpaceIsPythonSpace(c: char)
    requires IsSpace(JsSpace, c) && c != '\U{FEFF}'
    ensures IsSpace(PythonSpace, c)
  {
  }

  predicate AllSpace(rule: Space, s: string) {
    forall k | 0 <= k < |s| :: IsSpace(rule, s[k])
  }

  lemma AllSpaceConcat(rule: Space, x: string, y: string)
    requires AllSpace(rule, x) && AllSpace(rule, y)
    ensures AllSpace(rule, x + y)
  {
    forall k | 0 <= k < |x + y| ensures IsSpace(rule, (x + y)[k]) {
      if k < |x| {
        assert (x + y)[k] == x[k];
      } else {
        assert (x + y)[k] == y[k - |x|];
      }
    }
  }

  /** Neither end of `s` is white space. */
  predicate IsTrimmed(rule: Space, s: string) {
    s == [] || (!IsSpace(rule, s[0]) && !IsSpace(rule, s[|s| - 1]))
  }

  /** `s` with its leading white space removed. */
  function TrimStart(rule: Space, s: string): (r: string)
    ensures |r| <= |s| && r == s[|s| - |r|..]
    ensures AllSpace(rule, s[..|s| - |r|])
    ensures r == [] || !IsSpace(rule, r[0])
    decreases |s|
  {
    if s != [] && IsSpace(rule, s[0]) then
      var r := TrimStart(rule, s[1..]);
      assert s[..|s| - |r|] == [s[0]] + s[1..][..|s| - 1 - |r|];
      r
    else
      s
  }

  /** `s` with its trailing white space removed. */
  function TrimEnd(rule: Space, s: string): (r: string)
    ensures |r| <= |s| && r == s[..|r|]
    ensures AllSpace(rule, s[|r|..])
    ensures r == [] || !IsSpace(rule, r[|r| - 1])
    decreases |s|
  {
    if s != [] && IsSpace(rule, s[|s| - 1]) then
      var r := TrimEnd(rule, s[..|s| - 1]);
      assert s[|r|..] == s[..|s| - 1][|r|..] + [s[|s| - 1]];
      r
    else
      s
  }

  /** Python's `str.strip()` (rule PythonSpace) and JavaScript's `String.prototype.trim` (rule JsSpace). */
  function Trim(rule: Space, s: string): (r: string)
    ensures IsTrimmed(rule, r) && |r| <= |s|
  {
    TrimEnd(rule, TrimStart(rule, s))
  }

  /** The trimmed string is the slice of `s` between a white-space prefix and a white-space suffix. */
  lemma TrimBounds(rule: Space, s: string) returns (a: nat, b: nat)
    ensures a <= b <= |s|
    ensures AllSpace(rule, s[..a]) && AllSpace(rule, s[b..])
    ensures Trim(rule, s) == s[a..b]
  {
    var t := TrimStart(rule, s);
    var r := TrimEnd(rule, t);
    assert Trim(rule, s) == r;
    a := |s| - |t|;
    b := a + |r|;
    PrefixOfSuffix(s, t, r);
  }

  /** A prefix `r` of a suffix `t` of `s` is a slice of `s`, and what `r` leaves of `t` is a suffix of `s`. */
  lemma PrefixOfSuffix<T>(s: seq<T>, t: seq<T>, r: seq<T>)
    requires |t| <= |s| && t == s[|s| - |t|..]
    requires |r| <= |t| && r == t[..|r|]
    ensures r == s[|s| - |t|..|s| - |t| + |r|]
    ensures t[|r|..] == s[|s| - |t| + |r|..]
  {
  }

  /**
   * Trimming is characterised by its result: any split of `s` into white space, a trimmed middle
   * and white space has that middle as `Trim(rule, s)`.
   */
  lemma TrimUnique(rule: Space, s: string, a: nat, b: nat)
    requires a <= b <= |s|
    requires AllSpace(rule, s[..a]) && AllSpace(rule, s[b..])
    requires IsTrimmed(rule, s[a..b])
    ensures Trim(rule, s) == s[a..b]
  {
    var a', b' := TrimBounds(rule, s);
    SameCut(rule, s, a, b, a', b');
  }

  /** Two splits of `s` into white space, a trimmed middle and white space have the same middle. */
  lemma SameCut(rule: Space, s: string, a: nat, b: nat, a': nat, b': nat)
    requires a <= b <= |s| && AllSpace(rule, s[..a]) && AllSpace(rule, s[b..]) && IsTrimmed(rule, s[a..b])
    requires a' <= b' <= |s| && AllSpace(rule, s[..a']) && AllSpace(rule, s[b'..]) && IsTrimmed(rule, s[a'..b'])
    ensures s[a..b] == s[a'..b']
  {
    SpaceOutside(rule, s, a, b);
    SpaceOutside(rule, s, a', b');
    if a == b || a' == b' {
      assert a == b && a' == b';
    } else {
      assert a == a' && b == b';
    }
  }

  /** The index-wise reading of a split into white space, a trimmed middle and white space. */
  lemma SpaceOutside(rule: Space, s: string, a: nat, b: nat)
    requires a <= b <= |s|
    requires AllSpace(rule, s[..a]) && AllSpace(rule, s[b..])
    requires IsTrimmed(rule, s[a..b])
    ensures forall k | 0 <= k < a :: IsSpace(rule, s[k])
    ensures forall k | b <= k < |s| :: IsSpace(rule, s[k])
    ensures a < b ==> !IsSpace(rule, s[a]) && !IsSpace(rule, s[b - 1])
  {
    forall k | 0 <= k < a ensures IsSpace(rule, s[k]) {
      assert s[k] == s[..a][k];
    }
    forall k | b <= k < |s| ensures IsSpace(rule, s[k]) {
      assert s[k] == s[b..][k - b];
    }
    if a < b {
      assert s[a] == s[a..b][0];
      assert s[b - 1] == s[a..b][b - a - 1];
    }
  }

  /** A string made only of white space trims to nothing. */
  lemma TrimAllSpace(rule: Space, s: string)
    requires AllSpace(rule, s)
    ensures Trim(rule, s) == []
  {
    TrimUnique(rule, s, 0, 0);
  }

  /** Trimming leaves nothing exactly when the string is all white space. */
  lemma TrimEmpty(rule: Space, s: string)
    ensures Trim(rule, s) == [] <==> AllSpace(rule, s)
  {
    var a, b := TrimBounds(rule, s);
    if Trim(rule, s) == [] {
      assert a == b;
      assert s == s[..a] + s[b..];
      AllSpaceConcat(rule, s[..a], s[b..]);
    }
    if AllSpace(rule, s) {
      TrimAllSpace(rule, s);
    }
  }

  /** Trimming leaves an already trimmed string alone. */
  lemma TrimTrimmed(rule: Space, s: string)
    requires IsTrimmed(rule, s)
    ensures Trim(rule, s) == s
  {
    TrimUnique(rule, s, 0, |s|);
  }

  /** White space added in front disappears again under trimming. */
  lemma TrimLeading(rule: Space, lead: string, s: string)
    requires AllSpace(rule, lead)
    ensures Trim(rule, lead + s) == Trim(rule, s)
  {
    TrimStartLeading(rule, lead, s);
  }

  lemma {:induction false} TrimStartLeading(rule: Space, lead: string, s: string)
    requires AllSpace(rule, lead)
    ensures TrimStart(rule, lead + s) == TrimStart(rule, s)
    decreases |lead|
  {
    if lead != [] {
      SpaceTail(rule, lead, s);
      assert TrimStart(rule, lead + s) == TrimStart(rule, lead[1..] + s);
      TrimStartLeading(rule, lead[1..], s);
    } else {
      assert lead + s == s;
    }
  }

  /** Taking the first character off a white-space prefix. */
  lemma SpaceTail(rule: Space, lead: string, s: string)
    requires lead != [] && AllSpace(rule, lead)
    ensures (lead + s)[0] == lead[0] && IsSpace(rule, lead[0])
    ensures (lead + s)[1..] == lead[1..] + s
    ensures AllSpace(rule, lead[1..])
  {
    assert forall k | 0 <= k < |lead| - 1 :: lead[1..][k] == lead[k + 1];
  }

  /** White space added at the end disappears again under trimming. */
  lemma TrimTrailing(rule: Space, s: string, trail: string)
    requires AllSpace(rule, trail)
    ensures Trim(rule, s + trail) == Trim(rule, s)
  {
    var a, b := TrimBounds(rule, s);
    var p := s + trail;
    AppendSlices(s, trail, a, b);
    AllSpaceConcat(rule, s[b..], trail);
    TrimUnique(rule, p, a, b);
  }

  /** Slices of `s` below `b` are unchanged by appending `trail`; the suffix from `b` gains it. */
  lemma AppendSlices<T>(s: seq<T>, trail: seq<T>, a: nat, b: nat)
    requires a <= b <= |s|
    ensures (s + trail)[..a] == s[..a] && (s + trail)[a..b] == s[a..b]
    ensures (s + trail)[b..] == s[b..] + trail
  {
  }

  /** A trimmed string never holds a character its source did not. */
  lemma TrimKeepsOut(rule: Space, s: string, c: char)
    ensures c in Trim(rule, s) ==> c in s
  {
    var a, b := TrimBounds(rule, s);
    assert forall k | 0 <= k < b - a :: s[a..b][k] == s[a + k];
  }

  /** White space holds no character that is not white space. */
  lemma NotInSpace(rule: Space, s: string, c: char)
    requires AllSpace(rule, s) && !IsSpace(rule, c)
    ensures c !in s
  {
    assert forall k | 0 <= k < |s| :: s[k] != c;
  }

  /** Python's `s.split(sep)` for a one-character separator: the text between separators, in order. */
  function Split(s: string, sep: char): (parts: seq<string>)
    ensures |parts| >= 1
    ensures forall k | 0 <= k < |parts| :: sep !in parts[k]
    decreases |s|
  {
    if s == [] then
      [[]]
    else
      var rest := Split(s[1..], sep);
      if s[0] == sep then [[]] + rest else [[s[0]] + rest[0]] + rest[1..]
  }

  /** Python's `sep.join(parts)`. */
  function Join(parts: seq<string>, sep: string): string
    decreases |parts|
  {
    if |parts| == 0 then []
    else if |parts| == 1 then parts[0]
    else parts[0] + sep + Join(parts[1..], sep)
  }

  /** Joining the pieces of a split with the separator gives back the original text. */
  lemma {:induction false} JoinSplit(s: string, sep: char)
    ensures Join(Split(s, sep), [sep]) == s
    decreases |s|
  {
    if s != [] {
      var rest := Split(s[1..], sep);
      JoinSplit(s[1..], sep);
      if s[0] == sep {
        assert Split(s, sep) == [[]] + rest;
        assert ([[]] + rest)[1..] == rest;
      } else if |rest| == 1 {
        assert Split(s, sep) == [[s[0]] + rest[0]];
      } else {
        var parts := [[s[0]] + rest[0]] + rest[1..];
        assert parts[1..] == rest[1..];
        assert Join(rest, [sep]) == rest[0] + [sep] + Join(rest[1..], [sep]);
        assert Split(s, sep) == parts;
        assert s == [s[0]] + s[1..];
      }
    }
  }

  /** Text without the separator is one piece. */
  lemma {:induction false} SplitWithoutSeparator(s: string, sep: char)
    requires sep !in s
    ensures Split(s, sep) == [s]
    decreases |s|
  {
    if s != [] {
      SplitWithoutSeparator(s[1..], sep);
      assert s == [s[0]] + s[1..];
    }
  }

  /** Splitting `a`, a separator, then `b` gives the pieces of `a` followed by the pieces of `b`. */
  lemma {:induction false} SplitConcat(a: string, b: string, sep: char)
    ensures Split(a + [sep] + b, sep) == Split(a, sep) + Split(b, sep)
    decreases |a|
  {
    var s := a + [sep] + b;
    if a == [] {
      assert s == [sep] + b;
      SplitStep(s, sep);
      assert s[1..] == b;
    } else {
      ConsSlices(a, [sep] + b);
      assert s == a + ([sep] + b);
      assert a[1..] + ([sep] + b) == a[1..] + [sep] + b;
      SplitConcat(a[1..], b, sep);
      SplitStep(s, sep);
      SplitStep(a, sep);
      PushConcat(a[0], sep, Split(a[1..], sep), Split(b, sep));
    }
  }

  /** One step of `Split`: the first character either starts a new piece or joins the first one. */
  function Push(c: char, sep: char, parts: seq<string>): seq<string>
    requires |parts| >= 1
  {
    if c == sep then [[]] + parts else [[c] + parts[0]] + parts[1..]
  }

  lemma SplitStep(s: string, sep: char)
    requires s != []
    ensures Split(s, sep) == Push(s[0], sep, Split(s[1..], sep))
  {
  }

  /** A step on the front of a list of pieces does not touch the pieces appended behind them. */
  lemma PushConcat(c: char, sep: char, x: seq<string>, y: seq<string>)
    requires |x| >= 1
    ensures Push(c, sep, x + y) == Push(c, sep, x) + y
  {
    if c != sep {
      assert (x + y)[1..] == x[1..] + y;
    }
  }

  /** The head and the tail of a non-empty `a` followed by `m`. */
  lemma ConsSlices<T>(a: seq<T>, m: seq<T>)
    requires a != []
    ensures (a + m)[0] == a[0] && (a + m)[1..] == a[1..] + m
  {
  }

  /** The position of the first `c` in `s`, if any. */
  function IndexOf(s: string, c: char): (i: Option<nat>)
    ensures i.None? <==> c !in s
    ensures i.Some? ==> i.value < |s| && s[i.value] == c && c !in s[..i.value]
    decreases |s|
  {
    if s == [] then None
    else if s[0] == c then Some(0)
    else
      match IndexOf(s[1..], c)
      case None => None
      case Some(j) =>
        assert s[..j + 1] == [s[0]] + s[1..][..j];
        Some(j + 1)
  }

  /** Python's `s.replace(from, to)` for one character by one character. */
  function ReplaceChar(s: string, from: char, to: char): (r: string)
    ensures |r| == |s|
    ensures forall k | 0 <= k < |s| :: r[k] == (if s[k] == from then to else s[k])
    decreases |s|
  {
    if s == [] then [] else [if s[0] == from then to else s[0]] + ReplaceChar(s[1..], from, to)
  }

  /** The decimal digit for `d`. */
  function Digit(d: nat): (c: char)
    requires d < 10
    ensures '0' <= c <= '9'
  {
    (48 + d) as char
  }

  /** Python's `str(n)` / f-string rendering of a non-negative integer. */
  function NatToString(n: nat): (s: string)
    ensures |s| >= 1
    ensures (n < 10) == (|s| == 1)
    ensures forall k | 0 <= k < |s| :: '0' <= s[k] <= '9'
    decreases n
  {
    if n < 10 then [Digit(n)] else NatToString(n / 10) + [Digit(n % 10)]
  }

  /** The number a string of decimal digits spells, most significant digit first. */
  function DigitsValue(s: string): nat
    requires forall k | 0 <= k < |s| :: '0' <= s[k] <= '9'
    decreases |s|
  {
    if s == [] then 0 else DigitsValue(s[..|s| - 1]) * 10 + (s[|s| - 1] as int - '0' as int)
  }

  /** The rendering spells `n` in decimal, without a leading zero. */
  lemma {:induction false} NatToStringValue(n: nat)
    ensures DigitsValue(NatToString(n)) == n
    ensures n == 0 || NatToString(n)[0] != '0'
    decreases n
  {
    var s := NatToString(n);
    if n < 10 {
      assert s[..0] == [];
    } else {
      var p := NatToString(n / 10);
      NatToStringValue(n / 10);
      assert s[..|s| - 1] == p;
      assert s[0] == p[0];
    }
  }

  /** Different numbers have different decimal renderings. */
  lemma {:induction false} NatToStringInjective(a: nat, b: nat)
    requires NatToString(a) == NatToString(b)
    ensures a == b
    decreases a
  {
    var s := NatToString(a);
    assert s[|s| - 1] == Digit(a % 10) == Digit(b % 10);
    if a >= 10 {
      assert b >= 10;
      assert NatToString(a / 10) == s[..|s| - 1] == NatToString(b / 10);
      NatToStringInjective(a / 10, b / 10);
    }
  }
}
