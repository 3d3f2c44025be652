/** The string primitives of the JavaScript/Servoy host that the search
    compiler relies on: indexOf, lastIndexOf, charAt, substring, split,
    trim, replace-all, upper-casing and regular-expression escaping. */
module Strings {
  import opened JsValues

  /** `pat` occurs in `s` starting at index `k`. */
  predicate OccursAt(s: string, pat: string, k: int) {
    0 <= k && k + |pat| <= |s| && s[k..k + |pat|] == pat
  }

  /** `String.prototype.indexOf(pat, from)`: the first occurrence at or after
      `from`, or -1. */
  function IndexOfFrom(s: string, pat: string, from: nat): (r: int)
    requires from <= |s|
    ensures r == -1 || (from <= r && OccursAt(s, pat, r))
    ensures r == -1 ==> forall k :: from <= k && OccursAt(s, pat, k) ==> false
    ensures r >= 0 ==> forall k :: from <= k < r ==> !OccursAt(s, pat, k)
    decreases |s| - from
  {
    if from + |pat| > |s| then -1
    else if s[from..from + |pat|] == pat then from
    else IndexOfFrom(s, pat, from + 1)
  }

  /** `String.prototype.indexOf(pat)`. */
  function IndexOf(s: string, pat: string): (r: int)
    ensures r == -1 || OccursAt(s, pat, r)
    ensures r == -1 ==> forall k :: !OccursAt(s, pat, k)
    ensures r >= 0 ==> forall k :: 0 <= k < r ==> !OccursAt(s, pat, k)
  {
    IndexOfFrom(s, pat, 0)
  }

  /** The first occurrence is where the pattern occurs with none before. */
  lemma IndexOfAt(s: string, pat: string, p: nat)
    requires OccursAt(s, pat, p)
    requires forall k :: 0 <= k < p ==> !OccursAt(s, pat, k)
    ensures IndexOf(s, pat) == p
  {
  }

  /** `String.prototype.lastIndexOf(c, from)` for a one-character search and
      an index inside the string: the last `c` at or before `from`, or -1. */
  function LastIndexOfChar(s: string, c: char, from: int): (r: int)
    requires -1 <= from < |s|
    ensures -1 <= r <= from
    ensures r >= 0 ==> s[r] == c
    ensures forall k :: r < k <= from ==> s[k] != c
    decreases from + 1
  {
    if from < 0 then -1
    else if s[from] == c then from
    else LastIndexOfChar(s, c, from - 1)
  }

  /** `String.prototype.charAt(i)`: `None` stands for the empty string that
      JavaScript returns outside the bounds. */
  function CharAt(s: string, i: int): (r: Option<char>)
    ensures r.Some? <==> 0 <= i < |s|
    ensures r.Some? ==> r.value == s[i]
  {
    if 0 <= i < |s| then Some(s[i]) else None
  }

  function Clamp(i: int, n: nat): (r: nat)
    ensures r <= n
  {
    if i < 0 then 0 else if i > n then n else i
  }

  /** `String.prototype.substring(a, b)`: both ends clamped into the string,
      and swapped when the start lies after the end. */
  function Substring(s: string, a: int, b: int): (r: string)
    ensures |r| <= |s|
  {
    var x, y := Clamp(a, |s|), Clamp(b, |s|);
    if x <= y then s[x..y] else s[y..x]
  }

  /** `substring` is the plain slice for in-range ends given in order; the
      ends may come in either order, and a negative start counts as 0. */
  lemma SubstringSpec(s: string, a: int, b: int)
    ensures 0 <= a <= b <= |s| ==> Substring(s, a, b) == s[a..b]
    ensures Substring(s, a, b) == Substring(s, b, a)
    ensures a < 0 ==> Substring(s, a, b) == Substring(s, 0, b)
    ensures |Substring(s, a, b)| == if Clamp(a, |s|) <= Clamp(b, |s|) then Clamp(b, |s|) - Clamp(a, |s|) else Clamp(a, |s|) - Clamp(b, |s|)
  {
  }

  /** `String.prototype.split(sep)` for a non-empty separator: the pieces
      between the non-overlapping occurrences of `sep`, left to right. */
  function Split(s: string, sep: string): (parts: seq<string>)
    requires |sep| > 0
    ensures |parts| >= 1
    ensures |parts| > 1 <==> IndexOf(s, sep) >= 0
    ensures parts[0] == Before(s, sep)
    decreases |s|
  {
    var i := IndexOf(s, sep);
    if i < 0 then [s] else [s[..i]] + Split(s[i + |sep|..], sep)
  }

  lemma SliceOccurs(s: string, n: nat, pat: string)
    requires n <= |s|
    ensures forall k :: OccursAt(s[..n], pat, k) ==> OccursAt(s, pat, k) && k + |pat| <= n
  {
    forall k | OccursAt(s[..n], pat, k) ensures OccursAt(s, pat, k) {
      assert s[..n][k..k + |pat|] == s[k..k + |pat|];
    }
  }

  /** The text before the first `sep`, or all of `s` when there is none. */
  function Before(s: string, sep: string): (r: string)
    ensures |r| <= |s| && r == s[..|r|]
    ensures IndexOf(r, sep) == -1 || |sep| == 0
  {
    var i := IndexOf(s, sep);
    if i < 0 then s
    else
      SliceOccurs(s, i, sep);
      s[..i]
  }

  /** The text up to the end of a prefix `v` of what follows an occurrence
      of `sep` is the text before it, `sep` and `v`. */
  lemma PrefixAround(s: string, sep: string, i: nat, v: string)
    requires OccursAt(s, sep, i)
    requires |v| <= |s| - i - |sep| && v == s[i + |sep|..][..|v|]
    ensures s[..i + |sep| + |v|] == s[..i] + sep + v
  {
    var n := i + |sep| + |v|;
    assert s[..n] == s[..n][..i] + s[..n][i..i + |sep|] + s[..n][i + |sep|..];
    assert s[..n][i + |sep|..] == v;
  }

  /** `Array.prototype.join(sep)`. */
  function Join(parts: seq<string>, sep: string): string {
    if |parts| == 0 then ""
    else if |parts| == 1 then parts[0]
    else parts[0] + sep + Join(parts[1..], sep)
  }

  lemma SliceParts(s: string, a: nat, b: nat)
    requires a <= b <= |s|
    ensures s == s[..a] + s[a..b] + s[b..]
  {
  }

  lemma JoinCons(head: string, tail: seq<string>, sep: string)
    requires |tail| >= 1
    ensures Join([head] + tail, sep) == head + sep + Join(tail, sep)
  {
    assert ([head] + tail)[1..] == tail;
  }

  lemma SplitAround(s: string, sep: string, i: nat)
    requires OccursAt(s, sep, i)
    ensures s == s[..i] + sep + s[i + |sep|..]
  {
    SliceParts(s, i, i + |sep|);
  }

  lemma JoinPair(parts: seq<string>, sep: string)
    requires |parts| == 2
    ensures Join(parts, sep) == parts[0] + sep + parts[1]
  {
    assert parts[1..][0] == parts[1];
  }

  /** Joining the pieces of a split with the same separator gives back the
      string. */
  lemma {:induction false} JoinSplit(s: string, sep: string)
    requires |sep| > 0
    ensures Join(Split(s, sep), sep) == s
    decreases |s|
  {
    var i := IndexOf(s, sep);
    if i < 0 {
      assert Split(s, sep) == [s];
    } else {
      var rest := s[i + |sep|..];
      JoinSplit(rest, sep);
      SplitCons(s, sep);
      JoinCons(s[..i], Split(rest, sep), sep);
      SplitAround(s, sep, i);
    }
  }

  lemma SplitCons(s: string, sep: string)
    requires |sep| > 0 && IndexOf(s, sep) >= 0
    ensures var i := IndexOf(s, sep);
      Split(s, sep) == [s[..i]] + Split(s[i + |sep|..], sep)
  {
  }

  /** No piece of a split contains the separator. */
  lemma {:induction false} SplitPiecesFree(s: string, sep: string)
    requires |sep| > 0
    ensures forall p :: p in Split(s, sep) ==> IndexOf(p, sep) == -1
    decreases |s|
  {
    var i := IndexOf(s, sep);
    if i >= 0 {
      var rest := s[i + |sep|..];
      SplitPiecesFree(rest, sep);
      SplitCons(s, sep);
      FreeCons(s[..i], Split(rest, sep), sep);
    } else {
      assert Split(s, sep) == [s];
    }
  }

  /** Prepending a piece free of `sep` to pieces free of it. */
  lemma FreeCons(h: string, tail: seq<string>, sep: string)
    requires IndexOf(h, sep) == -1
    requires forall p :: p in tail ==> IndexOf(p, sep) == -1
    ensures forall p :: p in [h] + tail ==> IndexOf(p, sep) == -1
  {
    forall p | p in [h] + tail ensures IndexOf(p, sep) == -1 {
      if p != h {
        assert p in tail;
      }
    }
  }

  /** A string without the (one-character) separator splits into itself. */
  lemma SplitWithout(s: string, c: char)
    requires c !in s
    ensures Split(s, [c]) == [s]
  {
    assert forall k :: OccursAt(s, [c], k) ==> s[k] == c;
  }

  /** Whitespace as Java's `String.trim` sees it: every character up to
      U+0020. */
  predicate IsSpace(c: char) {
    c <= ' '
  }

  function TrimStart(s: string): (r: string)
    ensures |r| <= |s| && r == s[|s| - |r|..]
    ensures forall k :: 0 <= k < |s| - |r| ==> IsSpace(s[k])
    ensures r == [] || !IsSpace(r[0])
  {
    if s != [] && IsSpace(s[0]) then
      var r := TrimStart(s[1..]);
      assert s[1..][|s| - 1 - |r|..] == s[|s| - |r|..];
      r
    else s
  }

  function TrimEnd(s: string): (r: string)
    ensures |r| <= |s| && r == s[..|r|]
    ensures forall k :: |r| <= k < |s| ==> IsSpace(s[k])
    ensures r == [] || !IsSpace(r[|r| - 1])
  {
    if s != [] && IsSpace(s[|s| - 1]) then TrimEnd(s[..|s| - 1]) else s
  }

  /** The number of whitespace characters that open `s`. */
  function LeadingSpaces(s: string): (n: nat)
    ensures n <= |s|
  {
    |s| - |TrimStart(s)|
  }

  /** `utils.stringTrim`: `s` without its leading and trailing whitespace. */
  function Trim(s: string): (r: string)
    ensures r == [] || (!IsSpace(r[0]) && !IsSpace(r[|r| - 1]))
  {
    TrimEnd(TrimStart(s))
  }

  /** Trimming keeps the middle of `s` and drops only whitespace around
      it. */
  lemma TrimSpec(s: string)
    ensures var r := Trim(s);
      && LeadingSpaces(s) + |r| <= |s|
      && r == s[LeadingSpaces(s)..LeadingSpaces(s) + |r|]
      && (forall k :: 0 <= k < LeadingSpaces(s) ==> IsSpace(s[k]))
      && (forall k :: LeadingSpaces(s) + |r| <= k < |s| ==> IsSpace(s[k]))
  {
    var t := TrimStart(s);
    TrimAround(s, |s| - |t|, TrimEnd(t));
  }

  /** When `s` opens with `a` whitespace characters and `r` is what is left
      of the rest once its trailing whitespace is dropped, `r` is the middle
      of `s` and whitespace follows it. */
  lemma TrimAround(s: string, a: nat, r: string)
    requires a <= |s| && |r| <= |s| - a && r == s[a..][..|r|]
    requires forall k :: |r| <= k < |s| - a ==> IsSpace(s[a..][k])
    ensures r == s[a..a + |r|]
    ensures forall k :: a + |r| <= k < |s| ==> IsSpace(s[k])
  {
    forall k | a + |r| <= k < |s| ensures IsSpace(s[k]) {
      assert s[k] == s[a..][k - a];
    }
  }

  /** Upper-casing of one character (the ASCII letters). */
  function UpperChar(c: char): char {
    if 'a' <= c <= 'z' then (c as int - 32) as char else c
  }

  /** `String.prototype.toUpperCase`. */
  function Upper(s: string): (r: string)
    ensures |r| == |s|
    ensures forall k :: 0 <= k < |s| ==> r[k] == UpperChar(s[k])
  {
    if s == [] then [] else [UpperChar(s[0])] + Upper(s[1..])
  }

  /** Character comparison, case-folded when `fold` holds (the `i` flag of a
      regular expression). */
  predicate SameChar(a: char, b: char, fold: bool) {
    if fold then UpperChar(a) == UpperChar(b) else a == b
  }

  predicate MatchesAt(s: string, k: nat, pat: string, fold: bool) {
    k + |pat| <= |s| && forall j :: 0 <= j < |pat| ==> SameChar(s[k + j], pat[j], fold)
  }

  /** Replace every non-overlapping occurrence of `pat`, scanning left to
      right: `utils.stringReplace` (`fold` false) and
      `String.prototype.replace` with a literal global regular expression
      (`fold` true for the `i` flag). An empty pattern leaves `s` unchanged. */
  function ReplaceAll(s: string, pat: string, rep: string, fold: bool): string
    decreases |s|
  {
    if |pat| == 0 || |s| < |pat| then s
    else if MatchesAt(s, 0, pat, fold) then rep + ReplaceAll(s[|pat|..], pat, rep, fold)
    else [s[0]] + ReplaceAll(s[1..], pat, rep, fold)
  }

  /** A pattern that occurs nowhere leaves the string unchanged. */
  lemma {:induction false} ReplaceAllAbsent(s: string, pat: string, rep: string, fold: bool)
    requires forall k: nat :: !MatchesAt(s, k, pat, fold)
    ensures ReplaceAll(s, pat, rep, fold) == s
    decreases |s|
  {
    if |pat| != 0 && |s| >= |pat| {
      assert !MatchesAt(s, 0, pat, fold);
      forall k: nat ensures !MatchesAt(s[1..], k, pat, fold) {
        assert !MatchesAt(s, k + 1, pat, fold);
      }
      ReplaceAllAbsent(s[1..], pat, rep, fold);
    }
  }

  /** Without case folding, matching is occurrence. */
  lemma MatchesOccurs(s: string, k: nat, pat: string)
    ensures MatchesAt(s, k, pat, false) <==> OccursAt(s, pat, k)
  {
    if MatchesAt(s, k, pat, false) {
      assert s[k..k + |pat|] == pat;
    }
    if OccursAt(s, pat, k) {
      forall j | 0 <= j < |pat| ensures s[k + j] == pat[j] {
        assert s[k..k + |pat|][j] == pat[j];
      }
    }
  }

  /** The text before the first occurrence is copied unchanged. */
  lemma {:induction false} ReplaceAllSkip(s: string, pat: string, rep: string, i: nat)
    requires |pat| > 0 && i <= |s|
    requires forall k :: 0 <= k < i ==> !OccursAt(s, pat, k)
    ensures ReplaceAll(s, pat, rep, false) == s[..i] + ReplaceAll(s[i..], pat, rep, false)
    decreases i
  {
    if i > 0 && |s| >= |pat| {
      MatchesOccurs(s, 0, pat);
      forall k | 0 <= k < i - 1 ensures !OccursAt(s[1..], pat, k) {
        assert !OccursAt(s, pat, k + 1);
      }
      ReplaceAllSkip(s[1..], pat, rep, i - 1);
      assert s[1..][i - 1..] == s[i..];
      assert s[..i] == [s[0]] + s[1..][..i - 1];
    } else if i > 0 {
      assert s == s[..i] + s[i..];
    }
  }

  /** At the first occurrence, the replacement goes in and the rest of the
      string is processed after the pattern. */
  lemma ReplaceAllFirst(s: string, pat: string, rep: string, i: nat)
    requires |pat| > 0 && OccursAt(s, pat, i)
    requires forall k :: 0 <= k < i ==> !OccursAt(s, pat, k)
    ensures ReplaceAll(s, pat, rep, false) == s[..i] + (rep + ReplaceAll(s[i + |pat|..], pat, rep, false))
  {
    var t := s[i..];
    assert ReplaceAll(s, pat, rep, false) == s[..i] + ReplaceAll(t, pat, rep, false) by {
      ReplaceAllSkip(s, pat, rep, i);
    }
    assert ReplaceAll(t, pat, rep, false) == rep + ReplaceAll(s[i + |pat|..], pat, rep, false) by {
      assert t[0..|pat|] == s[i..i + |pat|];
      ReplaceAllAtStart(t, pat, rep);
      assert t[|pat|..] == s[i + |pat|..];
    }
  }

  lemma ReplaceAllAtStart(t: string, pat: string, rep: string)
    requires |pat| > 0 && OccursAt(t, pat, 0)
    ensures ReplaceAll(t, pat, rep, false) == rep + ReplaceAll(t[|pat|..], pat, rep, false)
  {
    MatchesOccurs(t, 0, pat);
  }

  /** Case-sensitive replace-all is split-and-join: the pieces between the
      occurrences of the pattern, joined by the replacement. */
  lemma {:induction false} ReplaceAllSplit(s: string, pat: string, rep: string)
    requires |pat| > 0
    ensures ReplaceAll(s, pat, rep, false) == Join(Split(s, pat), rep)
    decreases |s|
  {
    var i := IndexOf(s, pat);
    if i < 0 {
      forall k: nat ensures !MatchesAt(s, k, pat, false) {
        MatchesOccurs(s, k, pat);
      }
      ReplaceAllAbsent(s, pat, rep, false);
    } else {
      ReplaceAllFirst(s, pat, rep, i);
      ReplaceAllSplit(s[i + |pat|..], pat, rep);
      JoinCons(s[..i], Split(s[i + |pat|..], pat), rep);
    }
  }

  /** Replacing a pattern by itself, case-sensitively, changes nothing. */
  lemma {:induction false} ReplaceAllSelf(s: string, pat: string)
    ensures ReplaceAll(s, pat, pat, false) == s
    decreases |s|
  {
    if |pat| != 0 && |s| >= |pat| {
      if MatchesAt(s, 0, pat, false) {
        ReplaceAllSelf(s[|pat|..], pat);
        assert s[..|pat|] == pat;
        assert s == s[..|pat|] + s[|pat|..];
      } else {
        ReplaceAllSelf(s[1..], pat);
        assert s == [s[0]] + s[1..];
      }
    }
  }

  /** Prefix every character of `specials` with a backslash (the
      `replace(/[...]/g, '\\$&')` idiom). */
  function Escape(s: string, specials: set<char>): string {
    if s == [] then []
    else (if s[0] in specials then ['\\', s[0]] else [s[0]]) + Escape(s[1..], specials)
  }

  /** Drop each backslash and keep the character it escapes. */
  function Unescape(s: string): string
    decreases |s|
  {
    if s == [] then []
    else if s[0] == '\\' && |s| >= 2 then [s[1]] + Unescape(s[2..])
    else [s[0]] + Unescape(s[1..])
  }

  /** The characters `regexpEscape` escapes: - / \ ^ $ * + ? . ( ) | [ ] { } */
  const RegexpSpecials: set<char> :=
    {'-', '/', '\\', '^', '$', '*', '+', '?', '.', '(', ')', '|', '[', ']', '{', '}'}

  /** The characters the substitution key mask escapes:
      . * + ? ^ $ { } ( ) | [ ] \ */
  const MaskSpecials: set<char> :=
    {'.', '*', '+', '?', '^', '$', '{', '}', '(', ')', '|', '[', ']', '\\'}

  /** `regexpEscape(s)`. */
  function RegexpEscape(s: string): (r: string)
    ensures Unescape(r) == s
    ensures |r| == |s| + CountIn(s, RegexpSpecials)
  {
    UnescapeEscape(s, RegexpSpecials);
    EscapeLength(s, RegexpSpecials);
    Escape(s, RegexpSpecials)
  }

  /** Escaping is undone by unescaping, as long as the backslash itself is
      escaped. */
  lemma {:induction false} UnescapeEscape(s: string, specials: set<char>)
    requires '\\' in specials
    ensures Unescape(Escape(s, specials)) == s
  {
    if s != [] {
      UnescapeEscape(s[1..], specials);
      var e := Escape(s[1..], specials);
      if s[0] in specials {
        assert Escape(s, specials) == ['\\', s[0]] + e;
        assert (['\\', s[0]] + e)[2..] == e;
      } else {
        assert Escape(s, specials) == [s[0]] + e;
        assert ([s[0]] + e)[1..] == e;
      }
    }
  }

  /** `regexpEscape` loses nothing: unescaping gives the text back, and a
      text without special characters is returned as it is. */
  lemma RegexpEscapeInverse(s: string)
    ensures Unescape(RegexpEscape(s)) == s
    ensures RegexpEscape(s) == s <==> forall k :: 0 <= k < |s| ==> s[k] !in RegexpSpecials
  {
    UnescapeEscape(s, RegexpSpecials);
    EscapeLength(s, RegexpSpecials);
  }

  function CountIn(s: string, specials: set<char>): nat {
    if s == [] then 0 else (if s[0] in specials then 1 else 0) + CountIn(s[1..], specials)
  }

  /** Escaping adds exactly one character per special character, so it leaves
      a string unchanged exactly when the string has no special character. */
  lemma {:induction false} EscapeLength(s: string, specials: set<char>)
    ensures |Escape(s, specials)| == |s| + CountIn(s, specials)
    ensures Escape(s, specials) == s <==> CountIn(s, specials) == 0
    ensures CountIn(s, specials) == 0 <==> forall k :: 0 <= k < |s| ==> s[k] !in specials
  {
    if s != [] {
      EscapeLength(s[1..], specials);
      if CountIn(s, specials) == 0 {
        assert forall k :: 1 <= k < |s| ==> s[k] == s[1..][k - 1];
      }
      if s[0] !in specials && CountIn(s[1..], specials) != 0 {
        var k :| 0 <= k < |s[1..]| && s[1..][k] in specials;
        assert s[k + 1] in specials;
      }
    }
  }
}
