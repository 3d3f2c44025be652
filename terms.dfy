/** The tokenizer of the search text (svySearch/svySearch.js `parse`,
    `parseEnclosedStrings`, `parseField` and `parseModifiers`). */
module Terms {
  import opened JsValues
  import opened Strings

  /** The modifier flags of a term. */
  datatype Modifiers = Modifiers(exclude: bool, exact: bool, gt: bool, ge: bool, lt: bool, le: bool, between: bool)

  const NoModifiers := Modifiers(false, false, false, false, false, false, false)

  /** One search term. `field` and `valueMax` are `None` for JavaScript's null. */
  datatype Term = Term(value: string, valueMax: Option<string>, field: Option<string>, quoted: bool, modifiers: Modifiers)

  /** How many modifier flags are set. */
  function FlagCount(m: Modifiers): nat {
    (if m.exclude then 1 else 0) + (if m.exact then 1 else 0) + (if m.gt then 1 else 0)
    + (if m.ge then 1 else 0) + (if m.lt then 1 else 0) + (if m.le then 1 else 0)
    + (if m.between then 1 else 0)
  }

  // ---------------------------------------------------------------------
  // parseField

  /** `parseField`: an unquoted term containing ':' gets the text before the
      first ':' as its field, and the text between the first and the second
      ':' as its value (possibly empty). */
  function ParseField(t: Term): (r: Term)
    ensures t.quoted || IndexOf(t.value, ":") < 0 ==> r == t
    ensures !t.quoted && IndexOf(t.value, ":") >= 0 ==>
      var i := IndexOf(t.value, ":");
      r == t.(field := Some(t.value[..i]), value := Before(t.value[i + 1..], ":"))
  {
    if t.quoted then t
    else
      var info := Split(t.value, ":");
      if |info| > 1 then t.(field := Some(info[0]), value := info[1]) else t
  }

  /** The field and the value of a parsed unquoted term are pieces of the
      original text: field ':' value is a prefix of it, and neither holds a
      ':'. */
  lemma ParseFieldPieces(t: Term)
    requires !t.quoted && IndexOf(t.value, ":") >= 0
    ensures var r := ParseField(t);
      r.field.Some? && t.value[..|r.field.value| + 1 + |r.value|] == r.field.value + ":" + r.value
      && IndexOf(r.field.value, ":") == -1 && IndexOf(r.value, ":") == -1
  {
    var i := IndexOf(t.value, ":");
    var r := ParseField(t);
    var field := t.value[..i];
    var value := Before(t.value[i + 1..], ":");
    assert r.field == Some(field) && r.value == value;
    assert field == Before(t.value, ":");
    PrefixAround(t.value, ":", i, value);
  }

  // ---------------------------------------------------------------------
  // parseModifiers

  /** `parseModifiers`: one leading '-', '+', '>', '>=', '<' or '<=' is
      consumed, in that priority; otherwise a value containing "..." is split
      into the minimum (before the first "...") and the maximum (the next
      segment). */
  function ParseModifiers(t: Term): (r: Term)
    ensures r.field == t.field && r.quoted == t.quoted
    ensures !r.modifiers.between ==> r.valueMax == t.valueMax
  {
    var v := t.value;
    var m := t.modifiers;
    if CharAt(v, 0) == Some('-') then t.(modifiers := m.(exclude := true), value := v[1..])
    else if CharAt(v, 0) == Some('+') then t.(modifiers := m.(exact := true), value := v[1..])
    else if CharAt(v, 0) == Some('>') then
      if CharAt(v, 1) == Some('=') then t.(modifiers := m.(ge := true), value := v[2..])
      else t.(modifiers := m.(gt := true), value := v[1..])
    else if CharAt(v, 0) == Some('<') then
      if CharAt(v, 1) == Some('=') then t.(modifiers := m.(le := true), value := v[2..])
      else t.(modifiers := m.(lt := true), value := v[1..])
    else if IndexOf(v, "...") != -1 then
      var values := Split(v, "...");
      t.(modifiers := m.(between := true), value := values[0], valueMax := Some(values[1]))
    else t
  }

  /** The text a set of (at most one) modifier flags was parsed from. */
  function Prefix(m: Modifiers): string {
    if m.exclude then "-" else if m.exact then "+" else if m.ge then ">=" else if m.gt then ">"
    else if m.le then "<=" else if m.lt then "<" else ""
  }

  /** A parsed term written back as text. */
  function Render(t: Term): string {
    Prefix(t.modifiers) + t.value
    + (if t.modifiers.between && t.valueMax.Some? then "..." + t.valueMax.value else "")
  }

  /** Starting from a fresh term, parseModifiers sets at most one flag, and
      it sets one exactly when the value opens with '-', '+', '>' or '<' or
      contains "...". */
  lemma ParseModifiersOneFlag(t: Term)
    requires t.modifiers == NoModifiers
    ensures FlagCount(ParseModifiers(t).modifiers) <= 1
    ensures FlagCount(ParseModifiers(t).modifiers) == 1 <==>
      (|t.value| > 0 && t.value[0] in {'-', '+', '>', '<'}) || IndexOf(t.value, "...") >= 0
  {
  }

  /** The leading modifier wins over a "..." anywhere in the value. */
  lemma ParseModifiersPriority(t: Term)
    requires t.modifiers == NoModifiers
    requires |t.value| > 0 && t.value[0] in {'-', '+', '>', '<'}
    ensures !ParseModifiers(t).modifiers.between
    ensures ParseModifiers(t).valueMax == t.valueMax
  {
  }

  lemma PrefixRoundTrip(t: Term)
    requires t.modifiers == NoModifiers && t.valueMax == None
    requires |t.value| > 0 && t.value[0] in {'-', '+', '>', '<'}
    ensures Render(ParseModifiers(t)) == t.value
  {
    var v := t.value;
    var r := ParseModifiers(t);
    if |v| > 1 && v[0] in {'>', '<'} && v[1] == '=' {
      assert r.value == v[2..] && Prefix(r.modifiers) == v[..2] && !r.modifiers.between;
      assert v == v[..2] + v[2..];
    } else {
      assert r.value == v[1..] && Prefix(r.modifiers) == [v[0]] && !r.modifiers.between;
      assert v == [v[0]] + v[1..];
    }
  }

  /** `>=` and `<=` are read as one operator and both characters are
      stripped; a `>` or `<` not followed by `=` strips one character. */
  lemma TwoCharOperators(t: Term)
    ensures |t.value| > 1 && t.value[..2] == ">=" ==>
      ParseModifiers(t).modifiers == t.modifiers.(ge := true) && ParseModifiers(t).value == t.value[2..]
    ensures |t.value| > 1 && t.value[..2] == "<=" ==>
      ParseModifiers(t).modifiers == t.modifiers.(le := true) && ParseModifiers(t).value == t.value[2..]
    ensures |t.value| > 0 && t.value[0] == '>' && (|t.value| == 1 || t.value[1] != '=') ==>
      ParseModifiers(t).modifiers == t.modifiers.(gt := true) && ParseModifiers(t).value == t.value[1..]
    ensures |t.value| > 0 && t.value[0] == '<' && (|t.value| == 1 || t.value[1] != '=') ==>
      ParseModifiers(t).modifiers == t.modifiers.(lt := true) && ParseModifiers(t).value == t.value[1..]
  {
    if |t.value| > 1 {
      assert t.value[..2][0] == t.value[0] && t.value[..2][1] == t.value[1];
    }
  }

  lemma BetweenRoundTrip(t: Term)
    requires t.modifiers == NoModifiers && t.valueMax == None
    requires !(|t.value| > 0 && t.value[0] in {'-', '+', '>', '<'})
    requires IndexOf(t.value, "...") >= 0 && |Split(t.value, "...")| <= 2
    ensures Render(ParseModifiers(t)) == t.value
  {
    var parts := Split(t.value, "...");
    BetweenShape(t);
    JoinSplit(t.value, "...");
    JoinPair(parts, "...");
  }

  lemma BetweenShape(t: Term)
    requires t.modifiers == NoModifiers
    requires !(|t.value| > 0 && t.value[0] in {'-', '+', '>', '<'})
    requires IndexOf(t.value, "...") >= 0
    ensures var parts := Split(t.value, "...");
      ParseModifiers(t) == t.(modifiers := NoModifiers.(between := true), value := parts[0], valueMax := Some(parts[1]))
  {
  }

  /** parseModifiers strips exactly the consumed prefix: writing the flag
      back in front of the new value, and "..." and the maximum after it,
      gives the original value back, whenever the value holds at most one
      "...". */
  lemma ParseModifiersRoundTrip(t: Term)
    requires t.modifiers == NoModifiers && t.valueMax == None
    requires |Split(t.value, "...")| <= 2
    ensures Render(ParseModifiers(t)) == t.value
  {
    if |t.value| > 0 && t.value[0] in {'-', '+', '>', '<'} {
      PrefixRoundTrip(t);
    } else if IndexOf(t.value, "...") >= 0 {
      BetweenRoundTrip(t);
    } else {
      assert ParseModifiers(t) == t;
    }
  }

  /** A between term: the minimum is the text before the first "...", the
      maximum the segment after it, and neither contains "...". */
  lemma ParseModifiersBetween(t: Term)
    requires t.modifiers == NoModifiers
    requires ParseModifiers(t).modifiers.between
    ensures var r := ParseModifiers(t);
      var i := IndexOf(t.value, "...");
      && i >= 0 && r.value == t.value[..i]
      && r.valueMax == Some(Before(t.value[i + 3..], "..."))
      && IndexOf(r.value, "...") == -1 && IndexOf(r.valueMax.value, "...") == -1
  {
    var v := t.value;
    var i := IndexOf(v, "...");
    SplitCons(v, "...");
  }

  // ---------------------------------------------------------------------
  // parseEnclosedStrings

  /** The characters '.' does not match in a JavaScript regular expression. */
  predicate IsLineTerminator(c: char) {
    c == '\n' || c == '\r' || c == '\U{2028}' || c == '\U{2029}'
  }

  /** The first `c` at or after `from`, or -1. */
  function FindChar(s: string, c: char, from: nat): (r: int)
    requires from <= |s|
    ensures r == -1 || (from <= r < |s| && s[r] == c)
    ensures forall k :: from <= k < |s| && (r == -1 || k < r) ==> s[k] != c
    decreases |s| - from
  {
    if from == |s| then -1 else if s[from] == c then from else FindChar(s, c, from + 1)
  }

  /** The first `c` or line terminator at or after `from`, or -1. */
  function FindStop(s: string, c: char, from: nat): (r: int)
    requires from <= |s|
    ensures r == -1 || (from <= r < |s| && (s[r] == c || IsLineTerminator(s[r])))
    ensures forall k :: from <= k < |s| && (r == -1 || k < r) ==> s[k] != c && !IsLineTerminator(s[k])
    decreases |s| - from
  {
    if from == |s| then -1
    else if s[from] == c || IsLineTerminator(s[from]) then from
    else FindStop(s, c, from + 1)
  }

  /** One `exec` of the global expression `open(.*?)close` from `lastIndex`
      `pos`: the captured group and the new `lastIndex`, or `None`. */
  function Exec(s: string, open: char, close: char, pos: nat): (r: Option<(string, nat)>)
    requires pos <= |s|
    ensures r.Some? ==> pos < r.value.1 <= |s|
    decreases |s| - pos
  {
    var p := FindChar(s, open, pos);
    if p < 0 then None
    else
      var q := FindStop(s, close, p + 1);
      if q >= 0 && s[q] == close then Some((s[p + 1..q], q + 1))
      else Exec(s, open, close, p + 1)
  }

  /** `s[next - |g| - 2]` opens, `s[next - 1]` closes, and `g` lies between,
      holding neither the closing character nor a line terminator. */
  predicate Captured(s: string, open: char, close: char, g: string, next: nat) {
    && |g| + 2 <= next <= |s|
    && s[next - |g| - 2] == open && s[next - |g| - 1..next - 1] == g && s[next - 1] == close
    && (forall k :: 0 <= k < |g| ==> g[k] != close && !IsLineTerminator(g[k]))
  }

  lemma CapturedBetween(s: string, open: char, close: char, p: nat, q: nat)
    requires p < q < |s| && s[p] == open && s[q] == close
    requires forall k :: p + 1 <= k < q ==> s[k] != close && !IsLineTerminator(s[k])
    ensures Captured(s, open, close, s[p + 1..q], q + 1)
  {
    var g := s[p + 1..q];
    assert forall k :: 0 <= k < |g| ==> g[k] == s[p + 1 + k];
  }

  /** What `exec` captures is enclosed by `open` and `close` in the text,
      after `lastIndex`, and holds neither `close` nor a line terminator. */
  lemma {:induction false} ExecCaptures(s: string, open: char, close: char, pos: nat)
    requires pos <= |s|
    ensures Exec(s, open, close, pos).Some? ==>
      var r := Exec(s, open, close, pos).value;
      pos + |r.0| + 2 <= r.1 && Captured(s, open, close, r.0, r.1)
    decreases |s| - pos
  {
    var p := FindChar(s, open, pos);
    if p < 0 {
      ExecNone(s, open, close, pos);
    } else {
      var q := FindStop(s, close, p + 1);
      if q >= 0 && s[q] == close {
        ExecAt(s, open, close, pos, p, q);
        CapturedBetween(s, open, close, p, q);
      } else {
        ExecSkip(s, open, close, pos, p);
        ExecCaptures(s, open, close, p + 1);
      }
    }
  }

  /** Without an `open` ahead, `exec` fails. */
  lemma ExecNone(s: string, open: char, close: char, pos: nat)
    requires pos <= |s| && FindChar(s, open, pos) < 0
    ensures Exec(s, open, close, pos) == None
  {
  }

  /** An `open` not followed by its `close` on the same line is skipped. */
  lemma ExecSkip(s: string, open: char, close: char, pos: nat, p: nat)
    requires pos <= p < |s| && FindChar(s, open, pos) == p
    requires var q := FindStop(s, close, p + 1); !(q >= 0 && s[q] == close)
    ensures Exec(s, open, close, pos) == Exec(s, open, close, p + 1)
  {
  }

  /** All the groups that the `exec` loop collects from `pos` on. */
  function EnclosedFrom(s: string, open: char, close: char, pos: nat): (r: seq<string>)
    requires pos <= |s|
    decreases |s| - pos
  {
    match Exec(s, open, close, pos)
    case None => []
    case Some((g, next)) => [g] + EnclosedFrom(s, open, close, next)
  }

  /** No enclosed string holds the closing character. */
  lemma {:induction false} EnclosedFree(s: string, open: char, close: char, pos: nat)
    requires pos <= |s|
    ensures forall g :: g in EnclosedFrom(s, open, close, pos) ==> close !in g
    decreases |s| - pos
  {
    ExecCaptures(s, open, close, pos);
    match Exec(s, open, close, pos)
    case None =>
    case Some((g, next)) =>
      EnclosedFree(s, open, close, next);
      assert Captured(s, open, close, g, next);
  }

  /** The strings enclosed by `open` and `close`, in order. */
  function Enclosed(s: string, open: char, close: char): seq<string> {
    EnclosedFrom(s, open, close, 0)
  }

  /** The first `exec` finds the first quoted phrase: the one opened by the
      first `open` of the text. */
  lemma ExecFirst(a: string, g: string, b: string, open: char, close: char)
    requires open !in a
    requires close !in g && forall k :: 0 <= k < |g| ==> !IsLineTerminator(g[k])
    ensures var s := a + [open] + g + [close] + b;
      Exec(s, open, close, 0) == Some((g, |a| + |g| + 2))
  {
    var s := a + [open] + g + [close] + b;
    var p := |a|;
    var q := |a| + 1 + |g|;
    assert s[p] == open;
    assert forall k :: 0 <= k < p ==> s[k] == a[k];
    FindCharAt(s, open, 0, p);
    assert s[q] == close;
    assert s[p + 1..q] == g;
    assert forall k :: p + 1 <= k < q ==> s[k] == g[k - p - 1];
    FindStopAt(s, close, p + 1, q);
    ExecAt(s, open, close, 0, p, q);
  }

  /** Exec returns the group between the next `open` and the `close` that
      stops the scan after it. */
  lemma ExecAt(s: string, open: char, close: char, pos: nat, p: nat, q: nat)
    requires pos <= p < q < |s|
    requires FindChar(s, open, pos) == p && FindStop(s, close, p + 1) == q && s[q] == close
    ensures Exec(s, open, close, pos) == Some((s[p + 1..q], q + 1))
  {
  }

  /** FindChar returns the first position holding `c`. */
  lemma FindCharAt(s: string, c: char, from: nat, p: nat)
    requires from <= p < |s| && s[p] == c
    requires forall k :: from <= k < p ==> s[k] != c
    ensures FindChar(s, c, from) == p
  {
  }

  /** FindStop returns the first position holding `c` or a line
      terminator. */
  lemma FindStopAt(s: string, c: char, from: nat, q: nat)
    requires from <= q < |s| && s[q] == c
    requires forall k :: from <= k < q ==> s[k] != c && !IsLineTerminator(s[k])
    ensures FindStop(s, c, from) == q
  {
  }

  /** A text without an opening character holds no enclosed string. */
  lemma NoOpenNoneEnclosed(s: string, open: char, close: char, pos: nat)
    requires pos <= |s|
    requires forall k :: pos <= k < |s| ==> s[k] != open
    ensures EnclosedFrom(s, open, close, pos) == []
  {
  }

  /** `parseEnclosedStrings(text, open, close)`: both delimiters default to
      the double quote; the `exec` loop pushes every captured group. */
  method ParseEnclosedStrings(text: string, open: Option<char>, close: Option<char>) returns (matches: seq<string>)
    ensures var o := if open.Some? then open.value else '"';
      matches == Enclosed(text, o, if close.Some? then close.value else o)
  {
    var o := if open.Some? then open.value else '"';
    var c := if close.Some? then close.value else o;
    matches := [];
    var lastIndex := 0;
    var match_ := Exec(text, o, c, lastIndex);
    while match_.Some?
      invariant lastIndex <= |text|
      invariant match_ == Exec(text, o, c, lastIndex)
      invariant matches + EnclosedFrom(text, o, c, lastIndex) == Enclosed(text, o, c)
      decreases |text| - lastIndex
    {
      EnclosedAdvance(text, o, c, lastIndex, matches);
      matches := matches + [match_.value.0];
      lastIndex := match_.value.1;
      match_ := Exec(text, o, c, lastIndex);
    }
    EnclosedFromStep(text, o, c, lastIndex);
    assert matches + [] == matches;
  }

  lemma EnclosedAdvance(s: string, open: char, close: char, pos: nat, found: seq<string>)
    requires pos <= |s| && Exec(s, open, close, pos).Some?
    ensures var m := Exec(s, open, close, pos).value;
      found + EnclosedFrom(s, open, close, pos) == (found + [m.0]) + EnclosedFrom(s, open, close, m.1)
  {
    EnclosedFromStep(s, open, close, pos);
  }

  lemma EnclosedFromStep(s: string, open: char, close: char, pos: nat)
    requires pos <= |s|
    ensures var m := Exec(s, open, close, pos);
      EnclosedFrom(s, open, close, pos) == if m.None? then [] else [m.value.0] + EnclosedFrom(s, open, close, m.value.1)
  {
  }

  // ---------------------------------------------------------------------
  // parse

  /** A term fresh from the tokenizer. */
  function NewTerm(value: string, field: Option<string>, quoted: bool): Term {
    Term(value, None, field, quoted, NoModifiers)
  }

  /** One iteration of the quoted-phrase loop of `parse` on the working
      text `str`: the term, and `str` with the phrase (and a detected
      `field:` prefix) removed. The field is the text from the last space
      before `str.indexOf(value) - 2` up to that index, so a preceding space
      is kept in it. */
  function QuotedStep(str: string, value: string): (r: (Term, string))
    ensures r.0 == NewTerm(value, r.0.field, true)
    ensures r.0.field.Some? <==> CharAt(str, IndexOf(str, value) - 2) == Some(':')
  {
    var index := IndexOf(str, value) - 2;
    if CharAt(str, index) == Some(':') then
      var start := LastIndexOfChar(str, ' ', index);
      var field := Substring(str, start, index);
      var str' := ReplaceAll(str, field + ":", "", false);
      (NewTerm(value, Some(field), true), ReplaceAll(str', "\"" + value + "\"", "", false))
    else
      (NewTerm(value, None, true), ReplaceAll(str, "\"" + value + "\"", "", false))
  }

  /** `country:"united states" ...`: a field without spaces written right
      before the phrase at the start of the text is detected as the field. */
  lemma QuotedFieldFirst(f: string, v: string, rest: string)
    requires ' ' !in f
    requires forall k :: 0 <= k < |f| + 2 ==> !OccursAt(f + ":\"" + v + "\"" + rest, v, k)
    ensures QuotedStep(f + ":\"" + v + "\"" + rest, v).0 == NewTerm(v, Some(f), true)
  {
    var s := f + ":\"" + v + "\"" + rest;
    var p := |f| + 2;
    assert s[p..p + |v|] == v;
    IndexOfAt(s, v, p);
    assert s[|f|] == ':';
    assert forall k :: 0 <= k <= |f| ==> s[k] != ' ';
    assert LastIndexOfChar(s, ' ', |f|) == -1;
    assert Substring(s, -1, |f|) == f;
  }

  /** `name country:"united states"`: when a word precedes the field, the
      field runs from the space before it, so it keeps that space. */
  lemma QuotedFieldAfterWord(w: string, f: string, v: string, rest: string)
    requires ' ' !in f
    requires forall k :: 0 <= k < |w| + |f| + 3 ==> !OccursAt(w + " " + f + ":\"" + v + "\"" + rest, v, k)
    ensures QuotedStep(w + " " + f + ":\"" + v + "\"" + rest, v).0 == NewTerm(v, Some(" " + f), true)
  {
    var s := w + " " + f + ":\"" + v + "\"" + rest;
    var index := |w| + 1 + |f|;
    assert IndexOf(s, v) == index + 2 by {
      assert s[index + 2..index + 2 + |v|] == v;
      IndexOfAt(s, v, index + 2);
    }
    assert LastIndexOfChar(s, ' ', index) == |w| by {
      assert s[|w|] == ' ';
      assert forall k :: |w| < k <= index ==> s[k] != ' ';
    }
    assert CharAt(s, index) == Some(':');
    assert Substring(s, |w|, index) == " " + f by {
      SubstringSpec(s, |w|, index);
      assert s[|w|..index] == " " + f;
    }
    QuotedFieldAt(s, v, index);
  }

  lemma QuotedFieldAt(s: string, v: string, index: int)
    requires IndexOf(s, v) == index + 2 && CharAt(s, index) == Some(':')
    ensures QuotedStep(s, v).0 == NewTerm(v, Some(Substring(s, LastIndexOfChar(s, ' ', index), index)), true)
  {
  }

  /** A phrase not preceded by `:` two characters before it gets no field. */
  lemma QuotedNoField(a: string, v: string, rest: string)
    requires a == [] || a[|a| - 1] != ':'
    requires forall k :: 0 <= k < |a| + 1 ==> !OccursAt(a + "\"" + v + "\"" + rest, v, k)
    ensures QuotedStep(a + "\"" + v + "\"" + rest, v).0 == NewTerm(v, None, true)
  {
    var s := a + "\"" + v + "\"" + rest;
    assert s[|a| + 1..|a| + 1 + |v|] == v;
    IndexOfAt(s, v, |a| + 1);
    if a != [] {
      assert s[|a| - 1] == a[|a| - 1];
    }
  }

  /** A term as the tokenizer creates it: no modifier and no maximum. */
  predicate Fresh(t: Term) {
    t.modifiers == NoModifiers && t.valueMax == None
  }

  /** `ts` are the terms of the quoted phrases `q`, one each, in order. */
  predicate QuotedTermsOf(ts: seq<Term>, q: seq<string>) {
    |ts| == |q| && forall i :: 0 <= i < |q| ==> ts[i].quoted && ts[i].value == q[i] && Fresh(ts[i])
  }

  /** The quoted-phrase loop over `values`, starting from the text `text`. */
  function QuotedPass(text: string, values: seq<string>): (r: (seq<Term>, string))
    ensures QuotedTermsOf(r.0, values)
  {
    if values == [] then ([], text)
    else
      var prev := QuotedPass(text, values[..|values| - 1]);
      var step := QuotedStep(prev.1, values[|values| - 1]);
      (prev.0 + [step.0], step.1)
  }

  /** A non-empty token with no whitespace at either end. */
  predicate Trimmed(v: string) {
    |v| > 0 && !IsSpace(v[0]) && !IsSpace(v[|v| - 1])
  }

  /** An unquoted, unfielded, fresh and trimmed token. */
  predicate UnquotedToken(t: Term) {
    !t.quoted && t.field == None && Fresh(t) && Trimmed(t.value)
  }

  /** The unquoted loop of `parse` over the pieces of the remaining text:
      each piece trimmed, empty ones dropped. */
  function UnquotedTerms(pieces: seq<string>): (r: seq<Term>)
    ensures |r| <= |pieces|
  {
    if pieces == [] then []
    else UnquotedTerms(pieces[..|pieces| - 1]) + TrimmedToken(pieces[|pieces| - 1])
  }

  predicate AllTokens(ts: seq<Term>) {
    forall i :: 0 <= i < |ts| ==> UnquotedToken(ts[i])
  }

  lemma AllTokensAppend(a: seq<Term>, b: seq<Term>)
    requires AllTokens(a) && AllTokens(b)
    ensures AllTokens(a + b)
  {
    forall i | 0 <= i < |a + b| ensures UnquotedToken((a + b)[i]) {
      if i >= |a| {
        assert (a + b)[i] == b[i - |a|];
      }
    }
  }

  /** The term of one piece: none when the trimmed piece is empty. */
  function TrimmedToken(piece: string): (r: seq<Term>)
    ensures AllTokens(r) && |r| <= 1
  {
    var s := Trim(piece);
    if s == [] then [] else [NewTerm(s, None, false)]
  }

  /** Every unquoted term is a non-empty, trimmed, unfielded token. */
  lemma {:induction false} UnquotedTermsTokens(pieces: seq<string>)
    ensures AllTokens(UnquotedTerms(pieces))
    decreases |pieces|
  {
    if pieces != [] {
      var n := |pieces| - 1;
      UnquotedTermsTokens(pieces[..n]);
      var last := TrimmedToken(pieces[n]);
      AllTokensAppend(UnquotedTerms(pieces[..n]), last);
    }
  }

  /** The terms of `parse` before their fields and modifiers are parsed. */
  function RawTerms(text: string): seq<Term> {
    var pass := QuotedPass(text, Enclosed(text, '"', '"'));
    pass.0 + UnquotedTerms(Split(pass.1, " "))
  }

  /** Applies parseField, then parseModifiers, to one term. */
  function ParseTerm(t: Term): Term {
    ParseModifiers(ParseField(t))
  }

  /** parseField, then parseModifiers, on every term in turn. */
  function ParseAll(raw: seq<Term>): (r: seq<Term>)
    ensures |r| == |raw|
  {
    seq(|raw|, i requires 0 <= i < |raw| => ParseTerm(raw[i]))
  }

  /** The result of `parse(text)`. */
  function ParseTerms(text: string): (r: seq<Term>)
    ensures |r| == |RawTerms(text)|
  {
    ParseAll(RawTerms(text))
  }

  lemma ConcatShape(p: seq<Term>, u: seq<Term>, q: seq<string>)
    requires QuotedTermsOf(p, q)
    requires forall i :: 0 <= i < |u| ==> UnquotedToken(u[i])
    ensures QuotedTermsOf((p + u)[..|q|], q)
    ensures forall i :: |q| <= i < |p + u| ==> UnquotedToken((p + u)[i])
  {
    assert (p + u)[..|q|] == p;
  }

  /** Every quoted phrase comes first, in order of occurrence, and every
      unquoted token after them; every term starts with no modifier and no
      maximum, and an unquoted one is a non-empty, trimmed, unfielded token. */
  lemma RawTermsOrder(text: string)
    ensures var raw := RawTerms(text); var q := Enclosed(text, '"', '"');
      && |q| <= |raw|
      && QuotedTermsOf(raw[..|q|], q)
      && (forall i :: |q| <= i < |raw| ==> UnquotedToken(raw[i]))
  {
    var q := Enclosed(text, '"', '"');
    var pass := QuotedPass(text, q);
    UnquotedTermsTokens(Split(pass.1, " "));
    ConcatShape(pass.0, UnquotedTerms(Split(pass.1, " ")), q);
  }

  /** After parsing, the quoted terms still come first: a term is quoted
      exactly when it stems from a quoted phrase; and a quoted term keeps
      whatever field the tokenizer found. */
  lemma ParseTermsQuotedFirst(text: string)
    ensures var r := ParseTerms(text); var q := Enclosed(text, '"', '"');
      && |q| <= |r|
      && (forall i :: 0 <= i < |r| ==> (r[i].quoted <==> i < |q|))
      && (forall i :: 0 <= i < |q| ==> r[i].field == RawTerms(text)[i].field)
  {
    RawTermsOrder(text);
    ParseAllQuotedFirst(RawTerms(text), Enclosed(text, '"', '"'));
  }

  /** Parsing keeps the quoted terms first, and their fields. */
  lemma ParseAllQuotedFirst(raw: seq<Term>, q: seq<string>)
    requires |q| <= |raw| && QuotedTermsOf(raw[..|q|], q)
    requires forall i :: |q| <= i < |raw| ==> UnquotedToken(raw[i])
    ensures var r := ParseAll(raw);
      && (forall i :: 0 <= i < |r| ==> (r[i].quoted <==> i < |q|))
      && (forall i :: 0 <= i < |q| ==> r[i].field == raw[i].field)
  {
    var r := ParseAll(raw);
    forall i | 0 <= i < |r| ensures (r[i].quoted <==> i < |q|) && (i < |q| ==> r[i].field == raw[i].field) {
      ParseTermKeeps(raw[i]);
      if i < |q| {
        assert raw[..|q|][i] == raw[i];
      }
    }
  }

  /** parseField and parseModifiers keep whether a term is quoted, and
      the field of a quoted term. */
  lemma ParseTermKeeps(t: Term)
    ensures ParseTerm(t).quoted == t.quoted
    ensures t.quoted ==> ParseTerm(t).field == t.field
  {
  }

  /** One iteration of the quoted-phrase loop of `parse`. */
  method RemoveOne(str: string, value: string) returns (term: Term, rest: string)
    ensures (term, rest) == QuotedStep(str, value)
  {
    var field: Option<string> := None;
    rest := str;
    var index := IndexOf(str, value) - 2;
    if CharAt(str, index) == Some(':') {
      var start := LastIndexOfChar(str, ' ', index);
      var f := Substring(str, start, index);
      field := Some(f);
      rest := ReplaceAll(rest, f + ":", "", false);
    }
    rest := ReplaceAll(rest, "\"" + value + "\"", "", false);
    term := NewTerm(value, field, true);
  }

  lemma QuotedPassPrefix(text: string, values: seq<string>, i: nat)
    requires i < |values|
    ensures var prev := QuotedPass(text, values[..i]);
      var step := QuotedStep(prev.1, values[i]);
      QuotedPass(text, values[..i + 1]) == (prev.0 + [step.0], step.1)
  {
    assert values[..i + 1][..i] == values[..i];
  }

  /** The quoted-phrase loop of `parse`: one term per phrase, each phrase
      (and a detected field prefix) removed from the working text. */
  method RemoveQuoted(text: string, quotedStrings: seq<string>) returns (terms: seq<Term>, str: string)
    ensures (terms, str) == QuotedPass(text, quotedStrings)
  {
    str := text;
    terms := [];
    var i := 0;
    while i < |quotedStrings|
      invariant i <= |quotedStrings|
      invariant (terms, str) == QuotedPass(text, quotedStrings[..i])
    {
      QuotedPassPrefix(text, quotedStrings, i);
      var term;
      term, str := RemoveOne(str, quotedStrings[i]);
      terms := terms + [term];
      i := i + 1;
    }
    QuotedPassAll(text, quotedStrings);
  }

  lemma QuotedPassAll(text: string, values: seq<string>)
    ensures QuotedPass(text, values[..|values|]) == QuotedPass(text, values)
  {
    assert values[..|values|] == values;
  }

  lemma UnquotedTermsPrefix(pieces: seq<string>, j: nat)
    requires j < |pieces|
    ensures UnquotedTerms(pieces[..j + 1]) == UnquotedTerms(pieces[..j]) + TrimmedToken(pieces[j])
  {
    assert pieces[..j + 1][..j] == pieces[..j];
  }

  /** The unquoted loop of `parse`: the remaining text split on single
      spaces, each piece trimmed, the empty ones dropped. */
  method CollectUnquoted(str: string) returns (terms: seq<Term>)
    ensures terms == UnquotedTerms(Split(str, " "))
  {
    var unquotedStrings := Split(str, " ");
    terms := [];
    var j := 0;
    while j < |unquotedStrings|
      invariant j <= |unquotedStrings|
      invariant terms == UnquotedTerms(unquotedStrings[..j])
    {
      UnquotedTermsPrefix(unquotedStrings, j);
      terms := PushToken(terms, unquotedStrings[j]);
      j := j + 1;
    }
    UnquotedTermsAll(unquotedStrings, terms);
  }

  /** One iteration of the unquoted loop: the trimmed piece is pushed
      unless it is empty. */
  method PushToken(terms: seq<Term>, piece: string) returns (r: seq<Term>)
    ensures r == terms + TrimmedToken(piece)
  {
    var s := Trim(piece);
    r := terms;
    if s != [] {
      r := r + [NewTerm(s, None, false)];
    } else {
      assert r == r + [];
    }
  }

  lemma UnquotedTermsAll(pieces: seq<string>, terms: seq<Term>)
    requires terms == UnquotedTerms(pieces[..|pieces|])
    ensures terms == UnquotedTerms(pieces)
  {
    assert pieces[..|pieces|] == pieces;
  }

  lemma RawTermsPieces(text: string, quotedStrings: seq<string>)
    requires quotedStrings == Enclosed(text, '"', '"')
    ensures RawTerms(text)
      == QuotedPass(text, quotedStrings).0 + UnquotedTerms(Split(QuotedPass(text, quotedStrings).1, " "))
  {
  }

  /** The last loop of `parse`: parseField, then parseModifiers, on every
      term in place. */
  method ParseEach(raw: seq<Term>) returns (terms: seq<Term>)
    ensures |terms| == |raw|
    ensures forall n :: 0 <= n < |raw| ==> terms[n] == ParseTerm(raw[n])
  {
    terms := raw;
    var k := 0;
    while k < |terms|
      invariant k <= |terms| == |raw|
      invariant forall n :: 0 <= n < k ==> terms[n] == ParseTerm(raw[n])
      invariant forall n :: k <= n < |terms| ==> terms[n] == raw[n]
    {
      terms := terms[k := ParseTerm(terms[k])];
      k := k + 1;
    }
  }

  /** `parse(searchText)`: the quoted phrases, then the unquoted tokens, and
      then parseField and parseModifiers on every term. */
  method Parse(searchText: string) returns (terms: seq<Term>)
    ensures terms == ParseTerms(searchText)
  {
    var quotedStrings := ParseEnclosedStrings(searchText, None, None);
    var quotedTerms, str := RemoveQuoted(searchText, quotedStrings);
    var unquotedTerms := CollectUnquoted(str);
    RawTermsPieces(searchText, quotedStrings);
    var raw := quotedTerms + unquotedTerms;
    assert raw == RawTerms(searchText);
    terms := ParseEach(raw);
    assert terms == ParseAll(raw);
  }

}
