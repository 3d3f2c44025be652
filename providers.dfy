/** Search providers of svySearch/svySearch.js: the columns a simple search
    looks in, each with an alias, an implied-search flag, a case-sensitivity
    flag, a string matching mode and a table of substitutions applied to the
    user's input. */
module Providers {
  import opened JsValues
  import opened Strings

  /** `STRING_MATCHING`: how a text value is turned into a LIKE pattern. */
  datatype MatchMode = Contains | StartsWith | EndsWith

  const AllModes: seq<MatchMode> := [Contains, StartsWith, EndsWith]

  /** The messages `setStringMatching` throws. */
  const MatchingMissing := "param \"matching\" cannot be null/empty"
  const MatchingUnknown := "param \"matching\" must be one of the values in scopes.svySearch.STRING_MATCHING.XXX"

  /** The string value of each `STRING_MATCHING` constant. */
  function ModeName(m: MatchMode): string {
    match m
    case Contains => "contains"
    case StartsWith => "starts-with"
    case EndsWith => "ends-with"
  }

  /** The constant whose value is `s`, if any. */
  function ModeOf(s: string): (r: Option<MatchMode>)
    ensures r.Some? ==> ModeName(r.value) == s
    ensures r.None? ==> forall m: MatchMode :: ModeName(m) != s
  {
    if s == "contains" then Some(Contains)
    else if s == "starts-with" then Some(StartsWith)
    else if s == "ends-with" then Some(EndsWith)
    else None
  }

  /** Every mode is found again from its name. */
  lemma ModeRoundTrip(m: MatchMode)
    ensures ModeOf(ModeName(m)) == Some(m)
  {
  }

  /** A string that names none of the modes is not found. */
  lemma ModeOfNone(s: string)
    requires ModeName(Contains) != s && ModeName(StartsWith) != s && ModeName(EndsWith) != s
    ensures ModeOf(s) == None
  {
  }

  /** The search of `setStringMatching` through the `STRING_MATCHING`
      values. */
  method FindMode(s: string) returns (found: Option<MatchMode>)
    ensures found == ModeOf(s)
  {
    found := None;
    var i := 0;
    while i < |AllModes| && found.None?
      invariant 0 <= i <= |AllModes|
      invariant found.None? ==> forall k :: 0 <= k < i ==> ModeName(AllModes[k]) != s
      invariant found.Some? ==> ModeName(found.value) == s
    {
      if ModeName(AllModes[i]) == s {
        found := Some(AllModes[i]);
      }
      i := i + 1;
    }
    if found.None? {
      assert ModeName(AllModes[0]) != s && ModeName(AllModes[1]) != s;
      assert ModeName(AllModes[2]) != s;
      ModeOfNone(s);
    } else {
      ModeRoundTrip(found.value);
    }
  }

  /** One entry of `this.substitutions`: a key and its value, where `None`
      stands for null/undefined (a number value is held as its string form). */
  datatype Substitution = Substitution(key: string, value: Option<string>)

  /** An object has each property once. */
  predicate DistinctKeys(subs: seq<Substitution>) {
    forall i, j :: 0 <= i < j < |subs| ==> subs[i].key != subs[j].key
  }

  /** `this.substitutions[key]`: `None` when the property is absent
      (undefined), `Some(v)` when it is present with value `v`. */
  function Lookup(subs: seq<Substitution>, key: string): (r: Option<Option<string>>)
    ensures r.None? ==> forall i :: 0 <= i < |subs| ==> subs[i].key != key
    ensures r.Some? ==> Substitution(key, r.value) in subs
  {
    if subs == [] then None
    else if subs[0].key == key then Some(subs[0].value)
    else Lookup(subs[1..], key)
  }

  /** In an object with distinct keys the entry found is the only one. */
  lemma {:induction false} LookupDistinct(subs: seq<Substitution>, i: int)
    requires DistinctKeys(subs) && 0 <= i < |subs|
    ensures Lookup(subs, subs[i].key) == Some(subs[i].value)
  {
    if i > 0 {
      assert subs[0].key != subs[i].key;
      LookupDistinct(subs[1..], i - 1);
    }
  }

  /** `this.substitutions[key] = value`: an existing property keeps its place
      in the enumeration order and takes the new value; a new one goes last. */
  function Put(subs: seq<Substitution>, key: string, value: Option<string>): (r: seq<Substitution>)
    ensures |r| == |subs| || r == subs + [Substitution(key, value)]
    ensures forall i :: 0 <= i < |subs| ==> r[i].key == subs[i].key
  {
    if subs == [] then [Substitution(key, value)]
    else if subs[0].key == key then [Substitution(key, value)] + subs[1..]
    else [subs[0]] + Put(subs[1..], key, value)
  }

  /** After a put, the key reads back the new value and every other key reads
      what it read before; distinct keys stay distinct. */
  lemma {:induction false} PutLookup(subs: seq<Substitution>, key: string, value: Option<string>, other: string)
    ensures Lookup(Put(subs, key, value), other) == if other == key then Some(value) else Lookup(subs, other)
  {
    if subs != [] && subs[0].key != key {
      PutLookup(subs[1..], key, value, other);
      assert Put(subs, key, value)[1..] == Put(subs[1..], key, value);
    }
  }

  lemma {:induction false} PutDistinct(subs: seq<Substitution>, key: string, value: Option<string>)
    requires DistinctKeys(subs)
    ensures DistinctKeys(Put(subs, key, value))
  {
    if subs != [] && subs[0].key != key {
      PutDistinct(subs[1..], key, value);
      var r := Put(subs, key, value);
      var tail := Put(subs[1..], key, value);
      assert r == [subs[0]] + tail;
      forall j | 0 < j < |r| ensures r[0].key != r[j].key {
        if j - 1 < |subs[1..]| {
          assert tail[j - 1].key == subs[1..][j - 1].key == subs[j].key;
        } else {
          assert tail == subs[1..] + [Substitution(key, value)];
          assert r[j].key == key;
        }
      }
    }
  }

  /** The keys of the entries whose value is not null, in enumeration order
      (`getSubstitutionsKeys`). */
  function NonNullKeys(subs: seq<Substitution>): seq<string>
    decreases |subs|
  {
    if subs == [] then []
    else
      var last := subs[|subs| - 1];
      NonNullKeys(subs[..|subs| - 1]) + (if last.value.Some? then [last.key] else [])
  }

  /** A key is listed exactly when it is present with a non-null value. */
  lemma {:induction false} NonNullKeysSpec(subs: seq<Substitution>, key: string)
    requires DistinctKeys(subs)
    ensures key in NonNullKeys(subs) <==> Lookup(subs, key).Some? && Lookup(subs, key).value.Some?
    decreases |subs|
  {
    if subs != [] {
      var n := |subs| - 1;
      var front := subs[..n];
      assert DistinctKeys(front);
      NonNullKeysSpec(front, key);
      assert subs == front + [subs[n]];
      LookupAppend(front, subs[n], key);
      if Lookup(front, key).Some? {
        var i :| 0 <= i < n && front[i] == Substitution(key, Lookup(front, key).value);
        assert subs[i].key != subs[n].key;
      }
    }
  }

  lemma {:induction false} LookupAppend(front: seq<Substitution>, last: Substitution, key: string)
    ensures Lookup(front + [last], key) ==
      if Lookup(front, key).Some? then Lookup(front, key)
      else if last.key == key then Some(last.value) else None
  {
    if front != [] {
      assert (front + [last])[1..] == front[1..] + [last];
      LookupAppend(front[1..], last, key);
    }
  }

  /** Ordered by length, longest first. */
  predicate LongestFirst(keys: seq<string>) {
    forall i, j :: 0 <= i < j < |keys| ==> |keys[i]| >= |keys[j]|
  }

  /** Insert `k` into a list ordered longest first, ahead of the keys of the
      same length (keys that came later in the original order). */
  function InsertByLength(k: string, sorted: seq<string>): (r: seq<string>)
    ensures multiset(r) == multiset(sorted) + multiset{k}
    ensures LongestFirst(sorted) ==> LongestFirst(r)
  {
    if sorted == [] || |sorted[0]| <= |k| then [k] + sorted
    else
      var tail := InsertByLength(k, sorted[1..]);
      assert sorted == [sorted[0]] + sorted[1..];
      InsertBehind(k, sorted, tail);
      [sorted[0]] + tail
  }

  /** A key shorter than the head goes behind it, and the head stays longest. */
  lemma InsertBehind(k: string, sorted: seq<string>, tail: seq<string>)
    requires sorted != [] && |sorted[0]| > |k|
    requires multiset(tail) == multiset(sorted[1..]) + multiset{k}
    requires LongestFirst(sorted[1..]) ==> LongestFirst(tail)
    ensures LongestFirst(sorted) ==> LongestFirst([sorted[0]] + tail)
  {
    if LongestFirst(sorted) {
      var r := [sorted[0]] + tail;
      forall j | 0 <= j < |tail| ensures |sorted[0]| >= |tail[j]| {
        assert tail[j] in multiset(tail);
        if tail[j] != k {
          assert tail[j] in multiset(sorted[1..]);
          var i :| 0 <= i < |sorted[1..]| && sorted[1..][i] == tail[j];
          assert sorted[i + 1] == tail[j];
        }
      }
      assert LongestFirst(sorted[1..]);
      forall i, j | 0 <= i < j < |r| ensures |r[i]| >= |r[j]| {
        if i > 0 {
          assert r[i] == tail[i - 1] && r[j] == tail[j - 1];
        } else {
          assert r[j] == tail[j - 1];
        }
      }
    }
  }

  /** The order of `keys.sort(...)` with the comparator on lengths: longest
      first, equal lengths in their original order. */
  function SortByLength(keys: seq<string>): (r: seq<string>)
    ensures multiset(r) == multiset(keys)
    ensures LongestFirst(r)
  {
    if keys == [] then []
    else
      assert keys == [keys[0]] + keys[1..];
      InsertByLength(keys[0], SortByLength(keys[1..]))
  }

  /** The replacement a key receives: the property's value, and the string
      forms of undefined and null otherwise. */
  function ReplacementText(subs: seq<Substitution>, key: string): string {
    match Lookup(subs, key)
    case None => "undefined"
    case Some(None) => "null"
    case Some(Some(v)) => v
  }

  /** The substitution of each key of `keys` in turn, every occurrence of the
      key replaced by its own value, case-folded when `fold` holds. */
  function SubstituteWith(subs: seq<Substitution>, keys: seq<string>, fold: bool, value: string): string
    decreases |keys|
  {
    if keys == [] then value
    else
      var key := keys[|keys| - 1];
      ReplaceAll(SubstituteWith(subs, keys[..|keys| - 1], fold, value), key, ReplacementText(subs, key), fold)
  }

  /** `applySubstitutions(value)` with each key replaced by its own value:
      the non-null keys, longest first, case-insensitively unless the
      provider is case-sensitive. */
  function Substitute(subs: seq<Substitution>, caseSensitive: JsBool, value: string): (r: string)
    ensures NonNullKeys(subs) == [] ==> r == value
  {
    SubstituteWith(subs, SortByLength(NonNullKeys(subs)), !caseSensitive.Truthy(), value)
  }

  /** The loop of `applySubstitutions` as written: the key is escaped for a
      regular expression, the replacement is looked up under the ESCAPED key,
      and the case-sensitive branch searches for the escaped text literally. */
  function SubstituteAsWrittenWith(subs: seq<Substitution>, keys: seq<string>, caseSensitive: bool, value: string): string
    decreases |keys|
  {
    if keys == [] then value
    else
      var key := keys[|keys| - 1];
      var mask := Escape(key, MaskSpecials);
      var before := SubstituteAsWrittenWith(subs, keys[..|keys| - 1], caseSensitive, value);
      if caseSensitive then ReplaceAll(before, mask, ReplacementText(subs, mask), false)
      else ReplaceAll(before, key, ReplacementText(subs, mask), true)
  }

  function SubstituteAsWritten(subs: seq<Substitution>, caseSensitive: JsBool, value: string): (r: string)
    ensures NonNullKeys(subs) == [] ==> r == value
  {
    SubstituteAsWrittenWith(subs, SortByLength(NonNullKeys(subs)), caseSensitive.Truthy(), value)
  }

  lemma SubstituteAsWrittenPrefix(subs: seq<Substitution>, keys: seq<string>, j: nat, caseSensitive: bool, value: string)
    requires j < |keys|
    ensures var mask := Escape(keys[j], MaskSpecials);
      var before := SubstituteAsWrittenWith(subs, keys[..j], caseSensitive, value);
      SubstituteAsWrittenWith(subs, keys[..j + 1], caseSensitive, value) ==
        if caseSensitive then ReplaceAll(before, mask, ReplacementText(subs, mask), false)
        else ReplaceAll(before, keys[j], ReplacementText(subs, mask), true)
  {
    assert keys[..j + 1][..j] == keys[..j];
  }

  /** The intended behaviour: one substitution with a non-empty key turns a
      value equal to the key into the substitution's value, whatever the
      key contains and whatever the case setting. */
  lemma SubstituteSingle(key: string, v: string, caseSensitive: JsBool)
    requires |key| > 0
    ensures Substitute([Substitution(key, Some(v))], caseSensitive, key) == v
  {
    var subs := [Substitution(key, Some(v))];
    assert subs[..0] == [];
    assert NonNullKeys(subs) == [key];
    assert SortByLength([key]) == [key];
    assert [key][..0] == [];
    assert ReplacementText(subs, key) == v;
    assert SubstituteWith(subs, [key], !caseSensitive.Truthy(), key) == ReplaceAll(key, key, v, !caseSensitive.Truthy());
    ReplaceWhole(key, v, !caseSensitive.Truthy());
  }

  /** Keys free of the mask's special characters are substituted the same
      way by the code as written and by the corrected definition. */
  lemma {:induction false} AsWrittenAgreesWith(subs: seq<Substitution>, keys: seq<string>, caseSensitive: bool, value: string)
    requires forall k :: 0 <= k < |keys| ==> CountIn(keys[k], MaskSpecials) == 0
    ensures SubstituteAsWrittenWith(subs, keys, caseSensitive, value) == SubstituteWith(subs, keys, !caseSensitive, value)
    decreases |keys|
  {
    if keys != [] {
      var key := keys[|keys| - 1];
      AsWrittenAgreesWith(subs, keys[..|keys| - 1], caseSensitive, value);
      EscapeLength(key, MaskSpecials);
    }
  }

  lemma AsWrittenAgrees(subs: seq<Substitution>, caseSensitive: JsBool, value: string)
    requires forall i :: 0 <= i < |subs| ==> CountIn(subs[i].key, MaskSpecials) == 0
    ensures SubstituteAsWritten(subs, caseSensitive, value) == Substitute(subs, caseSensitive, value)
  {
    var keys := SortByLength(NonNullKeys(subs));
    forall k | 0 <= k < |keys| ensures CountIn(keys[k], MaskSpecials) == 0 {
      assert keys[k] in multiset(NonNullKeys(subs));
      NonNullKeysFrom(subs, keys[k]);
    }
    AsWrittenAgreesWith(subs, keys, caseSensitive.Truthy(), value);
  }

  /** Every listed key is the key of an entry. */
  lemma {:induction false} NonNullKeysFrom(subs: seq<Substitution>, key: string)
    requires key in NonNullKeys(subs)
    ensures exists i :: 0 <= i < |subs| && subs[i].key == key
    decreases |subs|
  {
    var n := |subs| - 1;
    if key in NonNullKeys(subs[..n]) {
      NonNullKeysFrom(subs[..n], key);
      var i :| 0 <= i < n && subs[..n][i].key == key;
      assert subs[i].key == key;
    } else {
      assert subs[n].key == key;
    }
  }

  /** The one-entry table of the example below. */
  const DotKey: seq<Substitution> := [Substitution("a.b", Some("X"))]

  lemma DotKeyKeys()
    ensures SortByLength(NonNullKeys(DotKey)) == ["a.b"]
  {
    assert DotKey[..0] == [];
    assert NonNullKeys(DotKey) == ["a.b"];
  }

  lemma DotKeySingle(fold: bool, value: string)
    ensures SubstituteWith(DotKey, ["a.b"], fold, value) == ReplaceAll(value, "a.b", "X", fold)
  {
    assert ["a.b"][..0] == [];
  }

  lemma DotKeyAsWritten(caseSensitive: bool, value: string)
    ensures SubstituteAsWrittenWith(DotKey, ["a.b"], caseSensitive, value) ==
      if caseSensitive then ReplaceAll(value, "a\\.b", "undefined", false)
      else ReplaceAll(value, "a.b", "undefined", true)
  {
    assert ["a.b"][..0] == [];
    assert Escape("a.b", MaskSpecials) == "a\\.b";
    assert Lookup(DotKey, "a\\.b") == None;
  }

  lemma ReplaceWhole(pat: string, rep: string, fold: bool)
    requires |pat| > 0
    ensures ReplaceAll(pat, pat, rep, fold) == rep
  {
    assert MatchesAt(pat, 0, pat, fold);
    assert pat[|pat|..] == [];
  }

  /** The key "a.b" mapped to "X", applied to "a.b": the corrected
      definition gives "X"; as written, the case-sensitive branch looks for
      the literal text `a\.b` and leaves the value alone, and the
      case-insensitive branch finds "a.b" but replaces it with "undefined". */
  lemma EscapedKeyCounterexample()
    ensures Substitute(DotKey, Prim(true), "a.b") == "X"
    ensures SubstituteAsWritten(DotKey, Prim(true), "a.b") == "a.b"
    ensures SubstituteAsWritten(DotKey, Prim(false), "a.b") == "undefined"
  {
    DotKeyKeys();
    DotKeySingle(false, "a.b");
    ReplaceWhole("a.b", "X", false);
    DotKeyAsWritten(true, "a.b");
    DotKeyAsWritten(false, "a.b");
    ReplaceWhole("a.b", "undefined", true);
  }

  /** A value in which no key occurs is returned unchanged. */
  lemma {:induction false} SubstituteWithAbsent(subs: seq<Substitution>, keys: seq<string>, fold: bool, value: string)
    requires forall k: nat, p: nat :: k < |keys| ==> !MatchesAt(value, p, keys[k], fold)
    ensures SubstituteWith(subs, keys, fold, value) == value
    decreases |keys|
  {
    if keys != [] {
      var key := keys[|keys| - 1];
      SubstituteWithAbsent(subs, keys[..|keys| - 1], fold, value);
      assert forall p: nat :: !MatchesAt(value, p, key, fold);
      ReplaceAllAbsent(value, key, ReplacementText(subs, key), fold);
    }
  }

  /** A case-sensitive provider whose substitutions map each key to itself
      changes nothing. */
  lemma {:induction false} SubstituteWithSelf(subs: seq<Substitution>, keys: seq<string>, value: string)
    requires forall k :: 0 <= k < |keys| ==> ReplacementText(subs, keys[k]) == keys[k]
    ensures SubstituteWith(subs, keys, false, value) == value
    decreases |keys|
  {
    if keys != [] {
      var key := keys[|keys| - 1];
      SubstituteWithSelf(subs, keys[..|keys| - 1], value);
      ReplaceAllSelf(value, key);
    }
  }

  /** As written, a case-sensitive provider searches for the escaped key
      and a case-insensitive one for the key itself, case-folded: a value in
      which none of these occurs is returned unchanged. Case-sensitively this
      holds even when the value contains a key with a special character, as
      long as it does not contain the key's escaped form. */
  lemma {:induction false} AsWrittenAbsent(subs: seq<Substitution>, keys: seq<string>, caseSensitive: bool, value: string)
    requires forall k: nat, p: nat :: k < |keys| ==>
      if caseSensitive then !MatchesAt(value, p, Escape(keys[k], MaskSpecials), false)
      else !MatchesAt(value, p, keys[k], true)
    ensures SubstituteAsWrittenWith(subs, keys, caseSensitive, value) == value
    decreases |keys|
  {
    if keys != [] {
      var n := |keys| - 1;
      var key := keys[n];
      var mask := Escape(key, MaskSpecials);
      AsWrittenAbsent(subs, keys[..n], caseSensitive, value);
      if caseSensitive {
        assert forall p: nat :: !MatchesAt(value, p, mask, false);
        ReplaceAllAbsent(value, mask, ReplacementText(subs, mask), false);
      } else {
        assert forall p: nat :: !MatchesAt(value, p, key, true);
        ReplaceAllAbsent(value, key, ReplacementText(subs, mask), true);
      }
    }
  }

  /** As written, a case-sensitive provider in which every escaped key is
      stored with itself as the value changes nothing. */
  lemma {:induction false} AsWrittenSelf(subs: seq<Substitution>, keys: seq<string>, value: string)
    requires forall k :: 0 <= k < |keys| ==>
      ReplacementText(subs, Escape(keys[k], MaskSpecials)) == Escape(keys[k], MaskSpecials)
    ensures SubstituteAsWrittenWith(subs, keys, true, value) == value
    decreases |keys|
  {
    if keys != [] {
      var n := |keys| - 1;
      AsWrittenSelf(subs, keys[..n], value);
      ReplaceAllSelf(value, Escape(keys[n], MaskSpecials));
    }
  }

  /** The settings of a search provider at one moment. */
  datatype ProviderState = ProviderState(
    dataProviderID: string,
    alias: Option<string>,
    implied: JsBool,
    caseSensitive: JsBool,
    substitutions: seq<Substitution>,
    matching: MatchMode)

  /** `SearchProvider`: the per-column search settings. */
  class SearchProvider {
    const dataProviderID: string
    var alias: Option<string>
    var implied: JsBool
    var caseSensitive: JsBool
    var substitutions: seq<Substitution>
    var matching: MatchMode

    predicate Valid()
      reads this
    {
      DistinctKeys(substitutions)
    }

    /** The provider's current settings. */
    function State(): (s: ProviderState)
      reads this
      ensures s.dataProviderID == dataProviderID && s.alias == alias && s.implied == implied
      ensures s.caseSensitive == caseSensitive && s.substitutions == substitutions && s.matching == matching
    {
      ProviderState(dataProviderID, alias, implied, caseSensitive, substitutions, matching)
    }

    /** A new provider: no alias, implied, case-insensitive, no
        substitutions, CONTAINS. */
    constructor(dataProviderID: string)
      ensures Valid()
      ensures this.dataProviderID == dataProviderID
      ensures alias == None && implied == Prim(true) && caseSensitive == Prim(false)
      ensures substitutions == [] && matching == Contains
    {
      this.dataProviderID := dataProviderID;
      alias := None;
      implied := Prim(true);
      caseSensitive := Prim(false);
      substitutions := [];
      matching := Contains;
    }

    /** `addSubstitution(key, value)`. */
    method AddSubstitution(key: string, value: Option<string>)
      requires Valid()
      modifies this
      ensures Valid()
      ensures substitutions == Put(old(substitutions), key, value)
      ensures alias == old(alias) && implied == old(implied) && caseSensitive == old(caseSensitive)
      ensures matching == old(matching)
    {
      PutDistinct(substitutions, key, value);
      substitutions := Put(substitutions, key, value);
    }

    /** `getSubstitutionsKeys()`: the keys whose value is not null, in
        enumeration order. */
    method GetSubstitutionsKeys() returns (keys: seq<string>)
      ensures keys == NonNullKeys(substitutions)
    {
      keys := [];
      var i := 0;
      while i < |substitutions|
        invariant 0 <= i <= |substitutions|
        invariant keys == NonNullKeys(substitutions[..i])
      {
        assert substitutions[..i + 1][..i] == substitutions[..i];
        if substitutions[i].value.Some? {
          keys := keys + [substitutions[i].key];
        }
        i := i + 1;
      }
      assert substitutions[..i] == substitutions;
    }

    /** `getSubstitutionValue(key)`. */
    function GetSubstitutionValue(key: string): (r: Option<Option<string>>)
      reads this
      ensures r == Lookup(substitutions, key)
    {
      Lookup(substitutions, key)
    }

    /** `setAlias(alias)`. */
    method SetAlias(alias: Option<string>)
      modifies this
      ensures this.alias == alias
      ensures implied == old(implied) && caseSensitive == old(caseSensitive)
      ensures substitutions == old(substitutions) && matching == old(matching)
    {
      this.alias := alias;
    }

    /** `setImpliedSearch(b)`: the value is stored as given. */
    method SetImpliedSearch(b: JsBool)
      modifies this
      ensures implied == b
      ensures alias == old(alias) && caseSensitive == old(caseSensitive)
      ensures substitutions == old(substitutions) && matching == old(matching)
    {
      implied := b;
    }

    /** `setCaseSensitive(b)`: the value is stored as given. */
    method SetCaseSensitive(b: JsBool)
      modifies this
      ensures caseSensitive == b
      ensures alias == old(alias) && implied == old(implied)
      ensures substitutions == old(substitutions) && matching == old(matching)
    {
      caseSensitive := b;
    }

    /** `setStringMatching(matching)`: null or empty throws, a string that is
        none of the `STRING_MATCHING` values throws, and the mode is changed
        only when the call returns normally. */
    method SetStringMatching(name: Option<string>) returns (r: Js<()>)
      modifies this
      ensures r.Ok? <==> name.Some? && ModeOf(name.value).Some?
      ensures !Present(name) ==> r == Throws(Thrown(MatchingMissing))
      ensures r.Ok? ==> matching == ModeOf(name.value).value
      ensures Present(name) && ModeOf(name.value).None? ==> r == Throws(Thrown(MatchingUnknown))
      ensures r.Throws? ==> matching == old(matching)
      ensures alias == old(alias) && implied == old(implied) && caseSensitive == old(caseSensitive)
      ensures substitutions == old(substitutions)
    {
      if !Present(name) {
        return Throws(Thrown(MatchingMissing));
      }
      var found := FindMode(name.value);
      if found.None? {
        return Throws(Thrown(MatchingUnknown));
      }
      matching := found.value;
      return Ok(());
    }

    /** `applySubstitutions(value)`, as written: each key, longest first, is
        escaped for a regular expression, its replacement is looked up under
        the escaped key, and the value is rewritten case-insensitively (a
        global `ig` expression matching the key) or, for a case-sensitive
        provider, by a literal replace of the escaped text. */
    method ApplySubstitutions(value: string) returns (r: string)
      ensures r == SubstituteAsWritten(substitutions, caseSensitive, value)
    {
      var keys := GetSubstitutionsKeys();
      keys := SortByLength(keys);
      var sensitive := caseSensitive.Truthy();
      r := value;
      var j := 0;
      while j < |keys|
        invariant 0 <= j <= |keys|
        invariant r == SubstituteAsWrittenWith(substitutions, keys[..j], sensitive, value)
      {
        SubstituteAsWrittenPrefix(substitutions, keys, j, sensitive, value);
        var mask := Escape(keys[j], MaskSpecials);
        var replacement := ReplacementText(substitutions, mask);
        if !sensitive {
          r := ReplaceAll(r, keys[j], replacement, true);
        } else {
          r := ReplaceAll(r, mask, replacement, false);
        }
        j := j + 1;
      }
      assert keys[..j] == keys;
    }
  }
}
