/** The simple search object of svySearch/svySearch.js (`SimpleSearch`): a
    list of search providers, a search text and a date format, compiled by
    `getQuery` into one query condition. */
module Search {
  import opened JsValues
  import opened Strings
  import opened Schema
  import opened Terms
  import opened Providers
  import opened Conditions

  /** `getSearchProvider` compares a name with the data provider id and with
      the alias; a missing alias matches nothing. */
  predicate Named(sp: ProviderState, name: string) {
    sp.dataProviderID == name || sp.alias == Some(name)
  }

  /** The index of the first provider a name selects. */
  function FindProvider(states: seq<ProviderState>, name: string): (r: Option<nat>)
    ensures r.Some? ==> r.value < |states| && Named(states[r.value], name)
    ensures r.Some? ==> forall k :: 0 <= k < r.value ==> !Named(states[k], name)
    ensures r.None? ==> forall k :: 0 <= k < |states| ==> !Named(states[k], name)
  {
    if states == [] then None
    else if Named(states[0], name) then Some(0)
    else
      match FindProvider(states[1..], name)
      case None => None
      case Some(i) => Some(i + 1)
  }

  /** A new provider's settings. */
  function Initial(dataProviderID: string): ProviderState {
    ProviderState(dataProviderID, None, Prim(true), Prim(false), [], Contains)
  }

  /** The optional arguments of `addSearchProvider`: a truthy alias replaces
      the alias; flags are taken only when they are `Boolean` objects. */
  function Configure(s: ProviderState, alias: Option<string>, implied: Option<JsBool>, caseSensitive: Option<JsBool>): (r: ProviderState)
    ensures r.dataProviderID == s.dataProviderID && r.substitutions == s.substitutions && r.matching == s.matching
    ensures r.alias == if Present(alias) then alias else s.alias
    ensures r.implied == if implied.Some? && implied.value.Boxed? then implied.value else s.implied
    ensures r.caseSensitive == if caseSensitive.Some? && caseSensitive.value.Boxed? then caseSensitive.value else s.caseSensitive
  {
    var s1 := if Present(alias) then s.(alias := alias) else s;
    var s2 := if implied.Some? && implied.value.Boxed? then s1.(implied := implied.value) else s1;
    if caseSensitive.Some? && caseSensitive.value.Boxed? then s2.(caseSensitive := caseSensitive.value) else s2
  }

  /** Registering again keeps the provider's id, mode and substitutions,
      and a primitive `true`/`false` for the flags (not `instanceof
      Boolean`) is ignored just like an omitted one. */
  lemma ConfigureIgnoresPrimitives(s: ProviderState, alias: Option<string>, implied: bool, caseSensitive: bool)
    ensures var r := Configure(s, alias, Some(Prim(implied)), Some(Prim(caseSensitive)));
      && r == Configure(s, alias, None, None)
      && r.dataProviderID == s.dataProviderID && r.matching == s.matching && r.substitutions == s.substitutions
      && r.implied == s.implied && r.caseSensitive == s.caseSensitive
  {
  }

  /** The first provider with the given data provider id. */
  function FindId(states: seq<ProviderState>, dataProviderID: string): (r: Option<nat>)
    ensures r.Some? ==> r.value < |states| && states[r.value].dataProviderID == dataProviderID
    ensures r.Some? ==> forall k :: 0 <= k < r.value ==> states[k].dataProviderID != dataProviderID
    ensures r.None? ==> forall k :: 0 <= k < |states| ==> states[k].dataProviderID != dataProviderID
  {
    if states == [] then None
    else if states[0].dataProviderID == dataProviderID then Some(0)
    else
      match FindId(states[1..], dataProviderID)
      case None => None
      case Some(i) => Some(i + 1)
  }

  /** The error `addSearchProvider` raises for a cross-database relation. */
  const CrossDbMessage := "Cross-DB relation found and is not supported. Search provider will not be added"
  const CrossDbError := IllegalArgument(CrossDbMessage)

  /** `addSearchProvider` on the list of provider settings: an existing
      provider is updated in place; a new one is checked for cross-database
      relations and appended. */
  function AddProvider(schema: Schema, states: seq<ProviderState>, dataProviderID: string,
                       alias: Option<string>, implied: Option<JsBool>, caseSensitive: Option<JsBool>): (r: Js<seq<ProviderState>>)
    ensures r.Ok? ==> FindId(r.value, dataProviderID).Some?
    ensures FindId(states, dataProviderID).Some? ==>
      var i := FindId(states, dataProviderID).value;
      && r.Ok? && |r.value| == |states|
      && r.value[i] == Configure(states[i], alias, implied, caseSensitive)
      && forall k :: 0 <= k < |states| && k != i ==> r.value[k] == states[k]
    ensures FindId(states, dataProviderID).None? ==> (r.Ok? <==> XdbCheck(schema, RelationSegments(dataProviderID)) == Ok(false))
    ensures FindId(states, dataProviderID).None? && r.Ok? ==>
      && |r.value| == |states| + 1 && r.value[..|states|] == states
      && r.value[|states|] == Configure(Initial(dataProviderID), alias, implied, caseSensitive)
  {
    match FindId(states, dataProviderID)
    case Some(i) =>
      var updated := states[i := Configure(states[i], alias, implied, caseSensitive)];
      assert updated[i].dataProviderID == dataProviderID;
      Ok(updated)
    case None =>
      match XdbCheck(schema, RelationSegments(dataProviderID))
      case Throws(e) => Throws(e)
      case Ok(true) => Throws(CrossDbError)
      case Ok(false) =>
        var added := states + [Configure(Initial(dataProviderID), alias, implied, caseSensitive)];
        assert added[|states|].dataProviderID == dataProviderID;
        Ok(added)
  }

  /** Each data provider id is registered once. */
  predicate DistinctIds(states: seq<ProviderState>) {
    forall i, j :: 0 <= i < j < |states| ==> states[i].dataProviderID != states[j].dataProviderID
  }

  /** Adding keeps the ids distinct, never drops or reorders a provider,
      and leaves the id registered. */
  lemma AddProviderKeeps(schema: Schema, states: seq<ProviderState>, dataProviderID: string,
                         alias: Option<string>, implied: Option<JsBool>, caseSensitive: Option<JsBool>)
    requires DistinctIds(states)
    requires AddProvider(schema, states, dataProviderID, alias, implied, caseSensitive).Ok?
    ensures var r := AddProvider(schema, states, dataProviderID, alias, implied, caseSensitive).value;
      && DistinctIds(r)
      && |states| <= |r| <= |states| + 1
      && (forall k :: 0 <= k < |states| ==> r[k].dataProviderID == states[k].dataProviderID)
      && exists k :: 0 <= k < |r| && r[k].dataProviderID == dataProviderID
  {
    match FindId(states, dataProviderID)
    case Some(i) =>
      UpdateKeepsIds(states, i, Configure(states[i], alias, implied, caseSensitive));
    case None =>
      AppendKeepsIds(states, Configure(Initial(dataProviderID), alias, implied, caseSensitive));
  }

  /** Adding an id not registered yet: the cross-database check decides. */
  lemma AddProviderNew(schema: Schema, states: seq<ProviderState>, dataProviderID: string,
                       alias: Option<string>, implied: Option<JsBool>, caseSensitive: Option<JsBool>)
    requires FindId(states, dataProviderID).None?
    ensures var xdb := XdbCheck(schema, RelationSegments(dataProviderID));
      AddProvider(schema, states, dataProviderID, alias, implied, caseSensitive) ==
        if xdb == Ok(false) then Ok(states + [Configure(Initial(dataProviderID), alias, implied, caseSensitive)])
        else Throws(if xdb.Ok? then CrossDbError else xdb.error)
  {
  }

  /** Replacing a provider's settings by settings with the same id. */
  lemma UpdateKeepsIds(states: seq<ProviderState>, i: nat, s: ProviderState)
    requires DistinctIds(states) && i < |states| && s.dataProviderID == states[i].dataProviderID
    ensures var r := states[i := s];
      && DistinctIds(r) && |r| == |states| && r[i] == s
      && forall k :: 0 <= k < |states| ==> r[k].dataProviderID == states[k].dataProviderID
  {
  }

  /** Appending settings with an id not registered yet. */
  lemma AppendKeepsIds(states: seq<ProviderState>, s: ProviderState)
    requires DistinctIds(states)
    requires forall k :: 0 <= k < |states| ==> states[k].dataProviderID != s.dataProviderID
    ensures var r := states + [s];
      && DistinctIds(r) && |r| == |states| + 1 && r[|states|] == s
      && forall k :: 0 <= k < |states| ==> r[k].dataProviderID == states[k].dataProviderID
  {
  }

  /** A data provider id without relations is always added. */
  lemma AddPlainColumn(schema: Schema, states: seq<ProviderState>, name: string)
    requires '.' !in name
    ensures AddProvider(schema, states, name, None, None, None).Ok?
  {
    NoRelationNoXdb(schema, name);
  }

  /** `setSearchAllColumns` on the list: a provider per column name, added
      in order. */
  function AddColumns(schema: Schema, names: seq<string>): Js<seq<ProviderState>>
    decreases |names|
  {
    if names == [] then Ok([])
    else
      match AddColumns(schema, names[..|names| - 1])
      case Throws(e) => Throws(e)
      case Ok(states) => AddProvider(schema, states, names[|names| - 1], None, None, None)
  }

  function ColumnNames(columns: seq<Column>): (names: seq<string>)
    ensures |names| == |columns|
    ensures forall k :: 0 <= k < |columns| ==> names[k] == columns[k].name
  {
    seq(|columns|, k requires 0 <= k < |columns| => columns[k].name)
  }

  lemma AddColumnsPrefix(schema: Schema, names: seq<string>, i: nat)
    requires i < |names|
    ensures var front := AddColumns(schema, names[..i]);
      AddColumns(schema, names[..i + 1]) ==
        if front.Throws? then front else AddProvider(schema, front.value, names[i], None, None, None)
  {
    assert names[..i + 1][..i] == names[..i];
  }

  lemma AddColumnsAll(schema: Schema, names: seq<string>, states: seq<ProviderState>)
    requires AddColumns(schema, names[..|names|]) == Ok(states)
    ensures AddColumns(schema, names) == Ok(states)
  {
    assert names[..|names|] == names;
  }

  /** The providers of the columns `names`, with the default settings. */
  function Initials(names: seq<string>): (r: seq<ProviderState>)
    ensures |r| == |names|
    ensures forall k :: 0 <= k < |names| ==> r[k] == Initial(names[k])
  {
    seq(|names|, k requires 0 <= k < |names| => Initial(names[k]))
  }

  /** A column whose name is new and holds no '.' is simply appended. */
  lemma AddPlainNew(schema: Schema, states: seq<ProviderState>, name: string)
    requires forall k :: 0 <= k < |states| ==> states[k].dataProviderID != name
    requires '.' !in name
    ensures AddProvider(schema, states, name, None, None, None) == Ok(states + [Initial(name)])
  {
    NoRelationNoXdb(schema, name);
    assert FindId(states, name) == None;
  }

  /** In a table whose column names are distinct and free of '.', every
      column becomes one implied, case-insensitive provider, in table
      order. */
  lemma {:induction false} AddColumnsWellFormed(schema: Schema, names: seq<string>)
    requires forall i, j :: 0 <= i < j < |names| ==> names[i] != names[j]
    requires forall i :: 0 <= i < |names| ==> '.' !in names[i]
    ensures AddColumns(schema, names) == Ok(Initials(names))
    decreases |names|
  {
    if names != [] {
      var n := |names| - 1;
      var front := names[..n];
      AddColumnsWellFormed(schema, front);
      var states := Initials(front);
      AddPlainNew(schema, states, names[n]);
      assert states + [Initial(names[n])] == Initials(names);
    } else {
      assert Initials(names) == [];
    }
  }

  // ---------------------------------------------------------------------
  // getQuery

  /** The search context a condition is built in. */
  datatype Context = Context(schema: Schema, host: Host, dataSource: DataSource, dateFormat: string)

  function ConditionFor(ctx: Context, term: Term, sp: ProviderState): Js<Option<Condition>> {
    ParseCondition(ctx.schema, ctx.host, ctx.dataSource, ctx.dateFormat, term, sp)
  }

  /** A condition on the column of one of the implied providers. */
  predicate ImpliedColumn(ctx: Context, states: seq<ProviderState>, c: Condition) {
    OnColumn(c) &&
    exists k :: 0 <= k < |states| && states[k].implied.Truthy()
                && QBColumnOf(ctx.schema, states[k].dataProviderID) == Ok(c.column)
  }

  /** The conditions of an unfielded term: one per implied provider whose
      value casts, in provider order; the first exception wins. */
  function ImpliedGroup(ctx: Context, states: seq<ProviderState>, term: Term): (r: Js<seq<Condition>>)
    ensures r.Ok? ==> |r.value| <= |states|
    ensures r.Ok? ==> forall c :: c in r.value ==> ImpliedColumn(ctx, states, c)
    decreases |states|
  {
    if states == [] then Ok([])
    else
      var n := |states| - 1;
      match ImpliedGroup(ctx, states[..n], term)
      case Throws(e) => Throws(e)
      case Ok(group) =>
        if !states[n].implied.Truthy() then Ok(group)
        else
          match ConditionFor(ctx, term, states[n])
          case Throws(e) => Throws(e)
          case Ok(None) => Ok(group)
          case Ok(Some(c)) => Ok(group + [c])
  }

  lemma ImpliedGroupAll(ctx: Context, states: seq<ProviderState>, term: Term)
    ensures ImpliedGroup(ctx, states[..|states|], term) == ImpliedGroup(ctx, states, term)
  {
    assert states[..|states|] == states;
  }

  /** What one term adds to the conjunction: a fielded term names a provider
      and gives its condition (nothing for an unknown name, an empty value
      or a value that does not cast); any other term gives the group of the
      implied providers, a conjunction when excluding and a disjunction
      otherwise. */
  function TermConditions(ctx: Context, states: seq<ProviderState>, term: Term): (r: Js<seq<Condition>>)
    ensures r.Ok? ==> |r.value| <= 1
    ensures r.Ok? && !Present(term.field) ==> |r.value| == 1
    ensures !Present(term.field) ==> (r.Ok? <==> ImpliedGroup(ctx, states, term).Ok?)
    ensures r.Ok? && !Present(term.field) ==>
      var group := ImpliedGroup(ctx, states, term).value;
      r.value == [if term.modifiers.exclude then And(group) else Or(group)]
    ensures Present(term.field) && (r.Throws? || (r.Ok? && |r.value| == 1)) ==>
      var i := FindProvider(states, term.field.value);
      && i.Some? && NonEmpty(term.value)
      && (r.Throws? ==> ConditionFor(ctx, term, states[i.value]) == Throws(r.error))
      && (r.Ok? ==> ConditionFor(ctx, term, states[i.value]) == Ok(Some(r.value[0])))
    ensures Present(term.field) && FindProvider(states, term.field.value).Some? && NonEmpty(term.value) ==>
      var c := ConditionFor(ctx, term, states[FindProvider(states, term.field.value).value]);
      r == if c.Throws? then Throws(c.error) else if c.value.Some? then Ok([c.value.value]) else Ok([])
  {
    if Present(term.field) then
      match FindProvider(states, term.field.value)
      case None => Ok([])
      case Some(i) =>
        if !NonEmpty(term.value) then Ok([])
        else
          match ConditionFor(ctx, term, states[i])
          case Throws(e) => Throws(e)
          case Ok(None) => Ok([])
          case Ok(Some(c)) => Ok([c])
    else
      match ImpliedGroup(ctx, states, term)
      case Throws(e) => Throws(e)
      case Ok(group) => Ok([if term.modifiers.exclude then And(group) else Or(group)])
  }

  /** Two runs of conditions one after the other; the first exception
      wins. */
  function Then(a: Js<seq<Condition>>, b: Js<seq<Condition>>): Js<seq<Condition>> {
    if a.Throws? then a else if b.Throws? then b else Ok(a.value + b.value)
  }

  lemma ThenAssoc(a: Js<seq<Condition>>, b: Js<seq<Condition>>, c: Js<seq<Condition>>)
    ensures Then(Then(a, b), c) == Then(a, Then(b, c))
  {
    if a.Ok? && b.Ok? && c.Ok? {
      assert (a.value + b.value) + c.value == a.value + (b.value + c.value);
    }
  }

  /** Runs of conditions one after the other; the first exception wins. */
  function Chain(steps: seq<Js<seq<Condition>>>): Js<seq<Condition>>
    decreases |steps|
  {
    if steps == [] then Ok([])
    else Then(Chain(steps[..|steps| - 1]), steps[|steps| - 1])
  }

  lemma {:induction false} ChainAppend(first: seq<Js<seq<Condition>>>, second: seq<Js<seq<Condition>>>)
    ensures Chain(first + second) == Then(Chain(first), Chain(second))
    decreases |second|
  {
    if second == [] {
      assert first + second == first;
      var a := Chain(first);
      assert a.Ok? ==> a.value + [] == a.value;
    } else {
      var n := |second| - 1;
      var all := first + second;
      assert all[..|all| - 1] == first + second[..n];
      assert all[|all| - 1] == second[n];
      ChainAppend(first, second[..n]);
      ThenAssoc(Chain(first), Chain(second[..n]), second[n]);
    }
  }

  /** A run of steps throws exactly when one step throws, and then with the
      error of the first step that throws. */
  lemma {:induction false} ChainFirstThrow(steps: seq<Js<seq<Condition>>>)
    ensures Chain(steps).Throws? <==> exists k :: 0 <= k < |steps| && steps[k].Throws?
    ensures Chain(steps).Throws? ==>
      exists k :: 0 <= k < |steps| && steps[k] == Chain(steps) && forall j :: 0 <= j < k ==> steps[j].Ok?
    decreases |steps|
  {
    if steps != [] {
      var n := |steps| - 1;
      var front := steps[..n];
      ChainFirstThrow(front);
      assert forall k :: 0 <= k < n ==> front[k] == steps[k];
      if Chain(front).Throws? {
        var k :| 0 <= k < n && front[k] == Chain(front) && forall j :: 0 <= j < k ==> front[j].Ok?;
        assert steps[k] == Chain(steps);
      } else if steps[n].Throws? {
        assert forall j :: 0 <= j < n ==> steps[j].Ok?;
      }
    }
  }

  lemma ChainThrows(steps: seq<Js<seq<Condition>>>, i: nat)
    requires i <= |steps| && Chain(steps[..i]).Throws?
    ensures Chain(steps) == Chain(steps[..i])
  {
    ChainAppend(steps[..i], steps[i..]);
    assert steps[..i] + steps[i..] == steps;
  }

  /** What each term adds, term by term. */
  function TermResults(ctx: Context, states: seq<ProviderState>, terms: seq<Term>): (r: seq<Js<seq<Condition>>>)
    ensures |r| == |terms|
    ensures forall k :: 0 <= k < |terms| ==> r[k] == TermConditions(ctx, states, terms[k])
  {
    seq(|terms|, k requires 0 <= k < |terms| => TermConditions(ctx, states, terms[k]))
  }

  /** The conjunction of all terms, in order; the first exception wins. */
  function QueryConditions(ctx: Context, states: seq<ProviderState>, terms: seq<Term>): Js<seq<Condition>> {
    Chain(TermResults(ctx, states, terms))
  }

  lemma QueryConditionsPrefix(ctx: Context, states: seq<ProviderState>, terms: seq<Term>, i: nat)
    requires i < |terms|
    ensures QueryConditions(ctx, states, terms[..i + 1]) ==
      Then(QueryConditions(ctx, states, terms[..i]), TermConditions(ctx, states, terms[i]))
  {
    QueryConditionsSnoc(ctx, states, terms[..i + 1]);
    assert terms[..i + 1][..i] == terms[..i];
  }

  /** One more term after a run that gave `conjuncts`. */
  lemma QueryConditionsAdvance(ctx: Context, states: seq<ProviderState>, terms: seq<Term>, i: nat, conjuncts: seq<Condition>)
    requires i < |terms| && QueryConditions(ctx, states, terms[..i]) == Ok(conjuncts)
    ensures var step := TermConditions(ctx, states, terms[i]);
      QueryConditions(ctx, states, terms[..i + 1]) == if step.Throws? then step else Ok(conjuncts + step.value)
  {
    QueryConditionsPrefix(ctx, states, terms, i);
  }

  lemma QueryConditionsSnoc(ctx: Context, states: seq<ProviderState>, terms: seq<Term>)
    requires terms != []
    ensures QueryConditions(ctx, states, terms) ==
      Then(QueryConditions(ctx, states, terms[..|terms| - 1]), TermConditions(ctx, states, terms[|terms| - 1]))
  {
    var n := |terms| - 1;
    var all := TermResults(ctx, states, terms);
    var front := TermResults(ctx, states, terms[..n]);
    forall k | 0 <= k < n ensures all[..n][k] == front[k] {
      assert terms[..n][k] == terms[k];
    }
    assert all[..n] == front;
  }

  /** `getQuery()`: the where clause of the query. */
  function Query(ctx: Context, states: seq<ProviderState>, searchText: string): (r: Js<Condition>)
    ensures r.Ok? <==> QueryConditions(ctx, states, ParseTerms(searchText)).Ok?
    ensures r.Ok? ==> r.value.And?
    ensures r.Ok? ==> Unfielded(ParseTerms(searchText)) <= |r.value.items| <= |ParseTerms(searchText)|
  {
    var terms := ParseTerms(searchText);
    match QueryConditions(ctx, states, terms)
    case Throws(e) => Throws(e)
    case Ok(cs) =>
      QueryConditionsCount(ctx, states, terms);
      Ok(And(cs))
  }

  lemma QueryConditionsAll(ctx: Context, states: seq<ProviderState>, terms: seq<Term>)
    ensures QueryConditions(ctx, states, terms[..|terms|]) == QueryConditions(ctx, states, terms)
  {
    assert terms[..|terms|] == terms;
  }

  /** A fielded term whose name selects no provider, or whose value is
      empty, is ignored. */
  lemma IgnoredFieldedTerms(ctx: Context, states: seq<ProviderState>, term: Term)
    requires Present(term.field)
    requires FindProvider(states, term.field.value).None? || !NonEmpty(term.value)
    ensures TermConditions(ctx, states, term) == Ok([])
  {
  }

  /** The providers that take part in implied search. */
  function ImpliedOnly(states: seq<ProviderState>): (r: seq<ProviderState>)
    ensures |r| <= |states|
    ensures forall k :: 0 <= k < |r| ==> r[k].implied.Truthy()
    decreases |states|
  {
    if states == [] then []
    else
      var n := |states| - 1;
      ImpliedOnly(states[..n]) + (if states[n].implied.Truthy() then [states[n]] else [])
  }

  /** Providers left out of implied search have no effect on an unfielded
      term. */
  lemma {:induction false} ImpliedGroupOnlyImplied(ctx: Context, states: seq<ProviderState>, term: Term)
    ensures ImpliedGroup(ctx, states, term) == ImpliedGroup(ctx, ImpliedOnly(states), term)
    decreases |states|
  {
    if states != [] {
      var n := |states| - 1;
      ImpliedGroupOnlyImplied(ctx, states[..n], term);
      var front := ImpliedOnly(states[..n]);
      var only := ImpliedOnly(states);
      if states[n].implied.Truthy() {
        assert only == front + [states[n]];
        assert only[..|only| - 1] == front;
        assert only[|only| - 1] == states[n];
      } else {
        assert only == front;
      }
    }
  }

  /** What each provider gives for a term, provider by provider. */
  function Results(ctx: Context, states: seq<ProviderState>, term: Term): (r: seq<Js<Option<Condition>>>)
    ensures |r| == |states|
    decreases |states|
  {
    if states == [] then []
    else Results(ctx, states[..|states| - 1], term) + [ConditionFor(ctx, term, states[|states| - 1])]
  }

  /** The conditions of a run of results, read from the front: the first
      exception wins, otherwise the conditions given, in order. */
  function Collected(rs: seq<Js<Option<Condition>>>): Js<seq<Condition>> {
    if rs == [] then Ok([])
    else if rs[0].Throws? then Throws(rs[0].error)
    else
      match Collected(rs[1..])
      case Throws(e) => Throws(e)
      case Ok(cs) => Ok((if rs[0].value.Some? then [rs[0].value.value] else []) + cs)
  }

  lemma {:induction false} CollectedSnoc(rs: seq<Js<Option<Condition>>>, x: Js<Option<Condition>>)
    ensures Collected(rs + [x]) ==
      match Collected(rs)
      case Throws(e) => Throws(e)
      case Ok(cs) =>
        if x.Throws? then Throws(x.error)
        else Ok(cs + if x.value.Some? then [x.value.value] else [])
  {
    if rs == [] {
      assert [] + [x] == [x];
      assert [x][1..] == [];
      if x.Ok? {
        var given: seq<Condition> := if x.value.Some? then [x.value.value] else [];
        assert given + [] == given;
        assert [] + given == given;
      }
    } else {
      var all := rs + [x];
      assert all[0] == rs[0];
      assert all[1..] == rs[1..] + [x];
      if rs[0].Ok? {
        CollectedSnoc(rs[1..], x);
        var head: seq<Condition> := if rs[0].value.Some? then [rs[0].value.value] else [];
        var tail: seq<Condition> := if x.Ok? && x.value.Some? then [x.value.value] else [];
        var rest := Collected(rs[1..]);
        if rest.Ok? && x.Ok? {
          assert head + (rest.value + tail) == (head + rest.value) + tail;
        }
      }
    }
  }

  /** One more provider after the others: an implied one adds what it
      gives, unless something before it threw. */
  lemma ImpliedGroupSnoc(ctx: Context, states: seq<ProviderState>, term: Term)
    requires states != []
    ensures var n := |states| - 1;
      var x := ConditionFor(ctx, term, states[n]);
      ImpliedGroup(ctx, states, term) ==
        match ImpliedGroup(ctx, states[..n], term)
        case Throws(e) => Throws(e)
        case Ok(cs) =>
          if !states[n].implied.Truthy() then Ok(cs)
          else if x.Throws? then Throws(x.error)
          else Ok(cs + if x.value.Some? then [x.value.value] else [])
  {
    var before := ImpliedGroup(ctx, states[..|states| - 1], term);
    if before.Ok? {
      assert before.value + [] == before.value;
    }
  }

  /** The group of an unfielded term is, in registration order, the
      conditions the implied providers give, unless one of them throws. */
  lemma {:induction false} ImpliedGroupCollects(ctx: Context, states: seq<ProviderState>, term: Term)
    ensures ImpliedGroup(ctx, states, term) == Collected(Results(ctx, ImpliedOnly(states), term))
    decreases |states|
  {
    if states != [] {
      var n := |states| - 1;
      ImpliedGroupCollects(ctx, states[..n], term);
      ImpliedGroupSnoc(ctx, states, term);
      var front := ImpliedOnly(states[..n]);
      var only := ImpliedOnly(states);
      if states[n].implied.Truthy() {
        assert only[..|only| - 1] == front;
        assert only[|only| - 1] == states[n];
        assert Results(ctx, only, term) == Results(ctx, front, term) + [ConditionFor(ctx, term, states[n])];
        CollectedSnoc(Results(ctx, front, term), ConditionFor(ctx, term, states[n]));
      } else {
        assert only == front;
      }
    }
  }

  lemma {:induction false} ResultsAt(ctx: Context, states: seq<ProviderState>, term: Term, k: nat)
    requires k < |states|
    ensures Results(ctx, states, term)[k] == ConditionFor(ctx, term, states[k])
    decreases |states|
  {
    var n := |states| - 1;
    if k < n {
      var front := states[..n];
      ResultsAt(ctx, front, term, k);
      assert front[k] == states[k];
      assert Results(ctx, states, term)[k] == Results(ctx, front, term)[k];
    } else {
      assert k == n;
      var front := Results(ctx, states[..n], term);
      var last := ConditionFor(ctx, term, states[k]);
      assert Results(ctx, states, term) == front + [last];
      assert |front| == n;
      assert (front + [last])[n] == last;
    }
  }

  /** Every implied provider is kept, in order, and nothing else is. */
  lemma {:induction false} ImpliedOnlyMembers(states: seq<ProviderState>)
    ensures forall sp :: sp in states && sp.implied.Truthy() ==> sp in ImpliedOnly(states)
    ensures forall sp :: sp in ImpliedOnly(states) ==> sp in states && sp.implied.Truthy()
    decreases |states|
  {
    if states != [] {
      var n := |states| - 1;
      ImpliedOnlyMembers(states[..n]);
      assert states == states[..n] + [states[n]];
    }
  }

  /** Once collected, no result threw and every condition given is in the
      collection. */
  lemma {:induction false} CollectedHas(rs: seq<Js<Option<Condition>>>, k: nat)
    requires Collected(rs).Ok? && k < |rs|
    ensures rs[k].Ok?
    ensures rs[k].value.Some? ==> rs[k].value.value in Collected(rs).value
    decreases |rs|
  {
    if k > 0 {
      assert rs[1..][k - 1] == rs[k];
      CollectedHas(rs[1..], k - 1);
    }
  }

  /** Every collected condition was given by one of the results. */
  lemma {:induction false} CollectedFrom(rs: seq<Js<Option<Condition>>>, c: Condition)
    requires Collected(rs).Ok? && c in Collected(rs).value
    ensures exists k :: 0 <= k < |rs| && rs[k] == Ok(Some(c))
    decreases |rs|
  {
    if rs[0] != Ok(Some(c)) {
      CollectedFrom(rs[1..], c);
      var k :| 0 <= k < |rs[1..]| && rs[1..][k] == Ok(Some(c));
      assert rs[k + 1] == Ok(Some(c));
    }
  }

  /** The query's conjuncts fail exactly when a term throws, and then with
      the error of the first term that throws. */
  lemma QueryFirstThrow(ctx: Context, states: seq<ProviderState>, terms: seq<Term>)
    ensures QueryConditions(ctx, states, terms).Throws? <==>
      exists k :: 0 <= k < |terms| && TermConditions(ctx, states, terms[k]).Throws?
    ensures QueryConditions(ctx, states, terms).Throws? ==>
      exists k :: 0 <= k < |terms| && TermConditions(ctx, states, terms[k]) == QueryConditions(ctx, states, terms)
        && forall j :: 0 <= j < k ==> TermConditions(ctx, states, terms[j]).Ok?
  {
    ChainFirstThrow(TermResults(ctx, states, terms));
  }

  /** How many terms have no field. */
  function Unfielded(terms: seq<Term>): nat
    decreases |terms|
  {
    if terms == [] then 0
    else Unfielded(terms[..|terms| - 1]) + (if Present(terms[|terms| - 1].field) then 0 else 1)
  }

  /** Every unfielded term adds exactly one conjunct and a fielded term at
      most one. */
  lemma {:induction false} QueryConditionsCount(ctx: Context, states: seq<ProviderState>, terms: seq<Term>)
    requires QueryConditions(ctx, states, terms).Ok?
    ensures Unfielded(terms) <= |QueryConditions(ctx, states, terms).value| <= |terms|
    decreases |terms|
  {
    if terms != [] {
      var n := |terms| - 1;
      QueryConditionsSnoc(ctx, states, terms);
      assert QueryConditions(ctx, states, terms[..n]).Ok?;
      assert TermConditions(ctx, states, terms[n]).Ok?;
      QueryConditionsCount(ctx, states, terms[..n]);
    }
  }

  /** Once a run of terms throws, the terms after it are never reached. */
  lemma QueryConditionsThrows(ctx: Context, states: seq<ProviderState>, terms: seq<Term>, i: nat)
    requires i <= |terms| && QueryConditions(ctx, states, terms[..i]).Throws?
    ensures QueryConditions(ctx, states, terms) == QueryConditions(ctx, states, terms[..i])
  {
    var steps := TermResults(ctx, states, terms);
    assert steps[..i] == TermResults(ctx, states, terms[..i]);
    ChainThrows(steps, i);
  }

  /** Once a provider throws, the providers after it are never reached. */
  lemma {:induction false} ImpliedGroupThrows(ctx: Context, states: seq<ProviderState>, term: Term, j: nat)
    requires j <= |states| && ImpliedGroup(ctx, states[..j], term).Throws?
    ensures ImpliedGroup(ctx, states, term) == ImpliedGroup(ctx, states[..j], term)
    decreases |states| - j
  {
    if j < |states| {
      var n := |states| - 1;
      if j < n {
        assert states[..n][..j] == states[..j];
        ImpliedGroupThrows(ctx, states[..n], term, j);
      } else {
        assert states[..j] == states[..n];
      }
    } else {
      assert states[..j] == states;
    }
  }

  /** Once a column throws, the columns after it are never added. */
  lemma {:induction false} AddColumnsThrows(schema: Schema, names: seq<string>, j: nat)
    requires j <= |names| && AddColumns(schema, names[..j]).Throws?
    ensures AddColumns(schema, names) == AddColumns(schema, names[..j])
    decreases |names| - j
  {
    if j < |names| {
      var n := |names| - 1;
      if j < n {
        assert names[..n][..j] == names[..j];
        AddColumnsThrows(schema, names[..n], j);
      } else {
        assert names[..j] == names[..n];
      }
      var front := AddColumns(schema, names[..n]);
      assert front == AddColumns(schema, names[..j]);
      assert AddColumns(schema, names) == Throws(front.error);
    } else {
      assert names[..j] == names;
    }
  }

  /** The settings of a list of providers. */
  function StatesOf(ps: seq<SearchProvider>): (s: seq<ProviderState>)
    reads ps
    ensures |s| == |ps|
    ensures forall k :: 0 <= k < |ps| ==> s[k] == ps[k].State()
    decreases |ps|
  {
    if ps == [] then [] else StatesOf(ps[..|ps| - 1]) + [ps[|ps| - 1].State()]
  }

  /** Each data provider id has one provider. */
  predicate DistinctProviders(ps: seq<SearchProvider>) {
    forall i, j :: 0 <= i < j < |ps| ==> ps[i].dataProviderID != ps[j].dataProviderID
  }

  /** A provider for an id not registered yet keeps the ids distinct. */
  lemma DistinctProvidersSnoc(ps: seq<SearchProvider>, p: SearchProvider)
    requires DistinctProviders(ps)
    requires FindId(StatesOf(ps), p.dataProviderID).None?
    ensures DistinctProviders(ps + [p])
  {
    var states := StatesOf(ps);
    forall k | 0 <= k < |ps| ensures ps[k].dataProviderID != p.dataProviderID {
      assert states[k] == ps[k].State();
    }
  }

  /** The optional arguments of `addSearchProvider` applied to `sp`. */
  method ConfigureProvider(sp: SearchProvider, alias: Option<string>, implied: Option<JsBool>, caseSensitive: Option<JsBool>)
    modifies sp
    ensures sp.State() == Configure(old(sp.State()), alias, implied, caseSensitive)
  {
    if Present(alias) {
      sp.SetAlias(alias);
    }
    if implied.Some? && implied.value.Boxed? {
      sp.SetImpliedSearch(implied.value);
    }
    if caseSensitive.Some? && caseSensitive.value.Boxed? {
      sp.SetCaseSensitive(caseSensitive.value);
    }
  }

  lemma SnocUpdate<T>(s: seq<T>, x: T, y: T)
    ensures (s + [x])[|s| := y] == s + [y]
  {
  }

  lemma StatesOfSnoc(ps: seq<SearchProvider>, p: SearchProvider)
    ensures StatesOf(ps + [p]) == StatesOf(ps) + [p.State()]
  {
    assert (ps + [p])[..|ps|] == ps;
  }

  /** `arrayCopy(a)`: a copy holding the same elements in the same order. */
  method ArrayCopy<T>(a: seq<T>) returns (a2: seq<T>)
    ensures a2 == a
  {
    a2 := [];
    var i := 0;
    while i < |a|
      invariant 0 <= i <= |a|
      invariant a2 == a[..i]
    {
      a2 := a2 + [a[i]];
      i := i + 1;
    }
  }

  /** `SimpleSearch`: the search object over one data source. The schema and
      the host services stand for the platform it runs on. */
  class SimpleSearch {
    const dataSource: DataSource
    const schema: Schema
    const host: Host
    var providers: seq<SearchProvider>
    var searchText: string
    var dateFormat: string

    /** No data provider id is registered twice. */
    predicate Valid()
      reads this
    {
      DistinctProviders(providers)
    }

    function States(): seq<ProviderState>
      reads this, providers
    {
      StatesOf(providers)
    }

    /** The context the conditions are built in. */
    function SearchContext(): Context
      reads this
    {
      Context(schema, host, dataSource, dateFormat)
    }

    /** `createSimpleSearch(dataSource)`: no providers, an empty search text
        and the date format 'yyyy/MM/dd'. */
    constructor(dataSource: DataSource, schema: Schema, host: Host)
      ensures Valid()
      ensures this.dataSource == dataSource && this.schema == schema && this.host == host
      ensures providers == [] && searchText == "" && dateFormat == "yyyy/MM/dd"
    {
      this.dataSource := dataSource;
      this.schema := schema;
      this.host := host;
      providers := [];
      searchText := "";
      dateFormat := "yyyy/MM/dd";
    }

    /** `setDateFormat(format)`. */
    method SetDateFormat(format: string)
      modifies this
      ensures dateFormat == format
      ensures providers == old(providers) && searchText == old(searchText)
    {
      dateFormat := format;
    }

    /** `setSearchText(text)`. */
    method SetSearchText(text: string)
      modifies this
      ensures searchText == text
      ensures providers == old(providers) && dateFormat == old(dateFormat)
    {
      searchText := text;
    }

    /** `getAllSearchProviders()`: a copy of the list. */
    method GetAllSearchProviders() returns (r: seq<SearchProvider>)
      ensures r == providers
    {
      r := ArrayCopy(providers);
    }

    /** `getSearchProvider(aliasOrDataProvider)`: the first provider whose
        data provider id or alias is the given name. */
    method GetSearchProvider(name: string) returns (r: Option<SearchProvider>)
      ensures r.None? <==> FindProvider(States(), name).None?
      ensures r.Some? ==> r.value == providers[FindProvider(States(), name).value]
    {
      var i := 0;
      while i < |providers| && !(providers[i].dataProviderID == name || providers[i].alias == Some(name))
        invariant 0 <= i <= |providers|
        invariant forall k :: 0 <= k < i ==> !Named(States()[k], name)
      {
        i := i + 1;
      }
      var found := FindProvider(States(), name);
      if i == |providers| {
        return None;
      }
      assert Named(States()[i], name);
      assert found == Some(i) by {
        if found.value < i {
        } else if found.value > i {
        }
      }
      return Some(providers[i]);
    }
  
    /** `addSearchProvider(dataProviderID, alias, impliedSearch,
        caseSensitive)`: updates the provider already registered for the id,
        or checks the id for cross-database relations and registers a new
        provider; returns the provider. */
    method AddSearchProvider(dataProviderID: string, alias: Option<string>, implied: Option<JsBool>, caseSensitive: Option<JsBool>)
      returns (r: Js<SearchProvider>)
      requires Valid()
      modifies this, providers
      ensures Valid()
      ensures var spec := AddProvider(schema, old(States()), dataProviderID, alias, implied, caseSensitive);
        && (r.Ok? <==> spec.Ok?)
        && (r.Throws? ==> r.error == spec.error && providers == old(providers) && States() == old(States()))
        && (r.Ok? ==> States() == spec.value)
      ensures r.Ok? ==> r.value in providers && r.value.dataProviderID == dataProviderID
      ensures providers == old(providers) || (r.Ok? && fresh(r.value) && providers == old(providers) + [r.value])
      ensures searchText == old(searchText) && dateFormat == old(dateFormat)
    {
      var i := IndexOfId(dataProviderID);
      if i < |providers| {
        var sp := UpdateExisting(dataProviderID, i, alias, implied, caseSensitive);
        r := Ok(sp);
      } else {
        r := AddNew(dataProviderID, alias, implied, caseSensitive);
      }
    }

    /** `addSearchProvider` for an id registered at index `i`. */
    method UpdateExisting(dataProviderID: string, i: nat, alias: Option<string>, implied: Option<JsBool>, caseSensitive: Option<JsBool>)
      returns (sp: SearchProvider)
      requires Valid() && i < |providers|
      requires FindId(States(), dataProviderID) == Some(i)
      modifies providers[i]
      ensures sp == providers[i] && sp.dataProviderID == dataProviderID
      ensures AddProvider(schema, old(States()), dataProviderID, alias, implied, caseSensitive) == Ok(States())
      ensures Valid() && providers == old(providers)
      ensures searchText == old(searchText) && dateFormat == old(dateFormat)
    {
      ghost var before := States();
      sp := providers[i];
      assert before[i] == sp.State();
      UpdateProvider(sp, i, alias, implied, caseSensitive);
    }

    /** `addSearchProvider` for an id not registered yet. */
    method AddNew(dataProviderID: string, alias: Option<string>, implied: Option<JsBool>, caseSensitive: Option<JsBool>)
      returns (r: Js<SearchProvider>)
      requires Valid()
      requires FindId(States(), dataProviderID).None?
      modifies this
      ensures Valid()
      ensures var spec := AddProvider(schema, old(States()), dataProviderID, alias, implied, caseSensitive);
        && (r.Ok? <==> spec.Ok?)
        && (r.Throws? ==> r.error == spec.error && providers == old(providers))
        && (r.Ok? ==> States() == spec.value)
      ensures r.Ok? ==> fresh(r.value) && providers == old(providers) + [r.value] && r.value.dataProviderID == dataProviderID
      ensures searchText == old(searchText) && dateFormat == old(dateFormat)
    {
      ghost var before := States();
      AddProviderNew(schema, before, dataProviderID, alias, implied, caseSensitive);
      var n := |providers|;
      var added := Register(dataProviderID);
      if added.Throws? {
        return Throws(added.error);
      }
      var sp := added.value;
      ghost var mid := States();
      assert mid == before + [Initial(dataProviderID)];
      assert mid[|before|] == sp.State();
      UpdateProvider(sp, n, alias, implied, caseSensitive);
      SnocUpdate(before, Initial(dataProviderID), Configure(Initial(dataProviderID), alias, implied, caseSensitive));
      r := Ok(sp);
    }

    /** The search loop of `addSearchProvider`: the index of the provider
        registered for the id, or the length of the list. */
    method IndexOfId(dataProviderID: string) returns (i: nat)
      ensures i <= |providers|
      ensures FindId(States(), dataProviderID) == if i < |providers| then Some(i) else None
    {
      ghost var states := States();
      i := 0;
      while i < |providers| && providers[i].dataProviderID != dataProviderID
        invariant 0 <= i <= |providers|
        invariant forall k :: 0 <= k < i ==> states[k].dataProviderID != dataProviderID
      {
        i := i + 1;
      }
    }

    /** A new provider for an id not registered yet: refused when a relation
        on its path crosses databases. */
    method Register(dataProviderID: string) returns (r: Js<SearchProvider>)
      requires Valid()
      requires FindId(States(), dataProviderID).None?
      modifies this
      ensures Valid()
      ensures var xdb := XdbCheck(schema, RelationSegments(dataProviderID));
        && (r.Ok? <==> xdb == Ok(false))
        && (r.Throws? ==> r.error == (if xdb.Ok? then CrossDbError else xdb.error) && providers == old(providers))
      ensures r.Ok? ==> fresh(r.value) && providers == old(providers) + [r.value]
      ensures r.Ok? ==> States() == old(States()) + [Initial(dataProviderID)]
      ensures searchText == old(searchText) && dateFormat == old(dateFormat)
    {
      var xdb := HasXdbRelation(schema, dataProviderID);
      if xdb.Throws? {
        return Throws(xdb.error);
      }
      if xdb.value {
        return Throws(CrossDbError);
      }
      var sp := Append(dataProviderID);
      r := Ok(sp);
    }

    /** Registers a fresh provider with the default settings at the end of
        the list. */
    method Append(dataProviderID: string) returns (sp: SearchProvider)
      requires Valid()
      requires FindId(States(), dataProviderID).None?
      modifies this
      ensures Valid()
      ensures fresh(sp) && providers == old(providers) + [sp]
      ensures States() == old(States()) + [Initial(dataProviderID)]
      ensures searchText == old(searchText) && dateFormat == old(dateFormat)
    {
      ghost var before := providers;
      ghost var states := States();
      sp := new SearchProvider(dataProviderID);
      assert sp.State() == Initial(dataProviderID);
      DistinctProvidersSnoc(before, sp);
      providers := providers + [sp];
      assert StatesOf(before) == states;
      StatesOfSnoc(before, sp);
    }

    /** The updates of `addSearchProvider` on the provider at index `i`. */
    method UpdateProvider(sp: SearchProvider, i: nat, alias: Option<string>, implied: Option<JsBool>, caseSensitive: Option<JsBool>)
      requires Valid() && i < |providers| && providers[i] == sp
      modifies sp
      ensures States() == old(States())[i := Configure(old(sp.State()), alias, implied, caseSensitive)]
      ensures sp.State() == Configure(old(sp.State()), alias, implied, caseSensitive)
    {
      ghost var states := States();
      forall k | 0 <= k < |providers| && k != i ensures providers[k] != sp {
        assert providers[k].dataProviderID != providers[i].dataProviderID;
      }
      ConfigureProvider(sp, alias, implied, caseSensitive);
      assert forall k :: 0 <= k < |providers| && k != i ==> providers[k].State() == states[k];
    }
  
    /** `setSearchAllColumns()`: clears the providers, then adds one per
        column of the data source's table, in table order. A missing table
        throws after the list is cleared. */
    method SetSearchAllColumns() returns (r: Js<()>)
      requires Valid()
      modifies this
      ensures Valid()
      ensures dataSource !in schema.tables ==> r == Throws(TypeError) && providers == []
      ensures dataSource in schema.tables ==>
        var spec := AddColumns(schema, ColumnNames(schema.tables[dataSource]));
        && (r.Ok? <==> spec.Ok?)
        && (r.Throws? ==> r.error == spec.error)
        && (r.Ok? ==> States() == spec.value)
      ensures searchText == old(searchText) && dateFormat == old(dateFormat)
    {
      providers := [];
      if dataSource !in schema.tables {
        return Throws(TypeError);
      }
      r := AddAllColumns(ColumnNames(schema.tables[dataSource]));
    }

    /** The loop of `setSearchAllColumns`: registers the columns `names`, in
        order, into an empty list of providers, stopping at the first error. */
    method AddAllColumns(names: seq<string>) returns (r: Js<()>)
      requires Valid() && providers == []
      modifies this
      ensures Valid()
      ensures var spec := AddColumns(schema, names);
        && (r.Ok? <==> spec.Ok?)
        && (r.Throws? ==> r.error == spec.error)
        && (r.Ok? ==> States() == spec.value)
      ensures searchText == old(searchText) && dateFormat == old(dateFormat)
    {
      var i := 0;
      assert names[..0] == [];
      while i < |names|
        invariant 0 <= i <= |names|
        invariant Valid()
        invariant forall k :: 0 <= k < |providers| ==> fresh(providers[k])
        invariant AddColumns(schema, names[..i]) == Ok(States())
        invariant searchText == old(searchText) && dateFormat == old(dateFormat)
      {
        var added := AddColumn(names, i);
        if added.Throws? {
          return Throws(added.error);
        }
        i := i + 1;
      }
      AddColumnsAll(schema, names, States());
      r := Ok(());
    }

    /** One iteration of `setSearchAllColumns`: adds the provider of the
        column `names[i]`. */
    method AddColumn(names: seq<string>, i: nat) returns (r: Js<SearchProvider>)
      requires Valid() && i < |names|
      requires AddColumns(schema, names[..i]) == Ok(States())
      modifies this, providers
      ensures Valid()
      ensures r.Ok? ==> AddColumns(schema, names[..i + 1]) == Ok(States())
      ensures r.Throws? ==> AddColumns(schema, names) == Throws(r.error)
      ensures providers == old(providers) || (r.Ok? && fresh(r.value) && providers == old(providers) + [r.value])
      ensures searchText == old(searchText) && dateFormat == old(dateFormat)
    {
      AddColumnsPrefix(schema, names, i);
      r := AddSearchProvider(names[i], None, None, None);
      if r.Throws? {
        AddColumnsThrows(schema, names, i + 1);
      }
    }

    /** The inner loop of `getQuery` for an unfielded term: the conditions
        of the implied providers. */
    method ImpliedConditions(term: Term) returns (r: Js<seq<Condition>>)
      ensures r == ImpliedGroup(SearchContext(), States(), term)
    {
      ghost var states := States();
      var ctx := SearchContext();
      var group: seq<Condition> := [];
      var j := 0;
      while j < |providers|
        invariant 0 <= j <= |providers|
        invariant ImpliedGroup(ctx, states[..j], term) == Ok(group)
      {
        assert states[..j + 1][..j] == states[..j];
        var sp := providers[j];
        if sp.implied.Truthy() {
          var c := ConditionFor(ctx, term, sp.State());
          if c.Throws? {
            ImpliedGroupThrows(ctx, states, term, j + 1);
            return Throws(c.error);
          }
          if c.value.Some? {
            group := group + [c.value.value];
          }
        }
        j := j + 1;
      }
      ImpliedGroupAll(ctx, states, term);
      r := Ok(group);
    }

    /** One step of the outer loop of `getQuery`: what a term adds. */
    method TermStep(term: Term) returns (r: Js<seq<Condition>>)
      ensures r == TermConditions(SearchContext(), States(), term)
    {
      if Present(term.field) {
        var sp := GetSearchProvider(term.field.value);
        if sp.None? || !NonEmpty(term.value) {
          return Ok([]);
        }
        var c := ConditionFor(SearchContext(), term, sp.value.State());
        if c.Throws? {
          return Throws(c.error);
        }
        if c.value.None? {
          return Ok([]);
        }
        return Ok([c.value.value]);
      }
      var group := ImpliedConditions(term);
      if group.Throws? {
        return Throws(group.error);
      }
      var logical := if term.modifiers.exclude then And(group.value) else Or(group.value);
      return Ok([logical]);
    }

    /** `getQuery()`: parses the search text and joins what each term adds
        into one conjunction. */
    method GetQuery() returns (r: Js<Condition>)
      ensures r == Query(SearchContext(), States(), searchText)
    {
      var terms := Parse(searchText);
      var conjuncts := Conjuncts(terms);
      if conjuncts.Throws? {
        return Throws(conjuncts.error);
      }
      r := Ok(And(conjuncts.value));
    }

    /** The loop of `getQuery` over the parsed terms. */
    method Conjuncts(terms: seq<Term>) returns (r: Js<seq<Condition>>)
      ensures r == QueryConditions(SearchContext(), States(), terms)
    {
      var conjuncts: seq<Condition> := [];
      var i := 0;
      while i < |terms|
        invariant 0 <= i <= |terms|
        invariant QueryConditions(SearchContext(), States(), terms[..i]) == Ok(conjuncts)
      {
        var step := TermStep(terms[i]);
        QueryConditionsAdvance(SearchContext(), States(), terms, i, conjuncts);
        if step.Throws? {
          QueryConditionsThrows(SearchContext(), States(), terms, i + 1);
          return Throws(step.error);
        }
        conjuncts := conjuncts + step.value;
        i := i + 1;
      }
      QueryConditionsAll(SearchContext(), States(), terms);
      r := Ok(conjuncts);
    }
  }
}
