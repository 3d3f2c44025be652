# svySearch simple search, modelled in Dafny

This project models the search-term compiler of the svySearch module
(`svySearch/svySearch.js`). A `SimpleSearch` is bound to one data source and
keeps a list of search providers, one per column (dataprovider id). Its
`getQuery` turns one Google-like search text into a query-builder
condition. The text is tokenized into terms: quoted phrases come first, then
the space-separated words. Each term is split into an optional `field:` part
and modifiers (`-`, `+`, `>`, `>=`, `<`, `<=`, `a...b`). A fielded term
becomes one condition on the provider it names. An unfielded term becomes an
OR group over every implied provider, or an AND group when it is excluded.
Each condition comes from `parseCondition`. That function applies the
provider's substitutions, casts the value by the column type, and then
applies the first modifier set, in a fixed order.

Modules, one per part of the source:

- `JsValues` (`jsvalues.dfy`) holds the JavaScript notions the code relies
  on:
  - undefined and null (`Option`);
  - thrown errors (`Js`);
  - truthiness;
  - primitive against boxed booleans (`instanceof Boolean`).
- `Strings` (`strings.dfy`) holds the string built-ins the code uses, each
  with its meaning stated:
  - `indexOf`, `lastIndexOf`, `split`, `join`, `substring`, `trim`,
    `toUpperCase`;
  - replace-all, case-sensitive or case-folded;
  - regular-expression escaping.
- `Terms` (`terms.dfy`) holds the tokenizer: `parse`, `parseEnclosedStrings`,
  `parseField`, `parseModifiers`.
- `Schema` (`schema.dfy`) is an abstract database schema:
  - tables with typed columns, and relations with their two servers;
  - `parseQBColumn`, `parseJSColumnInfo`, `getJSColumn`;
  - `dataProviderHasXDBRelation`.
- `Providers` (`providers.dfy`) holds the `SearchProvider` class and its
  substitutions, string-matching mode and flags.
- `Conditions` (`conditions.dfy`) holds `cast` and `parseCondition`, with
  conditions as a datatype.
- `Search` (`search.dfy`) holds the `SimpleSearch` class: the provider
  registry, `setSearchAllColumns` and `getQuery`.

The imperative parts of the source stay methods with loops, each proved equal
to a specification function. These are:

- the quoted-phrase and token loops of `parse`;
- the `exec` loop;
- the path-popping loop;
- the registry search, the substitution loop and the `getQuery` loops.

Providers are objects updated in place. The properties are proved about the
specification functions.

Two facts about the code shape the model:

- `STRING_MATCHING` has three modes: contains, starts-with and ends-with;
- registering a column does not check its type; `cast` only logs an
  unsupported type and passes the value through.

The substitution step is modelled as the code is written, including the
lookup of the replacement under the regex-escaped key (see "Findings").

## Model

| member | source | states |
|---|---|---|
| Strings.IndexOf | svySearch/svySearch.js:93 | `indexOf` gives the first position where the pattern occurs, or -1 exactly when it occurs nowhere |
| Strings.LastIndexOfChar | svySearch/svySearch.js:96 | `lastIndexOf(c, from)` gives the last position at or before `from` holding `c`, or -1 if none does |
| Strings.Split | svySearch/svySearch.js:169 | `split` gives at least one piece; it gives more than one exactly when the separator occurs; the first piece is the text before the first separator |
| Strings.JoinSplit | svySearch/svySearch.js:998-999 | joining the pieces of a split with the separator gives back the original text |
| Strings.SplitPiecesFree | svySearch/svySearch.js:998-999 | no piece of a split contains the separator |
| Strings.Trim | svySearch/svySearch.js:115 | a trimmed token is empty or starts and ends with a non-space character |
| Strings.TrimSpec | svySearch/svySearch.js:115 | the trimmed token is the middle slice of the input, with only spaces (characters up to U+0020) cut off at either end |
| Strings.Upper | svySearch/svySearch.js:560 | upper-casing keeps the length and upper-cases each character |
| Strings.ReplaceAllAbsent | svySearch/svySearch.js:912-915 | replacing a pattern that occurs nowhere leaves the value unchanged |
| Strings.ReplaceAllSelf | svySearch/svySearch.js:912-915 | replacing a pattern by itself leaves the value unchanged |
| Strings.ReplaceAllFirst | svySearch/svySearch.js:914 | at the first occurrence of the pattern the replacement goes in, the text before it is kept and the rest is processed after the pattern |
| Strings.ReplaceAllSplit | svySearch/svySearch.js:914 | `utils.stringReplace` replaces every occurrence: it equals splitting at the pattern and joining the pieces with the replacement |
| Strings.CharAt | svySearch/svySearch.js:92-93 | `charAt` gives the character at an index inside the text, and the empty string (no character) exactly when the index is outside |
| Strings.Substring | svySearch/svySearch.js:95 | `substring` never gives more than the text |
| Strings.SubstringSpec | svySearch/svySearch.js:95 | `substring` is the slice for in-order ends inside the text, is symmetric in its ends, treats a negative start as 0, and its length is the distance between the clamped ends |
| Strings.UnescapeEscape | svySearch/svySearch.js:910 | backslash-escaping a set of characters that includes the backslash is undone by unescaping |
| Strings.EscapeLength | svySearch/svySearch.js:910 | escaping adds one character per special character, so it changes a text exactly when the text has a special character |
| Strings.RegexpEscape | svySearch/svySearch.js:1082-1084 | `regexpEscape` is undone by unescaping and adds one backslash per special character |
| Strings.RegexpEscapeInverse | svySearch/svySearch.js:1082-1084 | `regexpEscape` is undone by unescaping, and returns its input exactly when the input has none of the sixteen characters it escapes |
| Terms.ParseField | svySearch/svySearch.js:163-182 | a quoted term or a term without `:` is unchanged; otherwise field = text before the first `:` and value = text between the first and second `:`, possibly empty |
| Terms.ParseFieldPieces | svySearch/svySearch.js:169-173 | the value starts with `field:value`, and neither the field nor the value contains `:` |
| Terms.ParseModifiers | svySearch/svySearch.js:199-231 | field and quotedness are kept, and valueMax changes only for a between term |
| Terms.ParseModifiersOneFlag | svySearch/svySearch.js:199-231 | at most one modifier flag is set, and one is set exactly when the value starts with `-`, `+`, `>` or `<` or contains `...` |
| Terms.ParseModifiersPriority | svySearch/svySearch.js:201-223 | a leading `-`, `+`, `>` or `<` wins over `...`: no between flag is set and valueMax is kept |
| Terms.PrefixRoundTrip | svySearch/svySearch.js:201-223 | writing the flag back in front of the parsed value gives the original text, so exactly the consumed one or two characters are stripped |
| Terms.TwoCharOperators | svySearch/svySearch.js:207-222 | `>=` sets ge and `<=` sets le, stripping both characters; `>` or `<` not followed by `=` sets gt or lt and strips one |
| Terms.BetweenShape | svySearch/svySearch.js:224-229 | a value with `...` and no leading operator becomes between, with value = the first `...` piece and valueMax = the second |
| Terms.BetweenRoundTrip | svySearch/svySearch.js:224-229 | for a value with one `...`, `value...valueMax` gives back the original text |
| Terms.ParseModifiersBetween | svySearch/svySearch.js:224-229 | a between term's value is the text before the first `...`, and its valueMax is the text up to the next `...`; neither contains `...` |
| Terms.ParseModifiersRoundTrip | svySearch/svySearch.js:199-231 | for every value with at most one `...`, rendering the parsed modifiers gives back the original text |
| Terms.Exec | svySearch/svySearch.js:1066-1068 | a match ends after the position the search started from and inside the text, so the `exec` loop advances |
| Terms.ExecCaptures | svySearch/svySearch.js:1066-1068 | each match of the enclosed-string regex is an opening delimiter, a group without the closing delimiter or a line terminator, and the closing delimiter; the search resumes after it |
| Terms.ExecFirst | svySearch/svySearch.js:1066-1068 | in `a + open + g + close + b` with no opener in `a`, the first match captures exactly `g` |
| Terms.EnclosedFree | svySearch/svySearch.js:1057-1072 | no captured string contains the closing delimiter |
| Terms.NoOpenNoneEnclosed | svySearch/svySearch.js:1066-1071 | a text without the opening delimiter has no enclosed strings |
| Terms.ParseEnclosedStrings | svySearch/svySearch.js:1057-1072 | the `exec` loop collects exactly the successive matches, with both delimiters defaulting to `"` |
| Terms.QuotedPass | svySearch/svySearch.js:72-110 | each quoted phrase gives one quoted term with no modifiers and no valueMax, in order of occurrence |
| Terms.QuotedStep | svySearch/svySearch.js:91-107 | a quoted phrase gives a fresh quoted term of that value; it gets a field exactly when the character two before the first occurrence of the phrase is `:` |
| Terms.QuotedFieldFirst | svySearch/svySearch.js:91-97 | `country:"united states"` at the start of the text, with a field without spaces, gives the field `country` |
| Terms.QuotedFieldAfterWord | svySearch/svySearch.js:91-97 | `name country:"united states"` gives the field ` country`, with the space before it, because `lastIndexOf(' ')` finds that space |
| Terms.QuotedNoField | svySearch/svySearch.js:91-100 | a phrase whose quote is not preceded by `:` gets no field |
| Terms.RemoveQuoted | svySearch/svySearch.js:72-110 | the quoted-phrase loop produces the quoted terms and the remaining text that the specification pass describes |
| Terms.UnquotedTermsTokens | svySearch/svySearch.js:113-135 | every unquoted term is a trimmed, non-empty, unquoted word with no field, modifiers or valueMax |
| Terms.CollectUnquoted | svySearch/svySearch.js:113-135 | the loop over the single-space split of the remaining text keeps exactly the trimmed, non-empty tokens, in order |
| Terms.RawTermsOrder | svySearch/svySearch.js:54-135 | every quoted phrase comes first, in order of occurrence, before any unquoted token |
| Terms.ParseTermsQuotedFirst | svySearch/svySearch.js:137-142 | after field and modifier parsing, a term is quoted exactly when it is among the first (quoted) terms, and quoted terms keep the field found before their phrase |
| Terms.ParseEach | svySearch/svySearch.js:137-142 | the field/modifier loop applies `parseField` then `parseModifiers` to each term, in place |
| Terms.Parse | svySearch/svySearch.js:54-144 | `parse(searchText)` gives exactly the specified term list |
| Schema.QBColumn | svySearch/svySearch.js:996-1009 | the joins and the column name joined by `.` give back the dataprovider id, and none of them contains `.` |
| Schema.ParseQBColumn | svySearch/svySearch.js:996-1010 | the join-walking loop resolves the column or throws for an unknown relation |
| Schema.FindColumn | svySearch/svySearch.js:1037 | the column found has the name, and none is found only when no column has it |
| Schema.ColumnInfoOfPath | svySearch/svySearch.js:1024-1043 | a found column belongs to a known table and has the last path segment as its name; the lookup throws exactly when the second-to-last segment is an unknown relation |
| Schema.ColumnInfoLastRelationOnly | svySearch/svySearch.js:1028-1031 | only the last relation of a path decides the table, so leading segments are irrelevant |
| Schema.ColumnInfoOwnTable | svySearch/svySearch.js:1024-1042 | a plain column name never throws, and it finds a column exactly when the data source's table has one of that name |
| Schema.QBColumnResolvesInfo | svySearch/svySearch.js:1024-1032 | a dataprovider id whose joins resolve also resolves its column info without throwing |
| Schema.ColumnTypeOf | svySearch/svySearch.js:876-879 | the column type is available exactly when the column info is found |
| Schema.XdbCheckFalse | svySearch/svySearch.js:1109-1121 | the check says no cross-database relation exactly when every relation on the path joins two tables on the same server |
| Schema.XdbCheckTrue | svySearch/svySearch.js:1112-1119 | a positive answer names a relation on the path whose servers differ |
| Schema.HasXdbRelation | svySearch/svySearch.js:1109-1121 | the segment-popping loop computes the specified check |
| Schema.NoRelationNoXdb | svySearch/svySearch.js:1110-1112 | a plain column name has no relation segments and never counts as cross-database |
| Providers.ModeOf | svySearch/svySearch.js:11-15 | a found mode has exactly that name, and nothing is found only for a name of no mode |
| Providers.ModeRoundTrip | svySearch/svySearch.js:11-15 | every mode is found again by its name |
| Providers.FindMode | svySearch/svySearch.js:964-970 | the loop over `STRING_MATCHING` finds the mode of that name, if any |
| Providers.Lookup | svySearch/svySearch.js:791-794 | a found substitution is stored under that key, and nothing is found only when no entry has the key |
| Providers.LookupDistinct | svySearch/svySearch.js:791-794 | with distinct keys, every stored entry is found by its key |
| Providers.Put | svySearch/svySearch.js:764-767 | adding a substitution replaces the value in place or appends a new key, and keeps the existing keys in their order |
| Providers.PutLookup | svySearch/svySearch.js:764-767 | after adding, the key gives the new value and every other key its old one |
| Providers.PutDistinct | svySearch/svySearch.js:764-767 | adding keeps the keys distinct |
| Providers.NonNullKeysSpec | svySearch/svySearch.js:774-783 | a key is listed exactly when it is stored with a non-null value |
| Providers.SortByLength | svySearch/svySearch.js:901-905 | the sorted keys are a permutation of the keys, longest first |
| Providers.InsertByLength | svySearch/svySearch.js:901-905 | inserting one key into a longest-first list adds exactly that key and keeps the order |
| Providers.Substitute | svySearch/svySearch.js:898-919 | the intended substitution: without non-null keys the value is unchanged |
| Providers.SubstituteSingle | svySearch/svySearch.js:898-919 | the intended substitution maps a lone key to its value |
| Providers.SubstituteAsWritten | svySearch/svySearch.js:898-919 | the substitution as written: without non-null keys the value is unchanged |
| Providers.AsWrittenAbsent | svySearch/svySearch.js:907-917 | as written, a value unchanged by the substitutions: case-sensitively, one in which no escaped key occurs (even if a key with a special character does); case-insensitively, one in which no key occurs, case-folded |
| Providers.AsWrittenSelf | svySearch/svySearch.js:907-917 | as written, a case-sensitive provider whose escaped keys are each stored with themselves as value leaves the value unchanged |
| Providers.SubstituteWithAbsent | svySearch/svySearch.js:907-917 | for the corrected substitution (see Findings): keys that do not occur leave the value unchanged |
| Providers.SubstituteWithSelf | svySearch/svySearch.js:907-917 | for the corrected substitution (see Findings): keys mapped to themselves leave the value unchanged |
| Providers.AsWrittenAgrees | svySearch/svySearch.js:907-917 | for keys without regex metacharacters, the code as written and the corrected substitution agree |
| Providers.EscapedKeyCounterexample | svySearch/svySearch.js:910-915 | the key `a.b` mapped to `X`: the corrected substitution turns `a.b` into `X`; as written it gives `a.b` (case-sensitive) or `undefined` (case-insensitive) |
| Providers.SearchProvider.constructor | svySearch/svySearch.js:722-753 | a new provider has no alias, is implied, is case-insensitive, matches by contains and has no substitutions |
| Providers.SearchProvider.AddSubstitution | svySearch/svySearch.js:764-767 | the substitutions become the specified `Put`, and nothing else changes |
| Providers.SearchProvider.GetSubstitutionsKeys | svySearch/svySearch.js:774-783 | the loop returns exactly the keys with non-null values, in insertion order |
| Providers.SearchProvider.GetSubstitutionValue | svySearch/svySearch.js:791-794 | the value stored under the key, if any |
| Providers.SearchProvider.SetAlias | svySearch/svySearch.js:813-816 | only the alias changes |
| Providers.SearchProvider.SetImpliedSearch | svySearch/svySearch.js:837-840 | only the implied flag changes |
| Providers.SearchProvider.SetCaseSensitive | svySearch/svySearch.js:857-860 | only the case-sensitivity flag changes |
| Providers.SearchProvider.SetStringMatching | svySearch/svySearch.js:962-974 | succeeds exactly for the name of a mode and then sets it; an empty or missing argument throws the "cannot be null/empty" message; a present name of no mode throws the "unknown" message; a throw leaves the mode unchanged; nothing else ever changes |
| Providers.SearchProvider.ApplySubstitutions | svySearch/svySearch.js:898-919 | the loop computes the substitution as written: for each non-null key, longest first, the replacement is the value stored under the regex-escaped key; the escaped key is replaced literally when case-sensitive and the raw key case-folded otherwise |
| Conditions.EndOfDay | svySearch/svySearch.js:566-567 | the end of day is the last millisecond of the same local day, at most one day later |
| Conditions.EndOfDayIdempotent | svySearch/svySearch.js:566-567 | the end of an end of day is itself |
| Conditions.DayEnd | svySearch/svySearch.js:563-568 | a date gets exactly the end of its local day, within one day after it; any other value throws, like `getTime` on undefined |
| Conditions.Cast | svySearch/svySearch.js:928-952 | TEXT and unsupported columns pass the value through (undefined stays undefined); DATETIME gives the date the host's date parser gives for the value and format, numeric columns the number the host's number parser gives, and no value exactly when that parser fails; undefined never casts to a number or a date |
| Conditions.ShapePattern | svySearch/svySearch.js:548-554 | each mode's pattern has the text with `%` in front unless starts-with and `%` behind unless ends-with, also after upper-casing |
| Conditions.TextMatch | svySearch/svySearch.js:541-561 | a TEXT condition is LIKE (or NOT LIKE when excluding) of the mode's pattern; it is on the upper-cased column with the upper-cased text exactly when the provider is case-insensitive |
| Conditions.UpperValue | svySearch/svySearch.js:579 | only a string can be upper-cased, keeping its length; undefined throws |
| Conditions.Build | svySearch/svySearch.js:535-658 | every condition built is a single comparison on the provider's column |
| Conditions.BuildExact | svySearch/svySearch.js:574-584 | `+` gives equality: on a case-insensitive TEXT column with the upper-cased column and value (undefined throws), otherwise with the value as is |
| Conditions.BuildRange | svySearch/svySearch.js:587-628 | `>` and `<=` compare with the end of the value's day on a DATETIME column and with the value otherwise; `>=` and `<` compare with the value on every column; between runs from the value to the end of the maximum's day on a DATETIME column and to the maximum otherwise; a non-date on a DATETIME column throws |
| Conditions.ParseCondition | svySearch/svySearch.js:504-659 | a condition needs a resolvable column and type, and is on that column; once both resolve, no condition arises exactly when the substituted value, or a present valueMax, fails to cast, which happens only on a numeric or date column |
| Conditions.ExcludeIsNegation | svySearch/svySearch.js:539-571 | an excluded term gives exactly the negation (NOT LIKE, NOT BETWEEN, not equal) of the same term without modifiers, and fails or throws exactly when that does |
| Conditions.BuildExclude | svySearch/svySearch.js:539-571 | the exclude branch is the negation of the no-modifier branch for every column type |
| Conditions.ModifierPriority | svySearch/svySearch.js:539-628 | only the first set modifier, in the order exclude, exact, gt, ge, lt, le, between, decides the condition |
| Conditions.BuildDominant | svySearch/svySearch.js:535-628 | the modifier dispatch depends only on the dominant modifier |
| Conditions.ParsedTermsOneFlag | svySearch/svySearch.js:199-231 | for terms with at most one flag (every term `parse` gives) the dominant modifier is the term's own |
| Conditions.EmptyValueNoCondition | svySearch/svySearch.js:514-523 | an empty value on a numeric or date column gives no condition |
| Conditions.TextLike | svySearch/svySearch.js:632-648 | an unmodified term on a TEXT column gives LIKE with the mode's pattern around the value as `applySubstitutions` leaves it (or `undefined` when empty), upper-cased on both sides exactly when case-insensitive |
| Conditions.DateWholeDay | svySearch/svySearch.js:651-656 | an unmodified date term gives BETWEEN the date and the last millisecond of its day |
| Conditions.ExactEmptyTextThrows | svySearch/svySearch.js:574-579 | `+` with an empty value on a case-insensitive TEXT column throws (undefined has no `toUpperCase`) |
| Conditions.DateBetweenWithoutMaxThrows | svySearch/svySearch.js:619-625 | a date between without a maximum throws rather than building a range |
| Search.FindProvider | svySearch/svySearch.js:362-372 | the first provider whose id or alias is the name, or none when no provider has it |
| Search.FindId | svySearch/svySearch.js:313-320 | the first provider with the dataprovider id, or none when no provider has it |
| Search.Configure | svySearch/svySearch.js:335-343 | a truthy alias replaces the alias, and the implied and case flags are replaced only by `Boolean` objects; the id, the substitutions and the mode are kept |
| Search.AddProvider | svySearch/svySearch.js:308-346 | afterwards the id is registered; an existing id is reconfigured in place and nothing else changes; a new id is appended, configured, exactly when the cross-database check says false |
| Search.AddProviderKeeps | svySearch/svySearch.js:308-346 | a successful registration keeps ids distinct, keeps existing ids in place, grows the list by at most one and contains the id |
| Search.AddProviderNew | svySearch/svySearch.js:322-343 | a new id is appended with the default settings and the options only when the cross-database check says false; otherwise it throws the cross-database error or the lookup's error |
| Search.UpdateKeepsIds | svySearch/svySearch.js:313-320 | updating an existing provider in place keeps the ids distinct and in place |
| Search.AppendKeepsIds | svySearch/svySearch.js:330-331 | appending a provider with a new id keeps the ids distinct |
| Search.AddPlainColumn | svySearch/svySearch.js:702-711 | registering a plain column name always succeeds |
| Search.AddPlainNew | svySearch/svySearch.js:322-331 | a new plain column is appended as a default provider |
| Search.AddColumnsWellFormed | svySearch/svySearch.js:702-713 | registering distinct plain column names gives one default provider per column, in column order |
| Search.AddColumnsThrows | svySearch/svySearch.js:709-711 | the first registration that throws ends the loop with that error |
| Search.ImpliedGroup | svySearch/svySearch.js:473-489 | an implied group has at most one condition per provider, each on an implied provider's column |
| Search.ImpliedGroupOnlyImplied | svySearch/svySearch.js:477-480 | non-implied providers contribute nothing to the group |
| Search.ImpliedGroupThrows | svySearch/svySearch.js:474-489 | the first provider whose condition throws ends the group with that error |
| Search.ImpliedGroupCollects | svySearch/svySearch.js:474-487 | the group is, in registration order, exactly the conditions the implied providers give, unless one of them throws |
| Search.ImpliedOnlyMembers | svySearch/svySearch.js:477-480 | the providers kept for implied search are exactly the implied ones |
| Search.CollectedHas | svySearch/svySearch.js:482-487 | once the group is built no provider threw, and every condition a provider gives is in it |
| Search.CollectedFrom | svySearch/svySearch.js:482-487 | every condition of the group was given by a provider |
| Search.TermConditions | svySearch/svySearch.js:441-490 | a term contributes at most one conjunct; an unfielded term contributes its implied group, as an AND when excluding and an OR otherwise, and throws exactly when the group does; a fielded term with a known provider and a non-empty value contributes exactly that provider's condition (nothing when the value does not cast) or throws its error, and anything else contributes nothing |
| Search.IgnoredFieldedTerms | svySearch/svySearch.js:444-458 | a fielded term naming no provider, or with an empty value, contributes nothing |
| Search.ThenAssoc | svySearch/svySearch.js:440-491 | sequencing conjunct lists is associative |
| Search.ChainAppend | svySearch/svySearch.js:440-491 | the conjuncts of two runs of terms are the first run's followed by the second's |
| Search.ChainThrows | svySearch/svySearch.js:440-491 | once a step throws, later steps do not matter |
| Search.ChainFirstThrow | svySearch/svySearch.js:440-491 | a run of steps throws exactly when some step throws, and then with the error of the first step that throws |
| Search.QueryFirstThrow | svySearch/svySearch.js:440-491 | the conjunct list fails exactly when some term throws, and then with the first throwing term's error |
| Search.QueryConditionsCount | svySearch/svySearch.js:440-491 | there is at least one conjunct per unfielded term and at most one per term |
| Search.QueryConditionsThrows | svySearch/svySearch.js:440-491 | the first term that throws decides the whole query's error |
| Search.Query | svySearch/svySearch.js:431-494 | the query is an AND with at least one conjunct per unfielded term and at most one per term, and it is Ok exactly when the conjunct list is (see Search.QueryFirstThrow for when that fails) |
| Search.ArrayCopy | svySearch/svySearch.js:1095-1099 | the copy loop gives an equal array |
| Search.ConfigureProvider | svySearch/svySearch.js:335-343 | a non-empty alias replaces the alias, and the implied and case flags are set only from `Boolean` objects, as the `instanceof Boolean` tests demand; nothing else changes |
| Search.ConfigureIgnoresPrimitives | svySearch/svySearch.js:338-343 | primitive `true`/`false` flags fail `instanceof Boolean` and are ignored like omitted ones; re-registering never changes the id, the mode or the substitutions |
| Search.SimpleSearch.constructor | svySearch/svySearch.js:242-260 | a new search has no providers, an empty search text and the date format `yyyy/MM/dd` |
| Search.SimpleSearch.SetDateFormat | svySearch/svySearch.js:280-283 | only the date format changes |
| Search.SimpleSearch.SetSearchText | svySearch/svySearch.js:412-415 | only the search text changes |
| Search.SimpleSearch.GetAllSearchProviders | svySearch/svySearch.js:352-354 | the registered providers, in registration order |
| Search.SimpleSearch.GetSearchProvider | svySearch/svySearch.js:362-372 | the first provider whose id or alias is the name, or null exactly when there is none |
| Search.SimpleSearch.IndexOfId | svySearch/svySearch.js:313-320 | the search loop finds the first provider with the id, or runs to the end |
| Search.SimpleSearch.UpdateExisting | svySearch/svySearch.js:313-320 | re-adding an existing id returns that provider, reconfigured in place, without growing the list |
| Search.SimpleSearch.Register | svySearch/svySearch.js:322-332 | a new id is checked for cross-database relations first; on success one default provider is appended, otherwise the error is thrown and the list is unchanged |
| Search.SimpleSearch.AddNew | svySearch/svySearch.js:322-343 | a new provider is appended and configured, or the registry is unchanged when the check throws |
| Search.SimpleSearch.UpdateProvider | svySearch/svySearch.js:334-343 | only the given provider's state changes, to its configured state |
| Search.SimpleSearch.AddSearchProvider | svySearch/svySearch.js:308-346 | the registry becomes the specified registration: an existing id is reconfigured in place, a new one appended; the result is the provider with that id; an error leaves the registry unchanged |
| Search.SimpleSearch.AddAllColumns | svySearch/svySearch.js:707-711 | the column loop registers the columns in table order into the cleared registry and stops with the first error |
| Search.SimpleSearch.AddColumn | svySearch/svySearch.js:709-711 | one step of the column loop extends the registered prefix or ends with the loop's error |
| Search.SimpleSearch.SetSearchAllColumns | svySearch/svySearch.js:702-713 | the registry is cleared, then it becomes one provider per column of the data source; a missing table throws after clearing |
| Search.SimpleSearch.ImpliedConditions | svySearch/svySearch.js:473-490 | the provider loop gives the specified implied group |
| Search.SimpleSearch.TermStep | svySearch/svySearch.js:441-490 | one iteration of the term loop gives the specified conjuncts of the term |
| Search.SimpleSearch.Conjuncts | svySearch/svySearch.js:440-491 | the term loop gives the specified conjunct list |
| Search.SimpleSearch.GetQuery | svySearch/svySearch.js:431-494 | the query is the AND of the conjuncts of the parsed search text, with the substitutions as written, or the first error thrown |

## Left out

- Query execution and host objects are not modelled: `getDataSet`,
  `getFoundSet`, `loadRecords`, and `createSimpleSearch`'s unwrapping of a
  record or foundset into a data source. The query builder is represented by
  the `Condition` datatype and `ColumnRef`. The primary-key result column and
  `q.where.add` are not modelled.
- The database schema is a value: tables with their columns and types, and
  relations with their two servers. It stands in for `databaseManager`,
  `solutionModel` and `JSColumn`. `getJSColumn`/`getJSTable` are represented
  by `ColumnInfoOf` and `ColumnTypeOf`.
- Conditions.Cast: number parsing (`new Number`/`isNaN`) and `utils.parseDate`
  are partial functions supplied by the host (`Host`). Their floating-point
  and date-format semantics are not modelled.
- Conditions.EndOfDay: `setHours(23, 59, 59, 999)` uses one fixed time-zone
  offset. Daylight-saving changes within a day are not modelled.
- Providers.SearchProvider.ApplySubstitutions:
  - `$` patterns in replacement values (`$&`, `$1`) are treated as literal
    text;
  - a substitution with an empty key replaces nothing, which differs from a
    JavaScript regex on the empty string.
- Providers.Substitute: the corrected substitution is proved about, but the
  query keeps the substitution as written, so `Conditions.ParseCondition`
  and `Search.Query` inherit the escaped-key lookup.
- Strings.Upper: case folding is ASCII-only. The behaviour of `toUpperCase`
  and of the `i` regex flag outside ASCII is not modelled.
- Strings.ReplaceAll: `utils.stringReplace` is modelled as replace-all,
  left to right, without overlaps.
- Strings.Trim: `utils.stringTrim` is modelled as removing every character
  up to U+0020 from both ends.
- Providers.SortByLength: the sort is modelled as stable, keeping insertion
  order among keys of equal length. The source's comparator leaves that order
  to the engine.
- Providers.SearchProvider.GetSubstitutionsKeys: the keys are enumerated in
  insertion order. Integer-like keys, which JavaScript enumerates first,
  are not modelled.
- Terms: terms are values. `parseField` and `parseModifiers` return the
  updated term instead of mutating a shared object. No term is aliased, so
  nothing is lost.
- Terms.ParseEnclosedStrings: the delimiters are single characters. A
  multi-character delimiter is not modelled. Escaping the delimiter with
  `regexpEscape` does not change what a one-character pattern matches.
- Conditions.ParseCondition:
  - it is a function of a snapshot of the provider's state (`ProviderState`);
  - the `valueMax == NaN` test is always false and only the null test
    matters, so only that test is modelled;
  - the alias name used in log messages is not modelled.
- Schema.ParseQBColumn: a join resolves exactly when the relation name is
  known to the schema. Query-builder join objects are not modelled.
- Logging (`log.warn`, `log.debug`), the commented-out code at
  svySearch/svySearch.js:374-404, and the plain getters
  (`getDataProviderID`, `getAlias`, `isImpliedSearch`, `isCaseSensitive`,
  `getStringMatching`, `getSearchText`, `getDateFormat`,
  `getDataSource`) are not modelled separately. The getters read the fields
  of the classes.
- The example forms of the repository (UI handlers and sample data) are not
  part of this model.

## Findings

| source | as written | input that shows it | evidently intended | confidence | as-written member | corrected member |
|---|---|---|---|---|---|---|
| svySearch/svySearch.js:910-915 | the key is regex-escaped, the replacement is looked up under the escaped key, and the case-sensitive branch replaces the escaped text literally | `addSubstitution("a.b", "X")`, then `applySubstitutions("a.b")` | the value becomes `X` | not executed | Providers.EscapedKeyCounterexample (over Providers.SubstituteAsWritten, which Providers.SearchProvider.ApplySubstitutions computes) | Providers.Substitute (Providers.SubstituteSingle, Providers.AsWrittenAgrees) |
