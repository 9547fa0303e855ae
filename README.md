# Property engine of the user-data anonymizer

The anonymizer reads user records out of a site's database, described by a
configuration. Each configured *property* is either:

- **stored**: a `table.column@connection` source read by the SQL query;
- **generated**: a `^Provider.method(args)` source whose value a provider method
  computes, with `@name` arguments standing for other properties of the same user.

The `PropertyManager` turns the configuration into a list of properties whose first
element is the primary key. It builds the SQL text of `all()`, `filter(...)` and
`get(pk)`, and turns each returned row into a user record with `info`:

- the primary key becomes a digest of the manager token and the raw key;
- generated properties are computed in declaration order;
- properties one may not filter by are dropped.

`filter` routes each filter to one of three places:

- the WHERE clause, for a plain stored property;
- the HAVING clause, for an aggregate;
- a post-filter, `filter_by_generated`, which checks generated properties on the
  finished records with `Property.matches`.

`UserManager.combine` merges a new list of records into an old one. It keeps the
old value of a generated property whose dependencies did not change.

The model covers both engines:

- the current engine, `anonymizer/datasource/managers.py`;
- the older engine, `anonymizer/datasource/manager.py`, modelled in module `Legacy`
  and compared with the current one by lemmas.

Modules and what they hold:

| module | models |
|---|---|
| `Values` | database values (`None`, integers, strings), Python 2's ordering of them, `str()`, `int()` |
| `Strings` | `split`, `join`, `find`, `replace`, slicing and `lower` on strings |
| `Csv` | the `csv.reader` line parser used for a generated property's arguments (CPython 2.7's reader state machine, with its NUL, line-break and field-size errors), and a quoting writer to state its round trip |
| `Errors` | the exceptions the core raises, as values |
| `Properties` | `Property.__init__`, `is_generated`, `full` |
| `Managers` | `PropertyManager.__init__`, `get_primary_key`, `get_property_by_name`, `list_filters` |
| `Dependencies` | `get_dependencies` |
| `Evaluator` | `info` |
| `Matcher` | `Property.matches` |
| `Queries` | `query`, `all`, `get` |
| `Filtering` | `filter`, `filter_by_generated` |
| `Merge` | `UserManager.combine` |
| `Legacy` | the older engine's `Property`, `info`, `query`, `all`, `filter`, `get` |

Each loop of the source is a `method` with a `while` loop, with one exception: the
argument loop of `get_dependencies` (managers.py:281-287) is modelled only by the
recursive function `Dependencies.DepsOfRefs`. Each method is proved equal to a
specification function, and the properties are proved about that function. An exception is modelled as an `Err` result, and the first one raised
decides the result. The model's choices:

- **Providers**: looking up a provider class and method by name (`locate`, `getattr`)
  is a `Registry` value. It holds the attribute names of each class, the `__type`
  helpers' answers, and the results of provider calls.
- **Rows**: the rows a database returns are an input.
- **Digest and token**: `hashlib.sha1(...).hexdigest()` is a parameter `hash`, and
  the token from `uuid.uuid4()` is a parameter `freshToken`.

## Model

| member | source | states |
|---|---|---|
| `Values.LessIsStrictTotalOrder` | anonymizer/datasource/managers.py:193-200 | The Python 2 ordering `matches` compares with (None below integers below strings) is irreflexive, total and transitive. |
| `Values.ParseShownInt` | anonymizer/datasource/managers.py:180-181 | `int()` reads back what `str()` writes, for every integer, negative ones included. |
| `Values.SignedDecimal` | anonymizer/datasource/managers.py:180-181 | A sign, then any run of whitespace, then digits reads as the signed number of those digits: `int("- 5")` is `-5`, as the digit scan after the sign skips whitespace again. |
| `Csv.ParseEncoded` | anonymizer/datasource/managers.py:109-112 | Reading a line that a fully quoting csv writer made from a list of fields without NUL and within the field size limit gives back exactly those fields, commas, quotes and line breaks inside them included. |
| `Csv.ParseUnquoted` | anonymizer/datasource/managers.py:111-112 | On a line without quotes, NULs or line breaks, the csv reader gives no field for the empty line, the "field larger than field limit" error when a comma-separated piece is longer than 131072 characters, and otherwise the comma-separated pieces. |
| `Csv.ParsedHasNoNul` | anonymizer/datasource/managers.py:111-112 | A line the reader accepts holds no NUL character. |
| `Csv.NulAfterReadable` | anonymizer/datasource/managers.py:111-112 | A NUL right after text the reader accepts raises "line contains NULL byte". |
| `Csv.TrailingLineEnd` | anonymizer/datasource/managers.py:111-112 | A line break at the end of a quote-free line changes neither the fields nor the error. |
| `Csv.LineEndThenText` | anonymizer/datasource/managers.py:111-112 | Any character other than NUL or a line break after a line break outside quotes raises "new-line character seen in unquoted field". |
| `Properties.Parse` | anonymizer/datasource/managers.py:59-122 | A parsed property keeps its source, and it is generated exactly when the source starts with `^`. |
| `Properties.GeneratedOrigin` | anonymizer/datasource/managers.py:95-122 | The provider part of a successful generated source is always a provider origin (class, method, arguments). |
| `Properties.ParseStored` | anonymizer/datasource/managers.py:62-93 | `t.c@conn` gives table `t`, column `c` and connection `conn`, with no foreign key. The name is `c`, or `c__agg` with an aggregate; the label is the name; the type is `VARCHAR`; the flags are kept. |
| `Properties.ParseWithoutColumn` | anonymizer/datasource/managers.py:63-64 | A source with no `.` before its `@` fails with the malformed-source error (Python's IndexError). |
| `Properties.ParseWithoutConnection` | anonymizer/datasource/managers.py:85-87 | A stored source without `@` fails with the malformed-source error. |
| `Properties.GeneratedOriginOf` | anonymizer/datasource/managers.py:95-112 | `^P.m(text)`, where `text` is the quoted writing of `args`, names class `P` in the provider package and method `m`, and gives exactly `args`, for arguments without NUL and within the field size limit. |
| `Properties.ParseGenerated` | anonymizer/datasource/managers.py:59-112 | For arguments without NUL and within the field size limit, a complete generated property has that provider origin, the given name and type, and the given label or else its name. |
| `Managers.ParseAll` | anonymizer/datasource/managers.py:219-243 | A successful parse has one property per configuration entry, in order, each the constructor's result for that entry. |
| `Managers.ParseAllFirstError` | anonymizer/datasource/managers.py:219-243 | A failed construction fails with the error of the first entry that does not parse; every entry before it parses. |
| `Managers.ManagerOf` | anonymizer/datasource/managers.py:211-248 | A built manager has the primary key first, then one property per entry. Its token is the given one or else the fresh one. Construction fails exactly when the primary key or some entry fails to parse. |
| `Managers.ParseEntries` | anonymizer/datasource/managers.py:219-243 | The constructor's loop computes `ParseAll`. |
| `Managers.Build` | anonymizer/datasource/managers.py:211-248 | The constructor computes `ManagerOf`. |
| `Managers.IndexOfName` | anonymizer/datasource/managers.py:257-262 | The index is that of the first property with the name, or -1 exactly when no property has it. |
| `Managers.FindByName` | anonymizer/datasource/managers.py:257-262 | The property found has the name asked for, and nothing is found exactly when no property has it. |
| `Managers.GetPropertyByName` | anonymizer/datasource/managers.py:257-262 | The search loop's result is `FindByName`'s. |
| `Managers.FindPrimaryKey` | anonymizer/datasource/managers.py:250-255 | The property found is marked as primary key, nothing is found exactly when none is marked, and a marked first property is the one found. |
| `Managers.GetPrimaryKey` | anonymizer/datasource/managers.py:250-255 | The search loop's result is `FindPrimaryKey`'s. |
| `Managers.BuiltPrimaryKey` | anonymizer/datasource/managers.py:214-217 | In a built manager `get_primary_key` finds the user key, which is the first property, and no other property is marked. |
| `Managers.ParseNeverPk` | anonymizer/datasource/managers.py:240-241 | A configured property is never the primary key. |
| `Managers.ParseKeepsFlags` | anonymizer/datasource/managers.py:63-67 | A parsed property keeps the aggregate, exposure flag and key flag it was given. |
| `Managers.FilterPositions` | anonymizer/datasource/managers.py:265-267 | The positions of the properties one may filter by: every such position exactly once, in increasing order. |
| `Managers.Filters` | anonymizer/datasource/managers.py:264-275 | There is one filter per property one may filter by, and the k-th filter is the name, label and type of the k-th such property in property order. |
| `Managers.ListFilters` | anonymizer/datasource/managers.py:264-275 | The loop of `list_filters` computes `Filters`. |
| `Managers.FiltersListed` | anonymizer/datasource/managers.py:264-275 | A (name, label, type) entry is listed exactly when some property one may filter by has that name, label and type. |
| `Dependencies.RefsAreAtArguments` | anonymizer/datasource/managers.py:281-283 | A name is referred to by a property exactly when `@name` is one of its arguments. |
| `Dependencies.StoredHasNoDependencies` | anonymizer/datasource/managers.py:289-290 | A stored property has no dependencies. |
| `Dependencies.DependenciesAreReachable` | anonymizer/datasource/managers.py:277-288 | The dependencies found are exactly the properties reachable through one or more `@` references, with empty arguments skipped as in the corrected scan (see Findings). |
| `Dependencies.DependenciesReachable` | anonymizer/datasource/managers.py:281-286 | Every dependency found is reachable from the property. |
| `Dependencies.ReachableIncluded` | anonymizer/datasource/managers.py:281-286 | Every property reachable from the property is among its dependencies. |
| `Dependencies.UnresolvedReferenceFails` | anonymizer/datasource/managers.py:283-286 | A reference to a name no property has makes `get_dependencies` fail. |
| `Dependencies.DeclarationOrderAcyclic` | anonymizer/datasource/managers.py:277-288 | References that only point to properties declared earlier satisfy the ranking under which the recursion terminates. |
| `Dependencies.RefsAsWrittenAgrees` | anonymizer/datasource/managers.py:281-282 | When no argument is empty, the loop as written finds exactly the references `Refs` does. |
| `Dependencies.EmptyArgumentBreaksDependencies` | anonymizer/datasource/managers.py:281-282 | The arguments `a,` read as `["a", ""]`, and the loop as written fails on the empty one, where the guarded scan finds no reference. |
| `Evaluator.Arguments` | anonymizer/datasource/managers.py:310-321 | The substituted argument list has as many entries as the arguments, and its only failure is a missing referenced property; its entries are stated by `Evaluator.ArgumentsValues`. |
| `Evaluator.ArgumentsValues` | anonymizer/datasource/managers.py:314-321 | When substitution succeeds, each `@name` argument becomes the record's value of `name` and every other argument stays its own text, position by position. |
| `Evaluator.ArgumentsSucceed` | anonymizer/datasource/managers.py:314-321 | Substitution succeeds exactly when every `@` reference names a key already in the record. |
| `Evaluator.SubstituteArguments` | anonymizer/datasource/managers.py:310-321 | The in-place substitution loop computes `Arguments`. |
| `Evaluator.GeneratedPass` | anonymizer/datasource/managers.py:307-324 | The generated pass can only fail on a missing referenced property; the values it computes are stated by `Evaluator.GeneratedPassValue`. |
| `Evaluator.GeneratedPassValue` | anonymizer/datasource/managers.py:314-324 | Under unique names, when the pass succeeds, each generated property holds the provider method's result on its arguments substituted in the record that the properties before it produced. |
| `Evaluator.GeneratedPassSucceeds` | anonymizer/datasource/managers.py:307-324 | The generated pass succeeds exactly when each reference of each generated property names a key already known or a generated property declared before it. |
| `Evaluator.GeneratedPassInOrder` | anonymizer/datasource/managers.py:307-324 | The generated pass succeeds exactly when each property in turn has every reference among the initial keys and the generated properties declared before it. |
| `Evaluator.GeneratedPassKeys` | anonymizer/datasource/managers.py:307-324 | A successful generated pass adds exactly the generated properties' names to the record. |
| `Evaluator.GeneratedPassKeepsStored` | anonymizer/datasource/managers.py:307-324 | A successful generated pass leaves the value of every key that is not a generated name unchanged. |
| `Evaluator.StoredPassKeys` | anonymizer/datasource/managers.py:296-305 | The stored pass fills exactly the stored properties' names. |
| `Evaluator.StoredNamesAre` | anonymizer/datasource/managers.py:297-305 | A name is a stored name exactly when some stored property has it. |
| `Evaluator.GeneratedNamesAre` | anonymizer/datasource/managers.py:308-324 | A name is a generated name exactly when some generated property has it. |
| `Evaluator.StoredPassValue` | anonymizer/datasource/managers.py:296-305 | Under unique names, a stored property's entry is made from the row's column at its index among the stored properties: the digest for the key, the raw column otherwise. |
| `Evaluator.PrimaryKeyHashed` | anonymizer/datasource/managers.py:299-301 | Under unique names, with the stored primary key first, the record holds the primary key as the digest of the token, `###` and the row's first column. |
| `Evaluator.RecordKeys` | anonymizer/datasource/managers.py:326-333 | A successful `info` reports a name exactly when the first property with that name may be filtered by. |
| `Evaluator.RecordSucceeds` | anonymizer/datasource/managers.py:292-333 | `info` succeeds exactly when every reference can be computed in declaration order from the stored names; its only failure is a missing referenced property. |
| `Evaluator.Info` | anonymizer/datasource/managers.py:292-333 | `info`'s three loops compute `RecordOf`. |
| `Evaluator.FillStored` | anonymizer/datasource/managers.py:296-305 | The column loop, with its running index, computes the stored pass. |
| `Evaluator.FillGenerated` | anonymizer/datasource/managers.py:307-324 | The generator loop computes the generated pass. |
| `Evaluator.ExposedOnly` | anonymizer/datasource/managers.py:326-333 | The exposure loop keeps exactly the exposed entries, whatever order it visits the keys in. |
| `Matcher.OperatorRun` | anonymizer/datasource/managers.py:143-148 | The operator is the longest run of operator characters at the start of what follows the name. |
| `Matcher.SplitOperator` | anonymizer/datasource/managers.py:143-150 | Operator and operand together are exactly what follows the name, and the operand does not start with an operator character. |
| `Matcher.Lex` | anonymizer/datasource/managers.py:139-150 | The character loop gives the name before the first of `=!<>`, then the operator and operand `SplitOperator` describes. |
| `Matcher.LexFilter` | anonymizer/datasource/managers.py:139-150 | A filter written as name, operator and operand is cut back into exactly those three pieces. |
| `Matcher.StripOnePair` | anonymizer/datasource/managers.py:152-158 | Exactly one pair of matching quotes is removed, and an unquoted text is left alone. |
| `Matcher.BucketIndex` | anonymizer/datasource/managers.py:163-171 | A text is matched to the first bucket having it as an alias, and to none exactly when no bucket has it. |
| `Matcher.AliasList` | anonymizer/datasource/managers.py:164-166 | The alias loop gives the bucket's `=`-separated names; a bucket without `=` is its own second alias. |
| `Matcher.MapToBuckets` | anonymizer/datasource/managers.py:163-171 | The bucket loop replaces the value and the operand each by the index of its first bucket. |
| `Matcher.ScalarBuckets` | anonymizer/datasource/managers.py:161 | A scalar type written out as a list of buckets gives back exactly that list. |
| `Matcher.Matches` | anonymizer/datasource/managers.py:134-204 | `matches` computes `Satisfies`. |
| `Matcher.SatisfiesFilter` | anonymizer/datasource/managers.py:139-204 | A well-formed filter compares the unquoted value with the unquoted, coerced operand using its operator. |
| `Matcher.MatchesInteger` | anonymizer/datasource/managers.py:178-200 | For a non-scalar type, an integer operand compares numerically with an integer value under each of the six operators. |
| `Matcher.CompareIntegers` | anonymizer/datasource/managers.py:188-200 | On integers, the six operators are the integer comparisons. |
| `Matcher.CoerceInteger` | anonymizer/datasource/managers.py:178-181 | For a non-scalar type, the operand `str(n)` is read as the integer `n`. |
| `Matcher.RejectsOtherOperators` | anonymizer/datasource/managers.py:201-202 | Any other run of operator characters, such as `==` or `<>`, raises the unknown-operator error. |
| `Matcher.ScalarComparesIndices` | anonymizer/datasource/managers.py:160-200 | For a scalar type, value and operand naming buckets `i` and `j` compare as `i` and `j`. |
| `Matcher.CoerceScalar` | anonymizer/datasource/managers.py:160-177 | Value and operand naming buckets are replaced by those buckets' indices. |
| `Matcher.ScalarUnmatched` | anonymizer/datasource/managers.py:173-174 | For a scalar type, a value naming no bucket raises the invalid-option error for that value. |
| `Matcher.CoerceUnmatched` | anonymizer/datasource/managers.py:163-174 | Under a scalar type whose buckets parse, a text naming no bucket stays a text after the bucket loop and is rejected as an invalid option. |
| `Matcher.OperandUnmatched` | anonymizer/datasource/managers.py:173-176 | For a scalar type, a value naming a bucket compared with an unquoted operand naming none raises the invalid-option error for the operand. |
| `Matcher.CoerceOperandUnmatched` | anonymizer/datasource/managers.py:163-176 | Under a scalar type whose buckets parse, a value naming a bucket passes the first check and an operand naming none is rejected as an invalid option. |
| `Queries.StoredOnlyAppend` | anonymizer/datasource/managers.py:351-353 | Selecting the stored properties keeps their order across a split of the list. |
| `Queries.StoredOnlyMembers` | anonymizer/datasource/managers.py:351-353 | The selected properties are exactly the stored ones, one per stored property. |
| `Queries.SelectItemsAre` | anonymizer/datasource/managers.py:351-353 | The select list names each stored property, in order, as `full() AS name`. |
| `Queries.JoinsNotDeduplicated` | anonymizer/datasource/managers.py:358-363 | A joining property listed twice joins its table twice. |
| `Queries.NoForeignKeysNoJoins` | anonymizer/datasource/managers.py:358-363 | Without foreign keys the query has no join. |
| `Queries.BuildSelectItems` | anonymizer/datasource/managers.py:351-353 | The comprehension computes `SelectItems`. |
| `Queries.BuildJoinClause` | anonymizer/datasource/managers.py:358-363 | The join loop computes `JoinClause`. |
| `Queries.Query` | anonymizer/datasource/managers.py:350-366 | `query()` is the select list, the FROM clause on the key's table and the joins. |
| `Queries.Records` | anonymizer/datasource/managers.py:376 | The records are `info` of each row, in order; an error is `info`'s error on the first row where `info` fails. |
| `Queries.RecordsSucceed` | anonymizer/datasource/managers.py:376 | The list of records is built exactly when `info` succeeds on every row. |
| `Queries.InfoAll` | anonymizer/datasource/managers.py:376 | The comprehension over the rows computes `Records`. |
| `Queries.All` | anonymizer/datasource/managers.py:368-376 | `all()` sends `query()` followed by GROUP BY the key's `full()`, and returns the rows' records. |
| `Queries.Get` | anonymizer/datasource/managers.py:423-430 | `get(pk)` sends `query()` followed by `WHERE key=pk`, and returns the fetched row's record; with no row, a non-empty select fails. |
| `Queries.BuildGetQuery` | anonymizer/datasource/managers.py:423-426 | The get query is `query()` followed by `WHERE key=pk`, the key written as `str` writes it. |
| `Filtering.KindOfExposed` | anonymizer/datasource/managers.py:392-401 | With the name cut at any of `=!<>` (the corrected cut, see Findings), a filter is routed exactly when its name's first property may be filtered by. It goes to generated, concrete or aggregate by that property's kind; an unknown name and a non-exposed property raise their errors. |
| `Filtering.RoutedSucceeds` | anonymizer/datasource/managers.py:392-401 | Routing succeeds exactly when every filter can be routed. |
| `Filtering.RoutedLists` | anonymizer/datasource/managers.py:389-401 | Each routed list is the filters of its kind, in their original order. |
| `Filtering.RoutedPartition` | anonymizer/datasource/managers.py:389-401 | The three lists together hold each filter exactly as often as the input does. |
| `Filtering.OfKindMembers` | anonymizer/datasource/managers.py:396-401 | A filter is in the list of a kind exactly when it is an input filter of that kind. |
| `Filtering.Route` | anonymizer/datasource/managers.py:389-401 | The routing loop computes `Routed`. |
| `Filtering.OnlyGeneratedFiltersQueryAll` | anonymizer/datasource/managers.py:403-415 | With no concrete and no aggregate filter, `filter` sends the query of `all()`. |
| `Filtering.BuildFilterQuery` | anonymizer/datasource/managers.py:403-415 | The query is the base query, then WHERE with the concrete filters, then GROUP BY the key, then HAVING with the aggregate filters. |
| `Filtering.KeepMatches` | anonymizer/datasource/managers.py:341-346 | The inner loop of `filter_by_generated` computes `KeepMatching`. |
| `Filtering.KeepMatchingHolds` | anonymizer/datasource/managers.py:340-346 | For a generated property, the records kept are exactly those, in order, that `matches` accepts. |
| `Filtering.HoldingStored` | anonymizer/datasource/managers.py:340 | A post-filter on a property that is not generated keeps every record. |
| `Filtering.PassingNone` | anonymizer/datasource/managers.py:335-348 | With no generated filter, every record is kept. |
| `Filtering.PassingSnoc` | anonymizer/datasource/managers.py:336-346 | Narrowing by one more filter keeps the records that pass all of them. |
| `Filtering.PassesSnoc` | anonymizer/datasource/managers.py:336-346 | A record passes a list of filters exactly when it passes all but the last, and then the last. |
| `Filtering.PostFilterKeepsPassing` | anonymizer/datasource/managers.py:335-348 | With the corrected name cut (see Findings), a successful `filter_by_generated` returns exactly the records passing every filter, in their original order. |
| `Filtering.PostFilterStep` | anonymizer/datasource/managers.py:336-346 | The last filter narrows what the earlier filters kept. |
| `Filtering.FilterByGenerated` | anonymizer/datasource/managers.py:335-348 | The loop of `filter_by_generated` computes `PostFilter`. |
| `Filtering.Narrow` | anonymizer/datasource/managers.py:418-421 | The rows' records are post-filtered by the generated filters. |
| `Filtering.Filter` | anonymizer/datasource/managers.py:378-421 | `filter` sends the query of `all()` when there are no filters, and otherwise the routed query; it returns the post-filtered records or the routing error. Filter names are cut with the corrected cut (see Findings). |
| `Filtering.NotEqualNameAsWritten` | anonymizer/datasource/managers.py:337 | Splitting on `[=<>]` makes `name!=x` look up the property `name!`, which does not exist, while `matches` reads the name `name`. |
| `Filtering.NotEqualRouted` | anonymizer/datasource/managers.py:139 | With the name cut before any of `=!<>`, a `!=` filter on an exposed property is routed. |
| `Merge.FindOld` | anonymizer/datasource/managers.py:488-489 | An old record found has the new record's primary key; the only failure is the KeyError for a missing key. |
| `Merge.FindMatch` | anonymizer/datasource/managers.py:488-491 | The search loop computes `FindOld`. |
| `Merge.NoMatch` | anonymizer/datasource/managers.py:488-491 | No old record matches exactly when every old record has a different primary key. |
| `Merge.FirstMatch` | anonymizer/datasource/managers.py:488-491 | The first old record with an equal primary key is the one used. |
| `Merge.IsDirty` | anonymizer/datasource/managers.py:496-503 | The dependency loop reports dirty exactly when some dependency is missing from either record or changed. |
| `Merge.MergeRecord` | anonymizer/datasource/managers.py:491-506 | The property loop over the copied record computes `MergeOver`. |
| `Merge.MergeUser` | anonymizer/datasource/managers.py:485-512 | The handling of one new record computes `MergeOne`. |
| `Merge.Combined` | anonymizer/datasource/managers.py:480-514 | A successful `combine` gives one record per new record, in order, each the merge of that record. |
| `Merge.Combine` | anonymizer/datasource/managers.py:480-514 | `combine`'s loops compute `Combined`. |
| `Merge.UnmatchedUnchanged` | anonymizer/datasource/managers.py:511-512 | A new record with no old counterpart comes out unchanged. |
| `Merge.MergeKeepsStored` | anonymizer/datasource/managers.py:491-506 | A key that is not a generated name keeps the new record's entry: stored values are never restored. |
| `Merge.MergeKeys` | anonymizer/datasource/managers.py:491-506 | The merge removes no key and adds only generated names. |
| `Merge.MergeGenerated` | anonymizer/datasource/managers.py:493-506 | Under unique names, a generated property takes its old value when its dependencies are clean at its turn, and otherwise keeps the new value. |
| `Merge.NoReferencesKeepOld` | anonymizer/datasource/managers.py:493-506 | A generated property without `@` arguments always takes its old value back. |
| `Legacy.Parse` | anonymizer/datasource/manager.py:47-88 | A legacy property keeps its source, is generated exactly when the source starts with `^`, and is named by the given name or else its column. A configured type is set as `type` and the default `'string'` as `tp`, never both. |
| `Legacy.ParseStored` | anonymizer/datasource/manager.py:47-75 | `t.c@conn` gives table `t`, column `c`, name `c`, connection `conn`, no foreign key, and `tp` `'string'`. |
| `Legacy.ParseGenerated` | anonymizer/datasource/manager.py:76-88 | When `P` holds no `.`, `(` or `@`, `m` holds no `.` or `(`, and the provider class `P` and its method `m` exist, `^P.m(...)` parses into a provider origin naming class `P` in the provider package and method `m`. |
| `Legacy.ArgumentsOf` | anonymizer/datasource/manager.py:131 | Splitting a source's arguments gives at least one piece, and the only failure is the malformed-source error. |
| `Legacy.ArgumentsOfText` | anonymizer/datasource/manager.py:131 | For argument text without `.` or `(`, the arguments are its comma-separated pieces. |
| `Legacy.ArgumentsOfJoined` | anonymizer/datasource/manager.py:131 | Arguments free of `.`, `(` and `,`, written with commas, are read back exactly. |
| `Legacy.EmptyParentheses` | anonymizer/datasource/manager.py:131 | `()` gives one empty argument. |
| `Legacy.ModernEmptyParentheses` | anonymizer/datasource/managers.py:108-112 | The current engine gives no argument at all for `()`. |
| `Legacy.QuotedCommaSplit` | anonymizer/datasource/manager.py:131 | The quoted argument `"a,b"` is cut into two pieces, quotes and all. |
| `Legacy.ModernQuotedComma` | anonymizer/datasource/managers.py:108-112 | The current engine keeps the quoted `a,b` as one argument. |
| `Legacy.GeneratedPass` | anonymizer/datasource/manager.py:126-145 | The legacy generated pass fails only on a missing referenced property or a malformed source; the values it computes are stated by `Legacy.GeneratedPassValue`. |
| `Legacy.GeneratedPassValue` | anonymizer/datasource/manager.py:126-145 | Under unique names, when the pass succeeds, each generated property holds the provider method's result on its arguments substituted in the record that the properties before it produced, with its own name bound to `'test'`. |
| `Legacy.GeneratedPassSucceeds` | anonymizer/datasource/manager.py:126-145 | The legacy generated pass succeeds exactly when each generated property's arguments can be read and each reference names a known key, an earlier generated property, or the property itself. |
| `Legacy.GenerateOneSucceeds` | anonymizer/datasource/manager.py:127-145 | One generated property is computed exactly when its arguments can be read in the record that already has its own placeholder. |
| `Legacy.GeneratedPassKeys` | anonymizer/datasource/manager.py:126-145 | A successful pass adds exactly the generated names; every placeholder is overwritten. |
| `Legacy.GeneratedPassKeepsStored` | anonymizer/datasource/manager.py:126-145 | A successful pass leaves every key that is not a generated name unchanged. |
| `Legacy.GeneratedNamesAre` | anonymizer/datasource/manager.py:126-128 | A name is a generated name exactly when some generated property has it. |
| `Legacy.StoredPassKeys` | anonymizer/datasource/manager.py:119-123 | The column loop fills exactly the stored names. |
| `Legacy.StoredPassValue` | anonymizer/datasource/manager.py:119-123 | Under unique names, a stored property holds its column unchanged. |
| `Legacy.NamesAre` | anonymizer/datasource/manager.py:115-147 | Stored and generated names together are all the property names. |
| `Legacy.RecordKeys` | anonymizer/datasource/manager.py:115-147 | A successful legacy `info` reports every property: nothing is dropped. |
| `Legacy.RecordSucceeds` | anonymizer/datasource/manager.py:115-147 | Legacy `info` succeeds exactly when the generated properties are readable from the stored names; it fails only on a missing reference or a malformed source. |
| `Legacy.PrimaryKeyUnhashed` | anonymizer/datasource/manager.py:120-123 | The legacy record holds the primary key exactly as the row's first column has it. |
| `Legacy.SelfReferenceSeesPlaceholder` | anonymizer/datasource/manager.py:128-145 | A generated property whose one argument is `@` its own name is called with `'test'`. |
| `Legacy.ModernSelfReferenceFails` | anonymizer/datasource/managers.py:314-321 | The same self-reference in the current engine raises the missing-property error. |
| `Legacy.Records` | anonymizer/datasource/manager.py:166 | The records are legacy `info` of each row, in order; an error is legacy `info`'s error on the first row where it fails. |
| `Legacy.Info` | anonymizer/datasource/manager.py:115-147 | Legacy `info`'s loops compute `RecordOf`. |
| `Legacy.FillStored` | anonymizer/datasource/manager.py:119-123 | The column loop computes the legacy stored pass. |
| `Legacy.FillGenerated` | anonymizer/datasource/manager.py:126-145 | The generator loop, with its argument split and in-place substitution, computes the legacy generated pass. |
| `Legacy.BuildSelectItems` | anonymizer/datasource/manager.py:150-151 | The comprehension computes the legacy select list. |
| `Legacy.BuildJoinClause` | anonymizer/datasource/manager.py:153-158 | The join loop computes the legacy join clause. |
| `Legacy.Query` | anonymizer/datasource/manager.py:149-160 | Legacy `query()` computes `QueryText`. |
| `Legacy.QueryMatchesModern` | anonymizer/datasource/manager.py:149-160 | Legacy `query()` is the current engine's query for the same properties. |
| `Legacy.SelectItemsMatch` | anonymizer/datasource/manager.py:150-151 | The legacy select list is the current one. |
| `Legacy.JoinClauseMatch` | anonymizer/datasource/manager.py:153-158 | The legacy joins are the current ones. |
| `Legacy.ModernizeJoin` | anonymizer/datasource/manager.py:155-158 | A property joins in one engine exactly when it joins in the other, on the same condition. |
| `Legacy.Modernize` | anonymizer/datasource/manager.py:47-94 | The current property a legacy one corresponds to has the same name, table and `full()`, and is generated exactly when the legacy one is. |
| `Legacy.InfoAll` | anonymizer/datasource/manager.py:166 | The comprehension over the rows computes `Records`. |
| `Legacy.All` | anonymizer/datasource/manager.py:162-166 | Legacy `all()` sends `query()` alone and returns the rows' records. |
| `Legacy.AllQueryWithoutGroupBy` | anonymizer/datasource/manager.py:162-166 | The current `all()` query is the legacy one followed by GROUP BY the key. |
| `Legacy.Filter` | anonymizer/datasource/manager.py:168-183 | Legacy `filter` sends `FilterQuery` and returns every row's record, with no post-filter. |
| `Legacy.TextIsOneFilter` | anonymizer/datasource/manager.py:175-178 | A filter given as text is one filter, pasted whole after `WHERE`, just as a list of one. |
| `Legacy.FilterWhereClause` | anonymizer/datasource/manager.py:172-180 | A list of filters is joined by ` AND ` after `WHERE`, first to last. |
| `Legacy.BuildGetQuery` | anonymizer/datasource/manager.py:186-189 | The get query is `query()` followed by `WHERE key=pk`. |
| `Legacy.Get` | anonymizer/datasource/manager.py:185-192 | Legacy `get(pk)` sends `GetQuery` and returns the fetched row's record. |
| `Legacy.GetQueryMatchesModern` | anonymizer/datasource/manager.py:185-189 | Legacy `get(pk)` sends the same query as the current engine's. |

## Left out

- SQL execution: the model produces the query text, and the rows a database would
  return are an input.
- Provider lookup and calls (`locate`, `getattr`, calling a provider method, its
  `__type` helper): their answers are the `Registry` parameter.
- `hashlib.sha1(...).hexdigest()` and `uuid.uuid4()`: the digest is the `hash`
  parameter and the fresh token is the `freshToken` parameter.
- The connection lookup of a stored property (`connection_manager.get` in
  managers.py; the loop over `connection_manager.connections` and its "database not
  found" error in manager.py): a property records its connection's name only.
- `UserManager.__init__` (reading the configuration file, building the connection
  manager) and `UserManager.get`, `filter`, `all`, `count`, `list_filters`,
  `list_properties`: these are I/O or one-line delegations to `PropertyManager`.
  (`list_properties` calls a method `PropertyManager` does not define.)
- The legacy `PropertyManager.__init__` and `UserManager` (manager.py:97-113 and
  195-221): they read a global configuration; `Legacy.Manager` is taken as given.
- Values other than `None`, integers and strings (floats, booleans, dates), and the
  `unicode` type.
- Matcher.Satisfies: an operand that `int()` rejects but `float()` accepts stays a
  string, because floating point is not modelled.
- Evaluator.Info: requires a row with a column for each stored property; the
  IndexError of a shorter row is not modelled, since the query selects exactly those
  columns. The same requirement is on `Legacy.Info`, `Records`, `All`, `Filter`
  and `Get`.
- Dependencies.DependenciesOf: requires a ranking under which every resolved
  reference points to a lower rank. On a reference cycle the source recurses until
  Python's recursion limit, which is not modelled. `Merge.Combine` and its functions
  carry the same requirement, and also require the manager to have a primary key,
  which every built manager has (`Managers.BuiltPrimaryKey`).
- Evaluator.ExposedOnly: dictionary iteration order is not modelled; the loop
  visits the keys in an arbitrary order, and the result is the same for every order.
- Matcher.SatisfiesFilter: stated for a non-empty value and operand. `Satisfies`
  itself models the IndexError raised on either being empty.
- Filtering.KindOf: cuts a filter's name at any of `=!<>` (the corrected cut of the
  first Findings row). The source cuts at `=<>` only, so for a filter such as
  `age!=5` it looks up `age!`, finds nothing and raises AttributeError at
  managers.py:394; `Filtering.NotEqualNameAsWritten` models that behaviour.
- Filtering.PostFilter: uses the same corrected cut; the source's
  `filter_by_generated` (managers.py:337-340) raises AttributeError for a `!=`
  filter on a generated property instead.
- Filtering.KindOfExposed, Filtering.PostFilterKeepsPassing and Filtering.Filter:
  stated for the corrected cut above, not for the AttributeError the source
  raises on `!=` filters.
- Dependencies.DependenciesOf: skips empty arguments (the corrected scan of the
  second Findings row). The source reads `p_name[0]` for every argument and raises
  IndexError for a source such as `^P.m(a,)` (managers.py:282);
  `Dependencies.RefsAsWritten` models that behaviour. `Merge.Restore`,
  `Merge.MergeOver`, `Merge.MergeOne`, `Merge.Combined` and the methods
  `Merge.MergeRecord`, `Merge.MergeUser` and `Merge.Combine` use the corrected scan
  too, so they do not raise that IndexError either.
- Dependencies.DependenciesAreReachable: stated for the corrected scan above.
- Csv.ParseLine: models only the default dialect on one line of type `str`; the
  `unicode` input path and a changed field size limit are not modelled.
- Legacy.Parse: the `type` attribute set when a type is configured is never read
  again by the legacy core; the model records it but nothing depends on it.

## Findings

| source | as written | input that shows it | evidently intended | confidence | as-written member | corrected member |
|---|---|---|---|---|---|---|
| anonymizer/datasource/managers.py:337,393 | `filter` and `filter_by_generated` find a filter's property with `re.split('[=<>]', f)[0]`, which does not cut at `!` | the filter `age!=5` looks up a property named `age!`; there is none, so `prop.filter_by` raises AttributeError | cut the name at any of `=!<>`, as `matches` does at line 139, so that `!=` filters work | high, not executed | `Filtering.NotEqualNameAsWritten` | `Filtering.NotEqualRouted` |
| anonymizer/datasource/managers.py:281-282 | `get_dependencies` reads `p_name[0]` for every argument, without the empty-argument check `info` makes at line 315 | the source `^P.m(a,)` has arguments `["a", ""]`; `combine` then raises IndexError for that property | skip empty arguments, as `info` does | medium, not executed | `Dependencies.EmptyArgumentBreaksDependencies` | `Dependencies.RefsAreAtArguments` |

The rest of the model uses the corrected definitions:

- `Filtering.KindOf` and `Filtering.PostFilter` look a filter's property up by
  `Matcher.FilterName`.
- `Dependencies.DependenciesOf` scans arguments with `Dependencies.Refs`.

The older engine's quirks are modelled as written, and the lemmas above compare
them with the current engine:

- a configured type lands in `type` while a default one lands in `tp`;
- arguments are cut at every comma, so quoting does not protect one;
- `()` gives one empty argument;
- an argument holding a `.` is cut short at it;
- a self-reference sees the placeholder `'test'`.
