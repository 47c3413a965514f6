# search: a Dafny model of the query evaluator

`search` filters in-memory Python objects with a small query language such as
`(name = bob) AND [NOT (age < 30)]`. The repository holds two generations of
the same library: the root-level files (`conditions.py`, `fields.py`,
`convertable_types.py`, `query.py`) and the newer `search/` package
(`search/conditions.py`, `search/fields.py`, `search/field.py`,
`search/convertable_types.py`, `search/query.py`, `search/decorators.py`).
This project models both generations side by side, one Dafny module per source file:

| module | source | form |
|---|---|---|
| `SearchConditions` | search/conditions.py | condition tree as a datatype; set algebra as functions; the leaf filter loop and `check` as methods |
| `Conditions` | conditions.py | the same for the root generation; `_get_values` as a method over a set |
| `Fields` | fields.py | operator wrappers as functions; `QueryField` as a class whose `value` is overwritten and restored |
| `SearchFields` | search/fields.py | `QueryField` as a class with `convert_type`, `__enter__` and `__exit__` |
| `PureField` | search/field.py | the pure `Field` as a datatype |
| `SearchConvertableTypes`, `ConvertableTypes` | the two convertable_types.py | field extraction as methods proved against specification functions; `implicit_conversion` as a function |
| `SearchQuery`, `RootQuery` | the two query.py | building a query (a method running the parenthesis loop) and calling it |
| `Decorators` | search/decorators.py | `validate_query` as a method |
| `Validation` | the stack loop of `__validate_query_str` and `_validate` | the loop as a method proved equal to a balance predicate |
| `Records`, `Dates`, `PyValues`, `Seqs`, `Wrappers` | shared | host objects and wrappers, the `Date` helpers, Python values and built-ins, generic filtering, `Option`/`Result` |

These pieces are the evaluator's building blocks:

- A condition is evaluated on a working set of wrapped records. NOT, AND and OR are set difference, intersection and union. A comparison leaf keeps a record when some field of it satisfies the operator against the query field.
- Every record is wrapped with an ordered list of `(name, value)` fields. A mapping, a list, a data provider and a generic object each have their own extraction rule. After the call, the wrappers are mapped back to the original objects.
- A query string is checked for balanced parentheses and then compiled.
- Regular-expression search, the `strptime` format loop and the `ply` grammar are not modelled. They are parameters of the model functions:
  - `re(pattern, text)` stands for `re.search`;
  - `strptime` answers `None` when no format parses;
  - `compile` answers `None` for a rejected query.
- `search/fields.py` defines no comparison operators, so the newer generation's leaf test is the parameter `rel`.
  - `SearchConditions.LegacyRelation` instantiates `rel` with the operators of fields.py.
- A wrapper's identity (Python hashes wrappers by object identity) is its position in the input: the `id` field of `Records.Adapted`.

A query is modelled as a value (`Query` datatype) built by `NewQuery`, because `__init__` sets its condition once and nothing changes it afterwards.

The model follows the code, with two exceptions that are listed under "## Findings": fields.py:126 names `date` without importing it, and search/conditions.py:176 gives `>=` the operator of `>`. For each of these, the evaluator takes the defective step as a parameter:

- `Conditions` and `RootQuery` take `convert`, a revision of `QueryField.__call__`. `Fields.AsWritten()` is the code as it stands, where every conversion raises NameError. `Fields.Repaired(strptime)` is the same method with the import added.
- `SearchConditions` and `SearchQuery` take `ops`, the OPERATOR table. `SearchConditions.OperatorAsWritten` is the table as it stands. `SearchConditions.Operator` is the table the EXPRESSION_NAMEs intend.

A row below holds for every value of these parameters unless it names one. Lemmas such as `Conditions.AsWrittenComparisonSelectsNothing` state what the code does as it stands.

Other places where the code differs from what its docstrings or comments describe are modelled as written:

- search/fields.py:43 and search/field.py:44 format the undefined name `date_strs` when no date format parses. The model raises `NameError("date_strs")` (`Dates.SearchDate`). The caller treats this like any other conversion failure.
- search/decorators.py:59 and :62 raise `InvalidQueryError`, which that module never imports. The model returns `NameError("InvalidQueryError")` (`Decorators.UnboundErrorName`).
- In the root generation, a `str` argument passes the `Collection` guard of `implicit_conversion`. Its one-character strings then fail when their `__dict__` is read (`ConvertableTypes.TextArgumentFailsInAdapter`).

## Model

| member | source | states |
|---|---|---|
| SearchConditions.ExpressionName | search/conditions.py:141-176 | no EXPRESSION_NAME is empty or holds a parenthesis |
| SearchConditions.Eval | search/conditions.py:54-128 | under either operator table, the result of every condition is a subset of the working set |
| SearchConditions.EvalPointwise | search/conditions.py:54-128 | an element is selected iff it is in the working set and the condition holds of it alone (`Holds`), so selection never depends on the other elements |
| SearchConditions.EvalRestricts | search/conditions.py:63-64 | evaluating on a smaller working set gives the larger result intersected with the smaller set |
| SearchConditions.NotIsComplement | search/conditions.py:63-64 | NOT gives the working set minus the inner result, and is disjoint from it |
| SearchConditions.DoubleNegation | search/conditions.py:63-64 | `[NOT [NOT c]]` selects exactly what `c` selects, as the test asserting `!!x=2` equals `x=2` expects (search/unittests/unittests/not_operator_unittests.py:38-57) |
| SearchConditions.AndCommutative | search/conditions.py:78-79 | AND does not depend on the order of its operands |
| SearchConditions.AndIdempotent | search/conditions.py:78-79 | `c AND c` selects what `c` selects |
| SearchConditions.OrCommutative | search/conditions.py:93-94 | OR does not depend on the order of its operands |
| SearchConditions.OrIdempotent | search/conditions.py:93-94 | `c OR c` selects what `c` selects |
| SearchConditions.DeMorgan | search/conditions.py:63-94 | negated AND is the OR of the negations, and negated OR is the AND of the negations |
| SearchConditions.Check | search/conditions.py:118-122 | the early-return loop over the fields answers true iff some field satisfies the operator against the query field |
| SearchConditions.ExpressionCall | search/conditions.py:111-128 | the loop adding to `results` returns exactly the leaf's selection: the records of the working set with a field satisfying the operator |
| SearchConditions.OperatorInjective | search/conditions.py:141-176 | in the corrected table, no two expression classes share an operator |
| SearchConditions.GreaterOrEqualAsWrittenIsGreater | search/conditions.py:169-176 | under the table as written, a `>=` leaf selects exactly what a `>` leaf with the same operands selects |
| SearchConditions.TablesAgreeWithoutGreaterOrEqual | search/conditions.py:141-176 | a condition without a `>=` leaf selects the same records under the table as written and under the intended table |
| SearchConditions.GreaterOrEqualCounterexample | search/conditions.py:174-176 | with the comparisons of fields.py, `date` imported, as the leaf relation, the record `{x: 3}` is selected by `x >= 3` under the intended table but not under the table as written |
| SearchConditions.RenderPassesValidation | search/conditions.py:66-135 | the `__str__` rendering of any condition (brackets for logic nodes, one parenthesised group per leaf) passes the query's parenthesis check when its operands do |
| SearchConditions.ExpressionAccepted | search/conditions.py:130-135 | a leaf renders as one balanced group `(name op value)` |
| Conditions.OperatorName | conditions.py:81-127 | no OPERATOR name is empty or holds a parenthesis |
| Conditions.Eval | conditions.py:15-127 | in every revision of the conversion, the result of every condition is a subset of its input |
| Conditions.EvalPointwise | conditions.py:15-127 | an element is selected iff it is in the input and the condition holds of it alone |
| Conditions.EvalRestricts | conditions.py:20-79 | evaluating on a smaller input gives the larger result intersected with the smaller input |
| Conditions.NotIsComplement | conditions.py:20-21 | `NotCondition` gives its input minus the inner result |
| Conditions.DoubleNegation | conditions.py:20-79 | negating twice gives back the inner result, leaves included |
| Conditions.AndCommutative | conditions.py:32-33 | `AndCondition` does not depend on the order of its operands |
| Conditions.OrCommutative | conditions.py:44-45 | `OrCondition` does not depend on the order of its operands |
| Conditions.AndOrIdempotent | conditions.py:32-45 | AND and OR of a condition with itself select what it selects |
| Conditions.GetValues | conditions.py:67-79 | `_get_values` returns exactly the elements of `values` for which `search_func` is true |
| Conditions.ExpressionCall | conditions.py:81-127 | each expression class runs `_get_values` with its `any(...)` test and returns the leaf's selection |
| Conditions.AnyFieldWith | conditions.py:81-127 | the `any(f OP self.field ...)` loop over the fields, calling the operator on the one mutable query field, answers iff some field passes, and leaves the query field's value as it found it |
| Conditions.EqualitySelectsOwnRendering | conditions.py:81-87 | with `date` imported (`Fields.Repaired`), a record is selected by `name = <str of one of its int or str values>` when the name pattern matches that field |
| Conditions.AsWrittenComparisonSelectsNothing | conditions.py:81-127 | as written (`Fields.AsWritten()`), a leaf of any class but LIKE selects nothing from any working set |
| Conditions.LikeIgnoresConversion | conditions.py:89-95 | a LIKE leaf converts nothing, so it selects the same records in every revision of the conversion |
| Conditions.UnmatchedNameSelectsNothing | conditions.py:81-127 | a record none of whose field names the pattern matches is selected by no leaf |
| Conditions.RenderPassesValidation | conditions.py:23-62 | every rendering, including the `(?i)` prefix of leaf names, passes the parenthesis check when the operands do |
| Conditions.ExpressionAccepted | conditions.py:57-62 | a leaf renders as one balanced group `((?i)name op value)` |
| Conditions.QueryNameAccepted | fields.py:117-119 | the `(?i)` prefix keeps a name balanced |
| Fields.Match | fields.py:98-104 | `match` can hold only when the name pattern searches the field name |
| Fields.NameMismatchNeverMatches | fields.py:28-104 | when the name pattern does not search the field name, every operator and `match` give false |
| Fields.ConversionFailureNeverMatches | fields.py:44-56 | when converting the literal raises, the comparison gives false instead of raising |
| Fields.EqualXorNotEqual | fields.py:64-72 | once names match and conversion succeeds, `!=` is the negation of `==` |
| Fields.EqualsOwnRendering | fields.py:44-67 | a field equals a query literal holding `str` of its int or str value: conversion gives the value back |
| Fields.ConvertAsWritten | fields.py:121-130 | as written, `__call__` always raises, because line 126 names the unimported `date` |
| Fields.AsWrittenNeverMatches | fields.py:44-92 | as written (`AsWritten()`), every operator comparison is false |
| Fields.MissingDateImportCounterexample | fields.py:121-130 | `x == "3"` against the field `x = 3` holds with the import and fails as written |
| Fields.QueryField.constructor | fields.py:117-119 | the name is `(?i)` plus the given name; the value is the given str |
| Fields.QueryField.Call | fields.py:121-130 | in the given revision of `__call__`, the value becomes the literal converted to the target's type, or the error is returned and the value is kept |
| Fields.QueryField.Enter | fields.py:132-134 | the current value is saved |
| Fields.QueryField.Exit | fields.py:136-137 | the saved value is written back; without one, `__orig_val` is missing and AttributeError is raised |
| Fields.QueryField.CompareWith | fields.py:44-92 | one operator call on the mutable query field gives the comparison's answer in the given revision of `__call__` and restores the value it started with; as written the answer is always false |
| Dates.RootDate | fields.py:16-21 | a str that a format parses gives the datetime at midnight of that day, not a date; a str no format parses gives None; a non-str raises |
| Dates.SearchDate | search/fields.py:26-43 | a falsy literal, the empty string included, gives None, and only then; a success is None or a date |
| SearchFields.ConvertedStrUnchanged | search/fields.py:82-88 | converting to a str target leaves the literal unchanged |
| SearchFields.ConvertedIntRoundTrip | search/fields.py:82-88 | converting the text of an integer to an int target gives the integer back |
| SearchFields.ConvertedDate | search/fields.py:26-91 | for a date target, the empty literal becomes None and succeeds, an unparsable one fails, and a parsable one becomes the date |
| SearchFields.ConvertAllLast | search/fields.py:82-91 | a chain of conversions ends on the last conversion applied to where the rest arrived, or stays there if that conversion fails |
| SearchFields.ConvertAllEndsOnTotalTarget | search/fields.py:82-91 | a chain of conversions whose last target is a str ends on `str()` of where the rest arrived, and one whose last target is a bool on whether that text is non-empty |
| SearchFields.QueryField.constructor | search/fields.py:51-70 | the name is `str(name)`; the value is the given str |
| SearchFields.QueryField.ConvertType | search/fields.py:72-91 | answers true iff the conversion succeeds; then the value is the converted one, otherwise it is unchanged |
| SearchFields.QueryField.Enter | search/fields.py:93-98 | the current value is saved |
| SearchFields.QueryField.Exit | search/fields.py:100-102 | the saved value is written back; without one, AttributeError is raised |
| SearchFields.QueryField.ConvertWithin | search/fields.py:72-102 | inside one `with` block, any number of conversions end holding the chain's last value, and after `__exit__` the value is the one held at `__enter__` |
| PureField.ConvertType | search/field.py:57-74 | yields the literal for str, `literal != ""` for bool, the parsed integer or None for int, the list of its one-character strings for a list, None for the empty literal on a date target, None for a None target; a failed conversion yields None |
| PureField.ConvertTypeAgreesWithQueryField | search/field.py:57-74 | a mutable QueryField of search/fields.py built from the same name and literal converts to the value the Field yields; where its conversion fails and keeps the literal, the Field yields None |
| PureField.ConvertTypeIntRoundTrip | search/field.py:67-72 | a field holding the text of an integer yields that integer for an int target |
| PyValues.ParseIntOfIntToString | search/fields.py:87 | `int(str(i)) == i` |
| PyValues.IntToStringInjective | search/convertable_types.py:49-50 | distinct integers have distinct decimal texts |
| PyValues.ConstructStrIsIdentity | fields.py:129 | `str(s)` is `s` |
| PyValues.ConstructBoolIsNonEmpty | fields.py:129 | `bool(s)` is true iff `s` is non-empty |
| PyValues.ConstructIntRoundTrip | fields.py:129 | `int` of the `str` of an integer gives it back |
| PyValues.StrCompareAntisymmetric | fields.py:76-92 | str ordering is antisymmetric |
| PyValues.StrCompareZeroIffEqual | fields.py:64-72 | two strs compare equal iff they are the same string |
| PyValues.PyCompareConverse | fields.py:74-92 | `a < b` is `b > a`, and `a <= b` is `b >= a`, errors included |
| PyValues.PyCompareNotEqualIsNegation | fields.py:64-72 | `==` and `!=` never raise, and `!=` is the negation of `==` |
| PyValues.PyCompareReflexive | fields.py:64-67 | every value equals itself |
| PyValues.DateNeverMeetsDateTime | fields.py:64-92 | a date never equals a datetime, and ordering one against the other raises TypeError |
| Records.ConvertDict | search/convertable_types.py:11-14 | one field per pair, in order, named `str(key)`, holding the value untouched |
| Records.EnumerateFields | search/convertable_types.py:49-50 | one field per element, in index order, named by the index |
| Records.EnumeratedNamesDistinct | search/convertable_types.py:49-50 | no two fields of a list share a name |
| Records.InstanceBranch | search/convertable_types.py:86-98 | the two `extend` calls build the property fields followed by the public attribute fields |
| Records.InstanceFieldsLayout | search/convertable_types.py:86-98 | a generic object yields one field per property first, then one per attribute not starting with `_`, keeping each name and value |
| Records.WrapAll | search/convertable_types.py:131 | each element gets its own wrapper, the k-th with identity k holding its fields and the element; the first element whose adapter raises makes the whole call raise that error |
| Records.ConsecutiveIdsDistinct | search/convertable_types.py:131 | wrappers of different elements are different, so equal elements are not collapsed |
| Records.ListingExact | search/convertable_types.py:128-133 | for results drawn from the wrappers, the returned list has one entry per result and holds exactly their underlying objects |
| Records.ListingSelects | search/convertable_types.py:128-133 | when the results are the wrappers passing a test, an object is returned iff some wrapper passing the test holds it |
| Records.ListingAll | search/convertable_types.py:128-133 | returning every wrapper gives back every element in input order |
| Records.ConvertWrapped | search/convertable_types.py:128-133 | the comprehension of either implicit_conversion succeeds iff every element can be wrapped, and returns at most one object per element |
| Records.ConvertWrappedKeepsEveryElement | search/convertable_types.py:128-133 | when the inner function returns every wrapper, every element comes back, equal ones included, in input order (search/unittests/unittests/operator_unittests.py:15-31) |
| Records.ConvertWrappedFilters | convertable_types.py:126-131 | when the inner function keeps the wrappers passing a test, one object per kept wrapper comes back, and an object comes back iff some element passing the test is that object |
| Records.ConvertWrappedReturnsUnderlying | search/convertable_types.py:128-133 | the result lists one object per wrapper the inner function returns, and exactly their underlying objects |
| SearchConvertableTypes.Adapt | search/convertable_types.py:32-98 | the step-by-step `__init__` builds exactly the fields the branch for the object's kind prescribes, or raises that branch's error |
| SearchConvertableTypes.ProviderBranch | search/convertable_types.py:54-78 | the `all(...)` scan, then extend or raise, gives the provider's fields or its error |
| SearchConvertableTypes.ProviderAccepted | search/convertable_types.py:54-78 | a provider is accepted iff its `fields` is a mapping or a list of SearchFields only; a list is kept as it is, a mapping is converted |
| SearchConvertableTypes.ProviderRejectsForeignItem | search/convertable_types.py:60-78 | one non-SearchField item in a list makes the wrapper raise InvalidFieldAttributeError |
| SearchConvertableTypes.ImplicitConversion | search/convertable_types.py:115-134 | ValueError exactly for a str or a non-iterable argument (is_collection); otherwise at most one object per element |
| SearchConvertableTypes.EqualElementsWrappedApart | search/convertable_types.py:131 | two equal elements get different wrappers with the same fields and object |
| ConvertableTypes.Adapt | convertable_types.py:30-97 | the step-by-step `__init__`, including the reassignment to the filtered list, builds exactly the fields prescribed for the object's kind without the collection-valued ones, or raises |
| ConvertableTypes.ProviderNeedsMapping | convertable_types.py:52-68 | a provider is accepted iff its `fields` is a mapping; otherwise InvalidFieldAttributeError |
| ConvertableTypes.FilterDropsExactlyCollections | convertable_types.py:89-92 | no kept field holds a collection, and a field is kept iff it was extracted and holds no collection |
| ConvertableTypes.FilterKeepsRelativeOrder | convertable_types.py:89-92 | the filter keeps the surviving fields in their relative order |
| ConvertableTypes.ScalarMappingKeepsAllFields | convertable_types.py:42-92 | a mapping without collection values keeps one field per pair, in order |
| ConvertableTypes.ImplicitConversion | convertable_types.py:114-133 | ValueError exactly for a generator or a non-iterable argument, since the guard is isinstance Collection and a str is one; otherwise at most one object per element |
| ConvertableTypes.TextArgumentFailsInAdapter | convertable_types.py:123-131 | a non-empty str passes the guard but its characters have no `__dict__`, so AttributeError is raised |
| ConvertableTypes.IteratorRejected | convertable_types.py:123-124 | a generator is not a Collection and is rejected with ValueError |
| Validation.CheckBalanced | search/query.py:32-44 | the push/pop loop over the characters succeeds iff no prefix closes more groups than it opened and the totals agree |
| Validation.AcceptsCharacterization | search/decorators.py:50-62 | the stack check from open count n succeeds iff every prefix keeps `n + depth` non-negative and the whole string ends at zero |
| Validation.AcceptsIffBalanced | query.py:26-38 | the stack check succeeds exactly on balanced strings |
| Validation.AcceptsIgnoresOtherCharacters | search/decorators.py:53-57 | only the parentheses of a string affect the stack check, from any open count |
| Validation.OnlyParenthesesMatter | search/decorators.py:53-57 | a string is balanced iff its parentheses alone are |
| Validation.GroupingKeepsBalance | search/decorators.py:50-62 | wrapping a balanced string in parentheses keeps it balanced |
| Validation.BalancedConcat | search/decorators.py:50-62 | two balanced strings one after the other are balanced |
| Validation.BalancedWithoutParentheses | search/decorators.py:53-57 | a string without parentheses is balanced |
| Validation.InvalidQueryMessage | search/query.py:17-21 | the message is `Invalid query string '...'` and contains no newline |
| Validation.InvalidQueryMessageQuotes | search/query.py:17-21 | the text between the quotes is exactly the query with its newlines removed, in order (`Filter(s, NotNewline)`): a character stands there iff the query holds it and it is not a newline |
| SearchQuery.QueryOf | search/query.py:7-21 | a built query has no condition iff the string is empty or `*`; every failure is an InvalidQueryError |
| SearchQuery.NewQuery | search/query.py:7-21 | skipping `""` and `*`, running the stack loop, then compiling, builds the query QueryOf prescribes |
| SearchQuery.UnbalancedRejected | search/query.py:11-44 | a string other than `""` and `*` fails with 'Unbalanced parenthesis' iff it is unbalanced |
| SearchQuery.UnbalancedNeverCompiled | search/query.py:11-14 | building an unbalanced query does not depend on the grammar |
| SearchQuery.CompileFailureQuoted | search/query.py:16-21 | a balanced query the grammar rejects raises the quoted message |
| SearchQuery.NoConditionReturnsEverything | search/query.py:24-27 | without a condition, the call returns every element (search/unittests/unittests/unittests.py:100-114) |
| SearchQuery.ConditionSelects | search/query.py:23-27 | with a condition, the call returns one object per selected wrapper, and an object iff some element satisfying the condition is it |
| SearchQuery.ApplySelectsHolding | search/query.py:27 | applying a condition to the set of wrappers keeps exactly the wrappers of which it holds |
| SearchQuery.Search | search/query.py:7-50 | `query(s, v)` raises what building raises; once built, it raises ValueError for a str or a scalar `v`; on a collection, `""` and `*` return every element, and a compiled condition returns exactly the elements it holds of |
| SearchQuery.Str | search/query.py:29-30 | `QUERY: ` followed by the condition's rendering, or by `None`; what follows the prefix passes the parenthesis check again whenever the condition's operands do |
| RootQuery.QueryOf | query.py:7-17 | a built query holds what the grammar compiled; every failure is an InvalidQueryError |
| RootQuery.NewQuery | query.py:7-17 | running the stack loop, then compiling, builds the query QueryOf prescribes |
| RootQuery.UnbalancedRejected | query.py:10-38 | building fails with 'Unbalanced parenthesis' iff the string is unbalanced |
| RootQuery.UnbalancedNeverCompiled | query.py:10-13 | building an unbalanced query does not depend on the grammar |
| RootQuery.EmptyQueryIsCompiled | query.py:8-17 | the empty query is validated and compiled too: it is accepted iff the grammar accepts it |
| RootQuery.CompileFailureQuoted | query.py:13-17 | a balanced query the grammar rejects raises the quoted message |
| RootQuery.CallSelects | query.py:19-21 | the call returns one object per selected wrapper, and an object iff some element satisfying the condition is it |
| RootQuery.AsWrittenComparisonFindsNothing | query.py:19-21 | as written, a query that is a single comparison (any class but LIKE) returns an empty list for every collection of records |
| RootQuery.Str | query.py:23-24 | `QUERY: ` followed by the condition's rendering, which passes the parenthesis check again whenever the condition's operands do |
| Decorators.CheckQuery | search/decorators.py:50-62 | `_validate` passes iff the query is balanced, and otherwise aborts with the unbound-name error |
| Decorators.ValidateQuery | search/decorators.py:64-66 | a balanced query calls `func` with the same arguments and returns its result; an unbalanced one never calls it |

## Left out

- Regular expressions, `strptime` with its format list, the wall clock (`datetime.now().year` for year-1900 dates) and the `ply` lexer and grammar (lexer.py, search/lexer.py) are function parameters, not models.
- search/lexer.py is not part of this model, so its reference to an undefined `AnyExpression` is not either.
- Result order: Python returns the results in set iteration order, which depends on hashes. The model lists them in input order. Contents and multiplicity are modelled; order is not.
- Object identity: a wrapper's identity is its input position (`id`), not a memory address.
- SearchConditions.Eval: the newer leaf relation `rel` is total. An exception raised inside a comparison (such as `match`, which search/fields.py does not define) is not propagated.
- Floats, `decimal` and every value type beyond int, str, bool, None, date, datetime and list are not modelled. A datetime carries whole seconds; microseconds and time zones are not modelled.
- PyValues.Repr: the `repr` of a list element always uses single quotes and escapes nothing, and a date inside a list renders as ISO text; Python switches to double quotes for a string holding `'`, escapes backslashes and prints `datetime.date(2020, 1, 2)`. This reaches results only through `str()` of list values, in `SearchConditions.LegacyRelation` and `SearchFields.ConvertAll` chains.
- Records.FieldList: a provider's `fields` is modelled as a re-iterable list. A one-shot generator of SearchFields is consumed by the `all(...)` scan of search/convertable_types.py:60-61 before `extend` runs, so Python yields no fields for it; the model keeps its items.
- PyValues.PyCompare: `==` on two lists compares them as values, and ordering two lists raises TypeError. Python compares their elements with `==`, so `[1] == [True]`, and orders lists lexicographically. The root generation drops list-valued fields before any comparison (`ConvertableTypes.FilterDropsExactlyCollections`); in the newer generation this matters only through `SearchConditions.LegacyRelation`.
- Logging (`logger.debug`, `logger.warning`, `logger.error`), the `stacktrace` decorator and its global `STACKDEPTH` counter are not modelled. They do not change results.
- The `assert isinstance(...)` checks in fields.py:45-46, fields.py:118, search/fields.py:69 and search/field.py:53 are not modelled: the model's types already make the query value a str.
- PureField.ConvertType: the generator's second `yield None` after an exception raised back into a `with` block is not modelled; only the yielded value is.
- Python reflection (`__dict__` and class `property` scanning) is replaced by explicit ordered property and attribute lists (`Records.HostObject`).
- `__str__`/`__repr__` of fields and wrappers, and the abstract `SearchDataProvider` interfaces, are not modelled beyond a datatype case.
- CLIs, the test runners, the performance harnesses, packaging and `search/parsers` are not part of this model.

## Findings

| source | as written | input that shows it | evidently intended | confidence | as-written member | corrected member |
|---|---|---|---|---|---|---|
| search/conditions.py:174-176 | `GreaterThanOrEqualExpression.OPERATOR = operator.gt` | the record `{x: 3}` and the query `x >= 3`, with the comparisons of fields.py (`date` imported) as the operators that search/fields.py does not define: not selected. As the code stands, `operator.gt` on the two field objects raises TypeError out of `Query.__call__` instead | `operator.ge`, so that `>=` selects a field equal to the literal | high, not executed | SearchConditions.OperatorAsWritten, SearchConditions.GreaterOrEqualAsWrittenIsGreater, SearchConditions.GreaterOrEqualCounterexample | SearchConditions.Operator, SearchConditions.OperatorInjective, SearchConditions.TablesAgreeWithoutGreaterOrEqual |
| fields.py:126 | `isinstance(value, (date, datetime))` with `date` never imported (fields.py:4 imports only `datetime`) | the record `{x: 3}` and the query `x = 3`: `__call__` raises NameError, the handler returns False, nothing is selected | `from datetime import date, datetime`, as in search/fields.py:3 | high, not executed | Fields.ConvertAsWritten, Fields.AsWritten, Fields.AsWrittenNeverMatches, Fields.MissingDateImportCounterexample, Conditions.AsWrittenComparisonSelectsNothing, RootQuery.AsWrittenComparisonFindsNothing | Fields.Convert, Fields.Repaired, Fields.EqualsOwnRendering, Conditions.EqualitySelectsOwnRendering |
