# idb entity query engine, modelled in Dafny

This project models the query engine of the `BaseEntity` class of the `idb` library
(`src/entity.ts`). `idb` is a small object layer over IndexedDB. An entity class declares its
`FIELDS` (plain key fields and at most one auto-increment key, among ordinary fields) and its
`INDEXES`. These can be shorthand index names or `{name, keyPath, options}` descriptors with a
single-field or composite key path. Its members read records through cursors. The model covers:

- **Schema** (`schema.dfy`):
  - `getEntityKeyPath`, which gives the key path and the auto-increment key;
  - the record that `add` resolves to;
  - `getAllIndexFields`, which gives the set of index-probeable field names.
- **Index selection** (`index_selection.dfy`):
  - `selectIndex`, where the last matching `INDEXES` entry wins;
  - `requestMethodSelector`, which decides how a cursor is opened: directly on a key or key range,
    as a full scan of the store, or on a selected index with a probe value built from the query.
- **Cursor iteration** (`cursor.dfy`):
  - `iterate`, which applies the one-shot `offset` through `cursor.advance`, filters each record
    with the array and function values of the query, and counts `limit` down;
  - `getAll`, which hands the results either to iteration or to the sort engine;
  - `exclude`.
- **Autocomplete** (`matching.dfy`):
  - word splitting: every word of the query string must occur, compared case-insensitively, at some
    position of the space-free match field;
  - the empty-string and undefined-field cases;
  - the stable sort by match-field length, ascending or descending;
  - `slice(0, limit)`.
- **Aggregation** (`aggregation.dfy`):
  - `aggMap`, which keeps a running sum per group key (the group key as a property key) and the last
    key value;
  - the `flat` variant, `Object.values(result)[0]`;
  - `Object.values` order: array-index keys ascending, then other keys in insertion order;
  - `agg`, which passes those values to the sort engine, or applies `splice(offset, limit)`, or
    returns them unchanged.

JavaScript values are the datatype `Values.Value`. A record is a `map<string, Value>`, where a
missing property reads as `undefined`. A query object is a sequence of `Entry`s in `Object.keys`
order. Each entry holds an equality value, a RegExp, an array or a function. Numeric options
(`offset`, `limit`) are a `NumArg`, which is `undefined`, `null`, `NaN` or an integer, so the
truthiness tests of the source are exact. The records a cursor delivers come from a parameter
`store: AccessPath -> seq<Record>`, which maps each way of opening a cursor to the records it
delivers.

Functions and methods: every operation that the source writes as a loop is a `method` with a loop.
Each such method is proved equal to a specification function:

- `GetEntityKeyPath`;
- `GetAllIndexFields` (with `AddNames`);
- `SelectIndex`;
- `Walk`, the cursor loop;
- `ContainsWord` and `MatchesAllWords`, the `substr`/`localeCompare` scan;
- `KeepsRecord` and `MatchRecords`;
- `FoldRecord` and `AggregateRecords`, which generalise the two `reduce`s.

Lemmas then state what the source promises about those specification functions. Everything that
can fail in the source and is kept in the model returns a `Result`:

- `Object.keys(null)`;
- `cursor.advance` of a count outside `[1, 2^32 - 1]`;
- `Object.entries(undefined)`, which `iterate` reaches at the first record of the whole store that an
  undefined query opens;
- `.length` of a nullish autocomplete term.

Where the code departs from what its comments and unit tests suggest, or from what a reader would expect, the model follows the code:

- `getAllIndexFields` adds the key path of every single-field descriptor, including unique ones
  (`src/entity.ts:352-354`). Only composite unique key paths are skipped. The unit test
  `src/tests/entity.spec.ts:258-268` expects this too.
- `requestMethodSelector` filters `Object.keys(query)` by index membership alone
  (`src/entity.ts:303`). So a query key whose value is an array or a function is also used to
  choose the index. An array value then gives a `null` probe (single-field key path) or is dropped
  from the probe (composite key path) (`src/entity.ts:312-318`).
- `agg` with a truthy `offset` and no `limit` returns `[]`. This is because `splice(offset,
  undefined)` removes nothing (`src/entity.ts:256`).

## Model

| member | source | states |
|---|---|---|
| Values.QueryGet | src/entity.ts:313-317 | `query[field]` is the value of the first entry with that name, and `undefined` when no entry has it |
| Values.PropertyKey | src/entity.ts:223 | definition (no contract of its own): the property name a group key takes, as ToPropertyKey gives it for undefined, null, booleans, integers and strings; NumberAndNumeralShareKey, DistinctNumbersDistinctKeys and NumberKeyIsArrayIndex state what grouping depends on |
| Values.NumberAndNumeralShareKey | src/entity.ts:223 | a non-negative number and its decimal numeral name the same property, so `1` and `"1"` fall into one group |
| Values.DistinctNumbersDistinctKeys | src/entity.ts:223 | different non-negative numbers name different properties, so they stay in different groups |
| Values.NumberKeyIsArrayIndex | src/entity.ts:252 | a non-negative integer group key below 2^32 - 1 is a canonical array index whose numeric value is that integer, so it is among the keys `Object.values` lists first |
| Schema.FirstAuto | src/entity.ts:330-336 | the walk stops at the first auto-increment field: every field before that position is not one |
| Schema.KeyNamesMembers | src/entity.ts:338-340 | a name is collected as a key field exactly when some field of that name is a plain key |
| Schema.EntityKeyPath | src/entity.ts:326-343 | there is an auto-increment key exactly when some field is auto, and it is then the last element of the key path |
| Schema.GetEntityKeyPath | src/entity.ts:326-343 | the for-in loop with `break` returns exactly the key path and auto key of the specification |
| Schema.KeyPathMembers | src/entity.ts:330-341 | a name is on the key path iff it is a plain key field before the first auto field, or it is the auto field |
| Schema.LaterFieldsIgnored | src/entity.ts:333-336 | fields declared after the first auto field never change the key path (the `break`) |
| Schema.FirstAutoFromPrefix | src/entity.ts:333-336 | an auto field with no auto field before it is where the walk stops |
| Schema.AddedRecord | src/entity.ts:30-41 | `add` resolves to the record with the auto key field set to the generated key and every other field unchanged; without an auto key, or with an empty (falsy) name, the record is returned as given |
| Schema.IndexFields | src/entity.ts:345-360 | the set converted by `Array.from` has no duplicates |
| Schema.ContributionsMembers | src/entity.ts:346-358 | a name is added during the reduce iff some `INDEXES` entry contributes it |
| Schema.IndexFieldsMembers | src/entity.ts:345-360 | a name is index-probeable iff it is a shorthand index name, a single-field key path (unique or not), or a member of a non-unique composite key path |
| Schema.ContributionsSnoc | src/entity.ts:346 | each reduce step adds exactly that entry's names after the earlier ones |
| Schema.AddNames | src/entity.ts:350 | adding names one by one to an insertion-ordered set gives the first occurrences of the old names followed by the new ones |
| Schema.GetAllIndexFields | src/entity.ts:345-360 | the reduce over `INDEXES` gives the distinct contributed names in order of first insertion |
| Schema.IndexFieldsOfTestedCatalog | src/tests/entity.spec.ts:258-268 | the catalog of the getAllIndexFields test gives `['userId', 'email']` |
| IndexSelection.Matches | src/entity.ts:366-388 | definition (no contract of its own): whether an entry is selected for the passed fields; its meaning is stated by OneFieldMatches, SeveralFieldsNeedComposite, ShorthandAlwaysMatches and NoFieldsNoSelection |
| IndexSelection.OneFieldMatches | src/entity.ts:375-379 | with one passed field, a descriptor matches exactly when its key path is that field's name or an array holding only that name |
| IndexSelection.SelectionOf | src/entity.ts:365-389 | a matching entry writes its own name into the selection |
| IndexSelection.SelectedIndex | src/entity.ts:362-391 | definition (no contract of its own): the last matching entry's selection, or `[null, []]`; SelectIndex is proved equal to it, and LastMatchWins and EmptySelectionIffNoMatch state its meaning |
| IndexSelection.SelectIndex | src/entity.ts:362-391 | the loop over `INDEXES` returns the selection of the last matching entry, or `[null, []]` |
| IndexSelection.LastMatchWins | src/entity.ts:365-389 | when entry j matches and no later entry does, the result is entry j's name and key path |
| IndexSelection.EmptySelectionIffNoMatch | src/entity.ts:362-391 | the result is `[null, []]` exactly when no entry matches |
| IndexSelection.ShorthandAlwaysMatches | src/entity.ts:388 | a shorthand string entry is selected whatever fields were passed |
| IndexSelection.SeveralFieldsNeedComposite | src/entity.ts:367-373 | with more than one passed field, a descriptor matches iff its key path is composite, has the same length and contains every passed field |
| IndexSelection.NoFieldsNoSelection | src/entity.ts:375-379 | with no passed field and no shorthand entry, nothing is selected (`passedIndexFields[0]` is undefined) |
| IndexSelection.SelectIndexOfTestedCatalog | src/tests/entity.spec.ts:245-256 | the selectIndex unit test: `['userId']` selects `userId-Idx`, and `[]` selects `[null, []]` |
| IndexSelection.PassedIndexFields | src/entity.ts:303 | definition (no contract of its own): the query's own keys that are index fields, in key order; RequestPath states how it decides the access path |
| IndexSelection.RequestPath | src/entity.ts:293-323 | `null` fails (Object.keys(null) throws); a primitive key or a key range opens the store directly; a query without an index field is a full scan; otherwise the selected index is probed |
| IndexSelection.ProbeOf | src/entity.ts:312-318 | definition (no contract of its own): the probe built from the query and the selected key path; its meaning is stated by CompositeProbe, CompositeProbeHasNoArrays and SingleFieldProbe |
| IndexSelection.CompositeProbe | src/entity.ts:312-313 | with a composite key path and no array values, the probe is the query's values in key-path order |
| IndexSelection.CompositeProbeHasNoArrays | src/entity.ts:313 | a composite probe never contains an array value |
| IndexSelection.SingleFieldProbe | src/entity.ts:314-318 | with a single-field key path, the probe is the query value, or `null` when that value is an array |
| Cursor.EntryAccepts | src/entity.ts:85-95 | definition (no contract of its own): one query entry's verdict: an array tests membership of the field value, a function is applied to it, anything else accepts; ExcludeFilter and ScalarEntriesNeverReject state instances |
| Cursor.Satisfies | src/entity.ts:85-95 | definition (no contract of its own): every entry accepts; ScanIsSatisfies proves that the `every` callback rejects exactly what it does not satisfy |
| Cursor.Scan | src/entity.ts:83-95 | definition (no contract of its own): the `every` callback returning `(isInList, found)`; its meaning is stated by ScanIsSatisfies |
| Cursor.ScanIsSatisfies | src/entity.ts:83-99 | the `every` callback's `found` is true iff every array or function entry accepts the record, and a rejection always sets `isInList`, so `isInList && !found` is exactly a rejection |
| Cursor.ScalarEntriesNeverReject | src/entity.ts:94 | equality and RegExp values never reject a record |
| Cursor.ExcludeFilter | src/entity.ts:393 | a query entry `exclude(values)` accepts a record iff its field is not among the values |
| Cursor.QueryEntries | src/entity.ts:85 | definition (no contract of its own): the entries `Object.entries(query)` gives to the filter: the query object's own, none for a key or key range; IteratedQuery handles `undefined`, for which Object.entries throws |
| Cursor.Take | src/entity.ts:100-104 | the yielded records are a prefix of the accepted ones, as long as the cap or all of them |
| Cursor.SkipTo | src/entity.ts:77-81 | the position the walk resumes at after `advance(offset)` never passes the end of the cursor |
| Cursor.Cap | src/entity.ts:102 | definition (no contract of its own): how many yields a limit allows; CountdownStep ties it to the `--limit` countdown |
| Cursor.Iterated | src/entity.ts:68-106 | definition (no contract of its own): skip, filter and cap composed; Walk is proved equal to it and the Iterated lemmas below state its properties |
| Cursor.IteratedQuery | src/entity.ts:68-106 | definition (no contract of its own): Iterated over the query's entries, preceded by the two failures in the order the loop meets them: the `advance` range error, then `Object.entries(undefined)` at the first record an undefined query visits |
| Cursor.IterateSpec | src/entity.ts:43-107 | definition (no contract of its own): the access path of the query, then IteratedQuery over the records its cursor delivers; Iterate is proved equal to it and UndefinedQueryYieldsNothing states the undefined case |
| Cursor.CountdownStep | src/entity.ts:102 | `--limit` reaches zero exactly when the count of yields reaches the cap |
| Cursor.VisitRecord | src/entity.ts:83-105 | one cursor position: a rejected record is skipped, an accepted one is yielded, and the walk stops exactly when the limit count reaches zero, with the cursor on the last yielded record |
| Cursor.Walk | src/entity.ts:68-106 | the cursor loop returns exactly IteratedQuery, including the `advance` failure and the `Object.entries(undefined)` failure, and reports that it stopped on the limit exactly when the cap was reached |
| Cursor.Iterate | src/entity.ts:43-107 | iterate with the access path of the query gives the filtered, offset and limited records, or the error the path, the advance or an undefined query raises |
| Cursor.IteratedYieldsAccepted | src/entity.ts:77-99 | every yielded record passes the filter and comes after the skipped positions |
| Cursor.IteratedCount | src/entity.ts:102-104 | a limit of n ≥ 1 yields min(n, number of accepted records after the offset) |
| Cursor.IteratedUnbounded | src/entity.ts:102 | a `null`, zero or negative limit yields every accepted record after the offset |
| Cursor.UndefinedLimitYieldsAtMostOne | src/entity.ts:102 | with an undefined limit (`--undefined` is NaN, which is falsy) at most one record is yielded |
| Cursor.OffsetPastEndYieldsNothing | src/entity.ts:69-82 | an offset at or past the end of the cursor yields nothing: the advanced cursor is null and the loop ends |
| Cursor.UndefinedQueryYieldsNothing | src/entity.ts:77-95 | an undefined query opens a cursor on the whole store and yields nothing: it fails with the Object.entries error exactly when a record is left after a valid offset, and with the advance error first when the offset is invalid |
| Cursor.OffsetSkipsRawPositions | src/entity.ts:77-81 | an offset n is applied once, to raw positions before the filter: it equals iterating over the records after position n without an offset |
| Cursor.FalsyOffsetSkipsNothing | src/entity.ts:77 | an undefined, null, NaN or 0 offset skips nothing |
| Cursor.ScalarQueryYieldsAll | src/entity.ts:83-99 | a query of equality values yields every record its cursor delivers |
| Cursor.GetAll | src/entity.ts:196-213 | with a sort, the unbounded iteration goes to the sort engine with the offset and limit; otherwise it is iterate with the offset and limit; an omitted options object is all-null |
| Matching.MergeWords | src/entity.ts:140 | the merged source string has no whitespace |
| Matching.MergeWordsCons | src/entity.ts:140 | merging keeps each non-space character in order and drops each space |
| Matching.WordsAreWords | src/entity.ts:139 | every word the split produces is non-empty and has no whitespace |
| Matching.WordsSpellMerged | src/entity.ts:139-140 | the words, concatenated, spell the merged string |
| Matching.SplitByWordsShape | src/entity.ts:139-140 | the query words are non-empty and space-free, and together they spell the merged query string |
| Matching.SameBase | src/entity.ts:144-146 | definition (no contract of its own): `localeCompare(…, {sensitivity: 'base'}) === 0` as equal length and equal characters after case folding; ContainsWord is proved to scan for it |
| Matching.Window | src/entity.ts:144 | `substr(i, n)` is at most n characters |
| Matching.ContainsWord | src/entity.ts:143-151 | the scan over source positions finds the word iff it occurs, compared case-insensitively, at some position |
| Matching.MatchesAllWords | src/entity.ts:142-152 | `every` over the query words is true iff each word occurs in the source |
| Matching.Truncated | src/entity.ts:162 | `slice(0, limit)` is a prefix: the whole list for a falsy limit, min(limit, length) elements for a positive one, and the length plus limit for a negative one |
| Matching.Kept | src/entity.ts:130-156 | definition (no contract of its own): a record is kept when its match field is defined and the term is empty or every query word occurs in it; KeepsRecord is proved equal to it |
| Matching.KeepsRecord | src/entity.ts:133-156 | for a defined match field, the record is kept iff the term is empty or every query word occurs in it |
| Matching.MatchRecords | src/entity.ts:121-157 | the loop keeps exactly the records the decision accepts, in cursor order, skips undefined match fields, and fails on a nullish term once a defined field is met |
| Matching.Autocomplete | src/entity.ts:109-163 | autocomplete matches the records iterate yields for the query, sorts them by match-field length and truncates them by the limit; an omitted options object is `asc: true, limit: null` |
| Matching.AutocompleteKeepsMatches | src/entity.ts:130-156 | every returned record was delivered and matches the term |
| Matching.AutocompleteIsOrdered | src/entity.ts:158-161 | results are in nondecreasing match-field length unless `asc` is false, and then in nonincreasing length |
| Matching.AutocompleteReturnsAllKept | src/entity.ts:158-162 | without a truthy limit the result is a permutation of all matching records |
| Matching.AutocompleteIsStable | src/entity.ts:158-162 | for every limit, the returned records of one match-field length are a prefix of the matching records of that length in cursor order; without a truthy limit they are all of them, in cursor order |
| Matching.EmptyTermKeepsDefined | src/entity.ts:133-137 | an empty query string keeps every record whose match field is defined |
| Matching.SingleLetterWords | src/tests/entity.spec.ts:68-69 | the test's query `'s'` splits into the one word `'s'` |
| Matching.NoSInMike | src/tests/entity.spec.ts:58-75 | `'Mike'` holds no `'s'` in either case |
| Matching.SingleLetterTermKeepsSam | src/tests/entity.spec.ts:58-75 | the test's term `'s'` matches `'Sam'` |
| Matching.SingleLetterTermDropsMike | src/tests/entity.spec.ts:58-75 | the test's term `'s'` does not match `'Mike'` |
| Aggregation.Folded | src/entity.ts:223-226 | definition (no contract of its own): the inner reduce over the fields, from a fresh object; FoldedFields and FoldRecord state its fields and sums |
| Aggregation.FoldedFields | src/entity.ts:223-226 | the inner reduce builds a fresh object holding exactly the listed fields, each the record's value plus the previous group value or 0 |
| Aggregation.Aggregate | src/entity.ts:222-229 | definition (no contract of its own): the outer reduce over the records, one Step each; AggregateRecords, AggregateMembers, AggregateOrder, AggregateSums and AggregateKeyField state its meaning |
| Aggregation.AggregateFieldSets | src/entity.ts:222-229 | every group value holds exactly the listed fields and the key field |
| Aggregation.FoldRecord | src/entity.ts:223-226 | the inner reduce loop computes the folded group value |
| Aggregation.AggregateRecords | src/entity.ts:222-229 | the outer reduce loop computes the specified groups |
| Aggregation.KeysOf | src/entity.ts:223 | each record is filed under the property key of its key field |
| Aggregation.SumOfSnoc | src/entity.ts:224 | a field's sum over a group grows by the new record's value |
| Aggregation.AggregateOrder | src/entity.ts:222-229 | groups are created in order of the first record of each key, and the result object has exactly those keys |
| Aggregation.AggregateMembers | src/entity.ts:223 | a group exists iff some record has that group key |
| Aggregation.NoGroupNoRecords | src/entity.ts:223 | a key without a group has no records |
| Aggregation.Step | src/entity.ts:222-228 | definition (no contract of its own): one outer reduce step; StepAdds, AggregateSnoc and SumsStep state its effect |
| Aggregation.StepAdds | src/entity.ts:224 | a step adds the record's field value to the previous sum of its group |
| Aggregation.AggregateSnoc | src/entity.ts:222 | the reduce over records plus one more is one more step on the earlier result |
| Aggregation.SumsStep | src/entity.ts:222-228 | if a group's sums held before a step, they hold after it |
| Aggregation.AggregateSums | src/entity.ts:222-229 | each summed field of a group (other than the key field) is the sum of that field over all records of the group |
| Aggregation.AggregateKeyField | src/entity.ts:227 | a group's key field holds the key value of the last record of that group, and the group has a record |
| Aggregation.OwnKeys | src/entity.ts:252 | definition (no contract of its own): the own-key order of an object, array-index keys by numeric value and then the rest in creation order; OwnKeysPermutation, IndexKeysSorted, OwnKeysOrder and OwnKeysKeepInsertionOrder state it |
| Aggregation.OwnKeysPermutation | src/entity.ts:252 | `Object.values` lists every group key exactly once |
| Aggregation.IndexKeysSorted | src/entity.ts:252 | the array-index keys come in ascending numeric order |
| Aggregation.OwnKeysOrder | src/entity.ts:252 | an array-index key is preceded only by array-index keys of smaller or equal value |
| Aggregation.OwnKeysKeepInsertionOrder | src/entity.ts:252 | keys that are not array indices keep their insertion order |
| Aggregation.ValuesIn | src/entity.ts:252 | the values are looked up key by key, in the given key order |
| Aggregation.ObjectValues | src/entity.ts:252 | definition (no contract of its own): `Object.values` of the groups; ObjectValuesInOwnKeyOrder states it |
| Aggregation.ObjectValuesInOwnKeyOrder | src/entity.ts:252 | `Object.values(result)` has one value per group, listed in own-key order |
| Aggregation.FirstValue | src/entity.ts:232 | definition (no contract of its own): `Object.values(result)[0]`; FirstValueIsFirstOwnKey and FirstGroup state which group it is |
| Aggregation.FirstValueIsFirstOwnKey | src/entity.ts:232 | `Object.values(result)[0]` is defined exactly when there is a group, and it is the group stored under the first own key |
| Aggregation.FirstOwnKeyOfOthers | src/entity.ts:232 | without array-index keys the first own key is the first key created |
| Aggregation.FirstOwnKeyOfIndexKeys | src/entity.ts:232 | with some array-index key the first own key is an array-index key of smallest numeric value |
| Aggregation.FirstOwnKeyWithoutIndexKeys | src/entity.ts:222-232 | over the group keys of the records, repeats included: without array-index keys the first own key is the first record's key |
| Aggregation.FirstOwnKeyWithIndexKeys | src/entity.ts:222-232 | over the group keys of the records: with an array-index key, the first own key is the key of some record and is an array index of smallest value |
| Aggregation.FirstValueOfAggregate | src/entity.ts:222-232 | the first value is undefined exactly when there are no records, and is otherwise the group under the first own key of the group keys |
| Aggregation.FirstGroupWithoutIndexKeys | src/entity.ts:222-232 | without array-index group keys the first value is the first record's group |
| Aggregation.FirstGroupWithIndexKeys | src/entity.ts:222-232 | with an array-index group key the first value is the group of a record whose key is the array index of smallest value |
| Aggregation.FirstGroup | src/entity.ts:222-232 | the first value: undefined without records, the group of the smallest array-index key when there is one, otherwise the first record's group |
| Aggregation.AggMapFlatPicksFirstGroup | src/entity.ts:215-233 | `aggMap(…, flat = true)` resolves to that first value of the groups of all records getAll delivers |
| Aggregation.ExampleKeyKinds | src/entity.ts:252 | `"1"` is an array index and `"b"` is not |
| Aggregation.ExampleKeysByKind | src/entity.ts:252 | of the keys `"b"`, `"1"`, only `"1"` is an array index |
| Aggregation.OwnKeysOfExample | src/entity.ts:252 | an object whose key `"b"` was created before `"1"` lists `"1"` first |
| Aggregation.GroupsOfExample | src/entity.ts:222-229 | two records keyed `"b"` and `1` make the groups `"b"` and `"1"`, in that order, with their sums and key values |
| Aggregation.FlatPrefersIndexKey | src/entity.ts:231-233 | with those records, `flat` returns the group of key `1`, although group `"b"` was created first |
| Aggregation.AggMapSpec | src/entity.ts:215-235 | definition (no contract of its own): aggMap over the unbounded iteration; AggMap is proved equal to it and AggMapFlatPicksFirstGroup states the `flat` result |
| Aggregation.AggMap | src/entity.ts:215-235 | aggMap aggregates all records of getAll into the groups, or returns the first group value when `flat` |
| Aggregation.SpliceStart | src/entity.ts:256 | the start of `splice` is clamped to the array |
| Aggregation.Splice | src/entity.ts:256 | definition (no contract of its own): the elements `splice(start, deleteCount)` removes; SpliceWindow and SpliceWithoutCount state its meaning |
| Aggregation.SpliceWindow | src/entity.ts:256 | `splice(offset, limit)` with non-negative arguments returns the elements in `[offset, offset + limit)`, clamped to the array |
| Aggregation.SpliceWithoutCount | src/entity.ts:256 | `splice(start, undefined or null)` returns nothing |
| Aggregation.Arranged | src/entity.ts:253-256 | definition (no contract of its own): the sort engine with offset and limit, a splice when either is truthy, or the values unchanged; ArrangedByLimit and Agg state its cases |
| Aggregation.ArrangedByLimit | src/entity.ts:256 | a positive limit without a sort or an offset keeps the first `limit` values, all of them when there are fewer |
| Aggregation.AggSpec | src/entity.ts:237-257 | definition (no contract of its own): agg over the group values; Agg is proved equal to it, and AggOffsetOnlyIsEmpty and AggLimitOnlyKeepsPrefix state the splice cases |
| Aggregation.Agg | src/entity.ts:237-257 | agg takes the group values of aggMap and either sorts them, splices them by offset and limit, or returns them as they are |
| Aggregation.AggOffsetOnlyIsEmpty | src/entity.ts:256 | agg with only a non-zero offset returns `[]` |
| Aggregation.AggLimitOnlyKeepsPrefix | src/entity.ts:256 | agg with only a positive limit returns the first `limit` group values |

## Left out

- IndexedDB itself is not modelled: transactions, `getObjectStore` (including its throw when `NAME` is unset), `idbRequestWrapper`, `get` and `getCount`. The records a cursor delivers are the parameter `store`, and a failed request is not modelled.
- `objectStore.index(null)`, reached when no index matches the passed fields, throws in IndexedDB. The model returns `IndexProbe(None, …)` and the `store` parameter decides what it delivers.
- The async generator protocol is not modelled: promises, `defer`, and `onsuccess`/`onerror`. The key a consumer sends back with `next(key)` and passes to `cursor.continue(nextKey)` is not modelled either; `autocomplete` calls `next()` without a key, and the consumers `genToArr` and `iterSort`, whose source is not part of this model, are taken to send none either.
- The sort engine (`sort`/`iterSort` in `src/utils.ts`) is the abstract `Sorter` parameter, and `genToArr` is the identity on the yielded sequence. `src/utils.ts` is not part of this model.
- `search` is left out: it is marked as in development, and its RegExp tests need a regular-expression engine.
- `localeCompare` with base sensitivity is modelled as ASCII case folding (`Matching.Fold`). Locale collation and accent folding are not modelled, and neither is the `locales` option.
- `splitByWords` and `mergeWords` come from `src/utils.ts`, which is not part of this model. They are defined here as splitting on, and removing, the six ASCII whitespace characters: space, tab, line feed, vertical tab, form feed and carriage return. Other Unicode white space is not treated as a separator.
- JavaScript numbers are integers here: NaN sums, floating point and string concatenation by `+` are not modelled.
- Matching.Autocomplete: requires the term not to be an array or a function, and every delivered match field to be a string or undefined, because `.length` and `substr` of other values are not modelled.
- Aggregation.AggMap: requires the aggregated fields of the delivered records to be numbers, because `+` on other values is not modelled.
- Aggregation.Agg: requires the same as Aggregation.AggMap.
- Aggregation.AggregateSums: states the sums only for fields other than the key field, because the key field is overwritten by the key value.
- The inherited properties of a plain object (`aggResult['toString']`) are not modelled.
- Array and Date query keys are not modelled, and neither is key ordering inside IndexedDB.
- `Object.keys` order of integer-like query keys is not modelled: the entries of a query are taken in the order given.
- The `for … in FIELDS` walk of `getEntityKeyPath` lists integer-like field names first, in ascending numeric order. The model walks the fields in declaration order, so it is exact only for entities without integer-like field names.
- Strings are sequences of Unicode scalar values, while JavaScript's `.length` and `substr` count UTF-16 code units. A match field holding a character outside the Basic Multilingual Plane (an emoji, say) therefore sorts by a different length and is windowed differently in the model.
- A function value in a query (`Pred`) is a total, pure function of the field value. A filter function that throws, which would end `iterate` with that exception, or that keeps state between calls, is not modelled.
- `FIELD_TYPE` symbols, `getKeyField` and foreign keys are not modelled. A field is a plain key, an auto-increment key or another field.
- The sort inside `autocomplete` and the `splice` inside `agg` work in place on a local array in the source. They are pure functions here, because no caller can observe the array afterwards.
- The in-memory IndexedDB double used by the tests (`src/tests/indexedDB.ts`) and the React hooks (`src/hooks.ts`, `src/store.ts`) are not part of this model.
