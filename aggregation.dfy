/** Grouped running sums (aggMap) and their paged listing (agg). */
module Aggregation {
  import opened Results
  import opened Values
  import opened Seqs
  import opened Schema
  import opened IndexSelection
  import opened Cursor

  // ---------------------------------------------------------------- the accumulator

  /** The accumulator object: its own property keys in insertion order, and the value under each key. */
  datatype Groups = Groups(order: seq<string>, values: map<string, Record>)

  /** The property key a record is grouped under: its key field's value, converted by ToPropertyKey. */
  function GroupKey(keyField: string, rec: Record): string {
    PropertyKey(Get(rec, keyField))
  }

  /** `x || 0` for a running total, and the numeric value of a record's listed field. */
  function NumOf(v: Value): int {
    if v.Num? then v.n else 0
  }

  /** The inner reduce: every listed field becomes the record's value plus the group's previous total. */
  function Folded(prev: Record, rec: Record, fields: seq<string>): Record {
    if fields == [] then map[]
    else
      var f := fields[|fields| - 1];
      Folded(prev, rec, fields[..|fields| - 1])[f := Num(NumOf(Get(rec, f)) + NumOf(Get(prev, f)))]
  }

  /** The new group value has exactly the listed fields, each the record's value plus the previous total. */
  lemma {:induction false} FoldedFields(prev: Record, rec: Record, fields: seq<string>)
    ensures Folded(prev, rec, fields).Keys == set f | f in fields
    ensures forall f <- fields :: Folded(prev, rec, fields)[f] == Num(NumOf(Get(rec, f)) + NumOf(Get(prev, f)))
  {
    if fields != [] {
      var pre := fields[..|fields| - 1];
      FoldedFields(prev, rec, pre);
      assert forall g <- fields :: g == fields[|fields| - 1] || g in pre;
      assert forall g <- pre :: g in fields;
    }
  }

  /** The outer reduce's step: the record's group gets its new totals and then its key field. */
  function Step(acc: Groups, rec: Record, keyField: string, fields: seq<string>): Groups {
    var g := GroupKey(keyField, rec);
    var prev := if g in acc.values then acc.values[g] else map[];
    Groups(if g in acc.values then acc.order else acc.order + [g],
           acc.values[g := Folded(prev, rec, fields)[keyField := Get(rec, keyField)]])
  }

  /** The accumulator after reducing over `records`. */
  function Aggregate(records: seq<Record>, keyField: string, fields: seq<string>): Groups
    decreases |records|
  {
    if records == [] then Groups([], map[])
    else Step(Aggregate(records[..|records| - 1], keyField, fields), records[|records| - 1], keyField, fields)
  }

  /** Every group value has exactly the listed fields and the key field. */
  lemma {:induction false} AggregateFieldSets(records: seq<Record>, keyField: string, fields: seq<string>)
    ensures forall g <- Aggregate(records, keyField, fields).values ::
              Aggregate(records, keyField, fields).values[g].Keys == (set f | f in fields) + {keyField}
    decreases |records|
  {
    if records != [] {
      AggregateFieldSets(records[..|records| - 1], keyField, fields);
      FoldedFields(map[], records[|records| - 1], fields);
      var acc := Aggregate(records[..|records| - 1], keyField, fields);
      var g := GroupKey(keyField, records[|records| - 1]);
      if g in acc.values {
        FoldedFields(acc.values[g], records[|records| - 1], fields);
      }
    }
  }

  /** The inner reduce over the listed fields. */
  method FoldRecord(prev: Record, rec: Record, fields: seq<string>) returns (v: Record)
    ensures v == Folded(prev, rec, fields)
  {
    v := map[];
    for j := 0 to |fields|
      invariant v == Folded(prev, rec, fields[..j])
    {
      var f := fields[j];
      assert fields[..j + 1][..j] == fields[..j];
      v := v[f := Num(NumOf(Get(rec, f)) + NumOf(Get(prev, f)))];
    }
    assert fields[..|fields|] == fields;
  }

  /** The outer reduce over the records getAll delivers, updating the accumulator in cursor order. */
  method AggregateRecords(records: seq<Record>, keyField: string, fields: seq<string>) returns (acc: Groups)
    ensures acc == Aggregate(records, keyField, fields)
  {
    var order: seq<string> := [];
    var values: map<string, Record> := map[];
    for i := 0 to |records|
      invariant Groups(order, values) == Aggregate(records[..i], keyField, fields)
    {
      assert records[..i + 1][..i] == records[..i];
      var rec := records[i];
      var g := GroupKey(keyField, rec);
      var prev := if g in values then values[g] else map[];
      var v := FoldRecord(prev, rec, fields);
      if g !in values {
        order := order + [g];
      }
      values := values[g := v[keyField := Get(rec, keyField)]];
    }
    assert records[..|records|] == records;
    acc := Groups(order, values);
  }

  // ---------------------------------------------------------------- what the accumulator holds

  /** The group key of every record, in cursor order. */
  function KeysOf(records: seq<Record>, keyField: string): (ks: seq<string>)
    ensures |ks| == |records|
    ensures forall i :: 0 <= i < |records| ==> ks[i] == GroupKey(keyField, records[i])
  {
    if records == [] then []
    else KeysOf(records[..|records| - 1], keyField) + [GroupKey(keyField, records[|records| - 1])]
  }

  function InGroup(keyField: string, g: string): Record -> bool {
    rec => GroupKey(keyField, rec) == g
  }

  /** The records of one group, in cursor order. */
  function GroupOf(records: seq<Record>, keyField: string, g: string): seq<Record> {
    Filter(records, InGroup(keyField, g))
  }

  /** The sum of a field over some records. */
  function SumOf(records: seq<Record>, f: string): int {
    if records == [] then 0 else SumOf(records[..|records| - 1], f) + NumOf(Get(records[|records| - 1], f))
  }

  lemma SumOfSnoc(records: seq<Record>, rec: Record, f: string)
    ensures SumOf(records + [rec], f) == SumOf(records, f) + NumOf(Get(rec, f))
  {
    assert (records + [rec])[..|records|] == records;
  }

  /** The keys of the accumulator are the distinct group keys, in order of first appearance. */
  lemma {:induction false} AggregateOrder(records: seq<Record>, keyField: string, fields: seq<string>)
    ensures Aggregate(records, keyField, fields).order == Dedup(KeysOf(records, keyField))
    ensures forall g :: g in Aggregate(records, keyField, fields).values <==> g in Aggregate(records, keyField, fields).order
    decreases |records|
  {
    if records != [] {
      var pre := records[..|records| - 1];
      AggregateOrder(pre, keyField, fields);
      assert KeysOf(records, keyField) == KeysOf(pre, keyField) + [GroupKey(keyField, records[|records| - 1])];
      DedupSnoc(KeysOf(pre, keyField), GroupKey(keyField, records[|records| - 1]));
    }
  }

  /** A key names a group exactly when some record has it. */
  lemma AggregateMembers(records: seq<Record>, keyField: string, fields: seq<string>, g: string)
    ensures g in Aggregate(records, keyField, fields).values <==>
            exists i :: 0 <= i < |records| && GroupKey(keyField, records[i]) == g
  {
    AggregateOrder(records, keyField, fields);
    var ks := KeysOf(records, keyField);
    if g in Aggregate(records, keyField, fields).values {
      var d := Dedup(ks);
      var k :| 0 <= k < |d| && d[k] == g;
      assert d[k] in ks;
    } else {
      forall i | 0 <= i < |records| ensures GroupKey(keyField, records[i]) != g {
        assert ks[i] in Dedup(ks);
      }
    }
  }

  /** A key that names no group has no records. */
  lemma NoGroupNoRecords(records: seq<Record>, keyField: string, fields: seq<string>, g: string)
    requires g !in Aggregate(records, keyField, fields).values
    ensures GroupOf(records, keyField, g) == []
  {
    AggregateMembers(records, keyField, fields, g);
    FilterNone(records, InGroup(keyField, g));
  }

  /** One step adds the record's value of a listed field to its group's previous total. */
  lemma StepAdds(acc: Groups, rec: Record, keyField: string, fields: seq<string>, f: string)
    requires f in fields && f != keyField
    ensures f in Step(acc, rec, keyField, fields).values[GroupKey(keyField, rec)]
    ensures var g := GroupKey(keyField, rec);
            var before := if g in acc.values then NumOf(Get(acc.values[g], f)) else 0;
            Step(acc, rec, keyField, fields).values[g][f] == Num(NumOf(Get(rec, f)) + before)
  {
    var g := GroupKey(keyField, rec);
    FoldedFields(if g in acc.values then acc.values[g] else map[], rec, fields);
  }

  lemma AggregateSnoc(pre: seq<Record>, rec: Record, keyField: string, fields: seq<string>)
    ensures Aggregate(pre + [rec], keyField, fields) == Step(Aggregate(pre, keyField, fields), rec, keyField, fields)
  {
    assert (pre + [rec])[..|pre|] == pre;
  }

  /** The running sum of a group survives one more record. */
  lemma SumsStep(pre: seq<Record>, rec: Record, keyField: string, fields: seq<string>, g: string, f: string)
    requires f in fields && f != keyField
    requires g in Aggregate(pre, keyField, fields).values ==>
             f in Aggregate(pre, keyField, fields).values[g] &&
             Aggregate(pre, keyField, fields).values[g][f] == Num(SumOf(GroupOf(pre, keyField, g), f))
    requires g in Aggregate(pre + [rec], keyField, fields).values
    ensures f in Aggregate(pre + [rec], keyField, fields).values[g]
    ensures Aggregate(pre + [rec], keyField, fields).values[g][f] == Num(SumOf(GroupOf(pre + [rec], keyField, g), f))
  {
    var acc := Aggregate(pre, keyField, fields);
    AggregateSnoc(pre, rec, keyField, fields);
    FilterAppend(pre, [rec], InGroup(keyField, g));
    FilterSingle(rec, InGroup(keyField, g));
    if GroupKey(keyField, rec) == g {
      SumOfSnoc(GroupOf(pre, keyField, g), rec, f);
      StepAdds(acc, rec, keyField, fields, f);
      if g !in acc.values {
        NoGroupNoRecords(pre, keyField, fields, g);
      }
    } else {
      assert GroupOf(pre + [rec], keyField, g) == GroupOf(pre, keyField, g);
    }
  }

  /** Each listed field of a group holds the sum of that field over the group's records. */
  lemma {:induction false} AggregateSums(records: seq<Record>, keyField: string, fields: seq<string>, g: string, f: string)
    requires g in Aggregate(records, keyField, fields).values
    requires f in fields && f != keyField
    ensures f in Aggregate(records, keyField, fields).values[g]
    ensures Aggregate(records, keyField, fields).values[g][f] == Num(SumOf(GroupOf(records, keyField, g), f))
    decreases |records|
  {
    var n := |records| - 1;
    var pre := records[..n];
    if g in Aggregate(pre, keyField, fields).values {
      AggregateSums(pre, keyField, fields, g, f);
    }
    assert records == pre + [records[n]];
    SumsStep(pre, records[n], keyField, fields, g, f);
  }

  /** A group's key field holds the raw key value of the group's last record. */
  lemma {:induction false} AggregateKeyField(records: seq<Record>, keyField: string, fields: seq<string>, g: string)
    requires g in Aggregate(records, keyField, fields).values
    ensures keyField in Aggregate(records, keyField, fields).values[g]
    ensures var grp := GroupOf(records, keyField, g);
            |grp| > 0 && Aggregate(records, keyField, fields).values[g][keyField] == Get(grp[|grp| - 1], keyField)
    decreases |records|
  {
    var n := |records| - 1;
    var pre := records[..n];
    FilterSnoc(records, n, InGroup(keyField, g));
    assert records[..n + 1] == records;
    if GroupKey(keyField, records[n]) != g {
      AggregateKeyField(pre, keyField, fields, g);
    }
  }

  // ---------------------------------------------------------------- Object.values

  /**
   * The complement of IsArrayIndex, as a filter. It is named so that every lemma about OwnKeys filters with
   * the same function value: two occurrences of a lambda `s => !IsArrayIndex(s)` are not provably equal.
   */
  function OtherKey(s: string): bool {
    !IsArrayIndex(s)
  }

  /** Own property key order: array-index keys in ascending numeric order, then the others in insertion order. */
  function OwnKeys(order: seq<string>): seq<string> {
    SortBy(Filter(order, IsArrayIndex), DigitsValue) + Filter(order, OtherKey)
  }

  /** Own-key ordering lists every key exactly as often as the insertion order does. */
  lemma OwnKeysPermutation(order: seq<string>)
    ensures multiset(OwnKeys(order)) == multiset(order)
  {
    SortByIsSorted(Filter(order, IsArrayIndex), DigitsValue);
    FilterComplement(order, IsArrayIndex, OtherKey);
  }

  /** The sorted prefix holds array-index keys only, in ascending numeric order. */
  lemma IndexKeysSorted(order: seq<string>)
    ensures SortedBy(SortBy(Filter(order, IsArrayIndex), DigitsValue), DigitsValue)
    ensures forall k :: 0 <= k < |SortBy(Filter(order, IsArrayIndex), DigitsValue)| ==>
              IsArrayIndex(SortBy(Filter(order, IsArrayIndex), DigitsValue)[k])
  {
    var idx := Filter(order, IsArrayIndex);
    var sorted := SortBy(idx, DigitsValue);
    SortByIsSorted(idx, DigitsValue);
    forall k | 0 <= k < |sorted| ensures IsArrayIndex(sorted[k]) {
      assert sorted[k] in multiset(idx);
      var m :| 0 <= m < |idx| && idx[m] == sorted[k];
    }
  }

  /** Array-index keys come first, in ascending numeric order; the others keep their insertion order. */
  lemma OwnKeysOrder(order: seq<string>, i: nat, j: nat)
    requires i < j < |OwnKeys(order)|
    ensures IsArrayIndex(OwnKeys(order)[j]) ==>
            IsArrayIndex(OwnKeys(order)[i]) && DigitsValue(OwnKeys(order)[i]) <= DigitsValue(OwnKeys(order)[j])
  {
    var sorted := SortBy(Filter(order, IsArrayIndex), DigitsValue);
    IndexKeysSorted(order);
    var keys := OwnKeys(order);
    if j >= |sorted| {
      assert keys[j] == Filter(order, OtherKey)[j - |sorted|];
    } else {
      assert keys[i] == sorted[i] && keys[j] == sorted[j];
      assert DigitsValue(sorted[i]) <= DigitsValue(sorted[j]);
    }
  }

  /** The keys that are not array indexes appear in insertion order. */
  lemma OwnKeysKeepInsertionOrder(order: seq<string>)
    ensures Filter(OwnKeys(order), OtherKey) == Filter(order, OtherKey)
  {
    var sorted := SortBy(Filter(order, IsArrayIndex), DigitsValue);
    var rest := Filter(order, OtherKey);
    IndexKeysSorted(order);
    FilterNone(sorted, OtherKey);
    FilterAll(rest, OtherKey);
    FilterAppend(sorted, rest, OtherKey);
  }

  /** The values stored under `keys`, in that order. */
  function ValuesIn(keys: seq<string>, values: map<string, Record>): (vs: seq<Record>)
    ensures (forall k <- keys :: k in values) ==>
            |vs| == |keys| && forall i :: 0 <= i < |keys| ==> vs[i] == values[keys[i]]
  {
    if keys == [] then []
    else
      var k := keys[|keys| - 1];
      assert forall x <- keys[..|keys| - 1] :: x in keys;
      ValuesIn(keys[..|keys| - 1], values) + (if k in values then [values[k]] else [])
  }

  /** `Object.values` of the accumulator. */
  function ObjectValues(acc: Groups): seq<Record> {
    ValuesIn(OwnKeys(acc.order), acc.values)
  }

  /** Object.values of an accumulator whose key list and map agree: one value per key, in own-key order. */
  lemma ObjectValuesInOwnKeyOrder(acc: Groups)
    requires forall g :: g in acc.values <==> g in acc.order
    ensures |OwnKeys(acc.order)| == |acc.order| == |ObjectValues(acc)|
    ensures forall k <- OwnKeys(acc.order) :: k in acc.values
    ensures forall i :: 0 <= i < |acc.order| ==> ObjectValues(acc)[i] == acc.values[OwnKeys(acc.order)[i]]
  {
    OwnKeysPermutation(acc.order);
    assert |OwnKeys(acc.order)| == |multiset(OwnKeys(acc.order))|;
    forall k <- OwnKeys(acc.order) ensures k in acc.values {
      assert k in multiset(acc.order);
    }
  }

  /** `Object.values(result)[0]`, undefined when there are no groups. */
  function FirstValue(acc: Groups): Option<Record> {
    var vs := ObjectValues(acc);
    if |vs| > 0 then Some(vs[0]) else None
  }

  /** The first value exists exactly when there is a group, and it is the value under the first own key. */
  lemma FirstValueIsFirstOwnKey(acc: Groups)
    requires forall g :: g in acc.values <==> g in acc.order
    ensures FirstValue(acc).Some? <==> acc.order != []
    ensures FirstValue(acc).Some? ==>
              |OwnKeys(acc.order)| > 0 && OwnKeys(acc.order)[0] in acc.values &&
              FirstValue(acc).value == acc.values[OwnKeys(acc.order)[0]]
  {
    ObjectValuesInOwnKeyOrder(acc);
  }

  /** Without array-index keys the first own key is the first key inserted. */
  lemma FirstOwnKeyOfOthers(order: seq<string>)
    requires order != []
    requires forall i :: 0 <= i < |order| ==> !IsArrayIndex(order[i])
    ensures |OwnKeys(order)| > 0 && OwnKeys(order)[0] == order[0]
  {
    FilterNone(order, IsArrayIndex);
    FilterAll(order, OtherKey);
  }

  /** With some array-index key the first own key is an array-index key of smallest value. */
  lemma FirstOwnKeyOfIndexKeys(order: seq<string>, m: nat)
    requires m < |order| && IsArrayIndex(order[m])
    ensures |OwnKeys(order)| > 0 && IsArrayIndex(OwnKeys(order)[0]) && OwnKeys(order)[0] in order
    ensures forall i :: 0 <= i < |order| && IsArrayIndex(order[i]) ==> DigitsValue(OwnKeys(order)[0]) <= DigitsValue(order[i])
  {
    var idx := Filter(order, IsArrayIndex);
    var sorted := SortBy(idx, DigitsValue);
    FilterMembers(order, IsArrayIndex, order[m]);
    SortByIsSorted(idx, DigitsValue);
    IndexKeysSorted(order);
    assert order[m] in multiset(sorted);
    assert OwnKeys(order)[0] == sorted[0];
    assert sorted[0] in multiset(idx);
    FilterMembers(order, IsArrayIndex, sorted[0]);
    forall i | 0 <= i < |order| && IsArrayIndex(order[i])
      ensures DigitsValue(sorted[0]) <= DigitsValue(order[i])
    {
      FilterMembers(order, IsArrayIndex, order[i]);
      assert order[i] in multiset(sorted);
      var p :| 0 <= p < |sorted| && sorted[p] == order[i];
    }
  }

  /** What aggMap resolves to: the accumulator object, or with `flat` its first value. */
  datatype AggMapResult = ByKey(groups: Groups) | First(value: Option<Record>)

  /** Every listed field of every record is a number, so `+` adds. */
  predicate NumericFields(records: seq<Record>, fields: seq<string>) {
    forall r <- records, f <- fields :: Get(r, f).Num?
  }

  const Unsorted: Sorter := (rs, spec, o, l) => rs

  function AggMapSpec(indexes: seq<IndexDesc>, store: AccessPath -> seq<Record>, query: Query,
                      keyField: string, fields: seq<string>, flat: bool): Result<AggMapResult>
  {
    match IterateSpec(indexes, store, query, NullArg, NullArg)
    case Failure(e) => Failure(e)
    case Success(records) =>
      var acc := Aggregate(records, keyField, fields);
      Success(if flat then First(FirstValue(acc)) else ByKey(acc))
  }

  /** aggMap: reduce every record getAll delivers into per-group running sums. */
  method AggMap(indexes: seq<IndexDesc>, store: AccessPath -> seq<Record>, query: Query,
                keyField: string, fields: seq<string>, flat: bool) returns (r: Result<AggMapResult>)
    requires RequestPath(indexes, query).Success? ==> NumericFields(store(RequestPath(indexes, query).value), fields)
    ensures r == AggMapSpec(indexes, store, query, keyField, fields, flat)
  {
    var all := GetAll(indexes, store, query, None, Unsorted);
    if all.Failure? {
      return Failure(all.error);
    }
    var acc := AggregateRecords(all.value, keyField, fields);
    if flat {
      return Success(First(FirstValue(acc)));
    }
    return Success(ByKey(acc));
  }

  /** Over the keys as inserted (repeats included): without array-index keys the first own key is the first key. */
  lemma FirstOwnKeyWithoutIndexKeys(keys: seq<string>)
    requires keys != []
    requires forall i :: 0 <= i < |keys| ==> !IsArrayIndex(keys[i])
    ensures |OwnKeys(Dedup(keys))| > 0 && OwnKeys(Dedup(keys))[0] == keys[0]
  {
    var order := Dedup(keys);
    DedupFirst(keys);
    forall i | 0 <= i < |order| ensures !IsArrayIndex(order[i]) {
      assert order[i] in keys;
    }
    FirstOwnKeyOfOthers(order);
  }

  /** With an array-index key among the keys inserted, the first own key is the one of smallest value. */
  lemma FirstOwnKeyWithIndexKeys(keys: seq<string>, m: nat) returns (j: nat)
    requires m < |keys| && IsArrayIndex(keys[m])
    ensures |OwnKeys(Dedup(keys))| > 0
    ensures j < |keys| && keys[j] == OwnKeys(Dedup(keys))[0] && IsArrayIndex(keys[j])
    ensures forall i :: 0 <= i < |keys| && IsArrayIndex(keys[i]) ==> DigitsValue(keys[j]) <= DigitsValue(keys[i])
  {
    var order := Dedup(keys);
    var q :| 0 <= q < |order| && order[q] == keys[m];
    FirstOwnKeyOfIndexKeys(order, q);
    var first := OwnKeys(order)[0];
    assert first in keys;
    j :| 0 <= j < |keys| && keys[j] == first;
    forall i | 0 <= i < |keys| && IsArrayIndex(keys[i]) ensures DigitsValue(first) <= DigitsValue(keys[i]) {
      var p :| 0 <= p < |order| && order[p] == keys[i];
    }
  }

  /** The first value of the accumulator is the group under the first own key of the group keys. */
  lemma FirstValueOfAggregate(records: seq<Record>, keyField: string, fields: seq<string>)
    ensures var acc := Aggregate(records, keyField, fields);
            (FirstValue(acc).None? <==> records == []) &&
            (records != [] ==>
              var first := OwnKeys(Dedup(KeysOf(records, keyField)))[0];
              first in acc.values && FirstValue(acc) == Some(acc.values[first]))
  {
    var acc := Aggregate(records, keyField, fields);
    AggregateOrder(records, keyField, fields);
    FirstValueIsFirstOwnKey(acc);
    if records != [] {
      assert KeysOf(records, keyField)[0] in acc.order;
    }
  }

  /** Without array-index group keys the first value is the group of the first record. */
  lemma FirstGroupWithoutIndexKeys(records: seq<Record>, keyField: string, fields: seq<string>)
    requires records != []
    requires forall i :: 0 <= i < |records| ==> !IsArrayIndex(GroupKey(keyField, records[i]))
    ensures var acc := Aggregate(records, keyField, fields);
            GroupKey(keyField, records[0]) in acc.values && FirstValue(acc) == Some(acc.values[GroupKey(keyField, records[0])])
  {
    var keys := KeysOf(records, keyField);
    FirstValueOfAggregate(records, keyField, fields);
    FirstOwnKeyWithoutIndexKeys(keys);
  }

  /** With an array-index group key the first value is the group of the array-index key of smallest value. */
  lemma FirstGroupWithIndexKeys(records: seq<Record>, keyField: string, fields: seq<string>, m: nat) returns (j: nat)
    requires m < |records| && IsArrayIndex(GroupKey(keyField, records[m]))
    ensures j < |records| && IsArrayIndex(GroupKey(keyField, records[j]))
    ensures var acc := Aggregate(records, keyField, fields);
            GroupKey(keyField, records[j]) in acc.values && FirstValue(acc) == Some(acc.values[GroupKey(keyField, records[j])])
    ensures forall i :: 0 <= i < |records| && IsArrayIndex(GroupKey(keyField, records[i])) ==>
              DigitsValue(GroupKey(keyField, records[j])) <= DigitsValue(GroupKey(keyField, records[i]))
  {
    var keys := KeysOf(records, keyField);
    FirstValueOfAggregate(records, keyField, fields);
    j := FirstOwnKeyWithIndexKeys(keys, m);
  }

  /**
   * The first value of the groups: undefined without records; otherwise the group of the smallest array-index
   * group key when some group key is an array index, and else the group of the first record.
   */
  lemma {:induction false} FirstGroup(records: seq<Record>, keyField: string, fields: seq<string>)
    ensures FirstValue(Aggregate(records, keyField, fields)).None? <==> records == []
    ensures var acc := Aggregate(records, keyField, fields);
            records != [] && (forall i :: 0 <= i < |records| ==> !IsArrayIndex(GroupKey(keyField, records[i]))) ==>
              GroupKey(keyField, records[0]) in acc.values &&
              FirstValue(acc) == Some(acc.values[GroupKey(keyField, records[0])])
    ensures var acc := Aggregate(records, keyField, fields);
            (exists i :: 0 <= i < |records| && IsArrayIndex(GroupKey(keyField, records[i]))) ==>
              exists j :: 0 <= j < |records| && IsArrayIndex(GroupKey(keyField, records[j])) &&
                GroupKey(keyField, records[j]) in acc.values &&
                FirstValue(acc) == Some(acc.values[GroupKey(keyField, records[j])]) &&
                forall i :: 0 <= i < |records| && IsArrayIndex(GroupKey(keyField, records[i])) ==>
                  DigitsValue(GroupKey(keyField, records[j])) <= DigitsValue(GroupKey(keyField, records[i]))
  {
    FirstValueOfAggregate(records, keyField, fields);
    if records != [] && forall i :: 0 <= i < |records| ==> !IsArrayIndex(GroupKey(keyField, records[i])) {
      FirstGroupWithoutIndexKeys(records, keyField, fields);
    }
    if exists i :: 0 <= i < |records| && IsArrayIndex(GroupKey(keyField, records[i])) {
      var m :| 0 <= m < |records| && IsArrayIndex(GroupKey(keyField, records[m]));
      var j := FirstGroupWithIndexKeys(records, keyField, fields, m);
    }
  }

  /**
   * aggMap with `flat` resolves to that first group: undefined without records, else the group of the
   * smallest array-index group key if there is one, else the group of the first record.
   */
  lemma AggMapFlatPicksFirstGroup(indexes: seq<IndexDesc>, store: AccessPath -> seq<Record>, query: Query,
                                  keyField: string, fields: seq<string>, records: seq<Record>)
    requires IterateSpec(indexes, store, query, NullArg, NullArg) == Success(records)
    ensures AggMapSpec(indexes, store, query, keyField, fields, true) ==
            Success(First(FirstValue(Aggregate(records, keyField, fields))))
    ensures FirstValue(Aggregate(records, keyField, fields)).None? <==> records == []
    ensures var acc := Aggregate(records, keyField, fields);
            records != [] && (forall i :: 0 <= i < |records| ==> !IsArrayIndex(GroupKey(keyField, records[i]))) ==>
              GroupKey(keyField, records[0]) in acc.values &&
              FirstValue(acc) == Some(acc.values[GroupKey(keyField, records[0])])
    ensures var acc := Aggregate(records, keyField, fields);
            (exists i :: 0 <= i < |records| && IsArrayIndex(GroupKey(keyField, records[i]))) ==>
              exists j :: 0 <= j < |records| && IsArrayIndex(GroupKey(keyField, records[j])) &&
                GroupKey(keyField, records[j]) in acc.values &&
                FirstValue(acc) == Some(acc.values[GroupKey(keyField, records[j])]) &&
                forall i :: 0 <= i < |records| && IsArrayIndex(GroupKey(keyField, records[i])) ==>
                  DigitsValue(GroupKey(keyField, records[j])) <= DigitsValue(GroupKey(keyField, records[i]))
  {
    FirstGroup(records, keyField, fields);
  }

  /** "1" is an array index and "b" is not. */
  lemma ExampleKeyKinds()
    ensures IsArrayIndex("1") && !IsArrayIndex("b")
  {
    NumberKeyIsArrayIndex(1);
    assert PropertyKey(Num(1)) == "1";
    assert 'b' in "b";
  }

  /** Filtering the example keys by kind. */
  lemma ExampleKeysByKind()
    ensures Filter(["b", "1"], IsArrayIndex) == ["1"]
    ensures Filter(["b", "1"], OtherKey) == ["b"]
  {
    ExampleKeyKinds();
    assert ["b", "1"] == ["b"] + ["1"];
    FilterAppend(["b"], ["1"], IsArrayIndex);
    FilterSingle("b", IsArrayIndex);
    FilterSingle("1", IsArrayIndex);
    FilterAppend(["b"], ["1"], OtherKey);
    FilterSingle("b", OtherKey);
    FilterSingle("1", OtherKey);
  }

  /** The array-index key "1" is listed before the key "b" that was inserted before it. */
  lemma OwnKeysOfExample()
    ensures OwnKeys(["b", "1"]) == ["1", "b"]
  {
    ExampleKeysByKind();
    assert SortBy(["1"], DigitsValue) == ["1"];
  }

  /** The groups of the example: "b" first, then "1", each with its sum and its key value. */
  lemma GroupsOfExample()
    ensures Aggregate([map["k" := Str("b"), "n" := Num(5)], map["k" := Num(1), "n" := Num(2)]], "k", ["n"]) ==
            Groups(["b", "1"], map["b" := map["n" := Num(5), "k" := Str("b")], "1" := map["n" := Num(2), "k" := Num(1)]])
  {
    var r0: Record := map["k" := Str("b"), "n" := Num(5)];
    var r1: Record := map["k" := Num(1), "n" := Num(2)];
    var records := [r0, r1];
    assert ["n"][..0] == [];
    assert GroupKey("k", r0) == "b" && GroupKey("k", r1) == "1";
    var a1 := Step(Groups([], map[]), r0, "k", ["n"]);
    assert a1 == Groups(["b"], map["b" := map["n" := Num(5), "k" := Str("b")]]);
    assert [r0][..0] == [];
    assert Aggregate([r0], "k", ["n"]) == a1;
    assert records[..|records| - 1] == [r0];
  }

  /** A group keyed by the number 1 comes first under `flat` even when a group "b" was created before it. */
  lemma FlatPrefersIndexKey()
    ensures var records := [map["k" := Str("b"), "n" := Num(5)], map["k" := Num(1), "n" := Num(2)]];
            FirstValue(Aggregate(records, "k", ["n"])) == Some(map["n" := Num(2), "k" := Num(1)])
  {
    GroupsOfExample();
    OwnKeysOfExample();
    var acc := Groups(["b", "1"], map["b" := map["n" := Num(5), "k" := Str("b")], "1" := map["n" := Num(2), "k" := Num(1)]]);
    assert ObjectValues(acc)[0] == acc.values["1"];
  }

  /** ToIntegerOrInfinity of an argument: undefined, null and NaN become 0. */
  function IntegerArg(a: NumArg): int {
    if a.Int? then a.i else 0
  }

  /** The actual start of `splice`: a negative start counts from the end; both are clamped to the array. */
  function SpliceStart(len: nat, start: NumArg): (k: nat)
    ensures k <= len
  {
    var rel := IntegerArg(start);
    if rel < 0 then (if len + rel > 0 then len + rel else 0)
    else if rel < len then rel
    else len
  }

  /** The elements `a.splice(start, deleteCount)` removes and returns. */
  function Splice<T>(s: seq<T>, start: NumArg, deleteCount: NumArg): seq<T> {
    var k := SpliceStart(|s|, start);
    var dc := IntegerArg(deleteCount);
    var n := if dc < 0 then 0 else if dc < |s| - k then dc else |s| - k;
    s[k..k + n]
  }

  /** With a non-negative offset and count, splice returns the elements in [offset, offset + count). */
  lemma SpliceWindow<T>(s: seq<T>, offset: nat, count: nat)
    ensures var lo := if offset < |s| then offset else |s|;
            var hi := if offset + count < |s| then offset + count else |s|;
            Splice(s, Int(offset), Int(count)) == s[lo..hi]
  {
  }

  /** With only a start, the delete count converts to 0 and nothing is returned. */
  lemma SpliceWithoutCount<T>(s: seq<T>, start: NumArg)
    ensures Splice(s, start, NullArg) == [] && Splice(s, start, Missing) == [] && Splice(s, start, NaN) == []
  {
  }

  /** What agg does with the group values: the sort engine, a splice by offset and limit, or nothing. */
  function Arranged(vs: seq<Record>, opts: GetAllOptions, sorter: Sorter): seq<Record> {
    match opts.sort
    case Some(spec) => sorter(vs, spec, opts.offset, opts.limit)
    case None => if Truthy(opts.offset) || Truthy(opts.limit) then Splice(vs, opts.offset, opts.limit) else vs
  }

  function AggSpec(indexes: seq<IndexDesc>, store: AccessPath -> seq<Record>, query: Query,
                   key: string, fields: seq<string>, opts: GetAllOptions, sorter: Sorter): Result<seq<Record>>
  {
    match IterateSpec(indexes, store, query, NullArg, NullArg)
    case Failure(e) => Failure(e)
    case Success(records) => Success(Arranged(ObjectValues(Aggregate(records, key, fields)), opts, sorter))
  }

  /** agg: the group values of aggMap, handed to the sort engine, spliced by offset and limit, or all of them. */
  method Agg(indexes: seq<IndexDesc>, store: AccessPath -> seq<Record>, query: Query, key: string,
             fields: seq<string>, options: Option<GetAllOptions>, sorter: Sorter) returns (r: Result<seq<Record>>)
    requires RequestPath(indexes, query).Success? ==> NumericFields(store(RequestPath(indexes, query).value), fields)
    ensures r == AggSpec(indexes, store, query, key, fields, options.GetOr(DefaultGetAllOptions), sorter)
  {
    var opts := options.GetOr(DefaultGetAllOptions);
    var m := AggMap(indexes, store, query, key, fields, false);
    if m.Failure? {
      return Failure(m.error);
    }
    var records := ObjectValues(m.value.groups);
    if opts.sort.Some? {
      return Success(sorter(records, opts.sort.value, opts.offset, opts.limit));
    }
    if Truthy(opts.offset) || Truthy(opts.limit) {
      return Success(Splice(records, opts.offset, opts.limit));
    }
    return Success(records);
  }

  // ---------------------------------------------------------------- properties of agg

  /** Without a sort, an offset alone empties the result: splice's delete count converts to 0. */
  lemma AggOffsetOnlyIsEmpty(indexes: seq<IndexDesc>, store: AccessPath -> seq<Record>, query: Query,
                             key: string, fields: seq<string>, offset: int, sorter: Sorter)
    requires offset != 0
    requires AggSpec(indexes, store, query, key, fields, GetAllOptions(Int(offset), NullArg, None), sorter).Success?
    ensures AggSpec(indexes, store, query, key, fields, GetAllOptions(Int(offset), NullArg, None), sorter).value == []
  {
  }

  /** A positive limit without a sort or an offset keeps the first `limit` values. */
  lemma ArrangedByLimit(vs: seq<Record>, limit: nat, sorter: Sorter)
    requires limit > 0
    ensures Arranged(vs, GetAllOptions(NullArg, Int(limit), None), sorter) == vs[..if limit < |vs| then limit else |vs|]
  {
    assert SpliceStart(|vs|, NullArg) == 0;
  }

  /** Without a sort, a positive limit alone keeps the first `limit` group values. */
  lemma AggLimitOnlyKeepsPrefix(indexes: seq<IndexDesc>, store: AccessPath -> seq<Record>, query: Query,
                                key: string, fields: seq<string>, limit: nat, sorter: Sorter)
    requires limit > 0
    requires IterateSpec(indexes, store, query, NullArg, NullArg).Success?
    ensures var vs := ObjectValues(Aggregate(IterateSpec(indexes, store, query, NullArg, NullArg).value, key, fields));
            AggSpec(indexes, store, query, key, fields, GetAllOptions(NullArg, Int(limit), None), sorter) ==
            Success(vs[..if limit < |vs| then limit else |vs|])
  {
    var records := IterateSpec(indexes, store, query, NullArg, NullArg).value;
    ArrangedByLimit(ObjectValues(Aggregate(records, key, fields)), limit, sorter);
  }
}
