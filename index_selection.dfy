/** Choosing how a query reaches the store: straight by key, a full scan, or a probe of a secondary index. */
module IndexSelection {
  import opened Results
  import opened Values
  import opened Seqs
  import opened Schema

  /** The `[name, keyPath]` pair selectIndex returns; `[null, []]` is the empty selection. */
  datatype Selection = Selection(name: Option<string>, keyPath: seq<string>)

  const NoSelection := Selection(None, [])

  /** Whether one INDEXES entry overwrites the selection for the passed fields. */
  predicate Matches(d: IndexDesc, passed: seq<string>) {
    match d
    case Shorthand(_) => true
    case Desc(_, keyPath, _) =>
      if |passed| > 1 then
        keyPath.Composite? && |passed| == |keyPath.fields| && forall p <- passed :: p in keyPath.fields
      else
        // passed[0] is `undefined` when nothing was passed, and equals no string
        match keyPath
        case Single(field) => |passed| == 1 && passed[0] == field
        case Composite(fs) => |fs| == 1 && |passed| == 1 && passed[0] == fs[0]
  }

  /** The selection an entry writes. */
  function SelectionOf(d: IndexDesc): (s: Selection)
    ensures s.name == Some(d.name)
  {
    match d
    case Shorthand(name) => Selection(Some(name), [name])
    case Desc(name, Single(field), _) => Selection(Some(name), [field])
    case Desc(name, Composite(fs), _) => Selection(Some(name), fs)
  }

  /** The selection left after scanning every entry: the last one that matches. */
  function SelectedIndex(ds: seq<IndexDesc>, passed: seq<string>): Selection {
    if ds == [] then NoSelection
    else if Matches(ds[|ds| - 1], passed) then SelectionOf(ds[|ds| - 1])
    else SelectedIndex(ds[..|ds| - 1], passed)
  }

  /** selectIndex: a loop over INDEXES that overwrites the selection on every match. */
  method SelectIndex(ds: seq<IndexDesc>, passed: seq<string>) returns (selected: Selection)
    ensures selected == SelectedIndex(ds, passed)
  {
    selected := NoSelection;
    for i := 0 to |ds|
      invariant selected == SelectedIndex(ds[..i], passed)
    {
      assert ds[..i + 1][..i] == ds[..i];
      if Matches(ds[i], passed) {
        selected := SelectionOf(ds[i]);
      }
    }
    assert ds[..|ds|] == ds;
  }

  /** Last match wins: the selection is that of the last matching entry. */
  lemma {:induction false} LastMatchWins(ds: seq<IndexDesc>, passed: seq<string>, j: nat)
    requires j < |ds| && Matches(ds[j], passed)
    requires forall k :: j < k < |ds| ==> !Matches(ds[k], passed)
    ensures SelectedIndex(ds, passed) == SelectionOf(ds[j])
  {
    if j < |ds| - 1 {
      var pre := ds[..|ds| - 1];
      assert forall k :: 0 <= k < |pre| ==> pre[k] == ds[k];
      LastMatchWins(pre, passed, j);
    }
  }

  /** The selection is empty iff no entry matches. */
  lemma {:induction false} EmptySelectionIffNoMatch(ds: seq<IndexDesc>, passed: seq<string>)
    ensures SelectedIndex(ds, passed) == NoSelection <==> forall k :: 0 <= k < |ds| ==> !Matches(ds[k], passed)
  {
    if ds != [] {
      var pre := ds[..|ds| - 1];
      assert forall k :: 0 <= k < |pre| ==> pre[k] == ds[k];
      EmptySelectionIffNoMatch(pre, passed);
    }
  }

  /** Any shorthand entry matches, so the last shorthand entry wins over every descriptor before it. */
  lemma ShorthandAlwaysMatches(name: string, passed: seq<string>)
    ensures Matches(Shorthand(name), passed)
  {
  }

  /** With one passed field, a string key path naming it matches, and so does an array key path holding only it. */
  lemma OneFieldMatches(name: string, keyPath: KeyPath, unique: bool, passed: seq<string>)
    requires |passed| == 1
    ensures Matches(Desc(name, keyPath, unique), passed) <==>
            keyPath == Single(passed[0]) || keyPath == Composite([passed[0]])
  {
    if keyPath.Composite? && |keyPath.fields| == 1 {
      assert keyPath.fields == [keyPath.fields[0]];
    }
  }

  /** With several passed fields only a composite key path of that length holding every one of them matches. */
  lemma {:induction false} SeveralFieldsNeedComposite(d: IndexDesc, passed: seq<string>)
    requires d.Desc? && |passed| > 1
    ensures Matches(d, passed) <==>
      d.keyPath.Composite? && |d.keyPath.fields| == |passed| &&
      forall i :: 0 <= i < |passed| ==> passed[i] in d.keyPath.fields
  {
    if d.keyPath.Composite? {
      assert (forall p <- passed :: p in d.keyPath.fields) <==>
             (forall i :: 0 <= i < |passed| ==> passed[i] in d.keyPath.fields);
    }
  }

  /** Without shorthand entries and with no passed field the selection is `[null, []]`. */
  lemma {:induction false} NoFieldsNoSelection(ds: seq<IndexDesc>)
    requires forall k :: 0 <= k < |ds| ==> ds[k].Desc?
    ensures SelectedIndex(ds, []) == NoSelection
  {
    EmptySelectionIffNoMatch(ds, []);
  }

  /** The selectIndex unit test. */
  lemma SelectIndexOfTestedCatalog()
    ensures SelectedIndex([
      Desc("userId-Idx", Single("userId"), false),
      Desc("userIdPhone-Idx", Composite(["userId", "phone"]), true)], ["userId"]) ==
      Selection(Some("userId-Idx"), ["userId"])
    ensures SelectedIndex([
      Desc("userId-Idx", Single("userId"), false),
      Desc("userIdPhone-Idx", Composite(["userId", "phone"]), true)], []) == NoSelection
  {
    var ds := [
      Desc("userId-Idx", Single("userId"), false),
      Desc("userIdPhone-Idx", Composite(["userId", "phone"]), true)];
    LastMatchWins(ds, ["userId"], 0);
    NoFieldsNoSelection(ds);
  }

  // ---------------------------------------------------------------- access path

  /** The key handed to `index(name).openCursor(...)`. */
  datatype Probe =
    | NullKey                        // `null`: the query value of the single key field is an array
    | KeyOf(value: QueryValue)       // the query value of the single key field
    | Tuple(values: seq<QueryValue>) // the query values of a composite key path, arrays removed

  /** How the cursor is opened. */
  datatype AccessPath =
    | Direct(query: Query)                          // objectStore.openCursor(query)
    | FullScan                                      // objectStore.openCursor(null)
    | IndexProbe(index: Option<string>, probe: Probe) // objectStore.index(name).openCursor(probe)

  function Keys(entries: seq<Entry>): seq<string> {
    seq(|entries|, i requires 0 <= i < |entries| => entries[i].field)
  }

  function In(names: seq<string>): string -> bool {
    f => f in names
  }

  /** The query's own keys that are index-probeable, in the query's key order. */
  function PassedIndexFields(entries: seq<Entry>, indexes: seq<IndexDesc>): seq<string> {
    Filter(Keys(entries), In(IndexFields(indexes)))
  }

  function NotArray(v: QueryValue): bool {
    !v.List?
  }

  /** The probe derived from the query and the selected key path. */
  function ProbeOf(entries: seq<Entry>, keyPath: seq<string>): Probe {
    if |keyPath| > 1 then
      Tuple(Filter(seq(|keyPath|, i requires 0 <= i < |keyPath| => QueryGet(entries, keyPath[i])), NotArray))
    else
      // keyPath[0] of an empty key path is `undefined`, which names the property "undefined"
      var v := QueryGet(entries, if keyPath == [] then "undefined" else keyPath[0]);
      if v.List? then NullKey else KeyOf(v)
  }

  /** requestMethodSelector: the access-path decision. */
  function RequestPath(indexes: seq<IndexDesc>, query: Query): (r: Result<AccessPath>)
    ensures r.Failure? <==> query.Primitive? && query.key == Null
    ensures r.Failure? ==> r.error == KeysOfNull
    ensures query.Range? || (query.Primitive? && query.key != Null) ==> r == Success(Direct(query))
    ensures query.Object? && PassedIndexFields(query.entries, indexes) == [] ==> r == Success(FullScan)
    ensures query.Object? && PassedIndexFields(query.entries, indexes) != [] ==>
      r.Success? && r.value.IndexProbe? &&
      r.value.index == SelectedIndex(indexes, PassedIndexFields(query.entries, indexes)).name &&
      r.value.probe == ProbeOf(query.entries, SelectedIndex(indexes, PassedIndexFields(query.entries, indexes)).keyPath)
  {
    match query
    case Primitive(key) => if key == Null then Failure(KeysOfNull) else Success(Direct(query))
    case Range(_, _, _, _) => Success(Direct(query))
    case Object(entries) =>
      var passed := PassedIndexFields(entries, indexes);
      if passed == [] then Success(FullScan)
      else
        var selected := SelectedIndex(indexes, passed);
        Success(IndexProbe(selected.name, ProbeOf(entries, selected.keyPath)))
  }

  /** A composite key path whose query values hold no array probes with exactly those values, in key-path order. */
  lemma CompositeProbe(entries: seq<Entry>, keyPath: seq<string>)
    requires |keyPath| > 1
    requires forall i :: 0 <= i < |keyPath| ==> !QueryGet(entries, keyPath[i]).List?
    ensures ProbeOf(entries, keyPath).Tuple?
    ensures |ProbeOf(entries, keyPath).values| == |keyPath|
    ensures forall i :: 0 <= i < |keyPath| ==> ProbeOf(entries, keyPath).values[i] == QueryGet(entries, keyPath[i])
  {
    var vs := seq(|keyPath|, i requires 0 <= i < |keyPath| => QueryGet(entries, keyPath[i]));
    FilterAll(vs, NotArray);
  }

  /** A composite probe never contains an array value. */
  lemma CompositeProbeHasNoArrays(entries: seq<Entry>, keyPath: seq<string>)
    requires |keyPath| > 1
    ensures ProbeOf(entries, keyPath).Tuple?
    ensures forall i :: 0 <= i < |ProbeOf(entries, keyPath).values| ==> !ProbeOf(entries, keyPath).values[i].List?
  {
  }

  /** A single-field key path probes with `null` iff that field's query value is an array, else with the value. */
  lemma SingleFieldProbe(entries: seq<Entry>, field: string)
    ensures ProbeOf(entries, [field]) == NullKey <==> QueryGet(entries, field).List?
    ensures !QueryGet(entries, field).List? ==> ProbeOf(entries, [field]) == KeyOf(QueryGet(entries, field))
  {
  }
}
