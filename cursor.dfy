/** Cursor iteration: the one-shot offset, the list/function filter and the limit countdown of `iterate`. */
module Cursor {
  import opened Results
  import opened Values
  import opened Seqs
  import opened Schema
  import opened IndexSelection

  // ---------------------------------------------------------------- the per-record filter

  /** One query entry's verdict on a record: arrays test membership, functions are called, the rest accept. */
  predicate EntryAccepts(e: Entry, rec: Record) {
    match e.value
    case List(items) => Get(rec, e.field) in items
    case Pred(test) => test(Get(rec, e.field))
    case _ => true
  }

  /** The reference filter: every entry of the query accepts the record. */
  predicate Satisfies(entries: seq<Entry>, rec: Record) {
    forall i :: 0 <= i < |entries| ==> EntryAccepts(entries[i], rec)
  }

  function Accepts(entries: seq<Entry>): Record -> bool {
    rec => Satisfies(entries, rec)
  }

  /**
   * The `every` callback over Object.entries(query), returning `(isInList, found)`: `isInList` is set by
   * each array or function entry visited, and `every` stops at the first entry that rejects.
   */
  function Scan(entries: seq<Entry>, rec: Record): (bool, bool) {
    if entries == [] then (false, true)
    else
      var e := entries[0];
      match e.value
      case List(items) => (true, Get(rec, e.field) in items && Scan(entries[1..], rec).1)
      case Pred(test) => (true, test(Get(rec, e.field)) && Scan(entries[1..], rec).1)
      case _ => Scan(entries[1..], rec)
  }

  /** `found` is the reference filter, and a rejection always sets `isInList`: `isInList && !found` is `!found`. */
  lemma {:induction false} ScanIsSatisfies(entries: seq<Entry>, rec: Record)
    ensures Scan(entries, rec).1 <==> Satisfies(entries, rec)
    ensures !Scan(entries, rec).1 ==> Scan(entries, rec).0
  {
    if entries != [] {
      ScanIsSatisfies(entries[1..], rec);
      assert forall i :: 1 <= i < |entries| ==> entries[i] == entries[1..][i - 1];
    }
  }

  /** Equality values (scalars, RegExp objects) never reject a record. */
  lemma ScalarEntriesNeverReject(entries: seq<Entry>, rec: Record)
    requires forall i :: 0 <= i < |entries| ==> entries[i].value.Scalar? || entries[i].value.Pattern?
    ensures Satisfies(entries, rec)
  {
  }

  /** `exclude(values)`: a ready-made function filter that accepts what is not among `values`. */
  function Exclude(values: seq<Value>): Value -> bool {
    v => v !in values
  }

  lemma ExcludeFilter(field: string, values: seq<Value>, rec: Record)
    ensures Satisfies([Entry(field, Pred(Exclude(values)))], rec) <==> Get(rec, field) !in values
  {
    var e := Entry(field, Pred(Exclude(values)));
    assert Satisfies([e], rec) <==> EntryAccepts(e, rec) by {
      assert [e][0] == e;
    }
    assert Exclude(values)(Get(rec, field)) <==> Get(rec, field) !in values;
  }

  /**
   * The entries `iterate` tests: a key or key range has no own enumerable entries that are arrays or functions.
   * For `undefined` there are none to test because Object.entries throws; IteratedQuery raises that.
   */
  function QueryEntries(query: Query): seq<Entry> {
    if query.Object? then query.entries else []
  }

  // ---------------------------------------------------------------- offset and limit

  /** WebIDL [EnforceRange] unsigned long, excluding 0: the counts IDBCursor.advance accepts. */
  predicate ValidAdvance(n: int) {
    1 <= n <= 0xFFFF_FFFF
  }

  /** How many yields a `limit` allows: `null`, 0 and negatives never reach zero; undefined and NaN stop after one. */
  function Cap(limit: NumArg): Option<nat> {
    match limit
    case NullArg => None
    case Missing => Some(1)
    case NaN => Some(1)
    case Int(n) => if n >= 1 then Some(n) else None
  }

  function Take<T>(s: seq<T>, cap: Option<nat>): (r: seq<T>)
    ensures r <= s
    ensures cap.None? ==> r == s
    ensures cap.Some? ==> |r| == if cap.value < |s| then cap.value else |s|
  {
    match cap
    case None => s
    case Some(k) => if k < |s| then s[..k] else s
  }

  lemma TakePrefix<T>(s: seq<T>, pre: seq<T>)
    requires pre <= s
    ensures Take(s, Some(|pre|)) == pre
  {
  }

  /** The cursor position iteration resumes at: a truthy, valid offset advances the first position. */
  function SkipTo(count: nat, offset: NumArg): (p: nat)
    ensures p <= count
  {
    if count > 0 && Truthy(offset) && offset.i >= 1 then (if offset.i < count then offset.i else count) else 0
  }

  /** What `iterate` yields from the records its cursor delivers, as one composition of skip, filter and cap. */
  function Iterated(records: seq<Record>, entries: seq<Entry>, offset: NumArg, limit: NumArg): Result<seq<Record>> {
    if |records| > 0 && Truthy(offset) && !ValidAdvance(offset.i) then Failure(AdvanceOutOfRange)
    else Success(Take(Filter(records[SkipTo(|records|, offset)..], Accepts(entries)), Cap(limit)))
  }

  /**
   * What `iterate` yields for a query: an invalid offset fails first, at cursor.advance; then an undefined
   * query fails at the first record visited, where Object.entries(undefined) throws; otherwise the
   * composition above over the query's entries.
   */
  function IteratedQuery(records: seq<Record>, query: Query, offset: NumArg, limit: NumArg): Result<seq<Record>> {
    if |records| > 0 && Truthy(offset) && !ValidAdvance(offset.i) then Failure(AdvanceOutOfRange)
    else if query == Primitive(Undefined) && SkipTo(|records|, offset) < |records| then Failure(EntriesOfUndefined)
    else Iterated(records, QueryEntries(query), offset, limit)
  }

  /** The whole `iterate`: choose the access path, open the cursor, walk it. */
  function IterateSpec(indexes: seq<IndexDesc>, store: AccessPath -> seq<Record>, query: Query,
                       offset: NumArg, limit: NumArg): Result<seq<Record>>
  {
    match RequestPath(indexes, query)
    case Failure(e) => Failure(e)
    case Success(path) => IteratedQuery(store(path), query, offset, limit)
  }

  /** The `limit` variable after `yielded` decrements. */
  function Countdown(limit: NumArg, yielded: nat): NumArg {
    if yielded == 0 then limit
    else match limit
      case NullArg => NullArg
      case Missing => NaN
      case NaN => NaN
      case Int(n) => Int(n - yielded)
  }

  /** `--limit` on a number or on undefined (which becomes NaN). */
  function Decrement(a: NumArg): NumArg {
    if a.Int? then Int(a.i - 1) else NaN
  }

  /** One more `--limit` after `yielded` yields, and whether it ends the walk. */
  lemma CountdownStep(limit: NumArg, yielded: nat)
    requires limit != NullArg
    requires Cap(limit).Some? ==> yielded < Cap(limit).value
    ensures Decrement(Countdown(limit, yielded)) == Countdown(limit, yielded + 1)
    ensures !Truthy(Countdown(limit, yielded + 1)) <==> Cap(limit) == Some(yielded + 1)
  {
  }

  /** The state of the cursor loop: the offset still pending, the limit countdown, the yields so far. */
  ghost predicate WalkState(records: seq<Record>, entries: seq<Entry>, offset: NumArg, limit: NumArg,
                            pending: NumArg, left: NumArg, out: seq<Record>, pos: nat)
  {
    var start := SkipTo(|records|, offset);
    && pos <= |records|
    && (Truthy(pending) ==> pending == offset && pos == 0 && out == [])
    && (!Truthy(pending) ==> start <= pos && out == Filter(records[start..pos], Accepts(entries)))
    && (!Truthy(pending) && |records| > 0 && Truthy(offset) ==> ValidAdvance(offset.i))
    && left == Countdown(limit, |out|)
    && (Cap(limit).Some? ==> |out| < Cap(limit).value)
  }

  /**
   * What the walk returns: the composed result and, exactly when the cap was reached, the position the cursor
   * was left on, which holds the last record yielded.
   */
  predicate WalkOutcome(records: seq<Record>, query: Query, offset: NumArg, limit: NumArg,
                        r: Result<seq<Record>>, stoppedAt: Option<nat>)
  {
    && r == IteratedQuery(records, query, offset, limit)
    && (stoppedAt.Some? <==> r.Success? && Cap(limit).Some? && |r.value| == Cap(limit).value)
    && (stoppedAt.Some? ==> stoppedAt.value < |records| && r.Success? && |r.value| > 0 &&
                            records[stoppedAt.value] == r.value[|r.value| - 1])
  }

  lemma WalkStarts(records: seq<Record>, entries: seq<Entry>, offset: NumArg, limit: NumArg)
    ensures WalkState(records, entries, offset, limit, offset, limit, [], 0)
  {
    assert records[0..0] == [];
  }

  lemma WalkAdvances(records: seq<Record>, entries: seq<Entry>, offset: NumArg, limit: NumArg, left: NumArg)
    requires |records| > 0 && Truthy(offset) && ValidAdvance(offset.i)
    requires WalkState(records, entries, offset, limit, offset, left, [], 0)
    ensures var pos := if offset.i < |records| then offset.i else |records|;
            WalkState(records, entries, offset, limit, NullArg, left, [], pos)
  {
    var pos := if offset.i < |records| then offset.i else |records|;
    assert records[SkipTo(|records|, offset)..pos] == [];
  }

  /** Testing the record at `pos`: the filter of the window grows by it exactly when it is accepted. */
  lemma WalkTests(records: seq<Record>, entries: seq<Entry>, offset: NumArg, limit: NumArg,
                  left: NumArg, out: seq<Record>, pos: nat)
    requires pos < |records|
    requires WalkState(records, entries, offset, limit, NullArg, left, out, pos)
    ensures var start := SkipTo(|records|, offset);
            Filter(records[start..pos + 1], Accepts(entries)) ==
            out + if Satisfies(entries, records[pos]) then [records[pos]] else []
  {
    FilterWindowSnoc(records, SkipTo(|records|, offset), pos, Accepts(entries));
    assert Accepts(entries)(records[pos]) == Satisfies(entries, records[pos]);
  }

  lemma WalkRejects(records: seq<Record>, entries: seq<Entry>, offset: NumArg, limit: NumArg,
                    left: NumArg, out: seq<Record>, pos: nat)
    requires pos < |records| && !Satisfies(entries, records[pos])
    requires WalkState(records, entries, offset, limit, NullArg, left, out, pos)
    ensures WalkState(records, entries, offset, limit, NullArg, left, out, pos + 1)
  {
    WalkTests(records, entries, offset, limit, left, out, pos);
  }

  lemma WalkYields(records: seq<Record>, entries: seq<Entry>, offset: NumArg, limit: NumArg,
                   left: NumArg, out: seq<Record>, pos: nat)
    requires pos < |records| && Satisfies(entries, records[pos])
    requires WalkState(records, entries, offset, limit, NullArg, left, out, pos)
    requires left != NullArg ==> Truthy(Decrement(left))
    ensures var left' := if left != NullArg then Decrement(left) else left;
            WalkState(records, entries, offset, limit, NullArg, left', out + [records[pos]], pos + 1)
  {
    WalkTests(records, entries, offset, limit, left, out, pos);
    if left != NullArg {
      CountdownStep(limit, |out|);
    }
  }

  /** Where the limit ends the walk, the yields are the capped filter of the rest of the cursor. */
  lemma WalkStops(records: seq<Record>, query: Query, offset: NumArg, limit: NumArg,
                  left: NumArg, out: seq<Record>, pos: nat)
    requires query != Primitive(Undefined)
    requires var entries := QueryEntries(query);
             pos < |records| && Satisfies(entries, records[pos]) &&
             WalkState(records, entries, offset, limit, NullArg, left, out, pos)
    requires left != NullArg && !Truthy(Decrement(left))
    ensures WalkOutcome(records, query, offset, limit, Success(out + [records[pos]]), Some(pos))
  {
    var entries := QueryEntries(query);
    WalkTests(records, entries, offset, limit, left, out, pos);
    CountdownStep(limit, |out|);
    CappedAt(records, entries, offset, limit, pos + 1);
    assert IteratedQuery(records, query, offset, limit) == Iterated(records, entries, offset, limit);
  }

  /** When the capped count is reached by position `b`, the walk's output is the filter of the window so far. */
  lemma CappedAt(records: seq<Record>, entries: seq<Entry>, offset: NumArg, limit: NumArg, b: nat)
    requires SkipTo(|records|, offset) <= b <= |records|
    requires !(|records| > 0 && Truthy(offset) && !ValidAdvance(offset.i))
    requires Cap(limit) == Some(|Filter(records[SkipTo(|records|, offset)..b], Accepts(entries))|)
    ensures Iterated(records, entries, offset, limit) ==
            Success(Filter(records[SkipTo(|records|, offset)..b], Accepts(entries)))
  {
    var start := SkipTo(|records|, offset);
    FilterWindowPrefix(records, start, b, Accepts(entries));
    TakePrefix(Filter(records[start..], Accepts(entries)), Filter(records[start..b], Accepts(entries)));
  }

  lemma WalkEnds(records: seq<Record>, query: Query, offset: NumArg, limit: NumArg,
                 pending: NumArg, left: NumArg, out: seq<Record>)
    requires WalkState(records, QueryEntries(query), offset, limit, pending, left, out, |records|)
    requires query == Primitive(Undefined) ==> |records| <= SkipTo(|records|, offset)
    ensures WalkOutcome(records, query, offset, limit, Success(out), None)
  {
    var start := SkipTo(|records|, offset);
    assert records[start..|records|] == records[start..];
  }

  /**
   * One cursor position after the offset is applied: the record is skipped when a list or function condition
   * rejects it; otherwise it is yielded and the limit counts down, and `stop` reports that `!--limit` ended
   * the generator there.
   */
  method VisitRecord(records: seq<Record>, query: Query, offset: NumArg, limit: NumArg,
                     left: NumArg, out: seq<Record>, pos: nat)
    returns (left': NumArg, out': seq<Record>, stop: bool)
    requires pos < |records| && query != Primitive(Undefined)
    requires WalkState(records, QueryEntries(query), offset, limit, NullArg, left, out, pos)
    ensures stop ==> WalkOutcome(records, query, offset, limit, Success(out'), Some(pos))
    ensures !stop ==> WalkState(records, QueryEntries(query), offset, limit, NullArg, left', out', pos + 1)
  {
    var entries := QueryEntries(query);
    var rec := records[pos];
    var (isInList, found) := Scan(entries, rec);
    ScanIsSatisfies(entries, rec);
    if isInList && !found {
      // cursor.continue()
      WalkRejects(records, entries, offset, limit, left, out, pos);
      return left, out, false;
    }
    out' := out + [rec];  // yield cursor.value
    left' := left;
    if left != NullArg {
      left' := Decrement(left);
      if !Truthy(left') {
        // `!--limit`: the generator returns without advancing the cursor
        WalkStops(records, query, offset, limit, left, out, pos);
        return left', out', true;
      }
    }
    // cursor.continue(nextKey)
    WalkYields(records, entries, offset, limit, left, out, pos);
    stop := false;
  }

  /**
   * The cursor loop of iterate over the records its cursor delivers. Returns the yielded records and, when
   * the limit ended the walk, the position the cursor was left on (the generator returns without
   * advancing the cursor again).
   */
  method Walk(records: seq<Record>, query: Query, offset: NumArg, limit: NumArg)
    returns (r: Result<seq<Record>>, stoppedAt: Option<nat>)
    ensures WalkOutcome(records, query, offset, limit, r, stoppedAt)
  {
    var entries := QueryEntries(query);
    var pending := offset;  // the `offset` variable, reset to null once applied
    var left := limit;      // the `limit` variable, decremented after every yield
    var out: seq<Record> := [];
    var pos := 0;
    WalkStarts(records, entries, offset, limit);
    while pos < |records|
      invariant WalkState(records, entries, offset, limit, pending, left, out, pos)
      invariant query == Primitive(Undefined) ==> pos <= SkipTo(|records|, offset)
    {
      if Truthy(pending) {
        if !ValidAdvance(pending.i) {
          return Failure(AdvanceOutOfRange), None;
        }
        // cursor.advance(offset): past the end the cursor is exhausted
        WalkAdvances(records, entries, offset, limit, left);
        pos := if pos + pending.i < |records| then pos + pending.i else |records|;
        pending := NullArg;
        continue;
      }
      if query == Primitive(Undefined) {
        // Object.entries(undefined) throws a TypeError
        return Failure(EntriesOfUndefined), None;
      }
      var stop;
      left, out, stop := VisitRecord(records, query, offset, limit, left, out, pos);
      if stop {
        return Success(out), Some(pos);
      }
      pos := pos + 1;
    }
    WalkEnds(records, query, offset, limit, pending, left, out);
    return Success(out), None;
  }

  /** iterate: choose the access path, open the cursor on it, walk it. */
  method Iterate(indexes: seq<IndexDesc>, store: AccessPath -> seq<Record>, query: Query,
                 offset: NumArg, limit: NumArg) returns (r: Result<seq<Record>>, stoppedAt: Option<nat>)
    ensures r == IterateSpec(indexes, store, query, offset, limit)
    ensures stoppedAt.Some? <==> r.Success? && Cap(limit).Some? && |r.value| == Cap(limit).value
    ensures stoppedAt.Some? ==>
      var records := store(RequestPath(indexes, query).value);
      stoppedAt.value < |records| && records[stoppedAt.value] == r.value[|r.value| - 1]
  {
    var path := RequestPath(indexes, query);
    if path.Failure? {
      return Failure(path.error), None;
    }
    r, stoppedAt := Walk(store(path.value), query, offset, limit);
  }

  // ---------------------------------------------------------------- properties of the iteration

  /** Every yielded record passes the filter and comes from the cursor after the skipped positions. */
  lemma IteratedYieldsAccepted(records: seq<Record>, entries: seq<Entry>, offset: NumArg, limit: NumArg, x: Record)
    requires Iterated(records, entries, offset, limit).Success?
    requires x in Iterated(records, entries, offset, limit).value
    ensures Satisfies(entries, x)
    ensures x in records[SkipTo(|records|, offset)..]
  {
    var rest := records[SkipTo(|records|, offset)..];
    FilterMembers(rest, Accepts(entries), x);
  }

  /** With a limit of n ≥ 1, exactly min(n, number of accepted records after the offset) are yielded. */
  lemma IteratedCount(records: seq<Record>, entries: seq<Entry>, offset: NumArg, n: int)
    requires n >= 1
    requires Iterated(records, entries, offset, Int(n)).Success?
    ensures var matched := |Filter(records[SkipTo(|records|, offset)..], Accepts(entries))|;
            |Iterated(records, entries, offset, Int(n)).value| == if n < matched then n else matched
  {
  }

  /** A `null`, zero or negative limit never ends the walk: every accepted record after the offset is yielded. */
  lemma IteratedUnbounded(records: seq<Record>, entries: seq<Entry>, offset: NumArg, limit: NumArg)
    requires limit == NullArg || (limit.Int? && limit.i <= 0)
    requires Iterated(records, entries, offset, limit).Success?
    ensures Iterated(records, entries, offset, limit).value ==
            Filter(records[SkipTo(|records|, offset)..], Accepts(entries))
  {
  }

  /** An undefined (or NaN) limit stops after the first yield: `--undefined` is NaN, and NaN is falsy. */
  lemma UndefinedLimitYieldsAtMostOne(records: seq<Record>, entries: seq<Entry>, offset: NumArg, limit: NumArg)
    requires limit == Missing || limit == NaN
    requires Iterated(records, entries, offset, limit).Success?
    ensures |Iterated(records, entries, offset, limit).value| <= 1
  {
  }

  /** The offset skips raw cursor positions, before the filter sees them; it is applied only once. */
  lemma {:induction false} OffsetSkipsRawPositions(records: seq<Record>, entries: seq<Entry>, n: int, limit: NumArg)
    requires ValidAdvance(n) && n <= |records|
    ensures Iterated(records, entries, Int(n), limit) == Iterated(records[n..], entries, NullArg, limit)
  {
    assert records[n..][0..] == records[n..];
  }

  /** An offset at or past the end of the cursor leaves nothing to yield (the advanced cursor is null). */
  lemma OffsetPastEndYieldsNothing(records: seq<Record>, entries: seq<Entry>, n: int, limit: NumArg)
    requires ValidAdvance(n) && n >= |records|
    ensures Iterated(records, entries, Int(n), limit) == Success([])
  {
    assert records[SkipTo(|records|, Int(n))..] == [];
  }

  /**
   * An undefined query opens a cursor on the whole store but never yields a record: it fails exactly when a
   * record is left to visit after the offset, and the advance failure of an invalid offset comes first.
   */
  lemma UndefinedQueryYieldsNothing(indexes: seq<IndexDesc>, store: AccessPath -> seq<Record>,
                                    offset: NumArg, limit: NumArg)
    ensures var r := IterateSpec(indexes, store, Primitive(Undefined), offset, limit);
            var records := store(Direct(Primitive(Undefined)));
            && (r.Success? ==> r.value == [])
            && (r == Failure(EntriesOfUndefined) <==>
                  (|records| > 0 && Truthy(offset) ==> ValidAdvance(offset.i)) && records[SkipTo(|records|, offset)..] != [])
            && (r == Failure(AdvanceOutOfRange) <==> |records| > 0 && Truthy(offset) && !ValidAdvance(offset.i))
  {
    var records := store(Direct(Primitive(Undefined)));
    var start := SkipTo(|records|, offset);
    if start == |records| {
      assert records[start..] == [];
    }
  }

  /** A falsy offset (undefined, null, NaN, 0) skips nothing. */
  lemma FalsyOffsetSkipsNothing(records: seq<Record>, entries: seq<Entry>, offset: NumArg, limit: NumArg)
    requires !Truthy(offset)
    ensures Iterated(records, entries, offset, limit) == Iterated(records, entries, NullArg, limit)
  {
  }

  /** A query whose values are all equality values yields every record its cursor delivers. */
  lemma ScalarQueryYieldsAll(records: seq<Record>, entries: seq<Entry>)
    requires forall i :: 0 <= i < |entries| ==> entries[i].value.Scalar? || entries[i].value.Pattern?
    ensures Iterated(records, entries, NullArg, NullArg) == Success(records)
  {
    forall i | 0 <= i < |records| ensures Accepts(entries)(records[i]) {
      ScalarEntriesNeverReject(entries, records[i]);
    }
    FilterAll(records, Accepts(entries));
  }

  // ---------------------------------------------------------------- getAll

  /** A SortOptions list of `[field, ascending]` pairs. */
  type SortSpec = seq<(string, bool)>

  /** The sort engine (`sort`/`iterSort`), whose source is not part of this model. */
  type Sorter = (seq<Record>, SortSpec, NumArg, NumArg) -> seq<Record>

  /** The options object of getAll; when the argument is omitted it defaults to all-null. */
  datatype GetAllOptions = GetAllOptions(offset: NumArg, limit: NumArg, sort: Option<SortSpec>)

  const DefaultGetAllOptions := GetAllOptions(NullArg, NullArg, None)

  /** getAll: with a sort, the full iteration goes to the sort engine with offset and limit; else to iterate. */
  method GetAll(indexes: seq<IndexDesc>, store: AccessPath -> seq<Record>, query: Query,
                options: Option<GetAllOptions>, sorter: Sorter) returns (r: Result<seq<Record>>)
    ensures var opts := options.GetOr(DefaultGetAllOptions);
            match opts.sort
            case Some(spec) =>
              r == (match IterateSpec(indexes, store, query, NullArg, NullArg)
                    case Success(all) => Success(sorter(all, spec, opts.offset, opts.limit))
                    case Failure(e) => Failure(e))
            case None => r == IterateSpec(indexes, store, query, opts.offset, opts.limit)
    ensures options.Some? && options.value.sort.None? && options.value.limit == Missing && r.Success? ==>
            |r.value| <= 1
  {
    var opts := options.GetOr(DefaultGetAllOptions);
    if opts.sort.Some? {
      var all, stoppedAt := Iterate(indexes, store, query, NullArg, NullArg);
      if all.Failure? {
        return Failure(all.error);
      }
      return Success(sorter(all.value, opts.sort.value, opts.offset, opts.limit));
    }
    var stoppedAt;
    r, stoppedAt := Iterate(indexes, store, query, opts.offset, opts.limit);
  }
}
