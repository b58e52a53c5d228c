/** The autocomplete matcher: multi-word, case-insensitive substring matching and a stable length ordering. */
module Matching {
  import opened Results
  import opened Values
  import opened Seqs
  import opened Schema
  import opened IndexSelection
  import opened Cursor

  // ---------------------------------------------------------------- words

  predicate IsSpace(c: char) {
    c == ' ' || c == '\t' || c == '\n' || c == '\r' || c == '\U{000B}' || c == '\U{000C}'
  }

  /**
   * The complement of IsSpace, as a filter. It is named so that MergeWords and the lemmas about it filter
   * with the same function value: two occurrences of a lambda `c => !IsSpace(c)` are not provably equal.
   */
  function NotSpace(c: char): bool {
    !IsSpace(c)
  }

  predicate NoSpace(s: string) {
    forall c <- s :: !IsSpace(c)
  }

  /** mergeWords: the string with its whitespace removed. */
  function MergeWords(s: string): (r: string)
    ensures NoSpace(r)
  {
    Filter(s, NotSpace)
  }

  /** The words of `s` after the partial word `word` already read. */
  function Words(s: string, word: string): seq<string>
    decreases |s|
  {
    if s == [] then (if word == [] then [] else [word])
    else if IsSpace(s[0]) then (if word == [] then [] else [word]) + Words(s[1..], [])
    else Words(s[1..], word + [s[0]])
  }

  /** splitByWords: the whitespace-delimited words, empty tokens discarded. */
  function SplitByWords(s: string): seq<string> {
    Words(s, [])
  }

  function Concat(ws: seq<string>): string {
    if ws == [] then [] else ws[0] + Concat(ws[1..])
  }

  /** Removing whitespace from a non-empty string: its first character, unless a space, then the rest. */
  lemma MergeWordsCons(s: string)
    requires s != []
    ensures MergeWords(s) == (if IsSpace(s[0]) then [] else [s[0]]) + MergeWords(s[1..])
  {
    assert [s[0]] + s[1..] == s;
    FilterAppend([s[0]], s[1..], NotSpace);
    FilterSingle(s[0], NotSpace);
  }

  lemma {:induction false} WordsAreWords(s: string, word: string)
    requires NoSpace(word)
    ensures forall w <- Words(s, word) :: |w| > 0 && NoSpace(w)
    decreases |s|
  {
    if s != [] {
      if IsSpace(s[0]) {
        WordsAreWords(s[1..], []);
      } else {
        WordsAreWords(s[1..], word + [s[0]]);
      }
    }
  }

  lemma {:induction false} WordsSpellMerged(s: string, word: string)
    ensures Concat(Words(s, word)) == word + MergeWords(s)
    decreases |s|
  {
    if s == [] {
      assert MergeWords(s) == [];
      if word != [] {
        assert Concat([word]) == word + Concat([]);
      }
    } else {
      MergeWordsCons(s);
      var rest := MergeWords(s[1..]);
      if IsSpace(s[0]) {
        WordsSpellMerged(s[1..], []);
        var ws := Words(s[1..], []);
        if word != [] {
          assert Words(s, word) == [word] + ws;
          assert ([word] + ws)[1..] == ws;
          assert Concat([word] + ws) == word + Concat(ws);
        } else {
          assert Words(s, word) == ws;
        }
      } else {
        WordsSpellMerged(s[1..], word + [s[0]]);
        assert (word + [s[0]]) + rest == word + ([s[0]] + rest);
      }
    }
  }

  /** Splitting yields non-empty words without whitespace that spell out the merged string. */
  lemma SplitByWordsShape(s: string)
    ensures forall w <- SplitByWords(s) :: |w| > 0 && NoSpace(w)
    ensures Concat(SplitByWords(s)) == MergeWords(s)
  {
    WordsAreWords(s, []);
    WordsSpellMerged(s, []);
  }

  // ---------------------------------------------------------------- comparison

  /** ASCII case folding: the stand-in for collation at base sensitivity. */
  function Fold(c: char): char {
    if 'A' <= c <= 'Z' then ((c as int) + 32) as char else c
  }

  /** `a.localeCompare(b, locales, { sensitivity: 'base' }) === 0`. */
  predicate SameBase(a: string, b: string) {
    |a| == |b| && forall k :: 0 <= k < |a| ==> Fold(a[k]) == Fold(b[k])
  }

  /** `s.substr(i, n)`: at most n characters from position i. */
  function Window(s: string, i: nat, n: nat): (w: string)
    requires i <= |s|
    ensures |w| <= n
  {
    s[i..if i + n < |s| then i + n else |s|]
  }

  /** A query word occurs in the merged source: some window starting inside the source equals it. */
  predicate OccursIn(word: string, source: string) {
    exists i :: 0 <= i < |source| && SameBase(Window(source, i, |word|), word)
  }

  /** The sliding-window loop inside the `every` callback. */
  method ContainsWord(source: string, word: string) returns (found: bool)
    ensures found <==> OccursIn(word, source)
  {
    for i := 0 to |source|
      invariant forall k :: 0 <= k < i ==> !SameBase(Window(source, k, |word|), word)
    {
      if SameBase(Window(source, i, |word|), word) {
        return true;
      }
    }
    return false;
  }

  /** `queryWords.every(...)`: stops at the first word that occurs nowhere. */
  method MatchesAllWords(words: seq<string>, source: string) returns (matched: bool)
    ensures matched <==> forall w <- words :: OccursIn(w, source)
  {
    for j := 0 to |words|
      invariant forall k :: 0 <= k < j ==> OccursIn(words[k], source)
    {
      var found := ContainsWord(source, words[j]);
      if !found {
        return false;
      }
    }
    return true;
  }

  // ---------------------------------------------------------------- autocomplete

  /** The options object of autocomplete; omitted, it is `{ asc: true, limit: null }`. */
  datatype AutocompleteOptions = AutocompleteOptions(asc: Option<bool>, limit: NumArg)

  const DefaultAutocompleteOptions := AutocompleteOptions(Some(true), NullArg)

  /** `asc || asc === undefined`. */
  predicate Ascending(opts: AutocompleteOptions) {
    opts.asc != Some(false)
  }

  function TextOf(v: Value): string {
    if v.Str? then v.s else ""
  }

  /** A term whose `.length` throws. */
  predicate NullishTerm(term: QueryValue) {
    term.Scalar? && (term.v == Undefined || term.v == Null)
  }

  /** A non-empty string term: the only kind whose words are matched. */
  predicate WordTerm(term: QueryValue) {
    term.Scalar? && term.v.Str? && |term.v.s| > 0
  }

  /**
   * Whether a record is kept: its match field is defined and, for a non-empty string term, every query word
   * occurs in the merged source. Any other term has a falsy `.length` and keeps every such record.
   */
  predicate Kept(key: string, term: QueryValue, rec: Record) {
    && Get(rec, key) != Undefined
    && (WordTerm(term) ==> forall w <- SplitByWords(term.v.s) :: OccursIn(w, MergeWords(TextOf(Get(rec, key)))))
  }

  function Keeps(key: string, term: QueryValue): Record -> bool {
    rec => Kept(key, term, rec)
  }

  /** The length a record sorts by: ascending by match-field length, or descending through its negation. */
  function LengthKey(key: string, ascending: bool): Record -> int {
    rec => if ascending then |TextOf(Get(rec, key))| else -|TextOf(Get(rec, key))|
  }

  /** `limit ? s.slice(0, limit) : s`; a negative limit drops that many from the end. */
  function Truncated<T>(s: seq<T>, limit: NumArg): (r: seq<T>)
    ensures r <= s
    ensures !Truthy(limit) ==> r == s
    ensures Truthy(limit) && limit.i > 0 ==> |r| == if limit.i < |s| then limit.i else |s|
    ensures Truthy(limit) && limit.i < 0 ==> |r| == if |s| + limit.i > 0 then |s| + limit.i else 0
  {
    if !Truthy(limit) then s
    else
      var n := limit.i;
      var end := if n < 0 then (if |s| + n > 0 then |s| + n else 0) else (if n < |s| then n else |s|);
      s[..end]
  }

  /** Some candidate has a defined match field: with a nullish term, reading its `.length` throws there. */
  predicate SomeDefined(candidates: seq<Record>, key: string) {
    exists i :: 0 <= i < |candidates| && Get(candidates[i], key) != Undefined
  }

  /** The matching pass: the kept candidates in cursor order, or the error a nullish term raises. */
  function Matched(candidates: seq<Record>, key: string, term: QueryValue): Result<seq<Record>> {
    if NullishTerm(term) && SomeDefined(candidates, key) then Failure(LengthOfNullish)
    else Success(Filter(candidates, Keeps(key, term)))
  }

  /** What autocomplete resolves to, given the records `iterate(query)` yields. */
  function Autocompleted(candidates: seq<Record>, key: string, term: QueryValue, opts: AutocompleteOptions)
    : Result<seq<Record>>
  {
    match Matched(candidates, key, term)
    case Failure(e) => Failure(e)
    case Success(kept) => Success(Truncated(SortBy(kept, LengthKey(key, Ascending(opts))), opts.limit))
  }

  /** The callback's decision for one record whose match field is defined. */
  method KeepsRecord(key: string, term: QueryValue, rec: Record) returns (keep: bool)
    requires Get(rec, key) != Undefined
    ensures keep == Kept(key, term, rec)
  {
    if WordTerm(term) {
      var words := SplitByWords(term.v.s);
      var merged := MergeWords(TextOf(Get(rec, key)));
      keep := MatchesAllWords(words, merged);
    } else {
      // an empty string, or a term whose `.length` is undefined: every record is kept
      keep := true;
    }
  }

  /** The per-record pass over the cursor: skip undefined match fields, throw on a nullish term, keep matches. */
  method MatchRecords(records: seq<Record>, key: string, term: QueryValue) returns (r: Result<seq<Record>>)
    ensures r == Matched(records, key, term)
  {
    ghost var keeps := Keeps(key, term);
    var matched: seq<Record> := [];
    for i := 0 to |records|
      invariant matched == Filter(records[..i], keeps)
      invariant NullishTerm(term) ==> forall k :: 0 <= k < i ==> Get(records[k], key) == Undefined
    {
      FilterSnoc(records, i, keeps);
      if Get(records[i], key) == Undefined {
        continue;
      }
      if NullishTerm(term) {
        return Failure(LengthOfNullish);
      }
      var keep := KeepsRecord(key, term, records[i]);
      if keep {
        matched := matched + [records[i]];
      }
    }
    assert records[..|records|] == records;
    return Success(matched);
  }

  /** The records a cursor on the query's access path delivers. */
  function Delivered(indexes: seq<IndexDesc>, store: AccessPath -> seq<Record>, entries: seq<Entry>): seq<Record> {
    store(RequestPath(indexes, Object(entries)).value)
  }

  /** autocomplete: iterate the query, keep the matching records, sort them by length, truncate. */
  method Autocomplete(indexes: seq<IndexDesc>, store: AccessPath -> seq<Record>, entries: seq<Entry>,
                      key: string, options: Option<AutocompleteOptions>) returns (r: Result<seq<Record>>)
    requires !QueryGet(entries, key).List? && !QueryGet(entries, key).Pred?
    requires forall rec <- Delivered(indexes, store, entries) :: Get(rec, key).Str? || Get(rec, key) == Undefined
    ensures r == Autocompleted(Filter(Delivered(indexes, store, entries), Accepts(entries)), key,
                               QueryGet(entries, key), options.GetOr(DefaultAutocompleteOptions))
  {
    var opts := options.GetOr(DefaultAutocompleteOptions);
    var iterated, stoppedAt := Iterate(indexes, store, Object(entries), NullArg, NullArg);
    assert Delivered(indexes, store, entries)[0..] == Delivered(indexes, store, entries);
    var matched := MatchRecords(iterated.value, key, QueryGet(entries, key));
    if matched.Failure? {
      return Failure(matched.error);
    }
    var sorted := SortBy(matched.value, LengthKey(key, Ascending(opts)));
    return Success(Truncated(sorted, opts.limit));
  }

  // ---------------------------------------------------------------- properties of autocomplete

  /** Every result comes from the candidates and is kept by the matcher. */
  lemma AutocompleteKeepsMatches(candidates: seq<Record>, key: string, term: QueryValue,
                                 opts: AutocompleteOptions, x: Record)
    requires Autocompleted(candidates, key, term, opts).Success?
    requires x in Autocompleted(candidates, key, term, opts).value
    ensures x in candidates && Kept(key, term, x)
  {
    var kept := Filter(candidates, Keeps(key, term));
    var sorted := SortBy(kept, LengthKey(key, Ascending(opts)));
    SortByIsSorted(kept, LengthKey(key, Ascending(opts)));
    assert x in sorted;
    assert x in multiset(kept);
    FilterMembers(candidates, Keeps(key, term), x);
  }

  /** The results are ordered by match-field length: ascending unless `asc` is false. */
  lemma AutocompleteIsOrdered(candidates: seq<Record>, key: string, term: QueryValue,
                              opts: AutocompleteOptions, i: nat, j: nat)
    requires Autocompleted(candidates, key, term, opts).Success?
    requires i < j < |Autocompleted(candidates, key, term, opts).value|
    ensures var res := Autocompleted(candidates, key, term, opts).value;
            if Ascending(opts) then |TextOf(Get(res[i], key))| <= |TextOf(Get(res[j], key))|
            else |TextOf(Get(res[i], key))| >= |TextOf(Get(res[j], key))|
  {
    var kept := Filter(candidates, Keeps(key, term));
    var sorted := SortBy(kept, LengthKey(key, Ascending(opts)));
    SortByIsSorted(kept, LengthKey(key, Ascending(opts)));
    var res := Autocompleted(candidates, key, term, opts).value;
    assert res[i] == sorted[i] && res[j] == sorted[j];
  }

  /** Without a truthy limit every kept record is returned: the result is a permutation of them. */
  lemma AutocompleteReturnsAllKept(candidates: seq<Record>, key: string, term: QueryValue, opts: AutocompleteOptions)
    requires Autocompleted(candidates, key, term, opts).Success? && !Truthy(opts.limit)
    ensures multiset(Autocompleted(candidates, key, term, opts).value) == multiset(Filter(candidates, Keeps(key, term)))
  {
    SortByIsSorted(Filter(candidates, Keeps(key, term)), LengthKey(key, Ascending(opts)));
  }

  /** Records of equal match-field length keep the order the cursor delivered them in. */
  lemma AutocompleteIsStable(candidates: seq<Record>, key: string, term: QueryValue, opts: AutocompleteOptions, k: int)
    requires Autocompleted(candidates, key, term, opts).Success?
    ensures var lengthKey := LengthKey(key, Ascending(opts));
            Filter(Autocompleted(candidates, key, term, opts).value, HasKey(lengthKey, k)) <=
            Filter(Filter(candidates, Keeps(key, term)), HasKey(lengthKey, k))
    ensures var lengthKey := LengthKey(key, Ascending(opts));
            !Truthy(opts.limit) ==>
              Filter(Autocompleted(candidates, key, term, opts).value, HasKey(lengthKey, k)) ==
              Filter(Filter(candidates, Keeps(key, term)), HasKey(lengthKey, k))
  {
    var kept := Filter(candidates, Keeps(key, term));
    var lengthKey := LengthKey(key, Ascending(opts));
    var sorted := SortBy(kept, lengthKey);
    var res := Autocompleted(candidates, key, term, opts).value;
    SortByIsStable(kept, lengthKey, k);
    assert res == Truncated(sorted, opts.limit);
    assert sorted[..|res|] == res;
    FilterPrefix(sorted, |res|, HasKey(lengthKey, k));
  }

  /** An empty query string keeps every record whose match field is defined. */
  lemma EmptyTermKeepsDefined(key: string, rec: Record)
    ensures Kept(key, Scalar(Str("")), rec) <==> Get(rec, key) != Undefined
  {
  }

  /** The single-letter query splits into that one letter. */
  lemma SingleLetterWords()
    ensures SplitByWords("s") == ["s"]
  {
    assert "s"[1..] == [] && [] + ['s'] == "s";
  }

  /** The single-letter query of the unit test keeps "Sam", ignoring case. */
  lemma SingleLetterTermKeepsSam()
    ensures Kept("name", Scalar(Str("s")), map["userId" := Num(3), "name" := Str("Sam")])
  {
    SingleLetterWords();
    FilterAll("Sam", NotSpace);
    assert SameBase(Window("Sam", 0, 1), "s");
  }

  /** "Mike" contains no "s" in either case. */
  lemma NoSInMike()
    ensures !OccursIn("s", MergeWords("Mike"))
  {
    FilterAll("Mike", NotSpace);
    assert MergeWords("Mike") == "Mike";
    forall i | 0 <= i < 4 ensures !SameBase(Window("Mike", i, 1), "s") {
      assert Window("Mike", i, 1) == ["Mike"[i]];
    }
  }

  /** The same query drops "Mike". */
  lemma SingleLetterTermDropsMike()
    ensures !Kept("name", Scalar(Str("s")), map["userId" := Num(4), "name" := Str("Mike")])
  {
    SingleLetterWords();
    var rec := map["userId" := Num(4), "name" := Str("Mike")];
    assert Get(rec, "name") == Str("Mike");
    NoSInMike();
    assert "s" in SplitByWords("s");
  }
}
