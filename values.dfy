/** The JavaScript values the engine inspects: record fields, query objects and numeric options. */
module Values {

  /** A primitive field value of a stored record. */
  datatype Value = Undefined | Null | Bool(b: bool) | Num(n: int) | Str(s: string)

  /** A record as an object: a missing property reads as `undefined`. */
  type Record = map<string, Value>

  function Get(r: Record, field: string): Value {
    if field in r then r[field] else Undefined
  }

  /** What a query object may hold under a field name. */
  datatype QueryValue =
    | Scalar(v: Value)             // equality value, only used to choose an index
    | Pattern(source: string)      // a RegExp object: neither an array nor a function
    | List(items: seq<Value>)      // an array: the record's value must be one of the items
    | Pred(test: Value -> bool)    // a function: it must return true for the record's value

  /** One own property of a query object, kept in Object.keys order. */
  datatype Entry = Entry(field: string, value: QueryValue)

  /** The `query` argument: an IDBValidKey, an IDBKeyRange or a partial record. */
  datatype Query =
    | Primitive(key: Value)                          // a key whose typeof is not 'object' (or `null`, whose typeof is)
    | Range(lower: Value, upper: Value, lowerOpen: bool, upperOpen: bool)
    | Object(entries: seq<Entry>)

  /** `query[field]`: the first entry with that name, `undefined` when there is none. */
  function QueryGet(entries: seq<Entry>, field: string): (q: QueryValue)
    ensures FieldAbsent(entries, field) ==> q == Scalar(Undefined)
    ensures forall i :: 0 <= i < |entries| && entries[i].field == field && FieldAbsent(entries[..i], field) ==>
              q == entries[i].value
  {
    if entries == [] then Scalar(Undefined)
    else if entries[0].field == field then entries[0].value
    else
      assert forall i :: 1 <= i <= |entries| && FieldAbsent(entries[..i], field) ==>
          FieldAbsent(entries[1..][..i - 1], field) by {
        forall i | 1 <= i <= |entries| && FieldAbsent(entries[..i], field)
          ensures FieldAbsent(entries[1..][..i - 1], field)
        {
          var t := entries[1..][..i - 1];
          forall k | 0 <= k < |t| ensures t[k].field != field {
            assert t[k] == entries[..i][k + 1];
          }
        }
      }
      QueryGet(entries[1..], field)
  }

  predicate FieldAbsent(entries: seq<Entry>, field: string) {
    forall i :: 0 <= i < |entries| ==> entries[i].field != field
  }

  /** A JavaScript `number | null | undefined` option (integers only). */
  datatype NumArg = Missing | NullArg | NaN | Int(i: int)

  /** JavaScript truthiness of such an option. */
  predicate Truthy(a: NumArg) {
    a.Int? && a.i != 0
  }

  /** The decimal digits of a natural number, as Number.prototype.toString prints it. */
  function NatToString(n: nat): (s: string)
    ensures |s| > 0
    ensures forall c <- s :: '0' <= c <= '9'
    ensures n >= 10 ==> s[0] != '0'
    decreases n
  {
    if n < 10 then [DigitChar(n)] else NatToString(n / 10) + [DigitChar(n % 10)]
  }

  function DigitChar(d: nat): (c: char)
    requires d < 10
    ensures '0' <= c <= '9'
  {
    ['0', '1', '2', '3', '4', '5', '6', '7', '8', '9'][d]
  }

  /** The value of a string read as decimal digits (characters that are not digits count as 0). */
  function DigitsValue(s: string): int {
    if s == [] then 0 else DigitsValue(s[..|s| - 1]) * 10 + DigitValue(s[|s| - 1])
  }

  function DigitValue(c: char): nat {
    if '0' <= c <= '9' then (c as int) - ('0' as int) else 0
  }

  lemma {:induction false} DigitsValueOfNatToString(n: nat)
    ensures DigitsValue(NatToString(n)) == n
    decreases n
  {
    if n >= 10 {
      var s := NatToString(n / 10) + [DigitChar(n % 10)];
      assert s[..|s| - 1] == NatToString(n / 10);
      DigitsValueOfNatToString(n / 10);
      DigitCharValue(n % 10);
    } else {
      DigitCharValue(n);
      assert NatToString(n)[..0] == [];
    }
  }

  lemma DigitCharValue(d: nat)
    requires d < 10
    ensures DigitValue(DigitChar(d)) == d
  {
  }

  /** ToPropertyKey: the string an object property named by `v` is stored under. */
  function PropertyKey(v: Value): string {
    match v
    case Undefined => "undefined"
    case Null => "null"
    case Bool(b) => if b then "true" else "false"
    case Num(n) => if n >= 0 then NatToString(n) else "-" + NatToString(-n)
    case Str(s) => s
  }

  /** A number and its decimal numeral name the same property: `1` and `"1"` share a group. */
  lemma NumberAndNumeralShareKey(n: nat)
    ensures PropertyKey(Num(n)) == PropertyKey(Str(NatToString(n)))
  {
  }

  /** Different non-negative numbers name different properties. */
  lemma DistinctNumbersDistinctKeys(m: nat, n: nat)
    requires m != n
    ensures PropertyKey(Num(m)) != PropertyKey(Num(n))
  {
    DigitsValueOfNatToString(m);
    DigitsValueOfNatToString(n);
  }

  /** The largest array index plus one: 2^32 - 1. */
  const ArrayIndexLimit: nat := 0xFFFF_FFFF

  /** A canonical array-index property key: such keys come first, in ascending numeric order, in Object.keys. */
  predicate IsArrayIndex(s: string) {
    && |s| > 0
    && (forall c <- s :: '0' <= c <= '9')
    && (|s| == 1 || s[0] != '0')
    && DigitsValue(s) < ArrayIndexLimit
  }

  /** A non-negative integer key below 2^32 - 1 is an array index, and it orders by its numeric value. */
  lemma NumberKeyIsArrayIndex(n: nat)
    requires n < ArrayIndexLimit
    ensures IsArrayIndex(PropertyKey(Num(n)))
    ensures DigitsValue(PropertyKey(Num(n))) == n
  {
    DigitsValueOfNatToString(n);
  }
}
