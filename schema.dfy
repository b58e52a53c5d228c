/** The entity catalog: field kinds, the primary key path, the index descriptors and the index-probeable fields. */
module Schema {
  import opened Results
  import opened Values
  import opened Seqs

  /** What a FIELDS entry holds: FIELD_TYPE.KEY.auto, FIELD_TYPE.KEY, a plain type tag, or a foreign entity name. */
  datatype FieldKind = AutoKey | Key | Text | Number | DateTime | ForeignKey(entity: string)

  /** One entry of FIELDS, in declaration order. */
  datatype Field = Field(name: string, kind: FieldKind)

  /** An index key path: one field name, or an array of field names. */
  datatype KeyPath = Single(field: string) | Composite(fields: seq<string>)

  /** One entry of INDEXES: a bare field name, or a descriptor with its `options.unique` flag (absent reads false). */
  datatype IndexDesc = Shorthand(name: string) | Desc(name: string, keyPath: KeyPath, unique: bool)

  datatype Entity = Entity(fields: seq<Field>, indexes: seq<IndexDesc>)

  // ---------------------------------------------------------------- primary key path

  /** The position of the first auto-increment field, or |fields| when there is none. */
  function FirstAuto(fields: seq<Field>): (j: nat)
    ensures j <= |fields|
    ensures j < |fields| ==> fields[j].kind == AutoKey
    ensures forall i :: 0 <= i < j ==> fields[i].kind != AutoKey
  {
    if fields == [] then 0
    else if fields[0].kind == AutoKey then 0
    else 1 + FirstAuto(fields[1..])
  }

  /** The names of the plain key fields, in declaration order. */
  function KeyNames(fields: seq<Field>): (names: seq<string>)
    ensures |names| <= |fields|
  {
    if fields == [] then []
    else
      var last := fields[|fields| - 1];
      KeyNames(fields[..|fields| - 1]) + if last.kind == Key then [last.name] else []
  }

  lemma {:induction false} KeyNamesMembers(fields: seq<Field>, x: string)
    ensures x in KeyNames(fields) <==> exists i :: 0 <= i < |fields| && fields[i].kind == Key && fields[i].name == x
  {
    if fields != [] {
      var pre := fields[..|fields| - 1];
      KeyNamesMembers(pre, x);
      assert forall i :: 0 <= i < |pre| ==> pre[i] == fields[i];
    }
  }

  /** The key path and the auto-increment key: the plain key fields up to the first auto field, then that field. */
  function EntityKeyPath(fields: seq<Field>): (r: (seq<string>, Option<string>))
    ensures r.1.Some? <==> exists i :: 0 <= i < |fields| && fields[i].kind == AutoKey
    ensures r.1.Some? ==> |r.0| > 0 && r.0[|r.0| - 1] == r.1.value
  {
    var j := FirstAuto(fields);
    if j < |fields| then (KeyNames(fields[..j]) + [fields[j].name], Some(fields[j].name))
    else (KeyNames(fields), None)
  }

  /** getEntityKeyPath: the for-in walk over FIELDS that stops at the first auto field. */
  method GetEntityKeyPath(fields: seq<Field>) returns (keyPath: seq<string>, autoIncrementKey: Option<string>)
    ensures (keyPath, autoIncrementKey) == EntityKeyPath(fields)
  {
    keyPath := [];
    autoIncrementKey := None;
    var i := 0;
    while i < |fields|
      invariant 0 <= i <= |fields|
      invariant forall k :: 0 <= k < i ==> fields[k].kind != AutoKey
      invariant keyPath == KeyNames(fields[..i])
    {
      var field := fields[i];
      assert fields[..i + 1][..i] == fields[..i];
      if field.kind == AutoKey {
        keyPath := keyPath + [field.name];
        autoIncrementKey := Some(field.name);
        assert FirstAuto(fields) == i;
        return;
      } else if field.kind == Key {
        keyPath := keyPath + [field.name];
      }
      i := i + 1;
    }
    assert fields[..i] == fields;
  }

  /** Every name on the key path is a plain key field before the first auto field, or that auto field itself. */
  lemma KeyPathMembers(fields: seq<Field>, x: string)
    ensures var (keyPath, auto) := EntityKeyPath(fields);
            x in keyPath <==>
              (exists i :: 0 <= i < FirstAuto(fields) && fields[i].kind == Key && fields[i].name == x) ||
              auto == Some(x)
  {
    var j := FirstAuto(fields);
    KeyNamesMembers(fields[..j], x);
    assert forall i :: 0 <= i < j ==> fields[..j][i] == fields[i];
    if j == |fields| {
      assert fields[..j] == fields;
    }
  }

  /** Fields declared after the first auto field never affect the key path. */
  lemma {:induction false} LaterFieldsIgnored(fields: seq<Field>, rest: seq<Field>)
    requires exists i :: 0 <= i < |fields| && fields[i].kind == AutoKey
    ensures EntityKeyPath(fields + rest) == EntityKeyPath(fields)
  {
    var j := FirstAuto(fields);
    var all := fields + rest;
    assert all[j] == fields[j];
    FirstAutoFromPrefix(all, j);
    assert all[..j] == fields[..j];
  }

  lemma FirstAutoFromPrefix(fields: seq<Field>, j: nat)
    requires j < |fields| && fields[j].kind == AutoKey
    requires forall i :: 0 <= i < j ==> fields[i].kind != AutoKey
    ensures FirstAuto(fields) == j
  {
  }

  // ---------------------------------------------------------------- add

  /**
   * The record `add` resolves to: the stored record with its auto-increment field set to the key the
   * store generated, when the entity has one (a field named "" is falsy and gets no merge).
   */
  function AddedRecord(fields: seq<Field>, record: Record, storeKey: Value): (r: Record)
    ensures match EntityKeyPath(fields).1
            case Some(k) =>
              if k != "" then r.Keys == record.Keys + {k} && r[k] == storeKey &&
                              forall f :: f != k ==> Get(r, f) == Get(record, f)
              else r == record
            case None => r == record
  {
    match EntityKeyPath(fields).1
    case Some(k) => if k != "" then record[k := storeKey] else record
    case None => record
  }

  // ---------------------------------------------------------------- index-probeable fields

  /** The field names one INDEXES entry adds to the result set. */
  function Contribution(d: IndexDesc): seq<string> {
    match d
    case Shorthand(name) => [name]
    case Desc(_, Single(field), _) => [field]
    case Desc(_, Composite(fs), unique) => if unique then [] else fs
  }

  /** Every name added, in order, repeats included. */
  function Contributions(ds: seq<IndexDesc>): seq<string> {
    if ds == [] then [] else Contributions(ds[..|ds| - 1]) + Contribution(ds[|ds| - 1])
  }

  /** getAllIndexFields: the names added to an insertion-ordered Set while reducing over INDEXES. */
  function IndexFields(ds: seq<IndexDesc>): (r: seq<string>)
    ensures NoDuplicates(r)
  {
    Dedup(Contributions(ds))
  }

  lemma {:induction false} ContributionsMembers(ds: seq<IndexDesc>, x: string)
    ensures x in Contributions(ds) <==> exists i :: 0 <= i < |ds| && x in Contribution(ds[i])
  {
    if ds != [] {
      var pre := ds[..|ds| - 1];
      ContributionsMembers(pre, x);
      assert forall i :: 0 <= i < |pre| ==> pre[i] == ds[i];
    }
  }

  /**
   * A name is index-probeable iff some shorthand entry names it, some single-field descriptor (unique or
   * not) has it as key path, or some composite descriptor that is not unique lists it.
   */
  lemma IndexFieldsMembers(ds: seq<IndexDesc>, x: string)
    ensures x in IndexFields(ds) <==>
      exists i :: 0 <= i < |ds| &&
        match ds[i]
        case Shorthand(name) => name == x
        case Desc(_, Single(field), _) => field == x
        case Desc(_, Composite(fs), unique) => !unique && x in fs
  {
    ContributionsMembers(ds, x);
    var c := Contributions(ds);
    if x in c {
      var k :| 0 <= k < |c| && c[k] == x;
      assert x in IndexFields(ds);
    }
    if x in IndexFields(ds) {
      var r := IndexFields(ds);
      var k :| 0 <= k < |r| && r[k] == x;
      assert x in c;
    }
  }

  lemma ContributionsSnoc(ds: seq<IndexDesc>, i: nat)
    requires i < |ds|
    ensures Contributions(ds[..i + 1]) == Contributions(ds[..i]) + Contribution(ds[i])
  {
    assert ds[..i + 1][..i] == ds[..i];
  }

  /** `set.add` for each name in turn: the set, as an insertion-ordered sequence, takes in the new names. */
  method AddNames(set0: seq<string>, ghost added: seq<string>, names: seq<string>) returns (set1: seq<string>)
    requires set0 == Dedup(added)
    ensures set1 == Dedup(added + names)
  {
    set1 := set0;
    ghost var seen := added;
    assert added + names[..0] == added;
    for j := 0 to |names|
      invariant seen == added + names[..j]
      invariant set1 == Dedup(seen)
    {
      DedupSnoc(seen, names[j]);
      AppendSlice(added, names, j);
      if names[j] !in set1 {
        set1 := set1 + [names[j]];
      }
      seen := seen + [names[j]];
    }
    assert names[..|names|] == names;
  }

  /** The method form: `reduce` over INDEXES adding into a Set, then Array.from. */
  method GetAllIndexFields(ds: seq<IndexDesc>) returns (result: seq<string>)
    ensures result == IndexFields(ds)
  {
    result := [];
    for i := 0 to |ds|
      invariant result == Dedup(Contributions(ds[..i]))
    {
      ContributionsSnoc(ds, i);
      result := AddNames(result, Contributions(ds[..i]), Contribution(ds[i]));
    }
    assert ds[..|ds|] == ds;
  }

  /** The catalog of the unit test: a single-field index, a unique single-field index, a unique composite. */
  lemma IndexFieldsOfTestedCatalog()
    ensures IndexFields([
      Desc("userId-Idx", Single("userId"), false),
      Desc("userId-Idx", Single("email"), true),
      Desc("userIdPhone-Idx", Composite(["userId", "phone"]), true)]) == ["userId", "email"]
  {
    var ds := [
      Desc("userId-Idx", Single("userId"), false),
      Desc("userId-Idx", Single("email"), true),
      Desc("userIdPhone-Idx", Composite(["userId", "phone"]), true)];
    assert ds[..2][..1] == [ds[0]];
    assert ds[..2] == [ds[0], ds[1]];
    assert Contributions([ds[0]]) == ["userId"] by { assert [ds[0]][..0] == []; }
    assert Contributions(ds) == ["userId", "email"];
    var c := ["userId", "email"];
    assert c[..1] == ["userId"];
    assert Dedup(["userId"]) == ["userId"] by { assert ["userId"][..0] == []; }
  }
}
