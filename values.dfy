/** The values the parser builds (main.js lines 19-123): null, booleans, numbers, strings,
    arrays and objects. An object is an association list of fields; binding a key that is
    already present replaces its value where it stands, as Object.defineProperty does on
    the writable property an earlier binding created (main.js lines 54-58). */
module JsonValue {
  import opened Wrappers

  /** A number as the parser produces it. */
  datatype Number =
    | Int(value: int)      // Number.parseInt of a token without "."
    | Float(text: string)  // Number.parseFloat of a token holding ".", kept as the token's text
    | NaN                  // Number.parseInt of a token with no digits where it expects them

  datatype Value =
    | Null
    | Bool(b: bool)
    | Num(n: Number)
    | Str(s: string)
    | Arr(items: seq<Value>)
    | Obj(fields: seq<Field>)

  datatype Field = Field(key: string, value: Value)

  /** The keys of an association list, in order. */
  function Keys(fields: seq<Field>): (ks: seq<string>)
    ensures |ks| == |fields|
    ensures forall i :: 0 <= i < |fields| ==> ks[i] == fields[i].key
  {
    if fields == [] then [] else [fields[0].key] + Keys(fields[1..])
  }

  /** The value bound to `key`: the first field that carries it. */
  function Lookup(fields: seq<Field>, key: string): (r: Option<Value>)
    ensures r.Some? <==> key in Keys(fields)
  {
    if fields == [] then None
    else if fields[0].key == key then Some(fields[0].value)
    else
      assert Keys(fields) == [fields[0].key] + Keys(fields[1..]);
      Lookup(fields[1..], key)
  }

  /** No key occurs twice, as in every JavaScript object. */
  predicate UniqueKeys(fields: seq<Field>) {
    forall i, j :: 0 <= i < j < |fields| ==> fields[i].key != fields[j].key
  }

  /** Every object inside `v` has unique keys. */
  predicate WellFormed(v: Value) {
    match v
    case Arr(items) => forall i :: 0 <= i < |items| ==> WellFormed(items[i])
    case Obj(fields) => UniqueKeys(fields) && forall i :: 0 <= i < |fields| ==> WellFormed(fields[i].value)
    case _ => true
  }

  /** Binds `key` to `value`: a key already present keeps its place and gets the new value,
      a new key is appended. */
  function Bind(fields: seq<Field>, key: string, value: Value): seq<Field> {
    if fields == [] then [Field(key, value)]
    else if fields[0].key == key then [Field(key, value)] + fields[1..]
    else [fields[0]] + Bind(fields[1..], key, value)
  }

  /** Binding keeps every key where it was, and appends the key when it is new. */
  lemma {:induction false} BindKeys(fields: seq<Field>, key: string, value: Value)
    ensures Keys(Bind(fields, key, value)) == if key in Keys(fields) then Keys(fields) else Keys(fields) + [key]
  {
    if fields != [] {
      assert Keys(fields) == [fields[0].key] + Keys(fields[1..]);
      if fields[0].key == key {
        assert Keys(Bind(fields, key, value)) == [key] + Keys(fields[1..]);
      } else {
        var rest := Bind(fields[1..], key, value);
        BindKeys(fields[1..], key, value);
        assert Keys([fields[0]] + rest) == [fields[0].key] + Keys(rest);
      }
    }
  }

  /** Last write wins: after binding `key`, it looks up the new value, and every other key
      looks up what it did before. */
  lemma {:induction false} BindLastWriteWins(fields: seq<Field>, key: string, value: Value, other: string)
    ensures Lookup(Bind(fields, key, value), key) == Some(value)
    ensures other != key ==> Lookup(Bind(fields, key, value), other) == Lookup(fields, other)
  {
    if fields != [] && fields[0].key != key {
      var r := Bind(fields, key, value);
      assert r[0] == fields[0] && r[1..] == Bind(fields[1..], key, value);
      BindLastWriteWins(fields[1..], key, value, other);
    }
  }

  /** Binding keeps the keys unique, and a key not yet present goes at the end. */
  lemma BindShape(fields: seq<Field>, key: string, value: Value)
    ensures UniqueKeys(fields) ==> UniqueKeys(Bind(fields, key, value))
    ensures key !in Keys(fields) ==> Bind(fields, key, value) == fields + [Field(key, value)]
  {
    BindKeepsKeys(fields, key, value);
    BindAppendsNewKey(fields, key, value);
  }

  lemma BindKeepsKeys(fields: seq<Field>, key: string, value: Value)
    ensures UniqueKeys(fields) ==> UniqueKeys(Bind(fields, key, value))
  {
    var r := Bind(fields, key, value);
    BindKeys(fields, key, value);
    if UniqueKeys(fields) {
      var ks := Keys(r);
      assert forall i :: 0 <= i < |r| ==> r[i].key == ks[i];
      assert forall i :: 0 <= i < |fields| ==> fields[i].key == Keys(fields)[i];
    }
  }

  lemma {:induction false} BindAppendsNewKey(fields: seq<Field>, key: string, value: Value)
    ensures key !in Keys(fields) ==> Bind(fields, key, value) == fields + [Field(key, value)]
  {
    if fields != [] && key !in Keys(fields) {
      assert Keys(fields) == [fields[0].key] + Keys(fields[1..]);
      BindAppendsNewKey(fields[1..], key, value);
      assert fields == [fields[0]] + fields[1..];
    }
  }

  /** Binding a well-formed value into a well-formed object gives a well-formed object. */
  lemma {:induction false} BindWellFormed(fields: seq<Field>, key: string, value: Value)
    requires WellFormed(Obj(fields)) && WellFormed(value)
    ensures WellFormed(Obj(Bind(fields, key, value)))
  {
    BindShape(fields, key, value);
    BindValues(fields, key, value);
  }

  /** Every value bound after Bind is the new value or one bound before. */
  lemma {:induction false} BindValues(fields: seq<Field>, key: string, value: Value)
    ensures forall j :: 0 <= j < |Bind(fields, key, value)| ==>
      Bind(fields, key, value)[j].value == value
      || exists m :: 0 <= m < |fields| && Bind(fields, key, value)[j].value == fields[m].value
  {
    if fields != [] && fields[0].key != key {
      var r := Bind(fields, key, value);
      var rest := Bind(fields[1..], key, value);
      assert r == [fields[0]] + rest;
      BindValues(fields[1..], key, value);
      forall j | 0 < j < |r|
        ensures r[j].value == value || exists m :: 0 <= m < |fields| && r[j].value == fields[m].value
      {
        assert r[j] == rest[j - 1];
        if r[j].value != value {
          var m :| 0 <= m < |fields[1..]| && rest[j - 1].value == fields[1..][m].value;
          assert fields[1..][m] == fields[m + 1];
        }
      }
      assert r[0].value == fields[0].value;
    } else if fields != [] {
      var r := Bind(fields, key, value);
      assert forall j :: 0 < j < |r| ==> r[j] == fields[j];
    }
  }

  /** In an association list with unique keys, each field is what its key looks up. */
  lemma {:induction false} LookupUnique(fields: seq<Field>, i: nat)
    requires UniqueKeys(fields) && i < |fields|
    ensures Lookup(fields, fields[i].key) == Some(fields[i].value)
  {
    if i > 0 {
      assert fields[1..][i - 1] == fields[i];
      LookupUnique(fields[1..], i - 1);
    }
  }
}
