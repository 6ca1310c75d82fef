/** `deepEqual` (main.js lines 126-149): structural equality of two values, comparing
    arrays and objects through their own enumerable keys. An array's keys are the decimal
    texts of its indices, so an array and an object with the same keys and values are
    equal, as they are in JavaScript. */
module DeepEquality {
  import opened Wrappers
  import opened Decimal
  import opened JsonValue

  /** `typeof v === 'object' && v !== null`. */
  predicate IsObject(v: Value) {
    v.Arr? || v.Obj?
  }

  /** `===` on two values. NaN equals nothing; two floats are equal when their texts are.
      Arrays and objects are never `===` here: the two trees deepEqual is given never share
      an object. */
  predicate StrictEqual(a: Value, b: Value) {
    match (a, b)
    case (Null, Null) => true
    case (Bool(x), Bool(y)) => x == y
    case (Str(x), Str(y)) => x == y
    case (Num(Int(m)), Num(Int(n))) => m == n
    case (Num(Float(s)), Num(Float(t))) => s == t
    case _ => false
  }

  /** The keys "0", "1", ... of an array of `n` elements. */
  function IndexKeys(n: nat): (ks: seq<string>)
    ensures |ks| == n
    ensures forall i :: 0 <= i < n ==> ks[i] == NatText(i)
  {
    seq(n, i requires 0 <= i < n => NatText(i))
  }

  /** `Object.keys(v)` of an array or object, in index or binding order. */
  function ObjectKeys(v: Value): (ks: seq<string>)
    ensures v.Obj? ==> ks == Keys(v.fields)
    ensures v.Arr? ==> |ks| == |v.items|
  {
    match v
    case Obj(fields) => Keys(fields)
    case Arr(items) => IndexKeys(|items|)
    case _ => []
  }

  /** The position of the first occurrence of `key` in `keys`, or |keys| when it is absent. */
  function IndexOf(keys: seq<string>, key: string): (j: nat)
    ensures j <= |keys|
    ensures j < |keys| <==> key in keys
    ensures j < |keys| ==> keys[j] == key
    ensures forall m :: 0 <= m < j ==> keys[m] != key
  {
    if keys == [] then 0
    else if keys[0] == key then 0
    else 1 + IndexOf(keys[1..], key)
  }

  /** `v[key]`: present exactly for the keys Object.keys lists. */
  function Get(v: Value, key: string): (r: Option<Value>)
    ensures r.Some? <==> IsObject(v) && key in ObjectKeys(v)
  {
    match v
    case Obj(fields) => Lookup(fields, key)
    case Arr(items) =>
      var j := IndexOf(IndexKeys(|items|), key);
      if j < |items| then Some(items[j]) else None
    case _ => None
  }

  /** The value of the `i`-th key of an array or object. */
  function ValueAt(v: Value, i: nat): Value
    requires IsObject(v) && i < |ObjectKeys(v)|
  {
    if v.Obj? then v.fields[i].value else v.items[i]
  }

  /** `deepEqual(a, b)`: `a === b`, or both are arrays or objects with as many keys, every
      key of `a` is a key of `b`, and the values under each key of `a` are deeply equal. */
  function DeepEqual(a: Value, b: Value): bool
    decreases a
  {
    StrictEqual(a, b)
    || (IsObject(a) && IsObject(b) && |ObjectKeys(a)| == |ObjectKeys(b)|
        && forall i :: 0 <= i < |ObjectKeys(a)| ==>
             ObjectKeys(a)[i] in ObjectKeys(b)
             && DeepEqual(if a.Obj? then a.fields[i].value else a.items[i], Get(b, ObjectKeys(a)[i]).value))
  }

  /** The keys of an array or a well-formed object are distinct. */
  predicate Distinct(ks: seq<string>) {
    forall i, j :: 0 <= i < j < |ks| ==> ks[i] != ks[j]
  }

  lemma ObjectKeysDistinct(v: Value)
    requires WellFormed(v) && IsObject(v)
    ensures Distinct(ObjectKeys(v))
  {
    if v.Arr? {
      forall i, j | 0 <= i < j < |v.items|
        ensures ObjectKeys(v)[i] != ObjectKeys(v)[j]
      {
        NatTextInjective(i, j);
      }
    }
  }

  /** In an array or a well-formed object, the `i`-th key looks up the `i`-th value. */
  lemma GetAt(v: Value, i: nat)
    requires WellFormed(v) && IsObject(v) && i < |ObjectKeys(v)|
    ensures Get(v, ObjectKeys(v)[i]) == Some(ValueAt(v, i))
  {
    if v.Obj? {
      LookupUnique(v.fields, i);
    } else {
      ObjectKeysDistinct(v);
    }
  }

  /** Every key an array or object lists is the `i`-th one for some `i`. */
  lemma KeyIndex(v: Value, key: string) returns (i: nat)
    requires IsObject(v) && key in ObjectKeys(v)
    ensures i < |ObjectKeys(v)| && ObjectKeys(v)[i] == key
  {
    i := IndexOf(ObjectKeys(v), key);
  }

  /** Distinct keys as many as there are elements make a set of that size. */
  lemma {:induction false} DistinctCard(ks: seq<string>)
    requires Distinct(ks)
    ensures |set k | k in ks| == |ks|
  {
    if ks != [] {
      var rest := ks[1..];
      assert Distinct(rest) by {
        forall i, j | 0 <= i < j < |rest|
          ensures rest[i] != rest[j]
        {
          assert rest[i] == ks[i + 1] && rest[j] == ks[j + 1];
        }
      }
      DistinctCard(rest);
      assert ks[0] !in rest by {
        forall j | 0 <= j < |rest|
          ensures rest[j] != ks[0]
        {
          assert rest[j] == ks[j + 1];
        }
      }
      assert (set k | k in ks) == (set k | k in rest) + {ks[0]} by {
        assert ks == [ks[0]] + rest;
      }
    }
  }

  lemma {:induction false} SubsetCard(small: set<string>, large: set<string>)
    requires small <= large
    ensures |small| <= |large|
    decreases small
  {
    if small != {} {
      var x :| x in small;
      SubsetCard(small - {x}, large - {x});
    }
  }

  /** Two lists of distinct keys of the same length, one contained in the other, list the
      same keys: deepEqual's count check and membership check together make the key sets
      equal. */
  lemma SameKeys(ks1: seq<string>, ks2: seq<string>)
    requires Distinct(ks1) && Distinct(ks2) && |ks1| == |ks2|
    requires forall i :: 0 <= i < |ks1| ==> ks1[i] in ks2
    ensures forall j :: 0 <= j < |ks2| ==> ks2[j] in ks1
  {
    var s1 := set k | k in ks1;
    var s2 := set k | k in ks2;
    DistinctCard(ks1);
    DistinctCard(ks2);
    forall j | 0 <= j < |ks2|
      ensures ks2[j] in ks1
    {
      var x := ks2[j];
      if x !in ks1 {
        assert s1 <= s2 - {x};
        SubsetCard(s1, s2 - {x});
        assert false;
      }
    }
  }

  /** One direction of symmetry: if `a` deep-equals `b` then `b` deep-equals `a`. */
  lemma {:induction false} DeepEqualFlip(a: Value, b: Value)
    requires WellFormed(a) && WellFormed(b) && DeepEqual(a, b)
    ensures DeepEqual(b, a)
    decreases a
  {
    if !StrictEqual(a, b) {
      var ka := ObjectKeys(a);
      var kb := ObjectKeys(b);
      ObjectKeysDistinct(a);
      ObjectKeysDistinct(b);
      SameKeys(ka, kb);
      forall j | 0 <= j < |kb|
        ensures kb[j] in ka && DeepEqual(ValueAt(b, j), Get(a, kb[j]).value)
      {
        var i := KeyIndex(a, kb[j]);
        GetAt(a, i);
        GetAt(b, j);
        assert DeepEqual(ValueAt(a, i), Get(b, ka[i]).value);
        if a.Obj? {
          DeepEqualFlip(a.fields[i].value, ValueAt(b, j));
        } else {
          DeepEqualFlip(a.items[i], ValueAt(b, j));
        }
      }
    }
  }

  /** deepEqual's result does not depend on the order of its arguments. */
  lemma DeepEqualSymmetric(a: Value, b: Value)
    requires WellFormed(a) && WellFormed(b)
    ensures DeepEqual(a, b) == DeepEqual(b, a)
  {
    if DeepEqual(a, b) {
      DeepEqualFlip(a, b);
    }
    if DeepEqual(b, a) {
      DeepEqualFlip(b, a);
    }
  }

  /** No NaN occurs in `v`. */
  predicate NaNFree(v: Value) {
    match v
    case Num(n) => !n.NaN?
    case Arr(items) => forall i :: 0 <= i < |items| ==> NaNFree(items[i])
    case Obj(fields) => forall i :: 0 <= i < |fields| ==> NaNFree(fields[i].value)
    case _ => true
  }

  /** Every well-formed value without NaN deep-equals itself; a NaN anywhere inside makes
      the comparison fail, because NaN !== NaN. */
  lemma {:induction false} DeepEqualReflexive(v: Value)
    requires WellFormed(v)
    ensures DeepEqual(v, v) <==> NaNFree(v)
    decreases v
  {
    if IsObject(v) {
      var ks := ObjectKeys(v);
      forall i | 0 <= i < |ks|
        ensures DeepEqual(ValueAt(v, i), Get(v, ks[i]).value) <==> NaNFree(ValueAt(v, i))
      {
        GetAt(v, i);
        if v.Obj? {
          DeepEqualReflexive(v.fields[i].value);
        } else {
          DeepEqualReflexive(v.items[i]);
        }
      }
      if v.Obj? {
        assert NaNFree(v) <==> forall i :: 0 <= i < |ks| ==> NaNFree(ValueAt(v, i));
      }
    }
  }

  /** Two association lists with unique keys that look up alike list the same keys, as
      many of them. */
  lemma SameBindings(f1: seq<Field>, f2: seq<Field>)
    requires UniqueKeys(f1) && UniqueKeys(f2)
    requires forall key :: Lookup(f1, key) == Lookup(f2, key)
    ensures |f1| == |f2|
    ensures forall key :: key in Keys(f1) <==> key in Keys(f2)
  {
    var k1, k2 := Keys(f1), Keys(f2);
    assert forall key :: key in k1 <==> Lookup(f1, key).Some?;
    assert Distinct(k1) && Distinct(k2);
    var s1 := set k | k in k1;
    var s2 := set k | k in k2;
    assert s1 == s2;
    DistinctCard(k1);
    DistinctCard(k2);
  }

  /** deepEqual ignores the order of an object's keys: two objects binding the same keys to
      the same values compare alike against every value, on either side. */
  lemma KeyOrderIgnored(f1: seq<Field>, f2: seq<Field>, x: Value)
    requires UniqueKeys(f1) && UniqueKeys(f2)
    requires forall key :: Lookup(f1, key) == Lookup(f2, key)
    ensures DeepEqual(Obj(f1), x) == DeepEqual(Obj(f2), x)
    ensures DeepEqual(x, Obj(f1)) == DeepEqual(x, Obj(f2))
  {
    SameBindings(f1, f2);
    ObjectOrderStep(f1, f2, x);
    ObjectOrderStep(f2, f1, x);
    assert forall key :: Get(Obj(f1), key) == Get(Obj(f2), key);
  }

  /** KeyOrderIgnored on the left: the key-by-key check over one order implies it over the
      other. */
  lemma ObjectOrderStep(f1: seq<Field>, f2: seq<Field>, x: Value)
    requires UniqueKeys(f1) && UniqueKeys(f2) && |f1| == |f2|
    requires forall key :: Lookup(f1, key) == Lookup(f2, key)
    requires forall key :: key in Keys(f1) <==> key in Keys(f2)
    ensures DeepEqual(Obj(f1), x) ==> DeepEqual(Obj(f2), x)
  {
    var o1 := Obj(f1);
    if DeepEqual(o1, x) {
      forall j | 0 <= j < |f2|
        ensures f2[j].key in ObjectKeys(x) && DeepEqual(f2[j].value, Get(x, f2[j].key).value)
      {
        var i := KeyIndex(o1, f2[j].key);
        LookupUnique(f1, i);
        LookupUnique(f2, j);
      }
    }
  }
}
