/** The token sequence of a value, laid out the way the parser of main.js (lines 19-123)
    reads it: each scalar is one token, a string sits between two quote tokens, an array
    or object between its brackets with a comma token between neighbours, and an object
    property is a quoted key, a colon and the value. The parser reads every such sequence
    back as the value it was made from and leaves the cursor on its last token. */
module RoundTrip {
  import opened Wrappers
  import opened Lexical
  import opened Decimal
  import opened JsonValue
  import opened ParserSpec

  /** The text of a number token: the decimal text of an integer, the kept text of a
      float. NaN has no JSON text; it is given the word "NaN". */
  function NumberText(n: Number): string {
    match n
    case Int(v) => IntText(v)
    case Float(t) => t
    case NaN => "NaN"
  }

  /** The tokens of `v`. */
  function Emit(v: Value): (ts: seq<string>)
    ensures 0 < |ts|
    decreases v
  {
    match v
    case Null => ["null"]
    case Bool(b) => if b then ["true"] else ["false"]
    case Num(n) => [NumberText(n)]
    case Str(s) => if s == "" then ["\"", "\""] else ["\"", s, "\""]
    case Arr(items) => ["["] + Elements(items) + ["]"]
    case Obj(fields) => ["{"] + Members(fields) + ["}"]
  }

  /** The tokens of the elements of an array, a comma between each two. */
  function Elements(items: seq<Value>): seq<string>
    decreases items
  {
    if items == [] then []
    else if |items| == 1 then Emit(items[0])
    else Emit(items[0]) + [","] + Elements(items[1..])
  }

  /** The tokens of the properties of an object, a comma between each two. */
  function Members(fields: seq<Field>): seq<string>
    decreases fields
  {
    if fields == [] then []
    else if |fields| == 1 then Member(fields[0])
    else Member(fields[0]) + [","] + Members(fields[1..])
  }

  /** One property: quote, key, quote, colon, then the tokens of the value. */
  function Member(f: Field): seq<string>
    decreases f
  {
    ["\"", f.key, "\"", ":"] + Emit(f.value)
  }

  /** The values whose tokens the parser reads back unchanged. A float must keep a "." and a
      digit in its text (otherwise parseNumber takes the integer path or the token is read
      as a string); a string must not be a lone quote; an array element must not be the
      empty string, which parseArray reads one token too far (main.js lines 81-84 and
      111-115); an object's keys must be unique, as the parser keeps one binding per key;
      NaN has no token at all. */
  predicate Writable(v: Value)
    decreases v
  {
    match v
    case Null => true
    case Bool(_) => true
    case Num(n) => n.Int? || (n.Float? && '.' in n.text && IsNumber(n.text))
    case Str(s) => s != "\""
    case Arr(items) => WritableElements(items)
    case Obj(fields) => UniqueKeys(fields) && WritableValues(fields)
  }

  /** Every element is writable and none is the empty string. */
  predicate WritableElements(items: seq<Value>)
    decreases items
  {
    items == [] || (items[0] != Str("") && Writable(items[0]) && WritableElements(items[1..]))
  }

  /** Every value bound is writable. */
  predicate WritableValues(fields: seq<Field>)
    decreases fields
  {
    fields == [] || (Writable(fields[0].value) && WritableValues(fields[1..]))
  }

  /** Each key of `fields` is new when the object loop meets it, after `done`. */
  predicate FreshKeys(done: seq<Field>, fields: seq<Field>)
    decreases fields
  {
    fields == [] || (fields[0].key !in Keys(done) && FreshKeys(done + [fields[0]], fields[1..]))
  }

  /** The keys of an object with unique keys are each new when the object loop meets them. */
  lemma FreshFromStart(fields: seq<Field>)
    requires UniqueKeys(fields)
    ensures FreshKeys([], fields)
  {
    assert [] + fields == fields;
    UniqueKeysFresh([], fields);
  }

  /** Keys unique over `done` and `fields` together are fresh one by one. */
  lemma {:induction false} UniqueKeysFresh(done: seq<Field>, fields: seq<Field>)
    requires UniqueKeys(done + fields)
    ensures FreshKeys(done, fields)
    decreases fields
  {
    if fields != [] {
      FreshKey(done, fields);
      SplitFirst(done, fields);
      UniqueKeysFresh(done + [fields[0]], fields[1..]);
    }
  }

  /** `part` occurs in `tokens` starting at position `k`. */
  predicate At(tokens: seq<string>, k: nat, part: seq<string>)
    decreases part
  {
    k + |part| <= |tokens| && (part == [] || (tokens[k] == part[0] && At(tokens, k + 1, part[1..])))
  }

  lemma {:induction false} AtToken(tokens: seq<string>, k: nat, part: seq<string>, j: nat)
    requires At(tokens, k, part) && j < |part|
    ensures tokens[k + j] == part[j]
    decreases j
  {
    if j > 0 {
      AtToken(tokens, k + 1, part[1..], j - 1);
    }
  }

  lemma {:induction false} AtSplit(tokens: seq<string>, k: nat, a: seq<string>, b: seq<string>)
    requires At(tokens, k, a + b)
    ensures At(tokens, k, a) && At(tokens, k + |a|, b)
    decreases a
  {
    if a != [] {
      assert (a + b)[0] == a[0] && (a + b)[1..] == a[1..] + b;
      AtSplit(tokens, k + 1, a[1..], b);
    } else {
      assert a + b == b;
    }
  }

  lemma {:induction false} AtStart(a: seq<string>, b: seq<string>, k: nat)
    requires k <= |a|
    ensures At(a + b, k, a[k..])
    decreases |a| - k
  {
    if k < |a| {
      assert a[k..][1..] == a[k + 1..];
      AtStart(a, b, k + 1);
    }
  }

  lemma SplitFirst<T>(done: seq<T>, xs: seq<T>)
    requires xs != []
    ensures done + [xs[0]] + xs[1..] == done + xs
  {
    assert xs == [xs[0]] + xs[1..];
  }

  /** The text of a writable number holds a digit, so `isNumber` accepts it and it is none of
      the structural tokens or reserved words. */
  lemma NumberTextHasDigit(n: Number)
    requires Writable(Num(n))
    ensures exists k :: 0 <= k < |NumberText(n)| && IsDigit(NumberText(n)[k])
  {
    var t := NumberText(n);
    if n.Int? {
      if n.value < 0 {
        assert t[1] == NatText(-n.value)[0];
      } else {
        assert t[0] == NatText(n.value)[0];
      }
    } else {
      IsNumberIffHasDigit(t);
    }
  }

  /** A writable number token is read back as that number. */
  lemma NumberParsed(tokens: seq<string>, k: nat, n: Number)
    requires Writable(Num(n)) && Tok(tokens, k) == NumberText(n)
    ensures ParseAt(tokens, k) == Success(Parsed(Num(n), k))
  {
    NumberTextHasDigit(n);
    DispatchPriority(tokens, k);
    if n.Int? {
      ParseNumberOfIntText(n.value);
    } else {
      ParseNumberPath(n.text);
    }
  }

  /** The first token of any value other than a string is not one the array loop treats
      specially. */
  lemma FirstToken(tokens: seq<string>, k: nat, v: Value)
    requires Writable(v) && !v.Str? && At(tokens, k, Emit(v))
    ensures k < |tokens| && tokens[k] !in {"]", ",", "\""}
  {
    AtToken(tokens, k, Emit(v), 0);
    if v.Num? {
      NumberTextHasDigit(v.n);
      var t := NumberText(v.n);
      var k :| 0 <= k < |t| && IsDigit(t[k]);
      assert t != "]" && t != "," && t != "\"" by {
        assert t[k] != ']' && t[k] != ',' && t[k] != '"';
      }
    }
  }

  /** The round trip: with the tokens of a writable value at position `k`, the parser reads
      that value and leaves the cursor on its last token, whatever follows. */
  lemma {:induction false} ParseEmitted(tokens: seq<string>, k: nat, v: Value)
    requires Writable(v) && At(tokens, k, Emit(v))
    ensures ParseAt(tokens, k) == Success(Parsed(v, k + |Emit(v)| - 1))
    decreases v, 0
  {
    if v.Arr? {
      ArrayParsed(tokens, k, v.items);
    } else if v.Obj? {
      ObjectParsed(tokens, k, v.fields);
    } else {
      ScalarParsed(tokens, k, v);
    }
  }

  /** ParseEmitted for a value that is neither an array nor an object. */
  lemma ScalarParsed(tokens: seq<string>, k: nat, v: Value)
    requires Writable(v) && At(tokens, k, Emit(v)) && !v.Arr? && !v.Obj?
    ensures ParseAt(tokens, k) == Success(Parsed(v, k + |Emit(v)| - 1))
  {
    AtToken(tokens, k, Emit(v), 0);
    match v
    case Null =>
    case Bool(b) =>
    case Num(n) =>
      NumberParsed(tokens, k, n);
    case Str(s) =>
      AtToken(tokens, k, Emit(v), 1);
      CursorInvariant(tokens, k);
  }

  /** ParseEmitted for an array: the loop starts after "[". */
  lemma {:induction false} ArrayParsed(tokens: seq<string>, k: nat, items: seq<Value>)
    requires Writable(Arr(items)) && At(tokens, k, Emit(Arr(items)))
    ensures ParseAt(tokens, k) == Success(Parsed(Arr(items), k + |Emit(Arr(items))| - 1))
    decreases items, 3
  {
    var e := Emit(Arr(items));
    assert e == ["["] + (Elements(items) + ["]"]);
    AtSplit(tokens, k, ["["], Elements(items) + ["]"]);
    AtToken(tokens, k, e, 0);
    ParseAtBracket(tokens, k);
    ElementsParsed(tokens, k + 1, [], items);
    assert [] + items == items;
  }

  /** ParseEmitted for an object: the loop starts after "{". */
  lemma {:induction false} ObjectParsed(tokens: seq<string>, k: nat, fields: seq<Field>)
    requires Writable(Obj(fields)) && At(tokens, k, Emit(Obj(fields)))
    ensures ParseAt(tokens, k) == Success(Parsed(Obj(fields), k + |Emit(Obj(fields))| - 1))
    decreases fields, 3
  {
    var e := Emit(Obj(fields));
    assert e == ["{"] + (Members(fields) + ["}"]);
    AtSplit(tokens, k, ["{"], Members(fields) + ["}"]);
    AtToken(tokens, k, e, 0);
    ParseAtBracket(tokens, k);
    FreshFromStart(fields);
    MembersParsed(tokens, k + 1, [], fields);
    assert [] + fields == fields;
  }

  /** The array loop reads the tokens of writable elements followed by "]", after the
      elements `done` already pushed, and stops on the "]". */
  lemma {:induction false} ElementsParsed(tokens: seq<string>, k: nat, done: seq<Value>, items: seq<Value>)
    requires WritableElements(items) && At(tokens, k, Elements(items) + ["]"])
    ensures ArrayLoop(tokens, k, done) == Success(Parsed(Arr(done + items), k + |Elements(items)|))
    decreases items, 2
  {
    if items == [] {
      AtToken(tokens, k, Elements(items) + ["]"], 0);
      ArrayLoopStops(tokens, k, done);
      assert done + [] == done;
    } else if |items| == 1 {
      LastElement(tokens, k, done, items[0]);
      assert items == [items[0]];
    } else {
      MoreElements(tokens, k, done, items);
    }
  }

  /** ElementsParsed for the last element. */
  lemma {:induction false} LastElement(tokens: seq<string>, k: nat, done: seq<Value>, v: Value)
    requires WritableElements([v]) && At(tokens, k, Elements([v]) + ["]"])
    ensures ArrayLoop(tokens, k, done) == Success(Parsed(Arr(done + [v]), k + |Emit(v)|))
    decreases v, 3
  {
    var e := Emit(v);
    assert Elements([v]) == e;
    AtSplit(tokens, k, e, ["]"]);
    AtToken(tokens, k + |e|, ["]"], 0);
    ElementRound(tokens, k, done, v);
    ArrayLoopStops(tokens, k + |e|, done + [v]);
  }

  /** ElementsParsed for an element followed by a comma and more elements. */
  lemma {:induction false} MoreElements(tokens: seq<string>, k: nat, done: seq<Value>, items: seq<Value>)
    requires |items| > 1 && WritableElements(items) && At(tokens, k, Elements(items) + ["]"])
    ensures ArrayLoop(tokens, k, done) == Success(Parsed(Arr(done + items), k + |Elements(items)|))
    decreases items, 1
  {
    var v := items[0];
    var e := Emit(v);
    var next := k + |e|;
    var tail := Elements(items[1..]) + ["]"];
    assert Elements(items) + ["]"] == e + ([","] + tail);
    AtSplit(tokens, k, e, [","] + tail);
    AtSplit(tokens, next, [","], tail);
    AtToken(tokens, next, [","] + tail, 0);
    ElementRound(tokens, k, done, v);
    ArrayLoopComma(tokens, next, done + [v]);
    ElementsParsed(tokens, next + 1, done + [v], items[1..]);
    SplitFirst(done, items);
  }

  /** One round of the array loop over the tokens of a writable element: the element is
      pushed and the loop goes on after its last token. */
  lemma {:induction false} ElementRound(tokens: seq<string>, k: nat, done: seq<Value>, v: Value)
    requires Writable(v) && v != Str("") && At(tokens, k, Emit(v))
    ensures ArrayLoop(tokens, k, done) == ArrayLoop(tokens, k + |Emit(v)|, done + [v])
    decreases v, 2
  {
    if v.Str? {
      assert Emit(v) == ["\"", v.s, "\""];
      QuotedRound(tokens, k, done, v.s);
    } else {
      ValueRound(tokens, k, done, v);
    }
  }

  /** ElementRound for an element that is not a string: `parse` reads it. */
  lemma {:induction false} ValueRound(tokens: seq<string>, k: nat, done: seq<Value>, v: Value)
    requires Writable(v) && !v.Str? && At(tokens, k, Emit(v))
    ensures ArrayLoop(tokens, k, done) == ArrayLoop(tokens, k + |Emit(v)|, done + [v])
    decreases v, 1
  {
    FirstToken(tokens, k, v);
    ParseEmitted(tokens, k, v);
    ArrayLoopParsedElement(tokens, k, done, v, k + |Emit(v)| - 1);
  }

  /** A non-empty string element other than a lone quote: three tokens, read by the quote
      branch of the array loop. */
  lemma QuotedRound(tokens: seq<string>, k: nat, done: seq<Value>, s: string)
    requires s != "" && s != "\"" && At(tokens, k, ["\"", s, "\""])
    ensures ArrayLoop(tokens, k, done) == ArrayLoop(tokens, k + 3, done + [Str(s)])
  {
    AtToken(tokens, k, ["\"", s, "\""], 0);
    AtToken(tokens, k, ["\"", s, "\""], 1);
    ArrayLoopQuotedElement(tokens, k, done);
  }

  /** The object loop reads the tokens of properties with fresh keys and writable values
      followed by "}", after the fields `done` already bound, and stops on the "}". */
  lemma {:induction false} MembersParsed(tokens: seq<string>, k: nat, done: seq<Field>, fields: seq<Field>)
    requires FreshKeys(done, fields) && WritableValues(fields) && At(tokens, k, Members(fields) + ["}"])
    ensures ObjectLoop(tokens, k, done) == Success(Parsed(Obj(done + fields), k + |Members(fields)|))
    decreases fields, 2
  {
    if fields == [] {
      AtToken(tokens, k, Members(fields) + ["}"], 0);
      ObjectLoopStops(tokens, k, done);
      assert done + [] == done;
    } else if |fields| == 1 {
      LastMember(tokens, k, done, fields[0]);
      assert fields == [fields[0]];
    } else {
      MoreMembers(tokens, k, done, fields);
    }
  }

  /** MembersParsed for the last property. */
  lemma {:induction false} LastMember(tokens: seq<string>, k: nat, done: seq<Field>, f: Field)
    requires FreshKeys(done, [f]) && WritableValues([f]) && At(tokens, k, Members([f]) + ["}"])
    ensures ObjectLoop(tokens, k, done) == Success(Parsed(Obj(done + [f]), k + |Member(f)|))
    decreases f, 2
  {
    var m := Member(f);
    assert Members([f]) == m;
    AtSplit(tokens, k, m, ["}"]);
    AtToken(tokens, k + |m|, ["}"], 0);
    MemberRound(tokens, k, done, f);
    ObjectLoopStops(tokens, k + |m|, done + [f]);
  }

  /** MembersParsed for a property followed by a comma and more properties. */
  lemma {:induction false} MoreMembers(tokens: seq<string>, k: nat, done: seq<Field>, fields: seq<Field>)
    requires |fields| > 1 && FreshKeys(done, fields) && WritableValues(fields)
    requires At(tokens, k, Members(fields) + ["}"])
    ensures ObjectLoop(tokens, k, done) == Success(Parsed(Obj(done + fields), k + |Members(fields)|))
    decreases fields, 1
  {
    var f := fields[0];
    var m := Member(f);
    var next := k + |m|;
    var tail := Members(fields[1..]) + ["}"];
    assert Members(fields) + ["}"] == m + ([","] + tail);
    AtSplit(tokens, k, m, [","] + tail);
    AtSplit(tokens, next, [","], tail);
    AtToken(tokens, next, [","] + tail, 0);
    MemberRound(tokens, k, done, f);
    ObjectLoopSkip(tokens, next, done + [f]);
    MembersParsed(tokens, next + 1, done + [f], fields[1..]);
    SplitFirst(done, fields);
  }

  /** With unique keys overall, the next key to bind is not among those bound already. */
  lemma FreshKey(done: seq<Field>, fields: seq<Field>)
    requires UniqueKeys(done + fields) && fields != []
    ensures fields[0].key !in Keys(done)
  {
    assert forall i :: 0 <= i < |done| ==> (done + fields)[i] == done[i];
    assert (done + fields)[|done|] == fields[0];
  }

  /** One round of the object loop over the tokens of a property with a fresh key and a
      writable value: the field is appended and the loop goes on after the value. */
  lemma {:induction false} MemberRound(tokens: seq<string>, k: nat, done: seq<Field>, f: Field)
    requires Writable(f.value) && f.key !in Keys(done) && At(tokens, k, Member(f))
    ensures ObjectLoop(tokens, k, done) == ObjectLoop(tokens, k + |Member(f)|, done + [f])
    decreases f, 1
  {
    var m := Member(f);
    AtSplit(tokens, k, ["\"", f.key, "\"", ":"], Emit(f.value));
    AtToken(tokens, k, m, 0);
    AtToken(tokens, k, m, 1);
    ParseEmitted(tokens, k + 4, f.value);
    ObjectLoopParsedField(tokens, k, done, f.value, k + |Member(f)| - 1);
    BindAppendsNewKey(done, f.key, f.value);
  }

  /** Parsing the tokens of a writable value alone reads the value back and leaves the
      cursor on the last token; tokens after them are ignored. */
  lemma ParseInvertsEmit(v: Value, after: seq<string>)
    requires Writable(v)
    ensures ParseAt(Emit(v), 0) == Success(Parsed(v, |Emit(v)| - 1))
    ensures ParseAt(Emit(v) + after, 0) == Success(Parsed(v, |Emit(v)| - 1))
  {
    AtStart(Emit(v), [], 0);
    assert Emit(v) + [] == Emit(v) && Emit(v)[0..] == Emit(v);
    ParseEmitted(Emit(v), 0, v);
    AtStart(Emit(v), after, 0);
    ParseEmitted(Emit(v) + after, 0, v);
  }
}
