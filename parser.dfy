/** The parser of main.js (lines 19-123) as it runs: routines that share one mutable
    cursor, `index.value`, advance it step by step and fill the object or array they
    build. Each routine is proved to compute what its counterpart in ParserSpec states. */
module Parser {
  import opened Wrappers
  import opened JsonValue
  import opened Tokenizer
  import opened ParserSpec

  /** The cursor object `{ value: 0 }` that every routine receives and advances. */
  class Cursor {
    var value: nat

    constructor(start: nat)
      ensures value == start
    {
      value := start;
    }
  }

  /** `parse` (main.js lines 19-28). */
  method Parse(tokens: seq<string>, index: Cursor) returns (r: Result<Value, ParseError>)
    modifies index
    ensures match ParseAt(tokens, old(index.value))
      case Failure(e) => r == Failure(e)
      case Success(p) => r == Success(p.value) && index.value == p.last
    decreases Remaining(tokens, index.value), 2
  {
    var t := Tok(tokens, index.value);
    if t == "{" {
      r := ParseObject(tokens, index);
      return;
    }
    if t == "[" {
      r := ParseArray(tokens, index);
      return;
    }
    if t == "true" {
      return Success(Bool(true));
    }
    if t == "false" {
      return Success(Bool(false));
    }
    if t == "null" {
      return Success(Null);
    }
    if IsNumber(t) {
      return Success(Num(ParseNumber(t)));
    }
    var s := ParseString(tokens, index);
    return Success(Str(s));
  }

  /** `parseObject` (main.js lines 31-63). Past the last token the source loop would read
      `undefined` forever; the model stops there with Diverges. */
  method ParseObject(tokens: seq<string>, index: Cursor) returns (r: Result<Value, ParseError>)
    modifies index
    ensures match ObjectLoop(tokens, old(index.value) + 1, [])
      case Failure(e) => r == Failure(e)
      case Success(p) => r == Success(p.value) && index.value == p.last
    decreases Remaining(tokens, index.value), 1
  {
    ghost var goal := ObjectLoop(tokens, index.value + 1, []);
    var fields: seq<Field> := [];
    // skip {
    index.value := index.value + 1;
    while Tok(tokens, index.value) != "}"
      invariant ObjectLoop(tokens, index.value, fields) == goal
      decreases Remaining(tokens, index.value)
    {
      ghost var p := index.value;
      ObjectLoopStops(tokens, p, fields);
      if index.value >= |tokens| {
        return Failure(Diverges);
      }
      if tokens[index.value] == "," {
        ObjectLoopSkip(tokens, p, fields);
        index.value := index.value + 1;
        assert ObjectLoop(tokens, index.value, fields) == goal;
        continue;
      }
      if tokens[index.value] == "\"" {
        ObjectLoopField(tokens, p, fields);
        var bound := ParseProperty(tokens, index, fields);
        if bound.Failure? {
          return Failure(bound.error);
        }
        fields := bound.value;
      } else {
        ObjectLoopSkip(tokens, p, fields);
      }
      index.value := index.value + 1;
      assert ObjectLoop(tokens, index.value, fields) == goal;
    }
    ObjectLoopStops(tokens, index.value, fields);
    return Success(Obj(fields));
  }

  /** One property of parseObject (main.js lines 44-59), with the cursor on its opening
      quote: read the key after it, skip the closing quote and the colon, parse the value
      and bind it. The cursor is left on the last token of the value. */
  method ParseProperty(tokens: seq<string>, index: Cursor, fields: seq<Field>)
    returns (r: Result<seq<Field>, ParseError>)
    requires index.value < |tokens| && tokens[index.value] == "\""
    modifies index
    ensures match ParseAt(tokens, old(index.value) + 4)
      case Failure(e) => r == Failure(e)
      case Success(p) => r == Success(Bind(fields, Tok(tokens, old(index.value) + 1), p.value)) && index.value == p.last
    ensures r.Success? ==> old(index.value) + 4 <= index.value
    decreases Remaining(tokens, index.value), 3
  {
    // skip ", read the key, skip " and :
    index.value := index.value + 1;
    var key := Tok(tokens, index.value);
    index.value := index.value + 1;
    index.value := index.value + 1;
    index.value := index.value + 1;
    var value := Parse(tokens, index);
    if value.Failure? {
      return Failure(value.error);
    }
    return Success(Bind(fields, key, value.value));
  }

  /** `parseArray` (main.js lines 66-93). Past the last token the source loop would push
      "undefined" forever; the model stops there with Diverges. */
  method ParseArray(tokens: seq<string>, index: Cursor) returns (r: Result<Value, ParseError>)
    modifies index
    ensures match ArrayLoop(tokens, old(index.value) + 1, [])
      case Failure(e) => r == Failure(e)
      case Success(p) => r == Success(p.value) && index.value == p.last
    decreases Remaining(tokens, index.value), 1
  {
    ghost var goal := ArrayLoop(tokens, index.value + 1, []);
    var items: seq<Value> := [];
    // skip [
    index.value := index.value + 1;
    while Tok(tokens, index.value) != "]"
      invariant ArrayLoop(tokens, index.value, items) == goal
      decreases Remaining(tokens, index.value)
    {
      ghost var p := index.value;
      ArrayLoopStops(tokens, p, items);
      if index.value >= |tokens| {
        return Failure(Diverges);
      }
      if tokens[index.value] == "," {
        ArrayLoopComma(tokens, p, items);
        index.value := index.value + 1;
        assert ArrayLoop(tokens, index.value, items) == goal;
        continue;
      }
      if tokens[index.value] == "\"" {
        items := PushQuoted(tokens, index, items);
        continue;
      }
      var pushed := PushElement(tokens, index, items);
      if pushed.Failure? {
        return Failure(pushed.error);
      }
      items := pushed.value;
    }
    ArrayLoopStops(tokens, index.value, items);
    return Success(Arr(items));
  }

  /** The quote branch of parseArray (main.js lines 79-85): skip the quote, push what
      parseString reads, skip two tokens. The array loop goes on from the new cursor with
      the new elements exactly as it would have from the old one. */
  method PushQuoted(tokens: seq<string>, index: Cursor, items: seq<Value>) returns (next: seq<Value>)
    requires index.value < |tokens| && tokens[index.value] == "\""
    modifies index
    ensures next == items + [ParseStringAt(tokens, old(index.value) + 1).value]
    ensures index.value == ParseStringAt(tokens, old(index.value) + 1).last + 2
    ensures ArrayLoop(tokens, index.value, next) == ArrayLoop(tokens, old(index.value), items)
    ensures old(index.value) < index.value
  {
    ghost var p := index.value;
    ArrayLoopQuoted(tokens, p, items);
    // skip "
    index.value := index.value + 1;
    var s := ParseString(tokens, index);
    ghost var read := ParseStringAt(tokens, p + 1);
    assert read == Parsed(Str(s), index.value);
    next := items + [Str(s)];
    // skip ",
    index.value := index.value + 2;
    assert ArrayLoop(tokens, index.value, next) == ArrayLoop(tokens, p, items);
  }

  /** The last branch of parseArray (main.js lines 88-89): push what `parse` reads and step
      past its last token. The array loop goes on from the new cursor with the new elements
      exactly as it would have from the old one. */
  method PushElement(tokens: seq<string>, index: Cursor, items: seq<Value>)
    returns (r: Result<seq<Value>, ParseError>)
    requires index.value < |tokens| && tokens[index.value] !in {"]", ",", "\""}
    modifies index
    ensures match ParseAt(tokens, old(index.value))
      case Failure(e) => r == Failure(e) && ArrayLoop(tokens, old(index.value), items) == Failure(e)
      case Success(p) => r == Success(items + [p.value]) && index.value == p.last + 1
    ensures r.Success? ==> ArrayLoop(tokens, index.value, r.value) == ArrayLoop(tokens, old(index.value), items)
    ensures r.Success? ==> old(index.value) < index.value
    decreases Remaining(tokens, index.value), 3
  {
    ArrayLoopElement(tokens, index.value, items);
    var v := Parse(tokens, index);
    if v.Failure? {
      return Failure(v.error);
    }
    r := Success(items + [v.value]);
    index.value := index.value + 1;
  }

  /** `parseString` (main.js lines 105-123). */
  method ParseString(tokens: seq<string>, index: Cursor) returns (s: string)
    modifies index
    ensures ParseStringAt(tokens, old(index.value)) == Parsed(Str(s), index.value)
  {
    if Tok(tokens, index.value) == "\"" {
      // skip "
      index.value := index.value + 1;
      if Tok(tokens, index.value) == "\"" {
        return "";
      }
      s := Tok(tokens, index.value);
      // skip "
      index.value := index.value + 1;
      return;
    }
    return Tok(tokens, index.value);
  }

  /** `myJSONParse` (main.js lines 2-10). */
  method MyJsonParse(text: string) returns (r: Result<Value, ParseError>)
    ensures r == ParseJson(text)
  {
    var tokens := Tokenize(text);
    if tokens == [] {
      return Failure(NoTokens);
    }
    var index := new Cursor(0);
    r := Parse(tokens, index);
  }
}
