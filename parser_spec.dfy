/** What the recursive-descent parser of main.js (lines 19-123) computes, stated as
    functions over the token sequence. Each function takes the cursor position at which
    the source routine starts and gives the value it builds together with the position
    at which it leaves the shared cursor.

    Reading past the end of the tokens gives JavaScript's `undefined`, which in every use
    the parser makes of a token (comparison with a string, `isNumber`, `String(...)`)
    behaves exactly as the token "undefined" would; Tok spells this out. The loops of
    parseObject and parseArray never stop once their cursor has passed the end: the
    object loop steps over `undefined` forever and the array loop pushes "undefined"
    forever. That outcome is the error Diverges. */
module ParserSpec {
  import opened Wrappers
  import opened Lexical
  import opened Decimal
  import opened JsonValue
  import opened Tokenizer

  /** Why the parser gives no value. */
  datatype ParseError =
    | Diverges  // an object or array loop ran past the last token and never stops
    | NoTokens  // the input holds no token: `match` gives null and indexing it throws

  /** A value built by a parse routine and the cursor position it leaves behind. */
  datatype Parsed = Parsed(value: Value, last: nat)

  type Outcome = Result<Parsed, ParseError>

  /** `tokens[i]`, with `undefined` read as the token "undefined". */
  function Tok(tokens: seq<string>, i: nat): string {
    if i < |tokens| then tokens[i] else "undefined"
  }

  /** The tokens left from position `i` on. */
  function Remaining(tokens: seq<string>, i: nat): nat {
    if i < |tokens| then |tokens| - i else 0
  }

  /** `isNumber` (main.js lines 14-16): the number pattern, unanchored, matches somewhere
      in the token. */
  predicate IsNumber(token: string) {
    exists k :: 0 <= k < |token| && NumberLength(token, k) > 0
  }

  /** `parseNumber` (main.js lines 96-102): a token holding "." takes the float path,
      any other the path of Number.parseInt, which gives NaN when no digit comes first. */
  function ParseNumber(token: string): Number {
    if '.' in token then Float(token)
    else
      match ParseInt(token)
      case None => NaN
      case Some(v) => Int(v)
  }

  /** `parseString` (main.js lines 105-123) with the cursor at `i`. */
  function ParseStringAt(tokens: seq<string>, i: nat): Parsed {
    if Tok(tokens, i) == "\"" then
      if Tok(tokens, i + 1) == "\"" then Parsed(Str(""), i + 1)
      else Parsed(Str(Tok(tokens, i + 1)), i + 2)
    else Parsed(Str(Tok(tokens, i)), i)
  }

  /** `parse` (main.js lines 19-28) with the cursor at `i`. On success the cursor is left
      at or after `i`, and an object or array ends on its closing token. */
  function ParseAt(tokens: seq<string>, i: nat): (r: Outcome)
    ensures r.Success? ==> i <= r.value.last
    decreases Remaining(tokens, i), 0
  {
    var t := Tok(tokens, i);
    if t == "{" then ObjectLoop(tokens, i + 1, [])
    else if t == "[" then ArrayLoop(tokens, i + 1, [])
    else if t == "true" then Success(Parsed(Bool(true), i))
    else if t == "false" then Success(Parsed(Bool(false), i))
    else if t == "null" then Success(Parsed(Null, i))
    else if IsNumber(t) then Success(Parsed(Num(ParseNumber(t)), i))
    else Success(ParseStringAt(tokens, i))
  }

  /** The loop of parseObject (main.js lines 36-61) with the cursor at `i` and the fields
      bound so far. */
  function ObjectLoop(tokens: seq<string>, i: nat, fields: seq<Field>): (r: Outcome)
    ensures r.Success? ==> i <= r.value.last
    decreases Remaining(tokens, i), 1
  {
    if i >= |tokens| then Failure(Diverges)
    else if tokens[i] == "}" then Success(Parsed(Obj(fields), i))
    else if tokens[i] == "," then ObjectLoop(tokens, i + 1, fields)
    else if tokens[i] == "\"" then
      var key := Tok(tokens, i + 1);
      match ParseAt(tokens, i + 4)
      case Failure(e) => Failure(e)
      case Success(p) => ObjectLoop(tokens, p.last + 1, Bind(fields, key, p.value))
    else ObjectLoop(tokens, i + 1, fields)
  }

  /** The loop of parseArray (main.js lines 71-90) with the cursor at `i` and the elements
      pushed so far. */
  function ArrayLoop(tokens: seq<string>, i: nat, items: seq<Value>): (r: Outcome)
    ensures r.Success? ==> i <= r.value.last
    decreases Remaining(tokens, i), 1
  {
    if i >= |tokens| then Failure(Diverges)
    else if tokens[i] == "]" then Success(Parsed(Arr(items), i))
    else if tokens[i] == "," then ArrayLoop(tokens, i + 1, items)
    else if tokens[i] == "\"" then
      var p := ParseStringAt(tokens, i + 1);
      ArrayLoop(tokens, p.last + 2, items + [p.value])
    else
      match ParseAt(tokens, i)
      case Failure(e) => Failure(e)
      case Success(p) => ArrayLoop(tokens, p.last + 1, items + [p.value])
  }

  /** On "{" and "[" `parse` hands over to the object and the array loop, one token on. */
  lemma ParseAtBracket(tokens: seq<string>, i: nat)
    ensures Tok(tokens, i) == "{" ==> ParseAt(tokens, i) == ObjectLoop(tokens, i + 1, [])
    ensures Tok(tokens, i) == "[" ==> ParseAt(tokens, i) == ArrayLoop(tokens, i + 1, [])
  {
  }

  /** The object loop stops on "}" and gives up past the last token. */
  lemma ObjectLoopStops(tokens: seq<string>, i: nat, fields: seq<Field>)
    ensures i >= |tokens| ==> ObjectLoop(tokens, i, fields) == Failure(Diverges)
    ensures i < |tokens| && tokens[i] == "}" ==> ObjectLoop(tokens, i, fields) == Success(Parsed(Obj(fields), i))
  {
  }

  /** One round of the object loop on a token that is neither "}" nor a quote: step over it. */
  lemma ObjectLoopSkip(tokens: seq<string>, i: nat, fields: seq<Field>)
    requires i < |tokens| && tokens[i] != "}" && tokens[i] != "\""
    ensures ObjectLoop(tokens, i, fields) == ObjectLoop(tokens, i + 1, fields)
  {
  }

  /** One round of the object loop on a field: parse its value four tokens on, then bind
      it under the token after the quote. */
  lemma ObjectLoopField(tokens: seq<string>, i: nat, fields: seq<Field>)
    requires i < |tokens| && tokens[i] == "\""
    ensures ObjectLoop(tokens, i, fields) ==
      match ParseAt(tokens, i + 4)
      case Failure(e) => Failure(e)
      case Success(p) => ObjectLoop(tokens, p.last + 1, Bind(fields, Tok(tokens, i + 1), p.value))
  {
  }

  /** The array loop stops on "]" and gives up past the last token. */
  lemma ArrayLoopStops(tokens: seq<string>, i: nat, items: seq<Value>)
    ensures i >= |tokens| ==> ArrayLoop(tokens, i, items) == Failure(Diverges)
    ensures i < |tokens| && tokens[i] == "]" ==> ArrayLoop(tokens, i, items) == Success(Parsed(Arr(items), i))
  {
  }

  /** One round of the array loop on a comma: step over it. */
  lemma ArrayLoopComma(tokens: seq<string>, i: nat, items: seq<Value>)
    requires i < |tokens| && tokens[i] == ","
    ensures ArrayLoop(tokens, i, items) == ArrayLoop(tokens, i + 1, items)
  {
  }

  /** One round of the array loop on a quote: the string after it, then two tokens on. */
  lemma ArrayLoopQuoted(tokens: seq<string>, i: nat, items: seq<Value>)
    requires i < |tokens| && tokens[i] == "\""
    ensures ArrayLoop(tokens, i, items) ==
      ArrayLoop(tokens, ParseStringAt(tokens, i + 1).last + 2, items + [ParseStringAt(tokens, i + 1).value])
  {
  }

  /** A quoted array element whose quote is at `i` and whose next token is not a quote
      contributes exactly that next token (read by the bare branch of parseString), and
      the loop resumes three tokens on. */
  lemma ArrayLoopQuotedElement(tokens: seq<string>, i: nat, items: seq<Value>)
    requires i < |tokens| && tokens[i] == "\"" && Tok(tokens, i + 1) != "\""
    ensures ArrayLoop(tokens, i, items) == ArrayLoop(tokens, i + 3, items + [Str(Tok(tokens, i + 1))])
  {
  }

  /** One round of the array loop on an element that is not a quoted string. */
  lemma ArrayLoopElement(tokens: seq<string>, i: nat, items: seq<Value>)
    requires i < |tokens| && tokens[i] !in {"]", ",", "\""}
    ensures ArrayLoop(tokens, i, items) ==
      match ParseAt(tokens, i)
      case Failure(e) => Failure(e)
      case Success(p) => ArrayLoop(tokens, p.last + 1, items + [p.value])
  {
  }

  /** ArrayLoopElement once the element is known to parse as `v` ending at `last`. */
  lemma ArrayLoopParsedElement(tokens: seq<string>, i: nat, items: seq<Value>, v: Value, last: nat)
    requires i < |tokens| && tokens[i] !in {"]", ",", "\""}
    requires ParseAt(tokens, i) == Success(Parsed(v, last))
    ensures ArrayLoop(tokens, i, items) == ArrayLoop(tokens, last + 1, items + [v])
  {
    ArrayLoopElement(tokens, i, items);
  }

  /** ObjectLoopField once the value is known to parse as `v` ending at `last`. */
  lemma ObjectLoopParsedField(tokens: seq<string>, i: nat, fields: seq<Field>, v: Value, last: nat)
    requires i < |tokens| && tokens[i] == "\""
    requires ParseAt(tokens, i + 4) == Success(Parsed(v, last))
    ensures ObjectLoop(tokens, i, fields) == ObjectLoop(tokens, last + 1, Bind(fields, Tok(tokens, i + 1), v))
  {
    ObjectLoopField(tokens, i, fields);
  }

  /** `myJSONParse` (main.js lines 2-10): tokenize, then parse from the first token. */
  function ParseJson(text: string): Result<Value, ParseError> {
    var tokens := Tokenize(text);
    if tokens == [] then Failure(NoTokens)
    else
      match ParseAt(tokens, 0)
      case Failure(e) => Failure(e)
      case Success(p) => Success(p.value)
  }

  /** `isNumber` holds exactly when the token contains a decimal digit: the pattern is
      unanchored and only its `\d+` part is mandatory. */
  lemma IsNumberIffHasDigit(token: string)
    ensures IsNumber(token) <==> exists k :: 0 <= k < |token| && IsDigit(token[k])
  {
    if IsNumber(token) {
      var k :| 0 <= k < |token| && NumberLength(token, k) > 0;
      NumberMatchShape(token, k);
      if !IsDigit(token[k]) {
        assert IsDigit(token[k + 1]);
      }
    }
    if exists k :: 0 <= k < |token| && IsDigit(token[k]) {
      var k :| 0 <= k < |token| && IsDigit(token[k]);
      NumberMatchesIff(token, k);
    }
  }

  /** `parseNumber` takes the float path exactly when the token holds ".", and that path
      keeps the token's text. */
  lemma ParseNumberPath(token: string)
    ensures ParseNumber(token).Float? <==> '.' in token
    ensures '.' in token ==> ParseNumber(token) == Float(token)
  {
  }

  /** The integer path reads the decimal text of every integer back as that integer. */
  lemma ParseNumberOfIntText(n: int)
    ensures ParseNumber(IntText(n)) == Int(n)
  {
    var t := IntText(n);
    var m: nat := if n < 0 then -n else n;
    assert forall k :: 0 <= k < |NatText(m)| ==> NatText(m)[k] != '.';
    assert '.' !in t by {
      if n < 0 {
        assert t == "-" + NatText(m);
        assert forall k :: 1 <= k < |t| ==> t[k] == NatText(m)[k - 1];
      }
    }
    ParseIntOfIntText(n);
  }

  /** `parseString`: on a quote followed by a quote it gives "" and leaves the cursor on the
      second quote; on a quote followed by another token it gives that token and moves the
      cursor two places on; on any other token it gives the token and does not move. */
  lemma ParseStringCases(tokens: seq<string>, i: nat)
    ensures ParseStringAt(tokens, i).value.Str?
    ensures Tok(tokens, i) == "\"" && Tok(tokens, i + 1) == "\"" ==> ParseStringAt(tokens, i) == Parsed(Str(""), i + 1)
    ensures Tok(tokens, i) == "\"" && Tok(tokens, i + 1) != "\"" ==> ParseStringAt(tokens, i) == Parsed(Str(Tok(tokens, i + 1)), i + 2)
    ensures Tok(tokens, i) != "\"" ==> ParseStringAt(tokens, i) == Parsed(Str(Tok(tokens, i)), i)
  {
  }

  /** The order in which `parse` tries the token under the cursor: "{" and "[" start an
      object and an array, then come the words true, false and null, then any token with
      a digit is a number, and every other token a string. */
  lemma DispatchPriority(tokens: seq<string>, i: nat)
    ensures Tok(tokens, i) == "true" ==> ParseAt(tokens, i) == Success(Parsed(Bool(true), i))
    ensures Tok(tokens, i) == "false" ==> ParseAt(tokens, i) == Success(Parsed(Bool(false), i))
    ensures Tok(tokens, i) == "null" ==> ParseAt(tokens, i) == Success(Parsed(Null, i))
    ensures (exists k :: 0 <= k < |Tok(tokens, i)| && IsDigit(Tok(tokens, i)[k])) ==>
      ParseAt(tokens, i) == Success(Parsed(Num(ParseNumber(Tok(tokens, i))), i))
    ensures Tok(tokens, i) !in {"{", "[", "true", "false", "null"} && (forall k :: 0 <= k < |Tok(tokens, i)| ==> !IsDigit(Tok(tokens, i)[k])) ==>
      ParseAt(tokens, i) == Success(ParseStringAt(tokens, i))
  {
    var t := Tok(tokens, i);
    IsNumberIffHasDigit(t);
    if exists k :: 0 <= k < |t| && IsDigit(t[k]) {
      var k :| 0 <= k < |t| && IsDigit(t[k]);
      assert t != "{" && t != "[" && t != "true" && t != "false" && t != "null" by {
        assert t[k] != '{' && t[k] != '[' && t[k] !in "truefalsenul";
      }
    }
  }

  /** The cursor invariant: `parse` leaves the cursor on the last token of the value it
      read. A scalar leaves it where it was, a quoted string on its closing quote (on the
      second of two quotes for ""), an object or array on its closing bracket. Only
      objects and arrays can fail to give a value. */
  lemma CursorInvariant(tokens: seq<string>, i: nat)
    ensures Tok(tokens, i) !in {"{", "["} ==> ParseAt(tokens, i).Success?
    ensures Tok(tokens, i) !in {"{", "[", "\""} ==> ParseAt(tokens, i).Success? && ParseAt(tokens, i).value.last == i
    ensures Tok(tokens, i) == "\"" && Tok(tokens, i + 1) == "\"" ==>
      ParseAt(tokens, i) == Success(Parsed(Str(""), i + 1))
    ensures Tok(tokens, i) == "\"" && Tok(tokens, i + 1) != "\"" ==>
      ParseAt(tokens, i) == Success(Parsed(Str(Tok(tokens, i + 1)), i + 2))
    ensures ParseAt(tokens, i).Success? && Tok(tokens, i) == "{" ==>
      ParseAt(tokens, i).value.last < |tokens| && tokens[ParseAt(tokens, i).value.last] == "}"
    ensures ParseAt(tokens, i).Success? && Tok(tokens, i) == "[" ==>
      ParseAt(tokens, i).value.last < |tokens| && tokens[ParseAt(tokens, i).value.last] == "]"
  {
    var t := Tok(tokens, i);
    if t == "{" {
      ObjectLoopShape(tokens, i + 1, []);
    } else if t == "[" {
      ArrayLoopShape(tokens, i + 1, []);
    } else if t == "\"" {
      IsNumberIffHasDigit(t);
    }
  }

  /** A successful object loop stops on a "}" token and gives an object; a successful array
      loop stops on a "]" token and gives an array. */
  lemma {:induction false} ObjectLoopShape(tokens: seq<string>, i: nat, fields: seq<Field>)
    ensures ObjectLoop(tokens, i, fields).Success? ==>
      var p := ObjectLoop(tokens, i, fields).value;
      p.last < |tokens| && tokens[p.last] == "}" && p.value.Obj?
    decreases Remaining(tokens, i)
  {
    if i < |tokens| && tokens[i] != "}" {
      if tokens[i] == "\"" {
        var r := ParseAt(tokens, i + 4);
        if r.Success? {
          ObjectLoopShape(tokens, r.value.last + 1, Bind(fields, Tok(tokens, i + 1), r.value.value));
        }
      } else {
        ObjectLoopShape(tokens, i + 1, fields);
      }
    }
  }

  lemma {:induction false} ArrayLoopShape(tokens: seq<string>, i: nat, items: seq<Value>)
    ensures ArrayLoop(tokens, i, items).Success? ==>
      var p := ArrayLoop(tokens, i, items).value;
      p.last < |tokens| && tokens[p.last] == "]" && p.value.Arr?
    decreases Remaining(tokens, i)
  {
    if i < |tokens| && tokens[i] != "]" {
      if tokens[i] == "," {
        ArrayLoopShape(tokens, i + 1, items);
      } else if tokens[i] == "\"" {
        var p := ParseStringAt(tokens, i + 1);
        ArrayLoopShape(tokens, p.last + 2, items + [p.value]);
      } else {
        var r := ParseAt(tokens, i);
        if r.Success? {
          ArrayLoopShape(tokens, r.value.last + 1, items + [r.value.value]);
        }
      }
    }
  }

  /** The values `parse` builds are well formed: every object it builds has unique keys,
      because each binding that repeats a key replaces the earlier value. */
  lemma {:induction false} ParseWellFormed(tokens: seq<string>, i: nat)
    ensures ParseAt(tokens, i).Success? ==> WellFormed(ParseAt(tokens, i).value.value)
    decreases Remaining(tokens, i), 0
  {
    var t := Tok(tokens, i);
    if t == "{" {
      ObjectLoopWellFormed(tokens, i + 1, []);
    } else if t == "[" {
      ArrayLoopWellFormed(tokens, i + 1, []);
    }
  }

  lemma {:induction false} ObjectLoopWellFormed(tokens: seq<string>, i: nat, fields: seq<Field>)
    requires WellFormed(Obj(fields))
    ensures ObjectLoop(tokens, i, fields).Success? ==> WellFormed(ObjectLoop(tokens, i, fields).value.value)
    decreases Remaining(tokens, i), 1
  {
    if i < |tokens| && tokens[i] != "}" {
      if tokens[i] == "\"" {
        var r := ParseAt(tokens, i + 4);
        if r.Success? {
          ParseWellFormed(tokens, i + 4);
          BindWellFormed(fields, Tok(tokens, i + 1), r.value.value);
          ObjectLoopWellFormed(tokens, r.value.last + 1, Bind(fields, Tok(tokens, i + 1), r.value.value));
        }
      } else {
        ObjectLoopWellFormed(tokens, i + 1, fields);
      }
    }
  }

  lemma {:induction false} ArrayLoopWellFormed(tokens: seq<string>, i: nat, items: seq<Value>)
    requires WellFormed(Arr(items))
    ensures ArrayLoop(tokens, i, items).Success? ==> WellFormed(ArrayLoop(tokens, i, items).value.value)
    decreases Remaining(tokens, i), 1
  {
    if i < |tokens| && tokens[i] != "]" {
      if tokens[i] == "," {
        ArrayLoopWellFormed(tokens, i + 1, items);
      } else if tokens[i] == "\"" {
        var p := ParseStringAt(tokens, i + 1);
        assert WellFormed(Arr(items + [p.value])) by {
          assert forall j :: 0 <= j < |items| ==> (items + [p.value])[j] == items[j];
        }
        ArrayLoopWellFormed(tokens, p.last + 2, items + [p.value]);
      } else {
        var r := ParseAt(tokens, i);
        if r.Success? {
          ParseWellFormed(tokens, i);
          assert WellFormed(Arr(items + [r.value.value])) by {
            assert forall j :: 0 <= j < |items| ==> (items + [r.value.value])[j] == items[j];
          }
          ArrayLoopWellFormed(tokens, r.value.last + 1, items + [r.value.value]);
        }
      }
    }
  }

  /** `prefix` followed by the elements of a successful array outcome. */
  function PrefixedBy(prefix: seq<Value>, r: Outcome): Outcome {
    match r
    case Success(Parsed(Arr(items), last)) => Success(Parsed(Arr(prefix + items), last))
    case _ => r
  }

  lemma PrefixedByCompose(items: seq<Value>, v: Value, rest: Outcome)
    ensures PrefixedBy(items + [v], rest) == PrefixedBy(items, PrefixedBy([v], rest))
  {
    if rest.Success? && rest.value.value.Arr? {
      assert items + [v] + rest.value.value.items == items + ([v] + rest.value.value.items);
    }
  }

  /** The elements already pushed do not influence the rest of the array loop: it pushes
      the same elements after them in encounter order, stops at the same place, and fails
      the same way. */
  lemma {:induction false} ArrayLoopAppends(tokens: seq<string>, i: nat, items: seq<Value>)
    ensures ArrayLoop(tokens, i, items) == PrefixedBy(items, ArrayLoop(tokens, i, []))
    decreases Remaining(tokens, i), 2
  {
    if i >= |tokens| || tokens[i] == "]" {
      ArrayLoopStops(tokens, i, items);
      ArrayLoopStops(tokens, i, []);
      assert items + [] == items;
    } else if tokens[i] == "," {
      ArrayLoopComma(tokens, i, items);
      ArrayLoopComma(tokens, i, []);
      ArrayLoopAppends(tokens, i + 1, items);
    } else if tokens[i] == "\"" {
      ArrayLoopQuoted(tokens, i, items);
      ArrayLoopQuoted(tokens, i, []);
      var p := ParseStringAt(tokens, i + 1);
      ArrayLoopAppendsAfter(tokens, i, p.last + 2, items, p.value);
    } else {
      ArrayLoopElement(tokens, i, items);
      ArrayLoopElement(tokens, i, []);
      var r := ParseAt(tokens, i);
      if r.Success? {
        ArrayLoopAppendsAfter(tokens, i, r.value.last + 1, items, r.value.value);
      }
    }
  }

  /** ArrayLoopAppends once the round at `i` has pushed an element `v` after `items` and
      moved on to `next`. */
  lemma {:induction false} ArrayLoopAppendsAfter(tokens: seq<string>, i: nat, next: nat, items: seq<Value>, v: Value)
    requires i < |tokens| && i < next
    ensures ArrayLoop(tokens, next, items + [v]) == PrefixedBy(items, ArrayLoop(tokens, next, [] + [v]))
    decreases Remaining(tokens, i), 1
  {
    ArrayLoopAppends(tokens, next, items + [v]);
    ArrayLoopAppends(tokens, next, [v]);
    PrefixedByCompose(items, v, ArrayLoop(tokens, next, []));
    assert [] + [v] == [v];
  }

  /** Keys already bound stay bound and keep their places; the object loop only appends the
      keys it meets for the first time. */
  lemma {:induction false} ObjectLoopKeepsKeys(tokens: seq<string>, i: nat, fields: seq<Field>)
    ensures ObjectLoop(tokens, i, fields).Success? && ObjectLoop(tokens, i, fields).value.value.Obj? ==>
      Keys(fields) <= Keys(ObjectLoop(tokens, i, fields).value.value.fields)
    decreases Remaining(tokens, i)
  {
    ObjectLoopStops(tokens, i, fields);
    if i < |tokens| && tokens[i] != "}" {
      if tokens[i] == "\"" {
        ObjectLoopField(tokens, i, fields);
        var r := ParseAt(tokens, i + 4);
        if r.Success? {
          var bound := Bind(fields, Tok(tokens, i + 1), r.value.value);
          BindKeys(fields, Tok(tokens, i + 1), r.value.value);
          ObjectLoopKeepsKeys(tokens, r.value.last + 1, bound);
          var o := ObjectLoop(tokens, i, fields);
          if o.Success? && o.value.value.Obj? {
            var ks := Keys(o.value.value.fields);
            assert Keys(bound) <= ks;
            assert Keys(fields) <= Keys(bound);
            assert Keys(fields) == ks[..|Keys(fields)|];
          }
        }
      } else {
        ObjectLoopSkip(tokens, i, fields);
        ObjectLoopKeepsKeys(tokens, i + 1, fields);
      }
    }
  }
}
