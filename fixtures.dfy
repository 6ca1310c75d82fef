/** The fixtures main.js checks (lines 151-237), at the level of tokens: each fixture
    string's token list is written out here by hand, as the regular expression splits it, and
    the parser reads it back as the fixture's expected value and ends on its last token. Only
    the empty object and the empty array are also followed from the text itself through the
    tokenizer. The fixtures whose
    objects nest deepest (nestedObj, arrayOfObjects, mixedDataTypes) are instances of
    ParseInvertsEmit that are not spelled out here. Two further examples follow the
    fixtures: an exponent without a "." and a key bound twice. */
module Fixtures {
  import opened DeepEquality
  import opened Wrappers
  import opened Lexical
  import opened Decimal
  import opened JsonValue
  import opened Tokenizer
  import opened ParserSpec
  import opened RoundTrip

  /** `{"name": "Alice", "age": 25}` */
  const SimpleObjectTokens: seq<string> := ["{", "\"", "name", "\"", ":", "\"", "Alice", "\"", ",", "\"", "age", "\"", ":", "25", "}"]
  const SimpleObjectExpected: Value := Obj([Field("name", Str("Alice")), Field("age", Num(Int(25)))])

  lemma SimpleObjectStep1()
    ensures Member(Field("name", Str("Alice"))) == ["\"", "name", "\"", ":", "\"", "Alice", "\""]
  {
  }

  lemma SimpleObjectStep2()
    ensures Member(Field("age", Num(Int(25)))) == ["\"", "age", "\"", ":", "25"]
  {
    assert NatText(25) == "25";
  }

  lemma SimpleObjectStep3()
    ensures Members([Field("age", Num(Int(25)))]) == ["\"", "age", "\"", ":", "25"]
  {
    SimpleObjectStep2();
  }

  lemma SimpleObjectStep4()
    ensures Members([Field("name", Str("Alice")), Field("age", Num(Int(25)))]) == ["\"", "name", "\"", ":", "\"", "Alice", "\"", ",", "\"", "age", "\"", ":", "25"]
  {
    SimpleObjectStep1();
    SimpleObjectStep3();
  }

  lemma SimpleObjectEmitted()
    ensures Emit(SimpleObjectExpected) == SimpleObjectTokens
  {
    SimpleObjectStep4();
  }

  lemma SimpleObjectParsed()
    ensures ParseAt(SimpleObjectTokens, 0) == Success(Parsed(SimpleObjectExpected, |SimpleObjectTokens| - 1))
  {
    SimpleObjectEmitted();
    ParseInvertsEmit(SimpleObjectExpected, []);
  }

  /** `{}` */
  const EmptyObjectTokens: seq<string> := ["{", "}"]
  const EmptyObjectExpected: Value := Obj([])

  lemma EmptyObjectEmitted()
    ensures Emit(EmptyObjectExpected) == EmptyObjectTokens
  {
  }

  lemma EmptyObjectParsed()
    ensures ParseAt(EmptyObjectTokens, 0) == Success(Parsed(EmptyObjectExpected, |EmptyObjectTokens| - 1))
  {
    EmptyObjectEmitted();
    ParseInvertsEmit(EmptyObjectExpected, []);
  }

  /** `[1, 2, 3, 4, 5]` */
  const SimpleArrayOfNumbersTokens: seq<string> := ["[", "1", ",", "2", ",", "3", ",", "4", ",", "5", "]"]
  const SimpleArrayOfNumbersExpected: Value := Arr([Num(Int(1)), Num(Int(2)), Num(Int(3)), Num(Int(4)), Num(Int(5))])

  lemma SimpleArrayOfNumbersStep1()
    ensures Elements([Num(Int(5))]) == ["5"]
  {
  }

  lemma SimpleArrayOfNumbersStep2()
    ensures Elements([Num(Int(4)), Num(Int(5))]) == ["4", ",", "5"]
  {
    SimpleArrayOfNumbersStep1();
  }

  lemma SimpleArrayOfNumbersStep3()
    ensures Elements([Num(Int(3)), Num(Int(4)), Num(Int(5))]) == ["3", ",", "4", ",", "5"]
  {
    SimpleArrayOfNumbersStep2();
  }

  lemma SimpleArrayOfNumbersStep4()
    ensures Elements([Num(Int(2)), Num(Int(3)), Num(Int(4)), Num(Int(5))]) == ["2", ",", "3", ",", "4", ",", "5"]
  {
    SimpleArrayOfNumbersStep3();
  }

  lemma SimpleArrayOfNumbersStep5()
    ensures Elements([Num(Int(1)), Num(Int(2)), Num(Int(3)), Num(Int(4)), Num(Int(5))]) == ["1", ",", "2", ",", "3", ",", "4", ",", "5"]
  {
    SimpleArrayOfNumbersStep4();
  }

  lemma SimpleArrayOfNumbersEmitted()
    ensures Emit(SimpleArrayOfNumbersExpected) == SimpleArrayOfNumbersTokens
  {
    SimpleArrayOfNumbersStep5();
  }

  lemma SimpleArrayOfNumbersParsed()
    ensures ParseAt(SimpleArrayOfNumbersTokens, 0) == Success(Parsed(SimpleArrayOfNumbersExpected, |SimpleArrayOfNumbersTokens| - 1))
  {
    SimpleArrayOfNumbersEmitted();
    ParseInvertsEmit(SimpleArrayOfNumbersExpected, []);
  }

  /** `{"success": true, "error": false}` */
  const BooleanValuesTokens: seq<string> := ["{", "\"", "success", "\"", ":", "true", ",", "\"", "error", "\"", ":", "false", "}"]
  const BooleanValuesExpected: Value := Obj([Field("success", Bool(true)), Field("error", Bool(false))])

  lemma BooleanValuesStep1()
    ensures Member(Field("success", Bool(true))) == ["\"", "success", "\"", ":", "true"]
  {
  }

  lemma BooleanValuesStep2()
    ensures Member(Field("error", Bool(false))) == ["\"", "error", "\"", ":", "false"]
  {
  }

  lemma BooleanValuesStep3()
    ensures Members([Field("error", Bool(false))]) == ["\"", "error", "\"", ":", "false"]
  {
    BooleanValuesStep2();
  }

  lemma BooleanValuesStep4()
    ensures Members([Field("success", Bool(true)), Field("error", Bool(false))]) == ["\"", "success", "\"", ":", "true", ",", "\"", "error", "\"", ":", "false"]
  {
    BooleanValuesStep1();
    BooleanValuesStep3();
  }

  lemma BooleanValuesEmitted()
    ensures Emit(BooleanValuesExpected) == BooleanValuesTokens
  {
    BooleanValuesStep4();
  }

  lemma BooleanValuesParsed()
    ensures ParseAt(BooleanValuesTokens, 0) == Success(Parsed(BooleanValuesExpected, |BooleanValuesTokens| - 1))
  {
    BooleanValuesEmitted();
    ParseInvertsEmit(BooleanValuesExpected, []);
  }

  /** `{"empty": ""}` */
  const EmptyStringValueTokens: seq<string> := ["{", "\"", "empty", "\"", ":", "\"", "\"", "}"]
  const EmptyStringValueExpected: Value := Obj([Field("empty", Str(""))])

  lemma EmptyStringValueStep1()
    ensures Member(Field("empty", Str(""))) == ["\"", "empty", "\"", ":", "\"", "\""]
  {
  }

  lemma EmptyStringValueStep2()
    ensures Members([Field("empty", Str(""))]) == ["\"", "empty", "\"", ":", "\"", "\""]
  {
    EmptyStringValueStep1();
  }

  lemma EmptyStringValueEmitted()
    ensures Emit(EmptyStringValueExpected) == EmptyStringValueTokens
  {
    EmptyStringValueStep2();
  }

  lemma EmptyStringValueParsed()
    ensures ParseAt(EmptyStringValueTokens, 0) == Success(Parsed(EmptyStringValueExpected, |EmptyStringValueTokens| - 1))
  {
    EmptyStringValueEmitted();
    ParseInvertsEmit(EmptyStringValueExpected, []);
  }

  /** `[[1, 2], [3, 4], [5, 6]]` */
  const NestedArrayTokens: seq<string> := ["[", "[", "1", ",", "2", "]", ",", "[", "3", ",", "4", "]", ",", "[", "5", ",", "6", "]", "]"]
  const NestedArrayExpected: Value := Arr([Arr([Num(Int(1)), Num(Int(2))]), Arr([Num(Int(3)), Num(Int(4))]), Arr([Num(Int(5)), Num(Int(6))])])

  lemma NestedArrayStep1()
    ensures Elements([Num(Int(2))]) == ["2"]
  {
  }

  lemma NestedArrayStep2()
    ensures Elements([Num(Int(1)), Num(Int(2))]) == ["1", ",", "2"]
  {
    NestedArrayStep1();
  }

  lemma NestedArrayStep3()
    ensures Emit(Arr([Num(Int(1)), Num(Int(2))])) == ["[", "1", ",", "2", "]"]
  {
    NestedArrayStep2();
  }

  lemma NestedArrayStep4()
    ensures Elements([Num(Int(4))]) == ["4"]
  {
  }

  lemma NestedArrayStep5()
    ensures Elements([Num(Int(3)), Num(Int(4))]) == ["3", ",", "4"]
  {
    NestedArrayStep4();
  }

  lemma NestedArrayStep6()
    ensures Emit(Arr([Num(Int(3)), Num(Int(4))])) == ["[", "3", ",", "4", "]"]
  {
    NestedArrayStep5();
  }

  lemma NestedArrayStep7()
    ensures Elements([Num(Int(6))]) == ["6"]
  {
  }

  lemma NestedArrayStep8()
    ensures Elements([Num(Int(5)), Num(Int(6))]) == ["5", ",", "6"]
  {
    NestedArrayStep7();
  }

  lemma NestedArrayStep9()
    ensures Emit(Arr([Num(Int(5)), Num(Int(6))])) == ["[", "5", ",", "6", "]"]
  {
    NestedArrayStep8();
  }

  lemma NestedArrayStep10()
    ensures Elements([Arr([Num(Int(5)), Num(Int(6))])]) == ["[", "5", ",", "6", "]"]
  {
    NestedArrayStep9();
  }

  lemma NestedArrayStep11()
    ensures Elements([Arr([Num(Int(3)), Num(Int(4))]), Arr([Num(Int(5)), Num(Int(6))])]) == ["[", "3", ",", "4", "]", ",", "[", "5", ",", "6", "]"]
  {
    NestedArrayStep6();
    NestedArrayStep10();
  }

  lemma NestedArrayStep12()
    ensures Elements([Arr([Num(Int(1)), Num(Int(2))]), Arr([Num(Int(3)), Num(Int(4))]), Arr([Num(Int(5)), Num(Int(6))])]) == ["[", "1", ",", "2", "]", ",", "[", "3", ",", "4", "]", ",", "[", "5", ",", "6", "]"]
  {
    NestedArrayStep3();
    NestedArrayStep11();
  }

  lemma NestedArrayEmitted()
    ensures Emit(NestedArrayExpected) == NestedArrayTokens
  {
    NestedArrayStep12();
  }

  lemma NestedArrayParsed()
    ensures ParseAt(NestedArrayTokens, 0) == Success(Parsed(NestedArrayExpected, |NestedArrayTokens| - 1))
  {
    NestedArrayEmitted();
    ParseInvertsEmit(NestedArrayExpected, []);
  }

  /** `[]` */
  const EmptyArrayTokens: seq<string> := ["[", "]"]
  const EmptyArrayExpected: Value := Arr([])

  lemma EmptyArrayEmitted()
    ensures Emit(EmptyArrayExpected) == EmptyArrayTokens
  {
  }

  lemma EmptyArrayParsed()
    ensures ParseAt(EmptyArrayTokens, 0) == Success(Parsed(EmptyArrayExpected, |EmptyArrayTokens| - 1))
  {
    EmptyArrayEmitted();
    ParseInvertsEmit(EmptyArrayExpected, []);
  }

  /** The regular expression splits `{}` into its two braces. */
  lemma EmptyObjectTokenized()
    ensures Tokenize("{}") == ["{", "}"]
  {
    var s := "{}";
    var steps := Steps(s);
    assert steps == [Take(OpenBrace, 1), Take(CloseBrace, 1)] by {
      assert NextStep(s, 0) == Take(OpenBrace, 1);
      assert NextStep(s, 1) == Take(CloseBrace, 1);
    }
    assert s[0..1] == "{" && s[1..2] == "}";
    assert ScanFrom(s, steps, 2) == [];
    assert ScanFrom(s, steps, 1) == [Lexeme(1, "}", CloseBrace)];
  }

  /** `{}`: the whole text, tokenized and parsed, is the empty object. */
  lemma EmptyObjectText()
    ensures ParseJson("{}") == Success(Obj([]))
  {
    EmptyObjectTokenized();
    ObjectLoopStops(["{", "}"], 1, []);
  }

  /** At either bracket of `[]` the first alternative that matches is that bracket. */
  lemma EmptyArraySteps()
    ensures NextStep("[]", 0) == Take(OpenBracket, 1)
    ensures NextStep("[]", 1) == Take(CloseBracket, 1)
  {
  }

  /** The regular expression splits `[]` into its two brackets. */
  lemma EmptyArrayTokenized()
    ensures Tokenize("[]") == ["[", "]"]
  {
    var s := "[]";
    var steps := Steps(s);
    EmptyArraySteps();
    assert steps == [Take(OpenBracket, 1), Take(CloseBracket, 1)];
    assert s[0..1] == "[" && s[1..2] == "]";
    assert ScanFrom(s, steps, 2) == [];
    assert ScanFrom(s, steps, 1) == [Lexeme(1, "]", CloseBracket)];
  }

  /** `[]`: the whole text, tokenized and parsed, is the empty array. */
  lemma EmptyArrayText()
    ensures ParseJson("[]") == Success(Arr([]))
  {
    EmptyArrayTokenized();
    ArrayLoopStops(["[", "]"], 1, []);
  }

  /** The integers of `{"integer": 123, "negativeInteger": -123, ...}`, one token each:
      they take the Number.parseInt path. */
  lemma IntegerTokensParsed()
    ensures ParseAt(["123"], 0) == Success(Parsed(Num(Int(123)), 0))
    ensures ParseAt(["-123"], 0) == Success(Parsed(Num(Int(-123)), 0))
  {
    assert NatText(12) == "12" && NatText(123) == "123" && IntText(-123) == "-123";
    ParseInvertsEmit(Num(Int(123)), []);
    ParseInvertsEmit(Num(Int(-123)), []);
  }

  /** The scientific float of `{..., "scientific": 1.23e+10}`: the token holds "." and
      takes the float path. */
  lemma ScientificTokenParsed()
    ensures ParseAt(["1.23e+10"], 0) == Success(Parsed(Num(Float("1.23e+10")), 0))
  {
    FloatParsed("1.23e+10", 0);
  }

  /** A token holding "." and a digit is read as that float, as 123.45, -123.45 and
      1.23e+10 of the integersAndFloats fixture are. */
  lemma FloatParsed(t: string, k: nat)
    requires k < |t| && IsDigit(t[k]) && '.' in t
    ensures ParseAt([t], 0) == Success(Parsed(Num(Float(t)), 0))
  {
    IsNumberIffHasDigit(t);
    ParseInvertsEmit(Num(Float(t)), []);
  }

  /** `[""]`: after the first quote parseArray hands the second quote to parseString,
      which takes it for an opening quote, reads "]" as the string and steps past it; the
      two tokens skipped after that leave the cursor past the end, where the array loop
      never stops. */
  lemma EmptyStringElementDiverges()
    ensures ParseAt(["[", "\"", "\"", "]"], 0) == Failure(Diverges)
  {
    var tokens := ["[", "\"", "\"", "]"];
    ArrayLoopQuoted(tokens, 1, []);
    ArrayLoopStops(tokens, 6, [Str("]")]);
  }

  /** An exponent without a "." (main.js lines 98-101): the token takes the Number.parseInt
      path, which stops at the "e" and keeps only the digits before it. */
  lemma ExponentWithoutPointNumber()
    ensures ParseNumber("1e10") == Int(1)
  {
    var t := "1e10";
    assert '.' !in t;
    ParseIntOfDigitPrefix(t, 1);
    assert t[..1] == "1";
    assert RadixValue("1", 10) == 1;
  }

  /** A token with a digit in it is read by parse as what parseNumber gives for it. */
  lemma NumberTokenParsed(t: string, k: nat)
    requires k < |t| && IsDigit(t[k])
    ensures ParseAt([t], 0) == Success(Parsed(Num(ParseNumber(t)), 0))
  {
    IsNumberIffHasDigit(t);
    DispatchPriority([t], 0);
  }

  /** The token 1e10 as a whole value: parse reads it as the integer 1. */
  lemma ExponentWithoutPointParsed()
    ensures ParseAt(["1e10"], 0) == Success(Parsed(Num(Int(1)), 0))
  {
    ExponentWithoutPointNumber();
    NumberTokenParsed("1e10", 0);
  }

  /** `{"a": 1, "a": 2}` */
  const DuplicateKeyTokens: seq<string> := ["{", "\"", "a", "\"", ":", "1", ",", "\"", "a", "\"", ":", "2", "}"]

  /** The tokens of `{"a": 1, "a": 2}` that the parser looks at. */
  predicate DuplicateKeyShape(tokens: seq<string>) {
    |tokens| == 13 && tokens[0] == "{" && tokens[1] == "\"" && tokens[2] == "a" && tokens[5] == "1"
    && tokens[6] == "," && tokens[7] == "\"" && tokens[8] == "a" && tokens[11] == "2" && tokens[12] == "}"
  }

  lemma DuplicateKeyTokensShape()
    ensures DuplicateKeyShape(DuplicateKeyTokens)
  {
  }

  /** The two values of the duplicate key are each read where they stand. */
  lemma DuplicateKeyValues(tokens: seq<string>)
    requires DuplicateKeyShape(tokens)
    ensures ParseAt(tokens, 5) == Success(Parsed(Num(Int(1)), 5))
    ensures ParseAt(tokens, 11) == Success(Parsed(Num(Int(2)), 11))
  {
    assert NatText(1) == "1" && NatText(2) == "2";
    NumberParsed(tokens, 5, Int(1));
    NumberParsed(tokens, 11, Int(2));
  }

  /** Rebinding "a" replaces its value in place. */
  lemma DuplicateKeyRebound()
    ensures Bind([Field("a", Num(Int(1)))], "a", Num(Int(2))) == [Field("a", Num(Int(2)))]
  {
  }

  /** The first property binds "a" to 1, then the comma is stepped over. */
  lemma DuplicateKeyFirstRound(tokens: seq<string>)
    requires DuplicateKeyShape(tokens)
    ensures ObjectLoop(tokens, 1, []) == ObjectLoop(tokens, 7, [Field("a", Num(Int(1)))])
  {
    DuplicateKeyValues(tokens);
    ObjectLoopParsedField(tokens, 1, [], Num(Int(1)), 5);
    ObjectLoopSkip(tokens, 6, [Field("a", Num(Int(1)))]);
  }

  /** The second property rebinds "a" to 2, and the loop stops on "}". */
  lemma DuplicateKeySecondRound(tokens: seq<string>)
    requires DuplicateKeyShape(tokens)
    ensures ObjectLoop(tokens, 7, [Field("a", Num(Int(1)))]) == Success(Parsed(Obj([Field("a", Num(Int(2)))]), 12))
  {
    DuplicateKeyValues(tokens);
    DuplicateKeyRebound();
    ObjectLoopParsedField(tokens, 7, [Field("a", Num(Int(1)))], Num(Int(2)), 11);
    ObjectLoopStops(tokens, 12, [Field("a", Num(Int(2)))]);
  }

  /** A key bound twice keeps its first place and its last value, through the whole object
      loop (main.js lines 54-58). */
  lemma DuplicateKeyLastWins()
    ensures ParseAt(DuplicateKeyTokens, 0) == Success(Parsed(Obj([Field("a", Num(Int(2)))]), 12))
  {
    var tokens := DuplicateKeyTokens;
    DuplicateKeyTokensShape();
    ParseAtBracket(tokens, 0);
    DuplicateKeyFirstRound(tokens);
    DuplicateKeySecondRound(tokens);
  }

  /** `{"integer": 123, "negativeInteger": -123, "float": 123.45, "negativeFloat": -123.45,
      "scientific": 1.23e+10}` */
  const IntegersAndFloatsTokens: seq<string> := ["{", "\"", "integer", "\"", ":", "123", ",", "\"", "negativeInteger", "\"", ":", "-123", ",", "\"", "float", "\"", ":", "123.45", ",", "\"", "negativeFloat", "\"", ":", "-123.45", ",", "\"", "scientific", "\"", ":", "1.23e+10", "}"]
  /** The expected object, built up one property at a time in IntegersAndFloats1 to 5. */
  const IntegersAndFloatsExpected: Value := Obj(IntegersAndFloats5)

  /** The tokens of integersAndFloats that the parser looks at. */
  predicate IntegersAndFloatsShape(tokens: seq<string>) {
    |tokens| == 31 && tokens[0] == "{" && tokens[30] == "}"
    && tokens[1] == "\"" && tokens[2] == "integer" && tokens[5] == "123" && tokens[6] == ","
    && tokens[7] == "\"" && tokens[8] == "negativeInteger" && tokens[11] == "-123" && tokens[12] == ","
    && tokens[13] == "\"" && tokens[14] == "float" && tokens[17] == "123.45" && tokens[18] == ","
    && tokens[19] == "\"" && tokens[20] == "negativeFloat" && tokens[23] == "-123.45" && tokens[24] == ","
    && tokens[25] == "\"" && tokens[26] == "scientific" && tokens[29] == "1.23e+10"
  }

  lemma IntegersAndFloatsTokensFront()
    ensures |IntegersAndFloatsTokens| == 31 && IntegersAndFloatsTokens[0] == "{"
    ensures IntegersAndFloatsTokens[1] == "\"" && IntegersAndFloatsTokens[2] == "integer"
    ensures IntegersAndFloatsTokens[5] == "123" && IntegersAndFloatsTokens[6] == ","
    ensures IntegersAndFloatsTokens[7] == "\"" && IntegersAndFloatsTokens[8] == "negativeInteger"
    ensures IntegersAndFloatsTokens[11] == "-123" && IntegersAndFloatsTokens[12] == ","
  {
  }

  lemma IntegersAndFloatsTokensBack()
    ensures |IntegersAndFloatsTokens| == 31 && IntegersAndFloatsTokens[30] == "}"
    ensures IntegersAndFloatsTokens[13] == "\"" && IntegersAndFloatsTokens[14] == "float"
    ensures IntegersAndFloatsTokens[17] == "123.45" && IntegersAndFloatsTokens[18] == ","
    ensures IntegersAndFloatsTokens[19] == "\"" && IntegersAndFloatsTokens[20] == "negativeFloat"
    ensures IntegersAndFloatsTokens[23] == "-123.45" && IntegersAndFloatsTokens[24] == ","
    ensures IntegersAndFloatsTokens[25] == "\"" && IntegersAndFloatsTokens[26] == "scientific"
    ensures IntegersAndFloatsTokens[29] == "1.23e+10"
  {
  }

  /** A token holding "." and a digit is read where it stands as that float. */
  lemma FloatTokenAt(tokens: seq<string>, k: nat, t: string, j: nat)
    requires Tok(tokens, k) == t && j < |t| && IsDigit(t[j]) && '.' in t
    ensures ParseAt(tokens, k) == Success(Parsed(Num(Float(t)), k))
  {
    IsNumberIffHasDigit(t);
    NumberParsed(tokens, k, Float(t));
  }

  /** One property whose value is a single token and whose key is new: the object loop
      appends it and resumes on the token after the value. */
  lemma ScalarFieldRound(tokens: seq<string>, i: nat, fields: seq<Field>, v: Value)
    requires i < |tokens| && tokens[i] == "\"" && Tok(tokens, i + 1) !in Keys(fields)
    requires ParseAt(tokens, i + 4) == Success(Parsed(v, i + 4))
    ensures ObjectLoop(tokens, i, fields) == ObjectLoop(tokens, i + 5, fields + [Field(Tok(tokens, i + 1), v)])
  {
    ObjectLoopParsedField(tokens, i, fields, v, i + 4);
    BindAppendsNewKey(fields, Tok(tokens, i + 1), v);
  }

  /** The properties bound after each round of the object loop. */
  const IntegersAndFloats1: seq<Field> := [Field("integer", Num(Int(123)))]
  const IntegersAndFloats2: seq<Field> := IntegersAndFloats1 + [Field("negativeInteger", Num(Int(-123)))]
  const IntegersAndFloats3: seq<Field> := IntegersAndFloats2 + [Field("float", Num(Float("123.45")))]
  const IntegersAndFloats4: seq<Field> := IntegersAndFloats3 + [Field("negativeFloat", Num(Float("-123.45")))]
  const IntegersAndFloats5: seq<Field> := IntegersAndFloats4 + [Field("scientific", Num(Float("1.23e+10")))]

  /** The decimal texts of the two integers. */
  lemma IntegersAndFloatsTexts()
    ensures IntText(123) == "123" && IntText(-123) == "-123"
  {
    assert NatText(12) == "12" && NatText(123) == "123";
  }

  /** Each key of integersAndFloats is new when the object loop binds it. */
  lemma IntegersAndFloatsFreshKeys()
    ensures "negativeInteger" !in Keys(IntegersAndFloats1)
    ensures "float" !in Keys(IntegersAndFloats2)
    ensures "negativeFloat" !in Keys(IntegersAndFloats3)
    ensures "scientific" !in Keys(IntegersAndFloats4)
  {
    assert Keys(IntegersAndFloats4) == ["integer", "negativeInteger", "float", "negativeFloat"];
  }

  /** The integer 123, read where it stands. */
  lemma IntegersAndFloatsInteger(tokens: seq<string>)
    requires IntegersAndFloatsShape(tokens)
    ensures ParseAt(tokens, 5) == Success(Parsed(Num(Int(123)), 5))
  {
    IntegersAndFloatsTexts();
    NumberParsed(tokens, 5, Int(123));
  }

  /** The integer -123, read where it stands. */
  lemma IntegersAndFloatsNegativeInteger(tokens: seq<string>)
    requires IntegersAndFloatsShape(tokens)
    ensures ParseAt(tokens, 11) == Success(Parsed(Num(Int(-123)), 11))
  {
    IntegersAndFloatsTexts();
    NumberParsed(tokens, 11, Int(-123));
  }

  lemma IntegersAndFloatsRound1(tokens: seq<string>)
    requires IntegersAndFloatsShape(tokens)
    ensures ObjectLoop(tokens, 1, []) == ObjectLoop(tokens, 7, IntegersAndFloats1)
  {
    IntegersAndFloatsInteger(tokens);
    ObjectLoopParsedField(tokens, 1, [], Num(Int(123)), 5);
    assert Bind([], Tok(tokens, 2), Num(Int(123))) == IntegersAndFloats1;
    ObjectLoopSkip(tokens, 6, IntegersAndFloats1);
  }

  lemma IntegersAndFloatsRound2(tokens: seq<string>)
    requires IntegersAndFloatsShape(tokens)
    ensures ObjectLoop(tokens, 7, IntegersAndFloats1) == ObjectLoop(tokens, 13, IntegersAndFloats2)
  {
    IntegersAndFloatsNegativeInteger(tokens);
    IntegersAndFloatsFreshKeys();
    ScalarFieldRound(tokens, 7, IntegersAndFloats1, Num(Int(-123)));
    ObjectLoopSkip(tokens, 12, IntegersAndFloats2);
  }

  lemma IntegersAndFloatsRound3(tokens: seq<string>)
    requires IntegersAndFloatsShape(tokens)
    ensures ObjectLoop(tokens, 13, IntegersAndFloats2) == ObjectLoop(tokens, 19, IntegersAndFloats3)
  {
    FloatTokenAt(tokens, 17, "123.45", 0);
    IntegersAndFloatsFreshKeys();
    ScalarFieldRound(tokens, 13, IntegersAndFloats2, Num(Float("123.45")));
    ObjectLoopSkip(tokens, 18, IntegersAndFloats3);
  }

  lemma IntegersAndFloatsRound4(tokens: seq<string>)
    requires IntegersAndFloatsShape(tokens)
    ensures ObjectLoop(tokens, 19, IntegersAndFloats3) == ObjectLoop(tokens, 25, IntegersAndFloats4)
  {
    FloatTokenAt(tokens, 23, "-123.45", 1);
    IntegersAndFloatsFreshKeys();
    ScalarFieldRound(tokens, 19, IntegersAndFloats3, Num(Float("-123.45")));
    ObjectLoopSkip(tokens, 24, IntegersAndFloats4);
  }

  lemma IntegersAndFloatsRound5(tokens: seq<string>)
    requires IntegersAndFloatsShape(tokens)
    ensures ObjectLoop(tokens, 25, IntegersAndFloats4) == Success(Parsed(Obj(IntegersAndFloats5), 30))
  {
    FloatTokenAt(tokens, 29, "1.23e+10", 0);
    IntegersAndFloatsFreshKeys();
    ScalarFieldRound(tokens, 25, IntegersAndFloats4, Num(Float("1.23e+10")));
    ObjectLoopStops(tokens, 30, IntegersAndFloats5);
  }

  /** The tokens of integersAndFloats parse to its expected object. */
  lemma IntegersAndFloatsParsed()
    ensures ParseAt(IntegersAndFloatsTokens, 0) == Success(Parsed(IntegersAndFloatsExpected, |IntegersAndFloatsTokens| - 1))
  {
    var tokens := IntegersAndFloatsTokens;
    IntegersAndFloatsTokensFront();
    IntegersAndFloatsTokensBack();
    assert IntegersAndFloatsShape(tokens);
    ParseAtBracket(tokens, 0);
    IntegersAndFloatsRound1(tokens);
    IntegersAndFloatsRound2(tokens);
    IntegersAndFloatsRound3(tokens);
    IntegersAndFloatsRound4(tokens);
    IntegersAndFloatsRound5(tokens);
  }

  /** What main.js line 227 checks for simpleObj: deepEqual(expected, parsed) holds. */
  lemma SimpleObjectDeepEqual()
    ensures ParseAt(SimpleObjectTokens, 0).Success?
    ensures DeepEqual(SimpleObjectExpected, ParseAt(SimpleObjectTokens, 0).value.value)
  {
    SimpleObjectParsed();
    ParseWellFormed(SimpleObjectTokens, 0);
    assert NaNFree(SimpleObjectExpected);
    DeepEqualReflexive(SimpleObjectExpected);
  }
}
