# A verified model of myJSONParse

`main.js` is a small JSON parser written by hand. `myJSONParse` splits the input text into
tokens with one global regular expression. `parse` then reads the tokens by recursive descent:
- `parseObject` and `parseArray` handle the brackets;
- `parseNumber` and `parseString` handle scalars;
- `isNumber` decides which tokens are numbers.

All these routines share one mutable cursor, the object `{ value: 0 }`. `deepEqual` compares
two parsed values structurally.

This project models that core in Dafny:

- `Lexical` has the character classes of the regular expressions and the length of a match of
  the number pattern.
- `Decimal` has the decimal text of integers and `Number.parseInt` called without a radix.
- `JsonValue` has the values the parser builds. An object is an association list. Binding a
  key that is already present replaces its value in place, which is what
  `Object.defineProperty` does to the writable property an earlier binding created.
- `Tokenizer` spells out the regular-expression scan. At every position the thirteen
  alternatives are tried in the order written, the first that matches gives the token, and a
  position where none matches is skipped.
- `ParserSpec` states what `parse`, `parseObject`, `parseArray`, `parseString`, `parseNumber`
  and `isNumber` compute. These are functions of the token list and the cursor position, and
  each returns the value built and the position where the cursor is left.
- `Parser` is the imperative parser. A `Cursor` class holds the shared `value` field, and
  methods advance it step by step as the source does. Each method is proved to compute what
  its `ParserSpec` function states.
- `RoundTrip` gives the parser a partner, `Emit`, which lays a value out as tokens. It proves
  that the parser reads every such token list back as the value it came from and leaves the
  cursor on the list's last token.
- `DeepEquality` is `deepEqual`. Arrays are compared through their index keys "0", "1", … as
  in JavaScript. It proves that `deepEqual` is symmetric, that it is reflexive on values
  without NaN when compared with a separately built copy, and that it ignores the order of
  an object's keys.
- `Fixtures` restates most of the fixtures at the end of `main.js` as lemmas about their token
  lists, which are written out by hand as the regular expression splits each fixture string.
  Only `{}` and `[]` are also followed through the tokenizer. For each fixture spelled out,
  the parser gives exactly the expected value. `Fixtures.SimpleObjectDeepEqual` then carries
  this through `DeepEqualReflexive` to `deepEqual(expected, parsed)` for simpleObj. Two further examples show an
  exponent without a "." taking the integer path, and a repeated key keeping its last value.

Behaviour that the model reproduces as written:

- Reading past the last token gives `undefined`. At every use the parser makes of a token,
  that behaves like the token "undefined".
- Once the object or array loop has passed the end, it never stops. The model returns the
  error `Diverges` there.
- An empty string inside an array, as in `[""]`, makes `parseArray` read one token too far and
  diverge (`Fixtures.EmptyStringElementDiverges`).
- `\btrue`, `\bfalse` and `\bnull` never produce a token, because `\w+` comes first
  (`Tokenizer.ReservedWordsShadowed`).

## Model

| member | source | states |
|---|---|---|
| Lexical.NumberMatchesIff | main.js:4 | the number pattern matches at a position exactly when a digit stands there, or a minus sign followed by a digit |
| Lexical.NumberMatchShape | main.js:15 | a number match starts with a digit or with "-" and a digit, and contains no structural character |
| Lexical.NumberChars | main.js:4 | every character of a number match is a digit, a sign, ".", "e" or "E" |
| Decimal.ParseInt | main.js:101 | definition: transcribes Number.parseInt without a radix (skip white space, optional sign, "0x" switches to hexadecimal, longest digit prefix, None for NaN) |
| Decimal.ParseIntOfIntText | main.js:101 | Number.parseInt reads the decimal text of every integer back as that integer |
| Decimal.ParseIntOfDigitPrefix | main.js:101 | Number.parseInt reads the leading run of decimal digits and stops at the first character that is not a digit, unless the text starts with "0x" |
| Decimal.NatText | main.js:134-135 | the decimal text of an index is a non-empty run of digits, with a leading zero only for 0 |
| Decimal.TrimStart | main.js:101 | Number.parseInt skips exactly the leading white space |
| Decimal.NatTextInjective | main.js:134 | different array indices have different key texts |
| JsonValue.Lookup | main.js:143 | a key looks up a value exactly when it is one of the object's keys |
| JsonValue.Bind | main.js:54-58 | definition: transcribes defineProperty on a writable property: a key already present keeps its place and takes the new value, a new key is appended |
| JsonValue.BindLastWriteWins | main.js:54-58 | after defineProperty the key looks up the new value, and every other key looks up what it did before |
| JsonValue.BindKeys | main.js:54-58 | defineProperty keeps every key in its place and appends a key that is new |
| JsonValue.BindShape | main.js:54-58 | defineProperty keeps the keys unique, and a new key goes at the end |
| JsonValue.BindWellFormed | main.js:54-58 | binding a well-formed value into a well-formed object gives a well-formed object |
| JsonValue.LookupUnique | main.js:143 | in an object with unique keys, each property's key looks up that property's value |
| Tokenizer.MatchLength | main.js:4 | definition: the length of the match of one alternative at a position, 0 when it does not match; it never runs past the text |
| Tokenizer.NextStep | main.js:4-6 | definition: at a position, the first alternative in the order written whose match is non-empty, or a skip; a taken match is non-empty and fits in the text |
| Tokenizer.Tokenize | main.js:4-6 | definition: `match` with the global flag, the texts of the scan's matches from the start of the input, in order |
| Tokenizer.NextStepIsFirstMatch | main.js:4-6 | the scan takes the first alternative, in the order written, that matches, and the whole of its match; it skips a position exactly when no alternative matches there |
| Tokenizer.LexemeIsFirstMatch | main.js:4-6 | every token is the whole match of the first alternative that matches at its start |
| Tokenizer.LexemesInOrder | main.js:6 | the tokens are non-empty substrings of the input, in input order, and they do not overlap |
| Tokenizer.SkippedCharactersMatchNothing | main.js:4-6 | a character that lies inside no token is one where no alternative matches |
| Tokenizer.PunctuationIsOwnToken | main.js:4 | each of { } [ ] : , " in the input becomes a one-character token of its own |
| Tokenizer.ReservedWordsShadowed | main.js:4 | no token comes from `\btrue`, `\bfalse` or `\bnull`, because `\w+` comes first |
| ParserSpec.IsNumber | main.js:14-16 | definition: the unanchored number pattern matches somewhere in the token |
| ParserSpec.ParseNumber | main.js:96-102 | definition: a token holding "." is kept as a float text, any other goes through Number.parseInt, NaN when that fails |
| ParserSpec.ParseStringAt | main.js:105-123 | definition: transcribes parseString's three branches, giving the string and the cursor it leaves |
| ParserSpec.ObjectLoop | main.js:36-61 | definition: transcribes parseObject's loop from a cursor with the fields bound so far; a successful run never moves the cursor backwards |
| ParserSpec.ArrayLoop | main.js:71-90 | definition: transcribes parseArray's loop from a cursor with the elements pushed so far; a successful run never moves the cursor backwards |
| ParserSpec.ParseJson | main.js:2-10 | definition: tokenize, NoTokens when `match` finds nothing, else parse from the first token |
| ParserSpec.IsNumberIffHasDigit | main.js:14-16 | isNumber holds exactly when the token contains a decimal digit |
| ParserSpec.ParseNumberPath | main.js:96-102 | definitional unfolding, one branch: parseNumber takes the float path exactly when the token holds ".", and that path keeps the token |
| ParserSpec.ParseNumberOfIntText | main.js:101 | the integer path reads every integer's decimal text back as that integer |
| ParserSpec.ParseStringCases | main.js:105-123 | definitional unfolding, one branch: parseString gives "" for two quotes and leaves the cursor on the second; for a quote and a body it gives the body and leaves the cursor on the closing quote; for any other token it gives that token and does not move |
| ParserSpec.DispatchPriority | main.js:19-28 | parse tries "{", "[", true, false and null first, then reads any token with a digit as a number and every other token as a string |
| ParserSpec.ParseAtBracket | main.js:20-21 | definitional unfolding, one branch: on "{" and "[" parse hands over to the object or array loop one token on |
| ParserSpec.ParseAt | main.js:19-28 | a successful parse never moves the cursor backwards |
| ParserSpec.CursorInvariant | main.js:19-123 | parse leaves the cursor on the last token of the value it read: a scalar where it was, a quoted string on its closing quote, an object or array on its closing bracket; only objects and arrays can fail |
| ParserSpec.ObjectLoopShape | main.js:36-62 | a successful object loop stops on a "}" token and gives an object |
| ParserSpec.ArrayLoopShape | main.js:71-92 | a successful array loop stops on a "]" token and gives an array |
| ParserSpec.ObjectLoopStops | main.js:36 | definitional unfolding, one branch: the object loop stops on "}" and diverges past the last token |
| ParserSpec.ObjectLoopSkip | main.js:38-41 | definitional unfolding, one branch: the object loop steps over a comma, and over any token that is neither "}" nor a quote |
| ParserSpec.ObjectLoopField | main.js:44-60 | definitional unfolding, one branch: on a quote the object loop parses the value four tokens on, binds it under the key after the quote, and resumes after the value |
| ParserSpec.ObjectLoopParsedField | main.js:44-60 | definitional unfolding, one branch: the same round, once the value is known |
| ParserSpec.ArrayLoopStops | main.js:71 | definitional unfolding, one branch: the array loop stops on "]" and diverges past the last token |
| ParserSpec.ArrayLoopComma | main.js:73-76 | definitional unfolding, one branch: the array loop steps over a comma |
| ParserSpec.ArrayLoopQuoted | main.js:79-85 | definitional unfolding, one branch: on a quote the array loop pushes what parseString reads one token on, then skips two tokens |
| ParserSpec.ArrayLoopQuotedElement | main.js:79-85 | definitional unfolding, one branch: a quoted element whose body is not a quote pushes the body, and the loop resumes three tokens on |
| ParserSpec.ArrayLoopElement | main.js:88-89 | definitional unfolding, one branch: on any other token the array loop pushes what parse reads and resumes after its last token, or fails as parse does |
| ParserSpec.ArrayLoopParsedElement | main.js:88-89 | definitional unfolding, one branch: the same round, once the element is known |
| ParserSpec.ArrayLoopAppends | main.js:82-88 | the elements already pushed do not affect the rest of the array loop: it appends the same elements after them in encounter order, and stops or fails the same way |
| ParserSpec.ObjectLoopKeepsKeys | main.js:54-58 | keys already bound stay bound and keep their places |
| ParserSpec.ParseWellFormed | main.js:54-58 | every object parse builds, at any depth, has unique keys |
| ParserSpec.ObjectLoopWellFormed | main.js:36-61 | the object loop keeps the object it builds well formed |
| ParserSpec.ArrayLoopWellFormed | main.js:71-90 | the array loop keeps the array it builds well formed |
| Parser.Cursor.constructor | main.js:19 | the cursor starts at the given position |
| Parser.Parse | main.js:19-28 | parse gives exactly the value or the error ParseAt states, and leaves the cursor on the value's last token |
| Parser.ParseObject | main.js:31-63 | parseObject gives exactly what the object loop states from one token on, and leaves the cursor on the closing "}" |
| Parser.ParseProperty | main.js:44-59 | one property round reads the key after the quote, parses the value four tokens on, binds it, and leaves the cursor on the value's last token |
| Parser.ParseArray | main.js:66-93 | parseArray gives exactly what the array loop states from one token on, and leaves the cursor on the closing "]" |
| Parser.PushQuoted | main.js:79-85 | the quote branch appends what parseString reads one token after the quote and leaves the cursor two tokens past where parseString stopped; the array loop from there with the new elements gives what it gave from the old |
| Parser.PushElement | main.js:88-89 | the last branch pushes what parse reads and steps past it, or fails as parse and the array loop do |
| Parser.ParseString | main.js:105-123 | parseString gives the string ParseStringAt states and leaves the cursor where it states |
| Parser.MyJsonParse | main.js:2-10 | myJSONParse gives exactly what ParseJson states: NoTokens when the regular expression finds no token, otherwise what parse reads from the first token |
| RoundTrip.ParseInvertsEmit | main.js:19-123 | the parser reads the tokens of every writable value back as that value, ends on their last token, and ignores any tokens after them |
| RoundTrip.ParseEmitted | main.js:19-28 | wherever the tokens of a writable value stand in a token list, parse reads that value and ends on its last token |
| RoundTrip.ScalarParsed | main.js:22-27 | parse reads the token of a null, a boolean, a number or a string back as that scalar |
| RoundTrip.NumberParsed | main.js:25 | parse reads the text of a writable number back as that number |
| RoundTrip.ArrayParsed | main.js:66-93 | parse reads the tokens of a writable array back as that array |
| RoundTrip.ObjectParsed | main.js:31-63 | parse reads the tokens of a writable object back as that object |
| RoundTrip.ElementsParsed | main.js:71-90 | the array loop appends the emitted elements in order and stops on the closing "]" |
| RoundTrip.LastElement | main.js:71-90 | the array loop reads the last element and stops on "]" |
| RoundTrip.MoreElements | main.js:73-89 | the array loop reads an element, steps over the comma, and goes on |
| RoundTrip.ElementRound | main.js:79-89 | one round of the array loop over an emitted element pushes it and resumes after its tokens |
| RoundTrip.ValueRound | main.js:88-89 | the parse branch of the array loop pushes an emitted element that is not a string |
| RoundTrip.QuotedRound | main.js:79-85 | the quote branch of the array loop pushes an emitted non-empty string |
| RoundTrip.MembersParsed | main.js:36-61 | the object loop binds the emitted properties, each under a new key, in order and stops on "}" |
| RoundTrip.LastMember | main.js:36-61 | the object loop reads the last property and stops on "}" |
| RoundTrip.MoreMembers | main.js:38-60 | the object loop reads a property, steps over the comma, and goes on |
| RoundTrip.MemberRound | main.js:44-60 | one property round appends a property whose key is new |
| RoundTrip.FirstToken | main.js:71-89 | an emitted value that is not a string starts with a token the array loop hands to parse |
| RoundTrip.UniqueKeysFresh | main.js:54-58 | unique keys are each new when the object loop binds them |
| DeepEquality.IsObject | main.js:131 | definition: `typeof v === 'object' && v !== null` holds for arrays and objects |
| DeepEquality.StrictEqual | main.js:127 | definition: `===` on values: null, booleans, strings and integers by value, floats by text, NaN never, arrays and objects never (no identity) |
| DeepEquality.DeepEqual | main.js:126-149 | definition: transcribes deepEqual: `===`, or both arrays or objects with as many keys, each key of the first a key of the second, and the values under it deeply equal |
| DeepEquality.IndexKeys | main.js:134-135 | Object.keys of an array lists the decimal texts of its indices |
| DeepEquality.ObjectKeys | main.js:134-135 | Object.keys of an object lists its keys in binding order; of an array, one key per element |
| DeepEquality.IndexOf | main.js:143 | the position of a key among an array's index keys, which `obj2[key]` reads: found exactly when the key is in the list, at its first place |
| DeepEquality.Get | main.js:143 | `obj2[key]` is defined exactly for the keys Object.keys lists |
| DeepEquality.ObjectKeysDistinct | main.js:134-135 | the keys of an array or of a well-formed object are distinct |
| DeepEquality.GetAt | main.js:143 | the i-th key of an array or well-formed object looks up its i-th value |
| DeepEquality.SameKeys | main.js:138-146 | equal key counts, plus every key of one being a key of the other, make the two key sets equal |
| DeepEquality.DeepEqualFlip | main.js:126-149 | if deepEqual(a, b) then deepEqual(b, a) |
| DeepEquality.DeepEqualSymmetric | main.js:126-149 | deepEqual's result does not depend on the order of its arguments |
| DeepEquality.DeepEqualReflexive | main.js:126-149 | a well-formed value deep-equals a separately built copy of itself exactly when no NaN occurs in it |
| DeepEquality.SameBindings | main.js:134-139 | two objects that look up alike have the same keys, as many of them |
| DeepEquality.KeyOrderIgnored | main.js:126-149 | deepEqual ignores the order of an object's keys, on either side |
| DeepEquality.ObjectOrderStep | main.js:141-146 | the key-by-key check over one key order implies it over any other |
| Fixtures.SimpleObjectParsed | main.js:152-158 | the tokens of simpleObj parse to its expected object |
| Fixtures.SimpleObjectDeepEqual | main.js:227 | the simpleObj check holds: deepEqual(expected, parsed) for its tokens |
| Fixtures.EmptyObjectParsed | main.js:172-175 | the tokens of emptyObj parse to the empty object |
| Fixtures.EmptyObjectText | main.js:172-175 | the text "{}" tokenizes and parses to the empty object |
| Fixtures.SimpleArrayOfNumbersParsed | main.js:176-179 | the tokens of simpleArrayOfNumbers parse to [1, 2, 3, 4, 5] |
| Fixtures.BooleanValuesParsed | main.js:180-186 | the tokens of booleanValues parse to its expected object |
| Fixtures.IntegerTokensParsed | main.js:187-196 | the integers of integersAndFloats, including the negative one, parse to themselves |
| Fixtures.ScientificTokenParsed | main.js:187-196 | the token 1.23e+10 takes the float path |
| Fixtures.FloatParsed | main.js:187-196 | every token holding "." and a digit parses to that float |
| Fixtures.IntegersAndFloatsParsed | main.js:187-196 | the tokens of integersAndFloats parse to its expected object, the floats kept as their texts |
| Fixtures.NumberTokenParsed | main.js:25 | parse reads a token with a digit in it as what parseNumber gives for it |
| Fixtures.ExponentWithoutPointNumber | main.js:98-101 | parseNumber reads "1e10" as the integer 1, because Number.parseInt stops at the "e" |
| Fixtures.ExponentWithoutPointParsed | main.js:19-28 | parse reads the token "1e10" as the integer 1 |
| Fixtures.DuplicateKeyLastWins | main.js:54-58 | the tokens of `{"a": 1, "a": 2}` parse to an object with the single key "a" bound to 2 |
| Fixtures.EmptyStringValueParsed | main.js:197-202 | the tokens of emptyStringValue parse to an object binding "empty" to "" |
| Fixtures.NestedArrayParsed | main.js:207-210 | the tokens of nestedArray parse to its nested array |
| Fixtures.EmptyArrayParsed | main.js:211-214 | the tokens of emptyArray parse to the empty array |
| Fixtures.EmptyArrayText | main.js:211-214 | the text "[]" tokenizes and parses to the empty array |
| Fixtures.EmptyStringElementDiverges | main.js:79-85 | the tokens of `[""]` make parseArray run past the end |

## Left out

- Console output (main.js lines 227-237) is left out. The fixtures are restated as lemmas
  instead.
- Three fixtures are not spelled out as lemmas: nestedObj, arrayOfObjects and
  mixedDataTypes. (integersAndFloats is spelled out, in `Fixtures.IntegersAndFloatsParsed`.) Each is an instance of `RoundTrip.ParseInvertsEmit`, but with literals
  nested that deep the verifier's unfolding grows too large.
- `Number.parseFloat` is left out, because the model has no floating point. A float is kept as
  the text of its token. `DeepEquality.StrictEqual` therefore compares two floats by text and
  treats an integer and a float as different. JavaScript compares them as numbers, so
  `25 === 25.0` and `1.50 === 1.5` hold there.
- `Decimal.ParseInt` does not model the sign of a zero result or the rounding of results
  beyond 2^53.
- `===` between two objects or arrays is taken as false, because object identity is not
  modelled. JavaScript's `deepEqual(o, o)` returns true for any object `o` through its first
  check, even when `o` holds a NaN. The model compares two separately built trees, as the
  fixtures do with their expected and parsed values.
- The regular-expression engine itself is not modelled. The tokenizer is the explicit
  first-match scan described above. Only the `g` behaviour of `match` matters here: it
  returns every match, in order.
- `jsonString.match(regex)` returns null when it finds no token, and `parse(null)` then throws.
  The model returns the error `NoTokens`.
- A loop that would run forever past the last token returns the error `Diverges`.
- Recursion depth is not bounded. JavaScript throws a RangeError once deeply nested input
  exhausts the call stack in `parse`, `parseObject`, `parseArray` or `deepEqual`. The model
  recurses to any depth.
- JavaScript lists integer-like keys first in `Object.keys`. The model keeps binding order.
  `deepEqual` uses the keys only for membership and their count, so its result is the same
  (`DeepEquality.KeyOrderIgnored`).
- RoundTrip.ParseInvertsEmit: the round trip is stated for "writable" values only:
  - an array element must not be the empty string, because the parser diverges on it;
  - a string must not be a lone quote;
  - a float's text must hold "." and a digit;
  - NaN has no token;
  - an object's keys must be unique.
- The round trip is stated over tokens. Turning a value back into text is not modelled: the
  tokenizer splits strings that hold characters outside its string-body class.
