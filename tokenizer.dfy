/** The tokenizer of myJSONParse (main.js lines 4-6): one global regular expression, an
    alternation matched left to right over the input. At each position the alternatives
    are tried in the order written and the first that matches gives the token; a position
    where none matches is skipped. This module spells that scan out. */
module Tokenizer {
  import opened Lexical

  /** The alternatives of the regular expression, in the order written. */
  datatype Alternative =
    | OpenBrace     // {
    | CloseBrace    // }
    | NumberLiteral // -?\d+(?:\.\d*)?(?:[eE][+-]?\d+)?
    | Quote         // "
    | Colon         // :
    | StringBody    // (?<=")[\w\s'\\.\-@;]+(?=")
    | Word          // \w+
    | TrueWord      // \btrue
    | FalseWord     // \bfalse
    | NullWord      // \bnull
    | OpenBracket   // [
    | CloseBracket  // ]
    | Comma         // ,

  const Alternatives: seq<Alternative> := [
    OpenBrace, CloseBrace, NumberLiteral, Quote, Colon, StringBody, Word,
    TrueWord, FalseWord, NullWord, OpenBracket, CloseBracket, Comma
  ]

  /** `[\w\s'\\.\-@;]`, the characters a string body may hold. */
  predicate IsBodyChar(c: char) {
    IsWordChar(c) || IsJsSpace(c) || c == '\'' || c == '\\' || c == '.' || c == '-' || c == '@' || c == ';'
  }

  /** Length of the maximal run of string-body characters at `k`. */
  function BodyRun(s: string, k: nat): (n: nat)
    requires k <= |s|
    ensures k + n <= |s|
    ensures forall i :: k <= i < k + n ==> IsBodyChar(s[i])
    ensures k + n < |s| ==> !IsBodyChar(s[k + n])
    decreases |s| - k
  {
    if k < |s| && IsBodyChar(s[k]) then 1 + BodyRun(s, k + 1) else 0
  }

  /** Length of the maximal run of word characters at `k`. */
  function WordRun(s: string, k: nat): (n: nat)
    requires k <= |s|
    ensures k + n <= |s|
    ensures forall i :: k <= i < k + n ==> IsWordChar(s[i])
    ensures k + n < |s| ==> !IsWordChar(s[k + n])
    decreases |s| - k
  {
    if k < |s| && IsWordChar(s[k]) then 1 + WordRun(s, k + 1) else 0
  }

  /** The place of an alternative in the order written. */
  function Rank(a: Alternative): (i: nat)
    ensures i < |Alternatives| && Alternatives[i] == a
  {
    match a
    case OpenBrace => 0
    case CloseBrace => 1
    case NumberLiteral => 2
    case Quote => 3
    case Colon => 4
    case StringBody => 5
    case Word => 6
    case TrueWord => 7
    case FalseWord => 8
    case NullWord => 9
    case OpenBracket => 10
    case CloseBracket => 11
    case Comma => 12
  }

  lemma RankPlace(m: nat)
    requires m < |Alternatives|
    ensures Rank(Alternatives[m]) == m
  {
  }

  /** A single character alternative: 1 when `c` stands at `k`. */
  function CharLength(s: string, k: nat, c: char): (n: nat)
    requires k <= |s|
    ensures k + n <= |s|
  {
    if k < |s| && s[k] == c then 1 else 0
  }

  /** `(?<=")[\w\s'\\.\-@;]+(?=")`: the character before `k` is a quote, and the maximal
      run of body characters at `k` is followed by a quote. As the quote is no body
      character, no shorter run is followed by one, so backtracking finds nothing else. */
  function StringBodyLength(s: string, k: nat): (n: nat)
    requires k <= |s|
    ensures k + n <= |s|
  {
    var run := BodyRun(s, k);
    if k >= 1 && s[k - 1] == '"' && run > 0 && k + run < |s| && s[k + run] == '"' then run else 0
  }

  /** `lit` stands in `s` at position `k`. */
  predicate LiteralAt(s: string, k: nat, lit: string)
    decreases lit
  {
    lit == [] || (k < |s| && s[k] == lit[0] && LiteralAt(s, k + 1, lit[1..]))
  }

  lemma {:induction false} LiteralAtFits(s: string, k: nat, lit: string)
    requires k <= |s| && LiteralAt(s, k, lit)
    ensures k + |lit| <= |s|
    ensures forall i :: k <= i < k + |lit| ==> s[i] == lit[i - k]
    decreases lit
  {
    if lit != [] {
      LiteralAtFits(s, k + 1, lit[1..]);
    }
  }

  /** `\b` followed by the word `lit`, which starts with a word character. */
  function ReservedLength(s: string, k: nat, lit: string): (n: nat)
    requires k <= |s|
    ensures k + n <= |s|
  {
    if (k == 0 || !IsWordChar(s[k - 1])) && LiteralAt(s, k, lit) then
      LiteralAtFits(s, k, lit);
      |lit|
    else 0
  }

  /** Length of the match of alternative `a` at position `k`, 0 when it does not match.
      No alternative matches the empty string. */
  function MatchLength(s: string, k: nat, a: Alternative): (n: nat)
    requires k <= |s|
    ensures k + n <= |s|
  {
    match a
    case OpenBrace => CharLength(s, k, '{')
    case CloseBrace => CharLength(s, k, '}')
    case NumberLiteral => NumberLength(s, k)
    case Quote => CharLength(s, k, '"')
    case Colon => CharLength(s, k, ':')
    case StringBody => StringBodyLength(s, k)
    case Word => WordRun(s, k)
    case TrueWord => ReservedLength(s, k, "true")
    case FalseWord => ReservedLength(s, k, "false")
    case NullWord => ReservedLength(s, k, "null")
    case OpenBracket => CharLength(s, k, '[')
    case CloseBracket => CharLength(s, k, ']')
    case Comma => CharLength(s, k, ',')
  }

  /** A token together with where it was found and which alternative produced it. */
  datatype Lexeme = Lexeme(start: nat, text: string, kind: Alternative)

  /** What the scan does at a position: skip it, or take a match of `length` characters. */
  datatype Step = Skip | Take(kind: Alternative, length: nat)

  /** Tries the alternatives from the `m`-th on, in the order written, at position `k`: the
      first that matches gives the step; when none does, the position is skipped. */
  function FirstStep(s: string, k: nat, m: nat): (st: Step)
    requires k <= |s|
    ensures st.Take? ==> 0 < st.length && k + st.length <= |s|
    decreases |Alternatives| - m
  {
    if m >= |Alternatives| then Skip
    else
      var n := MatchLength(s, k, Alternatives[m]);
      if n > 0 then Take(Alternatives[m], n) else FirstStep(s, k, m + 1)
  }

  /** The step the scan takes at `k`. */
  function NextStep(s: string, k: nat): (st: Step)
    requires k <= |s|
    ensures st.Take? ==> 0 < st.length && k + st.length <= |s|
  {
    FirstStep(s, k, 0)
  }

  /** A step that takes a match takes the whole match of an alternative tried from the
      `m`-th on. */
  lemma {:induction false} FirstStepMatches(s: string, k: nat, m: nat)
    requires k <= |s| && FirstStep(s, k, m).Take?
    ensures m <= Rank(FirstStep(s, k, m).kind)
    ensures MatchLength(s, k, FirstStep(s, k, m).kind) == FirstStep(s, k, m).length
    decreases |Alternatives| - m
  {
    if m < |Alternatives| && MatchLength(s, k, Alternatives[m]) == 0 {
      FirstStepMatches(s, k, m + 1);
    }
  }

  /** Every alternative tried before the one the step takes (every one tried, when the step
      skips) fails to match. */
  lemma {:induction false} FirstStepSkipsOnlyFailures(s: string, k: nat, m: nat, b: Alternative)
    requires k <= |s| && m <= Rank(b)
    requires FirstStep(s, k, m).Skip? || Rank(b) < Rank(FirstStep(s, k, m).kind)
    ensures MatchLength(s, k, b) == 0
    decreases |Alternatives| - m
  {
    RankPlace(m);
    if m < Rank(b) {
      FirstStepSkipsOnlyFailures(s, k, m + 1, b);
    } else {
      assert Alternatives[m] == b;
    }
  }

  /** The step at `k` takes the first alternative, in the order written, that matches, and
      the whole of its match; it skips exactly when no alternative matches. */
  lemma NextStepIsFirstMatch(s: string, k: nat, b: Alternative)
    requires k <= |s|
    ensures NextStep(s, k).Take? ==> MatchLength(s, k, NextStep(s, k).kind) == NextStep(s, k).length
    ensures NextStep(s, k).Take? && Rank(b) < Rank(NextStep(s, k).kind) ==> MatchLength(s, k, b) == 0
    ensures NextStep(s, k).Skip? <==> forall c :: MatchLength(s, k, c) == 0
  {
    if NextStep(s, k).Take? {
      FirstStepMatches(s, k, 0);
      if Rank(b) < Rank(NextStep(s, k).kind) {
        FirstStepSkipsOnlyFailures(s, k, 0, b);
      }
    } else {
      forall c ensures MatchLength(s, k, c) == 0 {
        FirstStepSkipsOnlyFailures(s, k, 0, c);
      }
    }
  }

  /** The steps the scan may take are the step at each position of `s`, and each step that
      takes a match stays inside `s`. */
  predicate StepsFit(s: string, steps: seq<Step>) {
    && |steps| == |s|
    && forall k :: 0 <= k < |steps| && steps[k].Take? ==> 0 < steps[k].length && k + steps[k].length <= |s|
  }

  /** The step of the regular expression at every position of `s`. */
  function Steps(s: string): (steps: seq<Step>)
    ensures StepsFit(s, steps)
    ensures forall k :: 0 <= k < |s| ==> steps[k] == NextStep(s, k)
  {
    seq(|s|, k requires 0 <= k < |s| => NextStep(s, k))
  }

  /** The lexemes of `s` from position `k` on, following `steps`: a step either skips a
      position or takes the next lexeme and resumes after it. */
  function ScanFrom(s: string, steps: seq<Step>, k: nat): (r: seq<Lexeme>)
    requires StepsFit(s, steps) && k <= |s|
    decreases |s| - k
  {
    if k == |s| then []
    else
      match steps[k]
      case Skip => ScanFrom(s, steps, k + 1)
      case Take(kind, n) => [Lexeme(k, s[k..k + n], kind)] + ScanFrom(s, steps, k + n)
  }

  /** The lexemes of `s` as the global regular expression finds them. */
  function Lexemes(s: string): seq<Lexeme> {
    ScanFrom(s, Steps(s), 0)
  }

  function Texts(lexemes: seq<Lexeme>): (ts: seq<string>)
    ensures |ts| == |lexemes|
    ensures forall i :: 0 <= i < |lexemes| ==> ts[i] == lexemes[i].text
  {
    if lexemes == [] then [] else [lexemes[0].text] + Texts(lexemes[1..])
  }

  /** `jsonString.match(regex)` (main.js line 6). */
  function Tokenize(s: string): seq<string> {
    Texts(Lexemes(s))
  }

  /** Lexeme `l` is a non-empty substring of `s` found at or after position `k`. */
  predicate FoundInInput(s: string, k: nat, l: Lexeme) {
    k <= l.start && l.start + |l.text| <= |s| && |l.text| > 0 && l.text == s[l.start..l.start + |l.text|]
  }

  /** The lexemes of `r` are substrings of `s`, the first at or after `k` and each of the
      others at or after the end of the one before. */
  predicate LeftToRight(s: string, k: nat, r: seq<Lexeme>)
    decreases r
  {
    r == [] || (FoundInInput(s, k, r[0]) && LeftToRight(s, r[0].start + |r[0].text|, r[1..]))
  }

  lemma LeftToRightFromEarlier(s: string, k: nat, k': nat, r: seq<Lexeme>)
    requires k <= k' && LeftToRight(s, k', r)
    ensures LeftToRight(s, k, r)
  {
  }

  /** What LeftToRight means lexeme by lexeme: each is a non-empty substring of `s` at or
      after `k`, and each ends before the next begins. */
  lemma {:induction false} LeftToRightMeans(s: string, k: nat, r: seq<Lexeme>, i: nat, j: nat)
    requires LeftToRight(s, k, r) && i < |r|
    ensures FoundInInput(s, k, r[i])
    ensures i < j < |r| ==> r[i].start + |r[i].text| <= r[j].start
    decreases r
  {
    var e := r[0].start + |r[0].text|;
    if i > 0 {
      LeftToRightMeans(s, e, r[1..], i - 1, if j > 0 then j - 1 else 0);
      assert r[1..][i - 1] == r[i];
      assert i < j < |r| ==> r[1..][j - 1] == r[j];
    } else if 0 < j < |r| {
      LeftToRightMeans(s, e, r[1..], j - 1, j - 1);
      assert r[1..][j - 1] == r[j];
    }
  }

  /** Whatever the steps, the scan gives non-empty substrings of the input left to right. */
  lemma {:induction false} ScanInOrder(s: string, steps: seq<Step>, k: nat)
    requires StepsFit(s, steps) && k <= |s|
    ensures LeftToRight(s, k, ScanFrom(s, steps, k))
    decreases |s| - k
  {
    if k < |s| {
      match steps[k]
      case Skip =>
        ScanInOrder(s, steps, k + 1);
        LeftToRightFromEarlier(s, k, k + 1, ScanFrom(s, steps, k + 1));
      case Take(kind, n) =>
        ScanInOrder(s, steps, k + n);
    }
  }

  /** The lexemes are non-empty substrings of the input, taken left to right without
      overlap (spelled out by LeftToRightMeans). */
  lemma LexemesInOrder(s: string)
    ensures LeftToRight(s, 0, Lexemes(s))
  {
    ScanInOrder(s, Steps(s), 0);
  }

  /** Each lexeme of a scan is the step taken at its start. */
  lemma {:induction false} ScanFollowsSteps(s: string, steps: seq<Step>, k: nat, i: nat)
    requires StepsFit(s, steps) && k <= |s| && i < |ScanFrom(s, steps, k)|
    ensures var l := ScanFrom(s, steps, k)[i];
      k <= l.start < |s| && steps[l.start] == Take(l.kind, |l.text|)
    decreases |s| - k
  {
    var r := ScanFrom(s, steps, k);
    match steps[k]
    case Skip =>
      ScanFollowsSteps(s, steps, k + 1, i);
    case Take(kind, n) =>
      var rest := ScanFrom(s, steps, k + n);
      if i > 0 {
        assert r[i] == rest[i - 1];
        ScanFollowsSteps(s, steps, k + n, i - 1);
      } else {
        assert r[0] == Lexeme(k, s[k..k + n], kind);
      }
  }

  /** Each lexeme comes from the first alternative, in the order written, that matches at
      its start, and its text is that alternative's whole match: the step NextStep takes,
      as NextStepIsFirstMatch spells out. */
  lemma LexemeIsFirstMatch(s: string, i: nat)
    requires i < |Lexemes(s)|
    ensures var l := Lexemes(s)[i];
      l.start < |s| && NextStep(s, l.start) == Take(l.kind, |l.text|)
  {
    ScanFollowsSteps(s, Steps(s), 0, i);
  }

  /** No lexeme of `r` covers position `j`. */
  predicate Uncovered(r: seq<Lexeme>, j: nat) {
    forall i :: 0 <= i < |r| ==> !(r[i].start <= j < r[i].start + |r[i].text|)
  }

  lemma UncoveredTail(l: Lexeme, rest: seq<Lexeme>, j: nat)
    requires Uncovered([l] + rest, j)
    ensures Uncovered(rest, j) && !(l.start <= j < l.start + |l.text|)
  {
    var r := [l] + rest;
    assert r[0] == l;
    assert forall i :: 0 <= i < |rest| ==> rest[i] == r[i + 1];
  }

  /** A position that lies inside no lexeme of a scan is one where the steps skip. */
  lemma {:induction false} ScanSkipsUncovered(s: string, steps: seq<Step>, k: nat, j: nat)
    requires StepsFit(s, steps) && k <= j < |s| && Uncovered(ScanFrom(s, steps, k), j)
    ensures steps[j].Skip?
    decreases |s| - k
  {
    match steps[k]
    case Skip =>
      if k < j {
        ScanSkipsUncovered(s, steps, k + 1, j);
      }
    case Take(kind, n) =>
      UncoveredTail(Lexeme(k, s[k..k + n], kind), ScanFrom(s, steps, k + n), j);
      ScanSkipsUncovered(s, steps, k + n, j);
  }

  /** A character that lies inside no lexeme is one where no alternative matches. */
  lemma SkippedCharactersMatchNothing(s: string, j: nat, b: Alternative)
    requires j < |s| && Uncovered(Lexemes(s), j)
    ensures MatchLength(s, j, b) == 0
  {
    ScanSkipsUncovered(s, Steps(s), 0, j);
    NextStepIsFirstMatch(s, j, b);
  }

  /** A scan reaches position `j` when no step before it jumps over it; it then takes the
      step at `j` as a lexeme of length one. */
  lemma {:induction false} ScanReaches(s: string, steps: seq<Step>, k: nat, j: nat)
    requires StepsFit(s, steps) && k <= j < |s|
    requires steps[j].Take? && steps[j].length == 1
    requires forall p :: k <= p < j && steps[p].Take? ==> p + steps[p].length <= j
    ensures exists i :: 0 <= i < |ScanFrom(s, steps, k)| && ScanFrom(s, steps, k)[i].start == j && ScanFrom(s, steps, k)[i].text == [s[j]]
    decreases |s| - k
  {
    var r := ScanFrom(s, steps, k);
    if k == j {
      assert r[0].start == j && r[0].text == s[j..j + 1] == [s[j]];
    } else {
      match steps[k]
      case Skip =>
        ScanReaches(s, steps, k + 1, j);
      case Take(kind, n) =>
        assert k + n <= j;
        ScanReaches(s, steps, k + n, j);
        var i :| 0 <= i < |ScanFrom(s, steps, k + n)| && ScanFrom(s, steps, k + n)[i].start == j && ScanFrom(s, steps, k + n)[i].text == [s[j]];
        assert r[i + 1] == ScanFrom(s, steps, k + n)[i];
    }
  }

  /** No match reaches past its first character onto a structural character. */
  lemma MatchInterior(s: string, k: nat, a: Alternative)
    requires k <= |s|
    ensures forall i :: k < i < k + MatchLength(s, k, a) ==> !IsPunctuation(s[i])
  {
    match a
    case NumberLiteral =>
      if NumberLength(s, k) > 0 {
        NumberMatchShape(s, k);
      }
    case TrueWord =>
      if ReservedLength(s, k, "true") > 0 {
        LiteralAtFits(s, k, "true");
      }
    case FalseWord =>
      if ReservedLength(s, k, "false") > 0 {
        LiteralAtFits(s, k, "false");
      }
    case NullWord =>
      if ReservedLength(s, k, "null") > 0 {
        LiteralAtFits(s, k, "null");
      }
    case _ =>
  }

  /** At a structural character no alternative matches more than that one character. */
  lemma AtPunctuationMatchesAtMostOne(s: string, j: nat, y: Alternative)
    requires j < |s| && IsPunctuation(s[j])
    ensures MatchLength(s, j, y) <= 1
  {
    match y
    case NumberLiteral => NumberMatchesIff(s, j);
    case StringBody => assert BodyRun(s, j) == 0;
    case Word => assert WordRun(s, j) == 0;
    case _ =>
  }

  /** At a structural character the scan takes that one character. */
  lemma PunctuationStep(s: string, j: nat)
    requires j < |s| && IsPunctuation(s[j])
    ensures NextStep(s, j).Take? && NextStep(s, j).length == 1
  {
    var c := s[j];
    var x := if c == '{' then OpenBrace else if c == '}' then CloseBrace else if c == '"' then Quote
      else if c == ':' then Colon else if c == '[' then OpenBracket else if c == ']' then CloseBracket
      else Comma;
    NextStepIsFirstMatch(s, j, x);
    assert MatchLength(s, j, x) == 1;
    if NextStep(s, j).Take? {
      AtPunctuationMatchesAtMostOne(s, j, NextStep(s, j).kind);
    }
  }

  /** A lexeme that starts before a structural character ends at it at the latest. */
  lemma TakeStopsAtPunctuation(s: string, k: nat, j: nat)
    requires k < j < |s| && IsPunctuation(s[j]) && NextStep(s, k).Take?
    ensures k + NextStep(s, k).length <= j
  {
    NextStepIsFirstMatch(s, k, NextStep(s, k).kind);
    MatchInterior(s, k, NextStep(s, k).kind);
  }

  /** Each of { } [ ] : , and " in the input becomes a one-character token of its own. */
  lemma PunctuationIsOwnToken(s: string, j: nat)
    requires j < |s| && IsPunctuation(s[j])
    ensures exists i :: 0 <= i < |Lexemes(s)| && Lexemes(s)[i].start == j && Lexemes(s)[i].text == [s[j]]
  {
    var steps := Steps(s);
    PunctuationStep(s, j);
    forall p | 0 <= p < j && steps[p].Take?
      ensures p + steps[p].length <= j
    {
      TakeStopsAtPunctuation(s, p, j);
    }
    ScanReaches(s, steps, 0, j);
    var r := ScanFrom(s, steps, 0);
    assert r == Lexemes(s);
    var i :| 0 <= i < |r| && r[i].start == j && r[i].text == [s[j]];
  }

  /** Wherever `\btrue`, `\bfalse` or `\bnull` matches, the earlier alternative `\w+`
      matches too. */
  lemma ReservedMatchIsWord(s: string, k: nat, lit: string)
    requires k <= |s| && lit != [] && IsWordChar(lit[0]) && ReservedLength(s, k, lit) > 0
    ensures WordRun(s, k) > 0
  {
    assert s[k] == lit[0];
  }

  /** `\btrue`, `\bfalse` and `\bnull` never give a step of the scan. */
  lemma ReservedNeverStep(s: string, k: nat)
    requires k <= |s|
    ensures NextStep(s, k).Take? ==> NextStep(s, k).kind !in {TrueWord, FalseWord, NullWord}
  {
    var st := NextStep(s, k);
    if st.Take? && st.kind in {TrueWord, FalseWord, NullWord} {
      NextStepIsFirstMatch(s, k, Word);
      var lit := if st.kind == TrueWord then "true" else if st.kind == FalseWord then "false" else "null";
      ReservedMatchIsWord(s, k, lit);
    }
  }

  /** No token ever comes from `\btrue`, `\bfalse` or `\bnull`: the literals true, false
      and null are found by `\w+`. */
  lemma ReservedWordsShadowed(s: string, i: nat)
    requires i < |Lexemes(s)|
    ensures Lexemes(s)[i].kind !in {TrueWord, FalseWord, NullWord}
  {
    LexemeIsFirstMatch(s, i);
    ReservedNeverStep(s, Lexemes(s)[i].start);
  }
}
