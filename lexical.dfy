/** Character classes of the tokenizer's regular expression (main.js line 4) and of
    isNumber (main.js line 15), and the length of a match of the number pattern
    `-?\d+(?:\.\d*)?(?:[eE][+-]?\d+)?` at a position of a string. */
module Lexical {

  /** `\d` */
  predicate IsDigit(c: char) {
    '0' <= c <= '9'
  }

  /** `\w`: ASCII letters, digits and the underscore. */
  predicate IsWordChar(c: char) {
    'a' <= c <= 'z' || 'A' <= c <= 'Z' || IsDigit(c) || c == '_'
  }

  /** `\s`: the white space and line terminators of JavaScript. The same set is what
      Number.parseInt trims from the front of its argument. */
  predicate IsJsSpace(c: char) {
    c == '\t' || c == '\n' || c == '\U{B}' || c == '\U{C}' || c == '\r' || c == ' '
    || c == '\U{A0}' || c == '\U{1680}' || ('\U{2000}' <= c <= '\U{200A}')
    || c == '\U{2028}' || c == '\U{2029}' || c == '\U{202F}' || c == '\U{205F}'
    || c == '\U{3000}' || c == '\U{FEFF}'
  }

  /** The structural characters, each of which the tokenizer emits as a token of its own. */
  predicate IsPunctuation(c: char) {
    c == '{' || c == '}' || c == '[' || c == ']' || c == ':' || c == ',' || c == '"'
  }

  /** Length of the maximal run of decimal digits of `s` starting at `k`. */
  function DigitRun(s: string, k: nat): (n: nat)
    requires k <= |s|
    ensures k + n <= |s|
    ensures forall i :: k <= i < k + n ==> IsDigit(s[i])
    ensures k + n < |s| ==> !IsDigit(s[k + n])
    decreases |s| - k
  {
    if k < |s| && IsDigit(s[k]) then 1 + DigitRun(s, k + 1) else 0
  }

  /** Length of the optional exponent part `[eE][+-]?\d+` at `k` (0 when absent). */
  function ExponentLength(s: string, k: nat): (n: nat)
    requires k <= |s|
    ensures k + n <= |s|
  {
    if k < |s| && (s[k] == 'e' || s[k] == 'E') then
      if k + 1 < |s| && (s[k + 1] == '+' || s[k + 1] == '-') && DigitRun(s, k + 2) > 0 then
        2 + DigitRun(s, k + 2)
      else if DigitRun(s, k + 1) > 0 then
        1 + DigitRun(s, k + 1)
      else
        0
    else
      0
  }

  /** Length of the match of the number pattern at `k`, or 0 when it does not match there.
      Every part but `\d+` is optional, and the pattern is greedy: an optional `-`, the
      maximal digit run, then `.` and digits when present, then an exponent when present. */
  function NumberLength(s: string, k: nat): (n: nat)
    requires k <= |s|
    ensures k + n <= |s|
  {
    var sign := if k < |s| && s[k] == '-' then 1 else 0;
    var digits := DigitRun(s, k + sign);
    if digits == 0 then 0
    else
      var p := k + sign + digits;
      var fraction := FractionLength(s, p);
      sign + digits + fraction + ExponentLength(s, p + fraction)
  }

  /** The characters the number pattern is made of. */
  predicate IsNumberChar(c: char) {
    IsDigit(c) || c == '-' || c == '+' || c == '.' || c == 'e' || c == 'E'
  }

  lemma ExponentChars(s: string, k: nat)
    requires k <= |s|
    ensures forall i :: k <= i < k + ExponentLength(s, k) ==> IsNumberChar(s[i])
  {
    if k < |s| && (s[k] == 'e' || s[k] == 'E') {
      var _ := DigitRun(s, k + 1);
      if k + 1 < |s| {
        var _ := DigitRun(s, k + 2);
      }
    }
  }

  /** The optional fraction `\.\d*` at `p`: its length, 0 when absent. */
  function FractionLength(s: string, p: nat): (n: nat)
    requires p <= |s|
    ensures p + n <= |s|
    ensures forall i :: p <= i < p + n ==> IsNumberChar(s[i])
  {
    if p < |s| && s[p] == '.' then 1 + DigitRun(s, p + 1) else 0
  }

  /** Every character of a number match is a number character. */
  lemma NumberChars(s: string, k: nat)
    requires k <= |s|
    ensures forall i :: k <= i < k + NumberLength(s, k) ==> IsNumberChar(s[i])
  {
    var sign := if k < |s| && s[k] == '-' then 1 else 0;
    var digits := DigitRun(s, k + sign);
    if digits > 0 {
      var p := k + sign + digits;
      var fraction := FractionLength(s, p);
      var q := p + fraction;
      ExponentChars(s, q);
      assert NumberLength(s, k) == sign + digits + fraction + ExponentLength(s, q);
      forall i | k <= i < q + ExponentLength(s, q)
        ensures IsNumberChar(s[i])
      {
        if i < k + sign {
          assert s[i] == '-';
        } else if i < p {
          assert IsDigit(s[i]);
        }
      }
    }
  }

  /** A number match holds a digit at its start or right after its minus sign, and it
      contains no structural character. */
  lemma NumberMatchShape(s: string, k: nat)
    requires k <= |s| && NumberLength(s, k) > 0
    ensures IsDigit(s[k]) || (s[k] == '-' && k + 1 < |s| && IsDigit(s[k + 1]))
    ensures forall i :: k <= i < k + NumberLength(s, k) ==> !IsPunctuation(s[i])
  {
    NumberChars(s, k);
  }

  /** The number pattern matches at `k` exactly when a digit stands at `k`, or a minus
      sign at `k` is followed by a digit. */
  lemma NumberMatchesIff(s: string, k: nat)
    requires k < |s|
    ensures NumberLength(s, k) > 0 <==> IsDigit(s[k]) || (s[k] == '-' && k + 1 < |s| && IsDigit(s[k + 1]))
  {
    if NumberLength(s, k) > 0 {
      NumberMatchShape(s, k);
    }
  }
}
