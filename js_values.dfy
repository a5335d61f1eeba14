/** The JavaScript values a request body can carry into the models, and the
    few JavaScript and Oracle conversions the models rely on. */
module JsValues {

  /** A primitive JavaScript value; `Undefined` is an absent property.
      Numbers are exact reals (no NaN, no infinities). */
  datatype JsValue = Undefined | Null | Bool(b: bool) | Num(n: real) | Str(s: string)

  /** JavaScript truthiness: `false`, `0`, `""`, `null` and `undefined` are falsy. */
  predicate Truthy(v: JsValue) {
    match v
    case Undefined => false
    case Null => false
    case Bool(b) => b
    case Num(n) => n != 0.0
    case Str(s) => s != ""
  }

  /** `Number.isInteger(v)`. */
  predicate IsInteger(v: JsValue) {
    v.Num? && v.n.Floor as real == v.n
  }

  /** `typeof v === 'number'`. */
  predicate IsNumber(v: JsValue) {
    v.Num?
  }

  /** The integer an integral number denotes. */
  function IntegerOf(v: JsValue): (i: int)
    requires IsInteger(v)
    ensures i as real == v.n
  {
    v.n.Floor
  }

  /** The UTF-16 code units one character takes: two above U+FFFF. */
  function Utf16Units(c: char): nat {
    if c as int > 0xFFFF then 2 else 1
  }

  /** `s.length`: JavaScript counts UTF-16 code units, so a character
      above U+FFFF counts twice. */
  function Utf16Length(s: string): (n: nat)
    ensures |s| <= n <= 2 * |s|
  {
    if s == [] then 0 else Utf16Units(s[0]) + Utf16Length(s[1..])
  }

  /** `.length` agrees with the number of characters exactly when no
      character lies above U+FFFF. */
  lemma {:induction false} Utf16LengthIsCharCount(s: string)
    ensures Utf16Length(s) == |s| <==> forall i :: 0 <= i < |s| ==> s[i] as int <= 0xFFFF
  {
    if s != [] {
      Utf16LengthIsCharCount(s[1..]);
      assert forall i :: 1 <= i < |s| ==> s[i] == s[1..][i - 1];
    }
  }

  /** Text made only of characters above U+FFFF is twice as long to
      JavaScript as it has characters. */
  lemma {:induction false} AstralTextCountsTwice(s: string)
    requires forall i :: 0 <= i < |s| ==> s[i] as int > 0xFFFF
    ensures Utf16Length(s) == 2 * |s|
  {
    if s != [] {
      assert forall i :: 0 <= i < |s| - 1 ==> s[1..][i] == s[i + 1];
      AstralTextCountsTwice(s[1..]);
    }
  }

  /** The value an Oracle INTEGER column stores for a bound number: the
      nearest integer, with halves rounded away from zero. */
  function OracleRound(r: real): (i: int)
    ensures r - 0.5 <= i as real <= r + 0.5
    ensures i as real == r - 0.5 ==> r < 0.0
    ensures i as real == r + 0.5 ==> r > 0.0
  {
    if r >= 0.0 then (r + 0.5).Floor else -((0.5 - r).Floor)
  }

  lemma OracleRoundKeepsIntegers(v: JsValue)
    requires IsInteger(v)
    ensures OracleRound(v.n) == IntegerOf(v)
  {
  }
}
