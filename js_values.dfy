/**
 * Loosely typed JavaScript values as the carousel's option layers carry them,
 * and the two coercions the option resolver applies to them: `Number(value)`
 * restricted to finite results, and the boolean-like parse of `toBoolean`.
 */
module JsValues {

  datatype Option<+T> = None | Some(value: T)

  /** A JavaScript value. `Num` holds a finite number; `NonFinite` stands for
      NaN, Infinity and -Infinity, which `Number.isFinite` rejects. */
  datatype JsValue = Undef | Null | Bool(b: bool) | Num(n: real) | NonFinite | Str(s: string)

  /** The host's `Number(string)` grammar: `Some(n)` for a string that
      `Number` turns into the finite number `n`, `None` for one it turns into
      NaN or an infinity. The grammar itself is not part of this model. */
  type NumberParser = string -> Option<real>

  /** `Number(v)` when the result is finite, `None` when `Number.isFinite`
      would reject it. This is also `toNumber(v, null)`, with `None` for null. */
  function FiniteNumber(v: JsValue, parse: NumberParser): (r: Option<real>)
    ensures v.Undef? || v.NonFinite? ==> r.None?
    ensures v.Null? ==> r == Some(0.0)
    ensures v.Bool? ==> r == Some(if v.b then 1.0 else 0.0)
    ensures v.Num? ==> r == Some(v.n)
    ensures v.Str? ==> r == parse(v.s)
  {
    match v
    case Undef => None
    case Null => Some(0.0)
    case Bool(b) => if b then Some(1.0) else Some(0.0)
    case Num(n) => Some(n)
    case NonFinite => None
    case Str(s) => parse(s)
  }

  /** `toNumber(value, fallback)`: the finite number `value` denotes, else the
      fallback. */
  function ToNumber(v: JsValue, fallback: real, parse: NumberParser): (r: real)
    ensures FiniteNumber(v, parse).None? ==> r == fallback
    ensures FiniteNumber(v, parse).Some? ==> r == FiniteNumber(v, parse).value
  {
    match FiniteNumber(v, parse)
    case Some(n) => n
    case None => fallback
  }

  function LowerChar(c: char): char {
    if 'A' <= c <= 'Z' then (c as int + 32) as char else c
  }

  function UpperChar(c: char): char {
    if 'a' <= c <= 'z' then (c as int - 32) as char else c
  }

  /** `String.prototype.toLowerCase`, on the ASCII letters: each capital
      becomes its small letter, every other character is kept. */
  function AsciiLower(s: string): (r: string)
    ensures |r| == |s|
    ensures forall i :: 0 <= i < |s| ==> r[i] == LowerChar(s[i])
    ensures forall i :: 0 <= i < |r| ==> !('A' <= r[i] <= 'Z')
  {
    if s == [] then [] else [LowerChar(s[0])] + AsciiLower(s[1..])
  }

  predicate IsLowerWord(w: string) {
    forall i :: 0 <= i < |w| ==> 'a' <= w[i] <= 'z'
  }

  /** `s` spells `word` with any mix of upper- and lower-case letters. */
  predicate EqualsIgnoringCase(s: string, word: string) {
    |s| == |word| && forall i :: 0 <= i < |s| ==> s[i] == word[i] || s[i] == UpperChar(word[i])
  }

  /** Lower-casing a string yields a lower-case word exactly when the string
      spells that word in any case. */
  lemma {:induction false} LowerMatchesWord(s: string, word: string)
    requires IsLowerWord(word)
    ensures AsciiLower(s) == word <==> EqualsIgnoringCase(s, word)
  {
    if s != [] && word != [] {
      LowerMatchesWord(s[1..], word[1..]);
      assert AsciiLower(s) == [LowerChar(s[0])] + AsciiLower(s[1..]);
      assert word == [word[0]] + word[1..];
      if EqualsIgnoringCase(s, word) {
        assert EqualsIgnoringCase(s[1..], word[1..]) by {
          forall i | 0 <= i < |s| - 1
            ensures s[1..][i] == word[1..][i] || s[1..][i] == UpperChar(word[1..][i])
          {
            assert s[1..][i] == s[i + 1];
          }
        }
      }
      if AsciiLower(s) == word {
        assert LowerChar(s[0]) == word[0];
        assert EqualsIgnoringCase(s[1..], word[1..]);
        forall i | 0 <= i < |s|
          ensures s[i] == word[i] || s[i] == UpperChar(word[i])
        {
          if i > 0 {
            assert s[1..][i - 1] == s[i];
          }
        }
      }
    }
  }

  /** `toBoolean(value, fallback)`: real booleans pass through, the strings
      "true" and "false" in any case map to their value, and everything else
      (undefined, null, "", any other string, numbers) gives the fallback. A
      number's decimal rendering never spells "true" or "false". */
  function ToBoolean(v: JsValue, fallback: bool): (r: bool)
    ensures v.Bool? ==> r == v.b
    ensures v.Str? && EqualsIgnoringCase(v.s, "true") ==> r
    ensures v.Str? && EqualsIgnoringCase(v.s, "false") ==> !r
    ensures r != fallback ==>
              v.Bool? || (v.Str? && (EqualsIgnoringCase(v.s, "true") || EqualsIgnoringCase(v.s, "false")))
  {
    match v
    case Undef => fallback
    case Null => fallback
    case Bool(b) => b
    case Str(s) =>
      LowerMatchesWord(s, "true");
      LowerMatchesWord(s, "false");
      if s == "" then fallback
      else
        var normalized := AsciiLower(s);
        if normalized == "true" then true
        else if normalized == "false" then false
        else fallback
    case Num(_) => fallback
    case NonFinite => fallback
  }
}
