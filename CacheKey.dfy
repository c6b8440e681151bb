/** Cache keys of the translation cache: `translation_<lang>_<hash>`, where
    `<hash>` is the absolute value of a 32-bit rolling hash of the text's
    UTF-16 code units, written in base 36. */
module CacheKey {
  import opened JsStrings

  const TWO_32: int := 0x1_0000_0000
  const TWO_31: int := 0x8000_0000

  /** The ECMAScript ToInt32 conversion: wrap to a signed 32-bit integer. */
  function ToInt32(x: int): (r: int)
    ensures -TWO_31 <= r < TWO_31
  {
    var m := x % TWO_32;
    if m >= TWO_31 then m - TWO_32 else m
  }

  /** One step of the loop: `hash = ((hash << 5) - hash) + char; hash = hash & hash`.
      The shift converts to 32 bits before multiplying by 32; the bitwise `&`
      converts the sum back to 32 bits. */
  function HashStep(hash: int, unit: int): int
  {
    ToInt32(ToInt32(hash * 32) - hash + unit)
  }

  /** The hash after folding over all code units, starting from 0. */
  function HashUnits(units: seq<int>): int
  {
    if units == [] then 0
    else HashStep(HashUnits(units[..|units| - 1]), units[|units| - 1])
  }

  /** The signed 32-bit hash of a string. */
  function Hash(s: string): int
  {
    HashUnits(CodeUnits(s))
  }

  /** `Math.abs(hash).toString(36)`. */
  function HashDigits(s: string): string
  {
    var h := Hash(s);
    ToRadix(if h < 0 then -h else h, 36)
  }

  const KEY_PREFIX: string := "translation_"

  /** `getCacheKey`: the storage key under which the translation of `text`
      into `targetLang` is kept. */
  function CacheKeyOf(text: string, targetLang: string): string
  {
    KEY_PREFIX + targetLang + "_" + HashDigits(text)
  }

  /** `hashString`: the loop over the code units of `s`. */
  method HashString(s: string) returns (digits: string)
    ensures digits == HashDigits(s)
  {
    var units := CodeUnits(s);
    var hash := 0;
    for i := 0 to |units|
      invariant hash == HashUnits(units[..i])
    {
      assert units[..i + 1][..i] == units[..i];
      var shifted := ToInt32(hash * 32);
      hash := shifted - hash + units[i];
      hash := ToInt32(hash);
    }
    assert units[..|units|] == units;
    var magnitude := if hash < 0 then -hash else hash;
    digits := ToRadix(magnitude, 36);
  }

  // ---------------------------------------------------------------------
  // Properties
  // ---------------------------------------------------------------------

  lemma ToInt32Offset(x: int) returns (k: int)
    ensures ToInt32(x) == x + k * TWO_32
  {
    var q := x / TWO_32;
    assert x == q * TWO_32 + x % TWO_32;
    if x % TWO_32 >= TWO_31 {
      k := -q - 1;
    } else {
      k := -q;
    }
  }

  lemma ToInt32Shift(x: int, k: int)
    ensures ToInt32(x + k * TWO_32) == ToInt32(x)
  {
    var q := x / TWO_32;
    var m := x % TWO_32;
    assert x + k * TWO_32 == (q + k) * TWO_32 + m;
    assert (x + k * TWO_32) % TWO_32 == m;
  }

  /** Wrapping the intermediate result does not change the final wrap. */
  lemma ToInt32Inner(x: int, y: int)
    ensures ToInt32(ToInt32(x) + y) == ToInt32(x + y)
  {
    var k := ToInt32Offset(x);
    assert ToInt32(x) + y == (x + y) + k * TWO_32;
    ToInt32Shift(x + y, k);
  }

  /** Each step computes `int32(31 * hash + unit)`. */
  lemma HashStepIsInt32Polynomial(hash: int, unit: int)
    ensures HashStep(hash, unit) == ToInt32(31 * hash + unit)
  {
    ToInt32Inner(hash * 32, -hash + unit);
  }

  /** The unwrapped polynomial hash `sum units[i] * 31^(n-1-i)`, computed by Horner's rule. */
  function Polynomial(units: seq<int>): int
  {
    if units == [] then 0
    else 31 * Polynomial(units[..|units| - 1]) + units[|units| - 1]
  }

  /** Reference definition: the rolling hash is the 32-bit wrap of the exact
      polynomial hash, so intermediate wrapping never loses information that
      the final wrap would keep. */
  lemma {:induction false} HashIsWrappedPolynomial(units: seq<int>)
    ensures HashUnits(units) == ToInt32(Polynomial(units))
  {
    if units == [] {
      assert ToInt32(0) == 0;
    } else {
      var front := units[..|units| - 1];
      var last := units[|units| - 1];
      HashIsWrappedPolynomial(front);
      HashStepIsInt32Polynomial(HashUnits(front), last);
      var k := ToInt32Offset(Polynomial(front));
      assert 31 * HashUnits(front) + last == 31 * Polynomial(front) + last + (31 * k) * TWO_32;
      ToInt32Shift(31 * Polynomial(front) + last, 31 * k);
    }
  }

  /** The hash digits are a base-36 numeral of at most 2^31, with no sign. */
  lemma HashDigitsDecode(s: string)
    ensures FromRadix(HashDigits(s), 36) <= TWO_31
    ensures forall i :: 0 <= i < |HashDigits(s)| ==> DigitValue(HashDigits(s)[i]) < 36
  {
    var h := Hash(s);
    FromToRadix(if h < 0 then -h else h, 36);
  }

  /** The key starts with `translation_<lang>_` and ends with the hash digits,
      which read back as the absolute hash. */
  lemma CacheKeyShape(text: string, lang: string)
    ensures StartsWith(CacheKeyOf(text, lang), KEY_PREFIX + lang + "_")
    ensures var key := CacheKeyOf(text, lang);
            var digits := key[|KEY_PREFIX| + |lang| + 1..];
            FromRadix(digits, 36) == (if Hash(text) < 0 then -Hash(text) else Hash(text))
  {
    var key := CacheKeyOf(text, lang);
    assert key[..|KEY_PREFIX + lang + "_"|] == KEY_PREFIX + lang + "_";
    assert key[|KEY_PREFIX| + |lang| + 1..] == HashDigits(text);
    var h := Hash(text);
    FromToRadix(if h < 0 then -h else h, 36);
  }

  /** Texts whose hashes differ in absolute value get different keys; keys of
      two languages of the same length never collide. */
  lemma CacheKeySeparates(t1: string, l1: string, t2: string, l2: string)
    requires |l1| == |l2|
    requires CacheKeyOf(t1, l1) == CacheKeyOf(t2, l2)
    ensures l1 == l2
    ensures HashDigits(t1) == HashDigits(t2)
  {
    var k := CacheKeyOf(t1, l1);
    assert k[|KEY_PREFIX|..|KEY_PREFIX| + |l1|] == l1;
    assert CacheKeyOf(t2, l2)[|KEY_PREFIX|..|KEY_PREFIX| + |l2|] == l2;
    assert k[|KEY_PREFIX| + |l1| + 1..] == HashDigits(t1);
    assert CacheKeyOf(t2, l2)[|KEY_PREFIX| + |l2| + 1..] == HashDigits(t2);
  }
}
